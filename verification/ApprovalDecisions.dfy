/**
  Approval clicks and the write-once decision table that gates a real cluster write
  (app/api/discord_interactions.py).

  Any number of clicks interleave.  A click passes its gates, the click limiter among them, records
  a decision in one INSERT under UNIQUE(incident_id, intent_signature) or learns the one that is
  there, and only then may dispatch.  The queue or the background launch can fail at that point.
*/
module ApprovalDecisions {
  import opened Common
  import ClickLimiter

  // ---- who may click --------------------------------------------------------------------

  datatype Reason = OkUser | OkRole | NoApproversConfigured | NotInWhitelist

  datatype Whitelist = Whitelist(users: set<string>, roles: set<string>)

  /** `_is_authorized_approver`: fail closed when nobody is listed. */
  function IsAuthorizedApprover(w: Whitelist, user: string, roles: set<string>): (r: (bool, Reason))
    ensures r.0 <==> (user != "" && user in w.users) || roles * w.roles != {}
    ensures w.users == {} && w.roles == {} ==> r == (false, NoApproversConfigured)
  {
    if w.users == {} && w.roles == {} then (false, NoApproversConfigured)
    else if user != "" && user in w.users then (true, OkUser)
    else if roles * w.roles != {} then (true, OkRole)
    else (false, NotInWhitelist)
  }

  // ---- the decision table ------------------------------------------------------------------

  datatype Verdict = Approved | Declined

  /** An incident and the signature of the proposed command. */
  datatype Action = Action(incident: string, signature: string)

  datatype Decision = Decision(status: Verdict, decidedBy: string)

  type Table = map<Action, Decision>

  /** The decision that stands after an attempt to record one, and whether it was there before. */
  function Record(t: Table, a: Action, d: Decision): (Table, Decision, bool) {
    if a in t then (t, t[a], true) else (t[a := d], d, false)
  }

  class ActionApprovals {
    var rows: Table

    constructor ()
      ensures rows == map[]
    {
      rows := map[];
    }

    /** `_record_decision`: INSERT; on a UNIQUE collision read the row that is there. */
    method RecordDecision(a: Action, status: Verdict, decidedBy: string)
      returns (standing: Decision, alreadyDecided: bool)
      modifies this
      ensures (rows, standing, alreadyDecided) == Record(old(rows), a, Decision(status, decidedBy))
      ensures alreadyDecided <==> a in old(rows)
      ensures alreadyDecided ==> rows == old(rows) && standing == old(rows)[a]
      ensures !alreadyDecided ==> rows == old(rows)[a := Decision(status, decidedBy)] && standing == rows[a]
    {
      alreadyDecided := a in rows;
      if alreadyDecided {
        standing := rows[a];
      } else {
        standing := Decision(status, decidedBy);
        rows := rows[a := standing];
      }
    }
  }

  // ---- the protocol ---------------------------------------------------------------------------

  /** `Apply` only asks for a confirmation; the others record a decision. */
  datatype Button = Apply | ApplyConfirm | Approve | Decline

  /** One click with its time stamp, the settings in force and whether a followup token came along. */
  datatype Click = Click(
    button: Button,
    action: Action,
    user: string,
    roles: set<string>,
    name: string,
    at: ClickLimiter.Time,
    whitelist: Whitelist,
    hasToken: bool,
    executorEnabled: bool,
    approvalEnabled: bool)
  {
    predicate Authorized() {
      IsAuthorizedApprover(whitelist, user, roles).0
    }

    /** The gates before the limiter. */
    predicate ReachesLimiter() {
      Authorized() && (button.Apply? || button.ApplyConfirm? ==> approvalEnabled)
    }

    /** The gates after it. */
    predicate Proceeds() {
      !button.Apply? && (button.ApplyConfirm? ==> hasToken)
    }

    function Stamp(): ClickLimiter.Click {
      ClickLimiter.Click(user, at)
    }

    function Verdict(): Verdict {
      if button.Decline? then Declined else Approved
    }

    /** Whether the click goes on to dispatch, given the decision that stands. */
    predicate GoesOn(standing: Decision, alreadyDecided: bool) {
      match button
      case ApplyConfirm => standing.status.Approved?
      case Approve => !alreadyDecided && executorEnabled && approvalEnabled
      case _ => false
    }
  }

  datatype Phase = Gated(click: Click) | Dispatching(click: Click) | Done

  datatype Event =
    | Wrote(action: Action, status: Verdict, click: Click)
    | Dispatched(action: Action, click: Click)

  /** `stamps` lists the clicks that reached the limiter, in the order of its lock. */
  datatype System = System(
    cap: int,
    limiter: ClickLimiter.State,
    stamps: seq<ClickLimiter.Click>,
    table: Table,
    clicks: map<nat, Phase>,
    log: seq<Event>)

  datatype Step = Arrive(id: nat, click: Click) | Decide(id: nat) | Dispatch(id: nat, queued: bool)

  predicate Enabled(s: System, x: Step) {
    match x
    case Arrive(k, _) => k !in s.clicks
    case Decide(k) => k in s.clicks && s.clicks[k].Gated?
    case Dispatch(k, _) => k in s.clicks && s.clicks[k].Dispatching?
  }

  predicate PassesGates(s: System, c: Click) {
    c.ReachesLimiter() && ClickLimiter.Allowed(s.limiter, s.cap, c.Stamp()) && c.Proceeds()
  }

  function Next(s: System, x: Step): System
    requires Enabled(s, x)
  {
    match x
    case Arrive(k, c) =>
      var clicks := s.clicks[k := if PassesGates(s, c) then Gated(c) else Done];
      if c.ReachesLimiter() then
        s.(clicks := clicks,
           limiter := ClickLimiter.Next(s.limiter, s.cap, c.Stamp()),
           stamps := s.stamps + [c.Stamp()])
      else s.(clicks := clicks)
    case Decide(k) =>
      var c := s.clicks[k].click;
      var (t, standing, already) := Record(s.table, c.action, Decision(c.Verdict(), c.name));
      s.(table := t,
         clicks := s.clicks[k := if c.GoesOn(standing, already) then Dispatching(c) else Done],
         log := if already then s.log else s.log + [Wrote(c.action, c.Verdict(), c)])
    case Dispatch(k, queued) =>
      var c := s.clicks[k].click;
      s.(clicks := s.clicks[k := Done], log := if queued then s.log + [Dispatched(c.action, c)] else s.log)
  }

  function Run(cap: int, steps: seq<Step>): Option<System> {
    if steps == [] then Some(System(cap, ClickLimiter.Run(cap, []), [], map[], map[], []))
    else
      var last := |steps| - 1;
      match Run(cap, steps[..last])
      case None => None
      case Some(s) => if Enabled(s, steps[last]) then Some(Next(s, steps[last])) else None
  }

  // ---- the invariant ---------------------------------------------------------------------------

  /** Each row of the table has exactly one writing event, by an authorised click. */
  ghost predicate RowsAreWritten(s: System) {
    && (forall a | a in s.table :: WrittenAs(s.log, a, s.table[a]))
    && WritesAreRows(s.log, s.table)
    && WritesAreSingle(s.log)
    && (forall k | k in s.clicks && s.clicks[k].Gated? :: s.clicks[k].click.Authorized())
  }

  ghost predicate WritesAreRows(log: seq<Event>, t: Table) {
    forall i | 0 <= i < |log| && log[i].Wrote? ::
      log[i].action in t && t[log[i].action].status == log[i].status && log[i].click.Authorized()
  }

  ghost predicate WritesAreSingle(log: seq<Event>) {
    forall i, j | 0 <= i < j < |log| && log[i].Wrote? && log[j].Wrote? :: log[i].action != log[j].action
  }

  predicate IsWriteOf(e: Event, a: Action, d: Decision) {
    e.Wrote? && e.action == a && e.status == d.status && e.click.name == d.decidedBy
  }

  ghost predicate WrittenAs(log: seq<Event>, a: Action, d: Decision) {
    exists i :: 0 <= i < |log| && IsWriteOf(log[i], a, d)
  }

  /** A pending or done dispatch concerns an approved row. */
  ghost predicate DispatchesAreApproved(s: System) {
    && (forall k | k in s.clicks && s.clicks[k].Dispatching? ::
          s.clicks[k].click.action in s.table && s.table[s.clicks[k].click.action].status.Approved?)
    && (forall i | 0 <= i < |s.log| && s.log[i].Dispatched? :: ApprovedBefore(s.log, i))
  }

  ghost predicate ApprovedBefore(log: seq<Event>, i: nat)
    requires i < |log|
  {
    exists j :: 0 <= j < i && log[j].Wrote? && log[j].action == log[i].action && log[j].status.Approved?
  }

  predicate ByApprove(e: Event, a: Action) {
    e.Dispatched? && e.action == a && e.click.button.Approve?
  }

  predicate PendingApprove(s: System, k: nat, a: Action) {
    k in s.clicks && s.clicks[k].Dispatching? && s.clicks[k].click.button.Approve? && s.clicks[k].click.action == a
  }

  /** The approve button dispatches an action at most once, counting the dispatch that is under way. */
  ghost predicate ApproveOnce(s: System, a: Action) {
    && (a !in s.table ==> forall k :: !PendingApprove(s, k, a))
    && (a !in s.table ==> forall i | 0 <= i < |s.log| :: !ByApprove(s.log[i], a))
    && (forall k, m | PendingApprove(s, k, a) && PendingApprove(s, m, a) :: k == m)
    && (forall k, i | PendingApprove(s, k, a) && 0 <= i < |s.log| :: !ByApprove(s.log[i], a))
    && (forall i, j | 0 <= i < j < |s.log| :: !(ByApprove(s.log[i], a) && ByApprove(s.log[j], a)))
  }

  lemma {:induction false} WrittenLater(log: seq<Event>, e: Event, a: Action, d: Decision)
    requires WrittenAs(log, a, d)
    ensures WrittenAs(log + [e], a, d)
  {
    var i :| 0 <= i < |log| && IsWriteOf(log[i], a, d);
    assert (log + [e])[i] == log[i];
  }

  lemma {:induction false} NewWrite(log: seq<Event>, t: Table, c: Click)
    requires WritesAreRows(log, t) && WritesAreSingle(log) && c.action !in t && c.Authorized()
    ensures var d := Decision(c.Verdict(), c.name);
            var log' := log + [Wrote(c.action, c.Verdict(), c)];
            WritesAreRows(log', t[c.action := d]) && WritesAreSingle(log') && WrittenAs(log', c.action, d)
  {
    var log' := log + [Wrote(c.action, c.Verdict(), c)];
    assert IsWriteOf(log'[|log|], c.action, Decision(c.Verdict(), c.name));
  }

  lemma {:induction false} DecideKeepsRowsWritten(s: System, k: nat)
    requires RowsAreWritten(s) && Enabled(s, Decide(k))
    ensures RowsAreWritten(Next(s, Decide(k)))
  {
    var s', c := Next(s, Decide(k)), s.clicks[k].click;
    if c.action !in s.table {
      NewWrite(s.log, s.table, c);
      forall a | a in s'.table
        ensures WrittenAs(s'.log, a, s'.table[a])
      {
        if a in s.table {
          WrittenLater(s.log, Wrote(c.action, c.Verdict(), c), a, s.table[a]);
        }
      }
    }
  }

  lemma {:induction false} StepKeepsRowsWritten(s: System, x: Step)
    requires RowsAreWritten(s) && Enabled(s, x)
    ensures RowsAreWritten(Next(s, x))
  {
    match x
    case Arrive(_, _) =>
    case Decide(k) => DecideKeepsRowsWritten(s, k);
    case Dispatch(k, queued) =>
      if queued {
        var s', c := Next(s, Dispatch(k, true)), s.clicks[k].click;
        forall a | a in s'.table
          ensures WrittenAs(s'.log, a, s'.table[a])
        {
          WrittenLater(s.log, Dispatched(c.action, c), a, s.table[a]);
        }
      }
  }

  lemma {:induction false} ApprovedStays(log: seq<Event>, e: Event, i: nat)
    requires i < |log| && ApprovedBefore(log, i)
    ensures ApprovedBefore(log + [e], i)
  {
    var j :| 0 <= j < i && log[j].Wrote? && log[j].action == log[i].action && log[j].status.Approved?;
    assert (log + [e])[j] == log[j] && (log + [e])[i] == log[i];
  }

  lemma {:induction false} StepKeepsDispatchesApproved(s: System, x: Step)
    requires RowsAreWritten(s) && DispatchesAreApproved(s) && Enabled(s, x)
    ensures DispatchesAreApproved(Next(s, x))
  {
    var s' := Next(s, x);
    if s'.log != s.log {
      var n := |s.log|;
      var e := s'.log[n];
      assert s'.log == s.log + [e];
      forall i | 0 <= i < |s'.log| && s'.log[i].Dispatched?
        ensures ApprovedBefore(s'.log, i)
      {
        if i < n {
          assert s'.log[i] == s.log[i];
          ApprovedStays(s.log, e, i);
        } else {
          assert WrittenAs(s.log, e.action, s.table[e.action]);
          var j :| 0 <= j < n && IsWriteOf(s.log[j], e.action, s.table[e.action]);
          assert s'.log[j] == s.log[j];
        }
      }
    }
  }

  lemma {:induction false} DecideKeepsApproveOnce(s: System, n: nat, a: Action)
    requires ApproveOnce(s, a) && Enabled(s, Decide(n))
    ensures ApproveOnce(Next(s, Decide(n)), a)
  {
    var s' := Next(s, Decide(n));
    assert forall k | PendingApprove(s', k, a) && k != n :: PendingApprove(s, k, a);
    assert PendingApprove(s', n, a) ==> a !in s.table;
  }

  lemma {:induction false} DispatchKeepsApproveOnce(s: System, n: nat, queued: bool, a: Action)
    requires DispatchesAreApproved(s) && ApproveOnce(s, a) && Enabled(s, Dispatch(n, queued))
    ensures ApproveOnce(Next(s, Dispatch(n, queued)), a)
  {
    var s' := Next(s, Dispatch(n, queued));
    assert forall k | PendingApprove(s', k, a) :: k != n && PendingApprove(s, k, a);
    if queued && ByApprove(s'.log[|s.log|], a) {
      assert PendingApprove(s, n, a);
    }
  }

  lemma {:induction false} StepKeepsApproveOnce(s: System, x: Step, a: Action)
    requires DispatchesAreApproved(s) && ApproveOnce(s, a) && Enabled(s, x)
    ensures ApproveOnce(Next(s, x), a)
  {
    match x
    case Arrive(_, _) => assert forall k | PendingApprove(Next(s, x), k, a) :: PendingApprove(s, k, a);
    case Decide(n) => DecideKeepsApproveOnce(s, n, a);
    case Dispatch(n, queued) => DispatchKeepsApproveOnce(s, n, queued, a);
  }

  // ---- the results over every run ---------------------------------------------------------------

  lemma {:induction false} EveryRun(cap: int, steps: seq<Step>, a: Action)
    requires Run(cap, steps).Some?
    ensures RowsAreWritten(Run(cap, steps).value) && DispatchesAreApproved(Run(cap, steps).value)
            && ApproveOnce(Run(cap, steps).value, a)
  {
    if steps != [] {
      var last := |steps| - 1;
      EveryRun(cap, steps[..last], a);
      var s := Run(cap, steps[..last]).value;
      StepKeepsRowsWritten(s, steps[last]);
      StepKeepsDispatchesApproved(s, steps[last]);
      StepKeepsApproveOnce(s, steps[last], a);
    }
  }

  ghost predicate Extends(t: Table, t': Table) {
    forall a | a in t :: a in t' && t'[a] == t[a]
  }

  lemma {:induction false} TableOnlyGrows(cap: int, steps: seq<Step>, n: nat)
    requires Run(cap, steps).Some? && n <= |steps|
    ensures Run(cap, steps[..n]).Some? && Extends(Run(cap, steps[..n]).value.table, Run(cap, steps).value.table)
    decreases |steps|
  {
    if n == |steps| {
      assert steps[..n] == steps;
    } else {
      var before := steps[..|steps| - 1];
      TableOnlyGrows(cap, before, n);
      assert before[..n] == steps[..n];
    }
  }

  /** A decision never changes once it is written, and each was written exactly once, by an authorised clicker. */
  lemma {:induction false} DecisionsAreWriteOnce(cap: int, steps: seq<Step>, n: nat)
    requires Run(cap, steps).Some? && n <= |steps|
    ensures Run(cap, steps[..n]).Some? && Extends(Run(cap, steps[..n]).value.table, Run(cap, steps).value.table)
    ensures RowsAreWritten(Run(cap, steps).value)
  {
    TableOnlyGrows(cap, steps, n);
    EveryRun(cap, steps, Action("", ""));
  }

  /** Every dispatch comes after an approval of the same action; one that was declined first is never dispatched. */
  lemma {:induction false} DispatchFollowsApproval(cap: int, steps: seq<Step>, i: nat)
    requires Run(cap, steps).Some? && i < |Run(cap, steps).value.log| && Run(cap, steps).value.log[i].Dispatched?
    ensures ApprovedBefore(Run(cap, steps).value.log, i)
    ensures forall j | 0 <= j < |Run(cap, steps).value.log| && Run(cap, steps).value.log[j].Wrote?
                       && Run(cap, steps).value.log[j].action == Run(cap, steps).value.log[i].action ::
              Run(cap, steps).value.log[j].status.Approved?
  {
    EveryRun(cap, steps, Action("", ""));
    var log := Run(cap, steps).value.log;
    var j :| 0 <= j < i && log[j].Wrote? && log[j].action == log[i].action && log[j].status.Approved?;
  }

  lemma {:induction false} ApproveDispatchesAtMostOnce(cap: int, steps: seq<Step>, a: Action, i: nat, j: nat)
    requires Run(cap, steps).Some? && i < |Run(cap, steps).value.log| && j < |Run(cap, steps).value.log|
    requires ByApprove(Run(cap, steps).value.log[i], a) && ByApprove(Run(cap, steps).value.log[j], a)
    ensures i == j
  {
    EveryRun(cap, steps, a);
  }

  /** An approved action can always be dispatched (again) by an authorised confirm click within the
      limit: that is the retry path after a failed launch, and also why the confirm button has no
      bound but the click limit. */
  lemma {:induction false} ConfirmDispatchesApproved(s: System, k: nat, c: Click)
    requires k !in s.clicks && c.button.ApplyConfirm? && PassesGates(s, c)
    ensures var s2 := Next(Next(s, Arrive(k, c)), Decide(k));
            && (Enabled(s2, Dispatch(k, true)) <==> c.action !in s.table || s.table[c.action].status.Approved?)
            && (Enabled(s2, Dispatch(k, true)) ==>
                  Next(s2, Dispatch(k, true)).log == s2.log + [Dispatched(c.action, c)])
  {
  }

  /** The gates of a click that may dispatch; the limiter's is in `StampsAreAccepted`. */
  ghost predicate Entitled(c: Click) {
    c.approvalEnabled && (c.button.Approve? ==> c.executorEnabled) && !c.button.Decline? && c.Authorized()
  }

  ghost predicate GatesPassed(s: System) {
    && (forall k | k in s.clicks && s.clicks[k].Gated? ::
        s.clicks[k].click.ReachesLimiter() && s.clicks[k].click.Proceeds())
    && (forall k | k in s.clicks && s.clicks[k].Dispatching? :: Entitled(s.clicks[k].click))
    && (forall i | 0 <= i < |s.log| && s.log[i].Dispatched? :: Entitled(s.log[i].click))
  }

  lemma {:induction false} DispatchersPassedGates(cap: int, steps: seq<Step>)
    requires Run(cap, steps).Some?
    ensures GatesPassed(Run(cap, steps).value)
  {
    if steps != [] {
      DispatchersPassedGates(cap, steps[..|steps| - 1]);
    }
  }

  /** With one flag off the approve button records the decision and never dispatches. */
  lemma {:induction false} ApproveNeedsBothFlags(cap: int, steps: seq<Step>, i: nat)
    requires Run(cap, steps).Some? && i < |Run(cap, steps).value.log| && Run(cap, steps).value.log[i].Dispatched?
    ensures var c := Run(cap, steps).value.log[i].click;
            c.approvalEnabled && (c.button.Approve? ==> c.executorEnabled) && !c.button.Decline? && c.Authorized()
  {
    DispatchersPassedGates(cap, steps);
  }

  /** Everything starts empty, and every enabled step goes on. */
  lemma {:induction false} RunsGoOn(cap: int, steps: seq<Step>, x: Step)
    ensures Run(cap, []).Some? && Run(cap, []).value.table == map[] && Run(cap, []).value.clicks == map[]
    ensures Run(cap, []).value.log == [] && Run(cap, []).value.limiter == ClickLimiter.Run(cap, [])
    ensures Run(cap, steps).Some? && Enabled(Run(cap, steps).value, x) ==>
              Run(cap, steps + [x]) == Some(Next(Run(cap, steps).value, x))
  {
    assert (steps + [x])[..|steps|] == steps;
  }

  // ---- buttons -------------------------------------------------------------------------------------

  /** The record of a click is about its own pair: "declined" iff its button declines, and only the two
      dispatching buttons dispatch. */
  ghost predicate IsByButton(e: Event) {
    && e.action == e.click.action
    && (e.Wrote? ==> !e.click.button.Apply? && (e.status.Declined? <==> e.click.button.Decline?))
    && (e.Dispatched? ==> e.click.button.Approve? || e.click.button.ApplyConfirm?)
  }

  ghost predicate AllByButton(s: System) {
    && (forall i | 0 <= i < |s.log| :: IsByButton(s.log[i]))
    && (forall k | k in s.clicks && s.clicks[k].Gated? :: !s.clicks[k].click.button.Apply?)
    && (forall k | k in s.clicks && s.clicks[k].Dispatching? ::
          s.clicks[k].click.button.Approve? || s.clicks[k].click.button.ApplyConfirm?)
  }

  lemma {:induction false} EveryRecordIsByButton(cap: int, steps: seq<Step>)
    requires Run(cap, steps).Some?
    ensures AllByButton(Run(cap, steps).value)
  {
    if steps != [] {
      EveryRecordIsByButton(cap, steps[..|steps| - 1]);
    }
  }

  /** A pair first decided by the decline button is never dispatched, before or after. */
  lemma {:induction false} DeclineButtonIsFinal(cap: int, steps: seq<Step>, i: nat, j: nat)
    requires Run(cap, steps).Some? && i < |Run(cap, steps).value.log| && j < |Run(cap, steps).value.log|
    requires Run(cap, steps).value.log[i].Wrote? && Run(cap, steps).value.log[i].click.button.Decline?
    requires Run(cap, steps).value.log[j].Dispatched?
    ensures Run(cap, steps).value.log[i].click.action != Run(cap, steps).value.log[j].click.action
  {
    EveryRecordIsByButton(cap, steps);
    var log := Run(cap, steps).value.log;
    assert IsByButton(log[i]) && IsByButton(log[j]);
    DispatchFollowsApproval(cap, steps, j);
  }

  /** Who gets through the gates: an authorised clicker within the limit; for the confirm button with a token
      and approval switched on. */
  lemma {:induction false} GatesIff(s: System, k: nat, c: Click)
    requires k !in s.clicks
    ensures var authorised := (c.user != "" && c.user in c.whitelist.users) || c.roles * c.whitelist.roles != {};
            var allowed := ClickLimiter.Allowed(s.limiter, s.cap, ClickLimiter.Click(c.user, c.at));
            Next(s, Arrive(k, c)).clicks[k] ==
            if authorised && allowed && (c.button.Approve? || c.button.Decline?
                                         || (c.button.ApplyConfirm? && c.approvalEnabled && c.hasToken))
            then Gated(c) else Done
  {
  }

  /** What a decision does next: approve dispatches iff it was the first decision and both flags are on,
      confirm iff the pair stands approved, decline never. */
  lemma {:induction false} DecisionGoesOnIff(s: System, k: nat)
    requires k in s.clicks && s.clicks[k].Gated? && !s.clicks[k].click.button.Apply?
    ensures var c := s.clicks[k].click;
            var s' := Next(s, Decide(k));
            && s'.clicks[k] == (if (c.button.Approve? && c.action !in s.table && c.executorEnabled && c.approvalEnabled)
                                   || (c.button.ApplyConfirm? && (c.action in s.table
                                       ==> s.table[c.action].status.Approved?))
                                then Dispatching(c) else Done)
            && (c.action in s.table ==> s'.table == s.table && s'.log == s.log)
            && (c.action !in s.table ==>
                  s'.table == s.table[c.action := Decision(if c.button.Decline? then Declined else Approved, c.name)])
            && (Enabled(s', Dispatch(k, true)) <==> s'.clicks[k].Dispatching?)
            && (s'.clicks[k].Dispatching? ==> Next(s', Dispatch(k, true)).log == s'.log + [Dispatched(c.action, c)])
  {
  }

  // ---- the click limit over every run -----------------------------------------------------------

  /** A click of this user with a stamp in [lo, hi]. */
  datatype Span = Span(user: string, lo: ClickLimiter.Time, hi: ClickLimiter.Time)
  {
    predicate Covers(c: Click) {
      c.user == user && lo <= c.at <= hi
    }
  }

  predicate Counts(e: Event, dispatches: bool, p: Span) {
    e.Dispatched? == dispatches && p.Covers(e.click)
  }

  /** The dispatches, or the decisions written, by clicks in a span. */
  function Count(log: seq<Event>, dispatches: bool, p: Span): nat {
    if log == [] then 0
    else Count(log[..|log| - 1], dispatches, p) + if Counts(log[|log| - 1], dispatches, p) then 1 else 0
  }

  /** Whether a click in this phase may still dispatch, or still write. */
  predicate MayStill(f: Phase, dispatches: bool, p: Span) {
    (f.Gated? || (dispatches && f.Dispatching?)) && p.Covers(f.click)
  }

  ghost function Open(s: System, dispatches: bool, p: Span): set<nat> {
    set k | k in s.clicks && MayStill(s.clicks[k], dispatches, p)
  }

  function Accepted(s: System, p: Span): nat {
    ClickLimiter.Within(ClickLimiter.Clicks(s.limiter.accepted, p.user), p.lo, p.hi)
  }

  /** What was done and what may still be done is covered by clicks the limiter accepted. */
  ghost predicate StampsAreAccepted(s: System, p: Span) {
    && Count(s.log, true, p) + |Open(s, true, p)| <= Accepted(s, p)
    && Count(s.log, false, p) + |Open(s, false, p)| <= Accepted(s, p)
  }

  lemma {:induction false} OpenUpdate(s: System, k: nat, f: Phase, s': System, dispatches: bool, p: Span)
    requires s'.clicks == s.clicks[k := f]
    ensures var had := k in s.clicks && MayStill(s.clicks[k], dispatches, p);
            |Open(s', dispatches, p)| ==
            |Open(s, dispatches, p)| - (if had then 1 else 0) + (if MayStill(f, dispatches, p) then 1 else 0)
  {
    var a, b := Open(s, dispatches, p), Open(s', dispatches, p);
    assert a - {k} == b - {k};
    OneChanged(a, b, k);
  }

  lemma {:induction false} ArriveKeepsAccepted(s: System, k: nat, c: Click, p: Span)
    requires StampsAreAccepted(s, p) && Enabled(s, Arrive(k, c))
    ensures StampsAreAccepted(Next(s, Arrive(k, c)), p)
  {
    var s' := Next(s, Arrive(k, c));
    OpenUpdate(s, k, s'.clicks[k], s', true, p);
    OpenUpdate(s, k, s'.clicks[k], s', false, p);
  }

  /** A recorded event of a click takes the place of what the click might still do. */
  lemma {:induction false} EventKeepsAccepted(s: System, s': System, k: nat, e: Event, p: Span)
    requires StampsAreAccepted(s, p) && k in s.clicks && !s.clicks[k].Done? && e.click == s.clicks[k].click
    requires k in s'.clicks && s'.clicks == s.clicks[k := s'.clicks[k]] && s'.limiter == s.limiter
            && s'.log == s.log + [e]
    requires s'.clicks[k].Done? || (s'.clicks[k].Dispatching? && s'.clicks[k].click == e.click && e.Wrote?)
    requires e.Wrote? ==> s.clicks[k].Gated?
    ensures StampsAreAccepted(s', p)
  {
    OpenUpdate(s, k, s'.clicks[k], s', true, p);
    OpenUpdate(s, k, s'.clicks[k], s', false, p);
  }

  /** A click that goes on without recording anything. */
  lemma {:induction false} QuietKeepsAccepted(s: System, s': System, k: nat, p: Span)
    requires StampsAreAccepted(s, p) && k in s.clicks && !s.clicks[k].Done?
    requires k in s'.clicks && s'.clicks == s.clicks[k := s'.clicks[k]] && s'.limiter == s.limiter && s'.log == s.log
    requires s'.clicks[k].Done? || (s'.clicks[k].Dispatching? && s'.clicks[k].click == s.clicks[k].click)
    ensures StampsAreAccepted(s', p)
  {
    OpenUpdate(s, k, s'.clicks[k], s', true, p);
    OpenUpdate(s, k, s'.clicks[k], s', false, p);
  }

  lemma {:induction false} StepKeepsAccepted(s: System, x: Step, p: Span)
    requires StampsAreAccepted(s, p) && Enabled(s, x)
    ensures StampsAreAccepted(Next(s, x), p)
  {
    if x.Arrive? {
      ArriveKeepsAccepted(s, x.id, x.click, p);
    } else {
      var s' := Next(s, x);
      if s'.log == s.log {
        QuietKeepsAccepted(s, s', x.id, p);
      } else {
        EventKeepsAccepted(s, s', x.id, s'.log[|s.log|], p);
      }
    }
  }

  lemma {:induction false} EveryRunIsAccepted(cap: int, steps: seq<Step>, p: Span)
    requires Run(cap, steps).Some?
    ensures var s := Run(cap, steps).value;
            StampsAreAccepted(s, p) && s.cap == cap && s.limiter == ClickLimiter.Run(cap, s.stamps)
  {
    if steps != [] {
      var last := |steps| - 1;
      EveryRunIsAccepted(cap, steps[..last], p);
      var s := Run(cap, steps[..last]).value;
      StepKeepsAccepted(s, steps[last], p);
    } else {
      var s := Run(cap, steps).value;
      assert Open(s, true, p) == {} && Open(s, false, p) == {};
    }
  }

  /** In every interleaving an identified user writes at most `cap` decisions and makes at most `cap`
      dispatches by clicks in one closed window, less the skew of the stamps. */
  lemma {:induction false} DecisionsAreLimited(cap: int, steps: seq<Step>, user: string, d: ClickLimiter.Time,
                                               t: ClickLimiter.Time)
    requires Run(cap, steps).Some? && cap > 0 && user != "" && d >= 0.0
    requires ClickLimiter.Skewed(Run(cap, steps).value.stamps, user, d)
    ensures var p := Span(user, t, t + (ClickLimiter.WINDOW - d));
            && Count(Run(cap, steps).value.log, false, p) <= cap
            && Count(Run(cap, steps).value.log, true, p) <= cap
  {
    var p := Span(user, t, t + (ClickLimiter.WINDOW - d));
    EveryRunIsAccepted(cap, steps, p);
    ClickLimiter.SkewedWithinCap(cap, Run(cap, steps).value.stamps, user, d, t);
  }
}
