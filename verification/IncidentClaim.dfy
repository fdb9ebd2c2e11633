/**
  Who may start the pipeline for an incident (app/api/webhooks.py): concurrent webhook
  requests read the incident row, then insert it under a UNIQUE id or flip it to OPEN with a
  compare-and-swap, and only then dispatch.  The pipeline and resolve requests write the row too.

  Reads are allowed to return anything at all, which covers every stale read: what is proved
  rests on the INSERT and the compare-and-swap alone.
*/
module IncidentClaim {
  import opened Common

  datatype Status =
    | OPEN | INVESTIGATING | FACTS_COLLECTED | HYPOTHESIS_GENERATED | FIX_PROPOSED
    | APPROVAL_PENDING | EXECUTING | RESOLVED | TRIAGE_REQUIRED | FAILED
    | Legacy(name: string)
  {
    /** `_SKIP_STATES`: a pipeline is taken to be at work already. */
    predicate InSkip() {
      this in {OPEN, INVESTIGATING, FACTS_COLLECTED, HYPOTHESIS_GENERATED, FIX_PROPOSED}
    }

    predicate Terminal() {
      this in {RESOLVED, TRIAGE_REQUIRED, FAILED}
    }

    /** `StateMachine.validate_transition(this, RESOLVED)`; a status outside the enum never may. */
    predicate MayResolve() {
      this in {OPEN, FACTS_COLLECTED, FIX_PROPOSED, EXECUTING}
    }
  }

  /** The parts of the JSON column that the webhook reads back. */
  datatype Data = Data(flapCount: nat, resolvePendingFrom: Option<Status>)

  datatype Row = Row(status: Status, data: Data)

  type Rows = map<string, Row>

  datatype Alert = Alert(incident: string, valid: bool, resolved: bool, inScope: bool)

  // ---- what a request does with what it read ------------------------------------------------

  datatype Plan =
    | SkipInvalid
    | AckResolved
    | WriteResolved
    | DeferResolve(prev: Status, read: Data)
    | OutOfScope
    | Deduplicate
    | Insert(data: Data)
    | Swap(expected: Status, data: Data)
  {
    predicate Claims() {
      Insert? || Swap?
    }
  }

  function Route(a: Alert, seen: Option<Row>): Plan {
    if !a.valid then SkipInvalid
    else if a.resolved then
      if seen.None? || seen.value.status.Terminal() then AckResolved
      else if seen.value.status.MayResolve() then WriteResolved
      else DeferResolve(seen.value.status, seen.value.data)
    else if !a.inScope then OutOfScope
    else if seen.None? then Insert(Data(0, None))
    else if seen.value.status in {RESOLVED, TRIAGE_REQUIRED} then
      Swap(seen.value.status, Data(seen.value.data.flapCount + 1, None))
    else if seen.value.status.InSkip() then Deduplicate
    else Swap(seen.value.status, Data(0, None))
  }

  /** Only a valid, firing, in-scope alert can claim, and a swap never expects a status in `_SKIP_STATES`. */
  lemma {:induction false} OnlyFiringInScopeClaims(a: Alert, seen: Option<Row>)
    ensures Route(a, seen).Claims() ==> a.valid && !a.resolved && a.inScope
    ensures Route(a, seen).Swap? ==> !Route(a, seen).expected.InSkip()
    ensures a.valid && !a.resolved && a.inScope ==>
            (Route(a, seen).Claims() <==> seen.None? || !seen.value.status.InSkip())
  {
  }

  /** The row write of a plan, done in one statement, and whether it won the incident. */
  function Perform(rows: Rows, id: string, p: Plan): (Rows, bool) {
    match p
    case Insert(data) => if id in rows then (rows, false) else (rows[id := Row(OPEN, data)], true)
    case Swap(expected, data) =>
      if id in rows && rows[id].status == expected then (rows[id := Row(OPEN, data)], true) else (rows, false)
    case WriteResolved => (if id in rows then rows[id := rows[id].(status := RESOLVED)] else rows, false)
    case DeferResolve(prev, read) =>
      (if id in rows then rows[id := rows[id].(data := read.(resolvePendingFrom := Some(prev)))] else rows, false)
    case _ => (rows, false)
  }

  // ---- the table, written in place -----------------------------------------------------------

  datatype Reply = Skipped | Resolved | ResolveDeferred | NotInScope | Deduplicated | Dispatched

  function ReplyTo(p: Plan, won: bool): Reply {
    match p
    case SkipInvalid => Skipped
    case AckResolved => Resolved
    case WriteResolved => Resolved
    case DeferResolve(_, _) => ResolveDeferred
    case OutOfScope => NotInScope
    case Deduplicate => Deduplicated
    case _ => if won then Dispatched else Deduplicated
  }

  /** What a batch of alerts, handled one by one, does to the rows and answers. */
  function HandleAll(rows: Rows, alerts: seq<Alert>): (Rows, seq<Reply>) {
    if alerts == [] then (rows, [])
    else
      var last := |alerts| - 1;
      var (before, replies) := HandleAll(rows, alerts[..last]);
      var a := alerts[last];
      var p := Route(a, if a.incident in before then Some(before[a.incident]) else None);
      var (after, won) := Perform(before, a.incident, p);
      (after, replies + [ReplyTo(p, won)])
  }

  class IncidentTable {
    var rows: Rows

    constructor ()
      ensures rows == map[]
    {
      rows := map[];
    }

    /** INSERT under UNIQUE(incident_id). */
    method InsertRow(id: string, data: Data) returns (inserted: bool)
      modifies this
      ensures (rows, inserted) == Perform(old(rows), id, Insert(data))
      ensures inserted <==> id !in old(rows)
      ensures rows == if id in old(rows) then old(rows) else old(rows)[id := Row(OPEN, data)]
    {
      inserted := id !in rows;
      if inserted {
        rows := rows[id := Row(OPEN, data)];
      }
    }

    /** `_claim_refire`: UPDATE ... WHERE incident_id = id AND status = expected. */
    method ClaimRefire(id: string, expected: Status, data: Data) returns (matched: nat)
      modifies this
      ensures (rows, matched == 1) == Perform(old(rows), id, Swap(expected, data))
      ensures matched == if id in old(rows) && old(rows)[id].status == expected then 1 else 0
      ensures rows == if matched == 1 then old(rows)[id := Row(OPEN, data)] else old(rows)
    {
      matched := 0;
      if id in rows && rows[id].status == expected {
        rows := rows[id := Row(OPEN, data)];
        matched := 1;
      }
    }

    /** `_apply_resolve`: written by primary key, without a check of the current value.  A deferred
        resolve writes back the whole dictionary it read, with its marker added. */
    method ApplyResolve(id: string, prev: Status, read: Data) returns (deferred: bool)
      requires id in rows
      modifies this
      ensures deferred == !prev.MayResolve()
      ensures rows == Perform(old(rows), id, if deferred then DeferResolve(prev, read) else WriteResolved).0
      ensures !deferred ==> rows == old(rows)[id := Row(RESOLVED, old(rows)[id].data)]
      ensures deferred ==> rows == old(rows)[id := Row(old(rows)[id].status, Data(read.flapCount, Some(prev)))]
    {
      deferred := !prev.MayResolve();
      if deferred {
        rows := rows[id := rows[id].(data := read.(resolvePendingFrom := Some(prev)))];
      } else {
        rows := rows[id := rows[id].(status := RESOLVED)];
      }
    }

    /** The per-alert loop of `alertmanager_webhook`, with nobody else writing. */
    method HandleBatch(alerts: seq<Alert>) returns (replies: seq<Reply>)
      modifies this
      ensures (rows, replies) == HandleAll(old(rows), alerts)
    {
      replies := [];
      for i := 0 to |alerts|
        invariant (rows, replies) == HandleAll(old(rows), alerts[..i])
      {
        assert alerts[..i + 1][..i] == alerts[..i];
        var a := alerts[i];
        if !a.valid {
          replies := replies + [Skipped];
          continue;
        }
        var seen := if a.incident in rows then Some(rows[a.incident]) else None;
        if a.resolved {
          var deferred := false;
          if seen.Some? && !seen.value.status.Terminal() {
            deferred := ApplyResolve(a.incident, seen.value.status, seen.value.data);
          }
          replies := replies + [if deferred then ResolveDeferred else Resolved];
          continue;
        }
        if !a.inScope {
          replies := replies + [NotInScope];
          continue;
        }
        var flaps := 0;
        if seen.Some? && seen.value.status in {RESOLVED, TRIAGE_REQUIRED} {
          flaps := seen.value.data.flapCount + 1;
        } else if seen.Some? && seen.value.status.InSkip() {
          replies := replies + [Deduplicated];
          continue;
        }
        var won;
        if seen.None? {
          won := InsertRow(a.incident, Data(flaps, None));
        } else {
          var matched := ClaimRefire(a.incident, seen.value.status, Data(flaps, None));
          won := matched == 1;
        }
        replies := replies + [if won then Dispatched else Deduplicated];
      }
      assert alerts[..|alerts|] == alerts;
    }
  }

  // ---- the protocol ---------------------------------------------------------------------------

  datatype Phase = Planned(alert: Alert, plan: Plan) | Claimed(alert: Alert) | Finished | Lost(alert: Alert)
  {
    /** Won the incident and has not dispatched (yet, or ever). */
    predicate Owes(id: string) {
      (Claimed? || Lost?) && alert.incident == id
    }
  }

  datatype Record =
    | Inserted(id: string, alert: Alert)
    | Swapped(id: string, alert: Alert, from: Status)
    | Written(id: string, from: Status, to: Status)
    | Started(id: string, alert: Alert)

  datatype System = System(rows: Rows, requests: map<nat, Phase>, log: seq<Record>)

  datatype Step =
    | Read(request: nat, alert: Alert, seen: Option<Row>)
    | Act(request: nat)
    | Dispatch(request: nat)
    | Crash(request: nat)
    | Pipeline(id: string, row: Row)

  predicate Enabled(s: System, x: Step) {
    match x
    case Read(r, _, _) => r !in s.requests
    case Act(r) => r in s.requests && s.requests[r].Planned?
    case Dispatch(r) => r in s.requests && s.requests[r].Claimed?
    case Crash(r) => r in s.requests && s.requests[r].Claimed?
    case Pipeline(id, _) => id in s.rows
  }

  function Apply(s: System, x: Step): System
    requires Enabled(s, x)
  {
    match x
    case Read(r, a, seen) => s.(requests := s.requests[r := Planned(a, Route(a, seen))])
    case Act(r) =>
      var Planned(a, p) := s.requests[r];
      var (rows', won) := Perform(s.rows, a.incident, p);
      System(rows', s.requests[r := if won then Claimed(a) else Finished], s.log + Recorded(s.rows, a, p, won))
    case Dispatch(r) =>
      var a := s.requests[r].alert;
      s.(requests := s.requests[r := Finished], log := s.log + [Started(a.incident, a)])
    case Crash(r) => s.(requests := s.requests[r := Lost(s.requests[r].alert)])
    case Pipeline(id, row) =>
      s.(rows := s.rows[id := row], log := s.log + [Written(id, s.rows[id].status, row.status)])
  }

  function Recorded(rows: Rows, a: Alert, p: Plan, won: bool): seq<Record> {
    var id := a.incident;
    if won then [if p.Insert? then Inserted(id, a) else Swapped(id, a, if p.Swap? then p.expected else OPEN)]
    else if p.WriteResolved? && id in rows then [Written(id, rows[id].status, RESOLVED)]
    else []
  }

  function Run(start: Rows, steps: seq<Step>): Option<System> {
    if steps == [] then Some(System(start, map[], []))
    else
      var last := |steps| - 1;
      match Run(start, steps[..last])
      case None => None
      case Some(s) => if Enabled(s, steps[last]) then Some(Apply(s, steps[last])) else None
  }

  // ---- counting -------------------------------------------------------------------------------

  datatype Kind = Insertion | Swapping | Start | Visit

  /** A visit starts when the row goes from a status in `_SKIP_STATES` to one outside. */
  predicate Is(x: Record, kind: Kind, id: string) {
    x.id == id && match kind
                  case Insertion => x.Inserted?
                  case Swapping => x.Swapped?
                  case Start => x.Started?
                  case Visit => x.Written? && x.from.InSkip() && !x.to.InSkip()
  }

  function Count(log: seq<Record>, kind: Kind, id: string): nat {
    if log == [] then 0 else Count(log[..|log| - 1], kind, id) + if Is(log[|log| - 1], kind, id) then 1 else 0
  }

  lemma {:induction false} CountSnoc(log: seq<Record>, x: Record, kind: Kind, id: string)
    ensures Count(log + [x], kind, id) == Count(log, kind, id) + if Is(x, kind, id) then 1 else 0
  {
    assert (log + [x])[..|log|] == log;
  }

  function Outside(rows: Rows, id: string): nat {
    if id in rows && !rows[id].status.InSkip() then 1 else 0
  }

  ghost function Owing(s: System, id: string): set<nat> {
    set r | r in s.requests && s.requests[r].Owes(id)
  }

  // ---- the invariant ---------------------------------------------------------------------------

  ghost predicate PlansAreSound(s: System) {
    && (forall r | r in s.requests && s.requests[r].Planned? && s.requests[r].plan.Claims() ::
          s.requests[r].alert.valid && !s.requests[r].alert.resolved && s.requests[r].alert.inScope
          && (s.requests[r].plan.Swap? ==> !s.requests[r].plan.expected.InSkip()))
    && (forall r | r in s.requests && s.requests[r].Claimed? ::
          s.requests[r].alert.valid && !s.requests[r].alert.resolved && s.requests[r].alert.inScope)
    && (forall i | 0 <= i < |s.log| && s.log[i].Started? ::
          s.log[i].alert.valid && !s.log[i].alert.resolved && s.log[i].alert.inScope)
  }

  ghost predicate Accounted(start: Rows, s: System, id: string) {
    && Count(s.log, Insertion, id) + Count(s.log, Swapping, id) == Count(s.log, Start, id) + |Owing(s, id)|
    && Count(s.log, Insertion, id) == (if id in s.rows && id !in start then 1 else 0)
    && (id in start ==> id in s.rows)
    && Count(s.log, Swapping, id) + Outside(s.rows, id) <= Count(s.log, Visit, id) + Outside(start, id)
  }

  lemma {:induction false} StepKeepsPlansSound(s: System, x: Step)
    requires PlansAreSound(s) && Enabled(s, x)
    ensures PlansAreSound(Apply(s, x))
  {
    if x.Read? {
      OnlyFiringInScopeClaims(x.alert, x.seen);
    }
  }

  lemma {:induction false} OwingUpdate(s: System, r: nat, p: Phase, s': System, id: string)
    requires s'.requests == s.requests[r := p]
    ensures var had := r in s.requests && s.requests[r].Owes(id);
            |Owing(s', id)| == |Owing(s, id)| - (if had then 1 else 0) + (if p.Owes(id) then 1 else 0)
  {
    var a, b := Owing(s, id), Owing(s', id);
    assert a - {r} == b - {r};
    OneChanged(a, b, r);
  }

  function Present(rows: Rows, id: string): nat {
    if id in rows then 1 else 0
  }

  function Tick(x: Record, kind: Kind, id: string): nat {
    if Is(x, kind, id) then 1 else 0
  }

  /** How one record and the row write behind it fit together. */
  ghost predicate Fits(s: System, s': System, x: Record, id: string) {
    && s'.log == s.log + [x]
    && |Owing(s', id)| + Tick(x, Start, id) == |Owing(s, id)| + Tick(x, Insertion, id) + Tick(x, Swapping, id)
    && Present(s'.rows, id) == Present(s.rows, id) + Tick(x, Insertion, id)
    && Outside(s'.rows, id) + Tick(x, Swapping, id) <= Outside(s.rows, id) + Tick(x, Visit, id)
  }

  lemma {:induction false} FittingRecordKeepsAccounts(start: Rows, s: System, s': System, x: Record, id: string)
    requires Accounted(start, s, id) && Fits(s, s', x, id)
    ensures Accounted(start, s', id)
  {
    CountSnoc(s.log, x, Insertion, id);
    CountSnoc(s.log, x, Swapping, id);
    CountSnoc(s.log, x, Start, id);
    CountSnoc(s.log, x, Visit, id);
  }

  lemma {:induction false} ActFits(s: System, r: nat, id: string)
    requires PlansAreSound(s) && Enabled(s, Act(r)) && Apply(s, Act(r)).log != s.log
    ensures Fits(s, Apply(s, Act(r)), Apply(s, Act(r)).log[|s.log|], id)
  {
    var s' := Apply(s, Act(r));
    OwingUpdate(s, r, s'.requests[r], s', id);
    var Planned(a, p) := s.requests[r];
    if p.Swap? {
      assert s'.log == s.log + [Swapped(a.incident, a, p.expected)];
    } else if p.Insert? {
      assert s'.log == s.log + [Inserted(a.incident, a)];
    } else {
      assert s'.log == s.log + [Written(a.incident, s.rows[a.incident].status, RESOLVED)];
    }
  }

  /** A step that records nothing and wins nothing. */
  lemma {:induction false} QuietMoveKeepsAccounts(start: Rows, s: System, s': System, r: nat, p: Phase, id: string)
    requires Accounted(start, s, id) && s'.log == s.log && s'.requests == s.requests[r := p]
    requires (r in s.requests && s.requests[r].Owes(id)) == p.Owes(id)
    requires Present(s'.rows, id) == Present(s.rows, id) && Outside(s'.rows, id) == Outside(s.rows, id)
    ensures Accounted(start, s', id)
  {
    OwingUpdate(s, r, p, s', id);
  }

  lemma {:induction false} ActKeepsAccounts(start: Rows, s: System, r: nat, id: string)
    requires PlansAreSound(s) && Accounted(start, s, id) && Enabled(s, Act(r))
    ensures Accounted(start, Apply(s, Act(r)), id)
  {
    var s' := Apply(s, Act(r));
    if s'.log == s.log {
      QuietMoveKeepsAccounts(start, s, s', r, s'.requests[r], id);
    } else {
      ActFits(s, r, id);
      FittingRecordKeepsAccounts(start, s, s', s'.log[|s.log|], id);
    }
  }

  lemma {:induction false} DispatchKeepsAccounts(start: Rows, s: System, r: nat, id: string)
    requires Accounted(start, s, id) && Enabled(s, Dispatch(r))
    ensures Accounted(start, Apply(s, Dispatch(r)), id)
  {
    var s' := Apply(s, Dispatch(r));
    OwingUpdate(s, r, Finished, s', id);
    FittingRecordKeepsAccounts(start, s, s', s'.log[|s.log|], id);
  }

  lemma {:induction false} PipelineKeepsAccounts(start: Rows, s: System, x: Step, id: string)
    requires Accounted(start, s, id) && x.Pipeline? && Enabled(s, x)
    ensures Accounted(start, Apply(s, x), id)
  {
    var s' := Apply(s, x);
    assert Owing(s', id) == Owing(s, id);
    FittingRecordKeepsAccounts(start, s, s', s'.log[|s.log|], id);
  }

  lemma {:induction false} StepKeepsAccounts(start: Rows, s: System, x: Step, id: string)
    requires PlansAreSound(s) && Accounted(start, s, id) && Enabled(s, x)
    ensures Accounted(start, Apply(s, x), id)
  {
    match x
    case Read(r, _, _) => QuietMoveKeepsAccounts(start, s, Apply(s, x), r, Apply(s, x).requests[r], id);
    case Crash(r) => QuietMoveKeepsAccounts(start, s, Apply(s, x), r, Apply(s, x).requests[r], id);
    case Act(r) => ActKeepsAccounts(start, s, r, id);
    case Dispatch(r) => DispatchKeepsAccounts(start, s, r, id);
    case Pipeline(_, _) => PipelineKeepsAccounts(start, s, x, id);
  }

  // ---- the results over every run ----------------------------------------------------------------

  lemma {:induction false} EveryRun(start: Rows, steps: seq<Step>, id: string)
    requires Run(start, steps).Some?
    ensures PlansAreSound(Run(start, steps).value) && Accounted(start, Run(start, steps).value, id)
  {
    if steps != [] {
      var last := |steps| - 1;
      EveryRun(start, steps[..last], id);
      var s := Run(start, steps[..last]).value;
      StepKeepsPlansSound(s, steps[last]);
      StepKeepsAccounts(start, s, steps[last], id);
    }
  }

  /** Dispatches are the won claims less those still owed; there is at most one INSERT winner and at
      most one compare-and-swap winner per visit of the row to a status outside `_SKIP_STATES`. */
  lemma {:induction false} DispatchAccounting(start: Rows, steps: seq<Step>, id: string)
    requires Run(start, steps).Some?
    ensures var s := Run(start, steps).value;
            && Count(s.log, Start, id) + |Owing(s, id)| == Count(s.log, Insertion, id) + Count(s.log, Swapping, id)
            && Count(s.log, Insertion, id) <= (if id in start then 0 else 1)
            && Count(s.log, Swapping, id) <= Count(s.log, Visit, id) + Outside(start, id)
            && Count(s.log, Start, id) <= 1 + Count(s.log, Visit, id)
  {
    EveryRun(start, steps, id);
  }

  /** Resolved, out-of-scope and invalid alerts never start a pipeline. */
  lemma {:induction false} OnlyFiringInScopeStarts(start: Rows, steps: seq<Step>, i: nat)
    requires Run(start, steps).Some? && i < |Run(start, steps).value.log| && Run(start, steps).value.log[i].Started?
    ensures var a := Run(start, steps).value.log[i].alert; a.valid && !a.resolved && a.inScope
  {
    EveryRun(start, steps, "");
  }

  // ---- one claim per visit, as an order of events ---------------------------------------------------

  predicate ClaimOf(x: Record, id: string) {
    (x.Inserted? || x.Swapped?) && x.id == id
  }

  ghost predicate VisitBetween(log: seq<Record>, id: string, i: int, j: int) {
    exists k :: i < k < j && 0 <= k < |log| && Is(log[k], Visit, id)
  }

  ghost predicate ClaimsAlternate(s: System, id: string) {
    && (forall i, j | 0 <= i < j < |s.log| && ClaimOf(s.log[i], id) && ClaimOf(s.log[j], id) ::
        VisitBetween(s.log, id, i, j))
    && (forall i | 0 <= i < |s.log| && ClaimOf(s.log[i], id) ::
          VisitBetween(s.log, id, i, |s.log|) || (id in s.rows && s.rows[id].status.InSkip()))
  }

  lemma {:induction false} VisitStays(log: seq<Record>, log': seq<Record>, id: string, i: int, j: int, j': int)
    requires VisitBetween(log, id, i, j) && log <= log' && j <= j'
    ensures VisitBetween(log', id, i, j')
  {
    var k :| i < k < j && 0 <= k < |log| && Is(log[k], Visit, id);
    assert log'[k] == log[k];
  }

  lemma {:induction false} RecordKeepsAlternation(s: System, s': System, x: Record, id: string)
    requires ClaimsAlternate(s, id) && s'.log == s.log + [x]
    requires ClaimOf(x, id) ==>
             (id in s.rows ==> !s.rows[id].status.InSkip()) && id in s'.rows && s'.rows[id].status.InSkip()
    requires !ClaimOf(x, id) && !Is(x, Visit, id) && id in s.rows && s.rows[id].status.InSkip() ==>
             id in s'.rows && s'.rows[id].status.InSkip()
    ensures ClaimsAlternate(s', id)
  {
    var n := |s.log|;
    forall i, j | 0 <= i < j < |s'.log| && ClaimOf(s'.log[i], id) && ClaimOf(s'.log[j], id)
      ensures VisitBetween(s'.log, id, i, j)
    {
      assert s'.log[i] == s.log[i];
      VisitStays(s.log, s'.log, id, i, if j < n then j else n, j);
    }
    forall i | 0 <= i < |s'.log| && ClaimOf(s'.log[i], id)
      ensures VisitBetween(s'.log, id, i, n + 1) || (id in s'.rows && s'.rows[id].status.InSkip())
    {
      if i < n {
        assert s'.log[i] == s.log[i];
        if VisitBetween(s.log, id, i, n) {
          VisitStays(s.log, s'.log, id, i, n, n + 1);
        } else if Is(x, Visit, id) {
          assert Is(s'.log[n], Visit, id);
        }
      }
    }
  }

  lemma {:induction false} StepKeepsAlternation(s: System, x: Step, id: string)
    requires PlansAreSound(s) && ClaimsAlternate(s, id) && Enabled(s, x)
    ensures ClaimsAlternate(Apply(s, x), id)
  {
    var s' := Apply(s, x);
    if s'.log != s.log {
      var y := s'.log[|s.log|];
      assert s'.log == s.log + [y];
      RecordKeepsAlternation(s, s', y, id);
    }
  }

  /** Between two claims of an incident its row left `_SKIP_STATES`. */
  lemma {:induction false} ClaimsNeedAVisit(start: Rows, steps: seq<Step>, id: string)
    requires Run(start, steps).Some?
    ensures ClaimsAlternate(Run(start, steps).value, id)
  {
    if steps != [] {
      var last := |steps| - 1;
      ClaimsNeedAVisit(start, steps[..last], id);
      EveryRun(start, steps[..last], id);
      StepKeepsAlternation(Run(start, steps[..last]).value, steps[last], id);
    }
  }

  // ---- where the code falls short of its comments -------------------------------------------------

  /** "Already in flight" is read off `_SKIP_STATES`, which leaves out two states of a running
      pipeline: exactly there, and on a name outside the enum, a re-fire claims a non-terminal row. */
  lemma {:induction false} ReclaimsRunningPipeline(a: Alert, row: Row)
    requires a.valid && !a.resolved && a.inScope && !row.status.Terminal()
    ensures Route(a, Some(row)).Claims() <==> row.status in {APPROVAL_PENDING, EXECUTING} || row.status.Legacy?
  {
  }

  function Current(s: System, id: string): Option<Row> {
    RowOf(s.rows, id)
  }

  predicate FreeToClaim(s: System, id: string) {
    id !in s.rows || !s.rows[id].status.InSkip()
  }

  /** Whatever has happened before, a firing alert that reads the current row gets one more pipeline
      started iff the row is missing or outside `_SKIP_STATES`: an EXECUTING incident is started again. */
  lemma {:induction false} RefireStartsIffOutsideSkip(s: System, r: nat, a: Alert)
    requires r !in s.requests && a.valid && !a.resolved && a.inScope
    ensures var s2 := Apply(Apply(s, Read(r, a, Current(s, a.incident))), Act(r));
            && (FreeToClaim(s, a.incident) <==> Enabled(s2, Dispatch(r)))
            && (FreeToClaim(s, a.incident) ==> Apply(s2, Dispatch(r)).log == s2.log + [Started(a.incident, a)])
            && (!FreeToClaim(s, a.incident) ==> s2.log == s.log && s2.rows == s.rows)
  {
    OnlyFiringInScopeClaims(a, Current(s, a.incident));
  }

  // ---- the record tells the truth ---------------------------------------------------------------

  /** What a step writes, if it writes: the status that the record names, into that row only. */
  lemma {:induction false} RecordsAreTrue(s: System, x: Step)
    requires Enabled(s, x) && Apply(s, x).log != s.log
    ensures var s' := Apply(s, x);
            && s'.log == s.log + [s'.log[|s.log|]]
            && var r := s'.log[|s.log|];
               && (forall id | id != r.id :: id in s'.rows <==> id in s.rows)
               && (forall id | id != r.id && id in s.rows :: s'.rows[id] == s.rows[id])
               && (r.Written? ==> r.id in s.rows && r.id in s'.rows
                                  && s.rows[r.id].status == r.from && s'.rows[r.id].status == r.to)
               && (r.Inserted? ==> r.id !in s.rows && r.id in s'.rows && s'.rows[r.id].status == OPEN)
               && (r.Swapped? ==> r.id in s.rows && s.rows[r.id].status == r.from
                                  && r.id in s'.rows && s'.rows[r.id].status == OPEN)
               && (r.Started? ==> s'.rows == s.rows)
  {
  }

  /** A step that leaves no record changes no status; only a deferred resolve may then change data. */
  lemma {:induction false} SilenceChangesNoStatus(s: System, x: Step)
    requires Enabled(s, x) && Apply(s, x).log == s.log
    ensures Apply(s, x).rows.Keys == s.rows.Keys
    ensures forall id | id in s.rows :: Apply(s, x).rows[id].status == s.rows[id].status
    ensures (x.Act? ==> !s.requests[x.request].plan.DeferResolve?) ==> Apply(s, x).rows == s.rows
  {
  }

  /** The row that an alert finds and leaves, and the reply, when nobody else writes. */
  ghost predicate Handles(a: Alert, seen: Option<Row>, left: Option<Row>, reply: Reply) {
    if !a.valid then left == seen && reply == Skipped
    else if a.resolved && (seen.None? || seen.value.status in {RESOLVED, TRIAGE_REQUIRED, FAILED}) then
      left == seen && reply == Resolved
    else if a.resolved && seen.value.status in {OPEN, FACTS_COLLECTED, FIX_PROPOSED, EXECUTING} then
      left == Some(Row(RESOLVED, seen.value.data)) && reply == Resolved
    else if a.resolved then
      && left == Some(Row(seen.value.status, Data(seen.value.data.flapCount, Some(seen.value.status))))
      && reply == ResolveDeferred
    else if !a.inScope then left == seen && reply == NotInScope
    else if seen.None? then left == Some(Row(OPEN, Data(0, None))) && reply == Dispatched
    else if seen.value.status in {RESOLVED, TRIAGE_REQUIRED} then
      left == Some(Row(OPEN, Data(seen.value.data.flapCount + 1, None))) && reply == Dispatched
    else if seen.value.status in {OPEN, INVESTIGATING, FACTS_COLLECTED, HYPOTHESIS_GENERATED, FIX_PROPOSED} then
      left == seen && reply == Deduplicated
    else left == Some(Row(OPEN, Data(0, None))) && reply == Dispatched
  }

  function RowOf(rows: Rows, id: string): Option<Row> {
    if id in rows then Some(rows[id]) else None
  }

  /** The decision table of the webhook: every kind of alert on every status. */
  lemma {:induction false} EachAlertIsHandled(rows: Rows, alerts: seq<Alert>)
    requires alerts != []
    ensures var (before, replies0) := HandleAll(rows, alerts[..|alerts| - 1]);
            var (after, replies) := HandleAll(rows, alerts);
            var a := alerts[|alerts| - 1];
            && |replies| == |replies0| + 1 && replies[..|replies0|] == replies0
            && Handles(a, RowOf(before, a.incident), RowOf(after, a.incident), replies[|replies0|])
            && (forall id | id != a.incident :: RowOf(after, id) == RowOf(before, id))
  {
  }

  // ---- resolves that come late --------------------------------------------------------------------

  lemma {:induction false} RunPrefix(start: Rows, steps: seq<Step>, p: nat)
    requires Run(start, steps).Some? && p <= |steps|
    ensures Run(start, steps[..p]).Some?
    ensures p < |steps| ==> Enabled(Run(start, steps[..p]).value, steps[p])
    ensures p < |steps| ==> Run(start, steps[..p + 1]) == Some(Apply(Run(start, steps[..p]).value, steps[p]))
    decreases |steps|
  {
    var before := steps[..|steps| - (if steps == [] then 0 else 1)];
    if p == |steps| {
      assert steps[..p] == steps;
    } else {
      if p + 1 == |steps| {
        assert steps[..p + 1] == steps && steps[..p] == before;
      } else {
        RunPrefix(start, before, p);
        assert before[..p] == steps[..p] && before[..p + 1] == steps[..p + 1];
      }
    }
  }

  /** The state before step `p` of a run. */
  ghost function At(start: Rows, steps: seq<Step>, p: nat): System
    requires Run(start, steps).Some? && p <= |steps|
  {
    RunPrefix(start, steps, p);
    Run(start, steps[..p]).value
  }

  ghost predicate MayResolveAt(start: Rows, steps: seq<Step>, p: nat, id: string)
    requires Run(start, steps).Some? && p <= |steps|
  {
    id in At(start, steps, p).rows && At(start, steps, p).rows[id].status.MayResolve()
  }

  /** Step `p` took the row out of the statuses that may resolve, and it was out until step `m`. */
  ghost predicate LeftFor(start: Rows, steps: seq<Step>, p: nat, m: nat, id: string)
    requires Run(start, steps).Some? && p < m <= |steps|
  {
    MayResolveAt(start, steps, p, id) && forall q | p < q <= m :: !MayResolveAt(start, steps, q, id)
  }

  lemma {:induction false} LeftIfOut(start: Rows, steps: seq<Step>, lo: nat, hi: nat, id: string) returns (p: nat)
    requires Run(start, steps).Some? && lo <= hi <= |steps|
    requires MayResolveAt(start, steps, lo, id) && !MayResolveAt(start, steps, hi, id)
    ensures lo <= p < hi && LeftFor(start, steps, p, hi, id)
    decreases hi
  {
    if MayResolveAt(start, steps, hi - 1, id) {
      p := hi - 1;
    } else {
      p := LeftIfOut(start, steps, lo, hi - 1, id);
    }
  }

  lemma {:induction false} StepKeepsPlan(s: System, x: Step, r: nat, f: Phase, id: string)
    requires Enabled(s, x) && f.Planned? && id in s.rows && r in s.requests
    requires s.requests[r] == f || !s.requests[r].Planned?
    ensures var s' := Apply(s, x);
            id in s'.rows && r in s'.requests && (s'.requests[r] == f || !s'.requests[r].Planned?)
  {
  }

  /** A planned request keeps its plan until it acts, and no row ever goes away. */
  lemma {:induction false} PlanStays(start: Rows, steps: seq<Step>, n: nat, m: nat, r: nat, f: Phase, id: string)
    requires Run(start, steps).Some? && n <= m <= |steps|
    requires r in At(start, steps, n).requests && At(start, steps, n).requests[r] == f && f.Planned?
    requires id in At(start, steps, n).rows
    ensures id in At(start, steps, m).rows && r in At(start, steps, m).requests
    ensures At(start, steps, m).requests[r] == f || !At(start, steps, m).requests[r].Planned?
    decreases m
  {
    if n < m {
      PlanStays(start, steps, n, m - 1, r, f, id);
      RunPrefix(start, steps, m - 1);
      StepKeepsPlan(At(start, steps, m - 1), steps[m - 1], r, f, id);
    }
  }

  /** A request reads the current row and, later in the run, writes RESOLVED. */
  ghost predicate Resolves(start: Rows, steps: seq<Step>, n: nat, m: nat, a: Alert)
    requires Run(start, steps).Some? && n < m < |steps|
  {
    && steps[n].Read? && steps[n].alert == a && steps[n].seen == Current(At(start, steps, n), a.incident)
    && Route(a, steps[n].seen).WriteResolved? && steps[m] == Act(steps[n].request)
  }

  /** The write of a resolve takes an illegal edge iff the row left the statuses that may resolve after
      the read and was still out at the write; otherwise the edge is legal. */
  lemma {:induction false} ResolveIsIllegalIffRowLeft(start: Rows, steps: seq<Step>, n: nat, m: nat, a: Alert)
    requires Run(start, steps).Some? && n < m < |steps| && Resolves(start, steps, n, m, a)
    ensures a.incident in At(start, steps, m).rows
    ensures At(start, steps, m + 1).log ==
            At(start, steps, m).log + [Written(a.incident, At(start, steps, m).rows[a.incident].status, RESOLVED)]
    ensures At(start, steps, m + 1).rows ==
            At(start, steps, m).rows[a.incident := Row(RESOLVED, At(start, steps, m).rows[a.incident].data)]
    ensures !At(start, steps, m).rows[a.incident].status.MayResolve() <==>
            exists p | n < p < m :: LeftFor(start, steps, p, m, a.incident)
  {
    RunPrefix(start, steps, n);
    RunPrefix(start, steps, m);
    var f := At(start, steps, n + 1).requests[steps[n].request];
    PlanStays(start, steps, n + 1, m, steps[n].request, f, a.incident);
    assert MayResolveAt(start, steps, n + 1, a.incident);
    if !MayResolveAt(start, steps, m, a.incident) {
      var p := LeftIfOut(start, steps, n + 1, m, a.incident);
      assert n < p < m && LeftFor(start, steps, p, m, a.incident);
    }
  }

  lemma {:induction false} RunSnoc(start: Rows, steps: seq<Step>, s: System, x: Step)
    requires Run(start, steps) == Some(s) && Enabled(s, x)
    ensures Run(start, steps + [x]) == Some(Apply(s, x))
  {
    assert (steps + [x])[..|steps|] == steps;
  }

  /** A pipeline step between the read and the write of a resolve, and the write closes an incident
      that waits for approval. */
  lemma {:induction false} LateResolveWritesIllegally(id: string, d: Data) returns (steps: seq<Step>)
    ensures var end := Run(map[id := Row(FIX_PROPOSED, d)], steps);
            && end.Some? && |end.value.log| == 2
            && end.value.log[1] == Written(id, APPROVAL_PENDING, RESOLVED) && !APPROVAL_PENDING.MayResolve()
  {
    var a := Alert(id, true, true, true);
    var start: Rows := map[id := Row(FIX_PROPOSED, d)];
    var s0 := System(start, map[], []);
    var x, y := Read(0, a, Current(s0, id)), Pipeline(id, Row(APPROVAL_PENDING, d));
    var s1 := Apply(s0, x);
    var s2 := Apply(s1, y);
    RunSnoc(start, [], s0, x);
    RunSnoc(start, [] + [x], s1, y);
    RunSnoc(start, [] + [x] + [y], s2, Act(0));
    steps := [] + [x] + [y] + [Act(0)];
  }

  /** A deferred resolve writes back the flap count it read: it keeps the current one iff that is the one. */
  lemma {:induction false} DeferredResolveKeepsFlapsIffReadIsCurrent(rows: Rows, a: Alert, seen: Row)
    requires a.incident in rows && Route(a, Some(seen)).DeferResolve?
    ensures var after := Perform(rows, a.incident, Route(a, Some(seen))).0;
            && after[a.incident].status == rows[a.incident].status
            && after[a.incident].data.resolvePendingFrom == Some(seen.status)
            && (after[a.incident].data.flapCount == rows[a.incident].data.flapCount
                <==> seen.data.flapCount == rows[a.incident].data.flapCount)
  {
  }

  /** A deferring resolve has read a row with `f` flaps, and the pipeline ends. */
  lemma {:induction false} PipelineEnds(id: string, f: nat, s: System) returns (steps: seq<Step>, s': System)
    requires s == System(map[id := Row(INVESTIGATING, Data(f, None))], map[], [])
    ensures Run(s.rows, steps) == Some(s')
    ensures s'.rows == map[id := Row(TRIAGE_REQUIRED, Data(f, None))]
    ensures s'.requests == map[0 := Planned(Alert(id, true, true, true), DeferResolve(INVESTIGATING, Data(f, None)))]
    ensures |s'.log| == 1
  {
    var w, x := Read(0, Alert(id, true, true, true), Current(s, id)), Pipeline(id, Row(TRIAGE_REQUIRED, Data(f, None)));
    var s1 := Apply(s, w);
    RunSnoc(s.rows, [], s, w);
    RunSnoc(s.rows, [w], s1, x);
    steps := [w] + [x];
    s' := Apply(s1, x);
  }

  /** Then a re-fire claims the row. */
  lemma {:induction false} FlapIsCounted(id: string, f: nat, s: System) returns (steps: seq<Step>, s': System)
    requires s == System(map[id := Row(INVESTIGATING, Data(f, None))], map[], [])
    ensures Run(s.rows, steps) == Some(s')
    ensures s'.rows == map[id := Row(OPEN, Data(f + 1, None))]
    ensures 0 in s'.requests
    ensures s'.requests[0] == Planned(Alert(id, true, true, true), DeferResolve(INVESTIGATING, Data(f, None)))
    ensures |s'.log| == 2 && s'.log[1] == Swapped(id, Alert(id, true, false, true), TRIAGE_REQUIRED)
  {
    var s2: System;
    steps, s2 := PipelineEnds(id, f, s);
    var y := Read(1, Alert(id, true, false, true), Current(s2, id));
    var s3 := Apply(s2, y);
    RunSnoc(s.rows, steps, s2, y);
    RunSnoc(s.rows, steps + [y], s3, Act(1));
    steps := steps + [y] + [Act(1)];
    s' := Apply(s3, Act(1));
  }

  /** So the flap that a re-fire has just counted can be lost again, from any count. */
  lemma {:induction false} DeferredResolveUndoesFlap(id: string, f: nat) returns (steps: seq<Step>)
    ensures var end := Run(map[id := Row(INVESTIGATING, Data(f, None))], steps);
            && end.Some? && |end.value.log| == 2
            && end.value.log[1] == Swapped(id, Alert(id, true, false, true), TRIAGE_REQUIRED)
            && end.value.rows == map[id := Row(OPEN, Data(f, Some(INVESTIGATING)))]
  {
    var start := System(map[id := Row(INVESTIGATING, Data(f, None))], map[], []);
    var before, s := FlapIsCounted(id, f, start);
    RunSnoc(start.rows, before, s, Act(0));
    steps := before + [Act(0)];
  }

  /** A re-fire counts one more flap than the row it replaces iff the flap count it read is the current one. */
  lemma {:induction false} FlapCountIsExactIffReadIsCurrent(rows: Rows, a: Alert, seen: Row)
    requires a.incident in rows && rows[a.incident].status == seen.status && seen.status in {RESOLVED, TRIAGE_REQUIRED}
    requires a.valid && !a.resolved && a.inScope
    ensures var after := Perform(rows, a.incident, Route(a, Some(seen))).0;
            after[a.incident].data.flapCount == rows[a.incident].data.flapCount + 1
            <==> seen.data.flapCount == rows[a.incident].data.flapCount
  {
  }

  // ---- one request handled alone ---------------------------------------------------------------------

  function DispatchesIn(replies: seq<Reply>, alerts: seq<Alert>, id: string): nat
    requires |replies| == |alerts|
  {
    if alerts == [] then 0
    else
      var last := |alerts| - 1;
      DispatchesIn(replies[..last], alerts[..last], id)
      + if alerts[last].incident == id && replies[last].Dispatched? then 1 else 0
  }

  function ResolvesIn(alerts: seq<Alert>, id: string): nat {
    if alerts == [] then 0
    else
      var last := |alerts| - 1;
      ResolvesIn(alerts[..last], id) + if alerts[last].incident == id && alerts[last].resolved then 1 else 0
  }

  function Free(rows: Rows, id: string): nat {
    if id in rows && rows[id].status.InSkip() then 0 else 1
  }

  lemma {:induction false} OneAlertBound(rows: Rows, a: Alert, id: string)
    ensures var p := Route(a, if a.incident in rows then Some(rows[a.incident]) else None);
            var (after, won) := Perform(rows, a.incident, p);
            (if a.incident == id && ReplyTo(p, won).Dispatched? then 1 else 0) + Free(after, id)
            <= Free(rows, id) + (if a.incident == id && a.resolved then 1 else 0)
  {
  }

  /** Repeats inside one batch are deduplicated: at most one dispatch, plus one per resolve in it. */
  lemma {:induction false} BatchDispatchBound(rows: Rows, alerts: seq<Alert>, id: string)
    ensures |HandleAll(rows, alerts).1| == |alerts|
    ensures var (after, replies) := HandleAll(rows, alerts);
            DispatchesIn(replies, alerts, id) + Free(after, id) <= Free(rows, id) + ResolvesIn(alerts, id)
  {
    if alerts != [] {
      var last := |alerts| - 1;
      BatchDispatchBound(rows, alerts[..last], id);
      var (before, replies) := HandleAll(rows, alerts[..last]);
      var (after, replies') := HandleAll(rows, alerts);
      assert replies'[..last] == replies;
      OneAlertBound(before, alerts[last], id);
    }
  }
}
