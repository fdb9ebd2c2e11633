/**
  Node namespaces: a TTL cache, a single-flight table and a circuit breaker shared by
  many threads (app/context/deployments.py).

  `Table` holds the three module variables that `_node_ns_lock` protects.  Each function
  on `Table` is one critical section; class `NodeNamespaceState` performs the same sections
  in place.  The rest of the module lets any number of calls interleave, one critical
  section or one unlocked action at a time, over a clock that never goes back.
*/
module SingleFlight {
  import opened Common

  type Time = real
  type Node = string
  type Snapshot = seq<(string, nat, bool)>

  const TTL: Time := 30.0

  // ---- the state under the lock -------------------------------------------------------

  datatype Entry = Entry(at: Time, snapshot: Snapshot)

  datatype Table = Table(cache: map<Node, Entry>, inflight: map<Node, nat>, downUntil: Time)

  /** What `_node_ns_cached_or_down` says: answer now, or go to the API. */
  datatype Lookup = Hit(value: Option<Snapshot>) | Miss

  function CachedOrDown(t: Table, node: Node, now: Time): Lookup {
    if node in t.cache && now - t.cache[node].at < TTL then Hit(Some(t.cache[node].snapshot))
    else if now < t.downUntil then Hit(None)
    else Miss
  }

  /** What a call does after its first critical section. */
  datatype Decision = Answer(value: Option<Snapshot>) | Own(flight: nat) | Join(flight: nat)

  function Decide(t: Table, node: Node, now: Time, newFlight: nat): Decision {
    match CachedOrDown(t, node, now)
    case Hit(v) => Answer(v)
    case Miss => if node in t.inflight then Join(t.inflight[node]) else Own(newFlight)
  }

  function AfterEnter(t: Table, node: Node, d: Decision): Table {
    if d.Own? then t.(inflight := t.inflight[node := d.flight]) else t
  }

  function AfterPublish(t: Table, node: Node, now: Time, result: Option<Snapshot>): Table {
    Table(
      if result.Some? then t.cache[node := Entry(now, result.value)] else t.cache,
      t.inflight - {node},
      t.downUntil)
  }

  function AfterTrip(t: Table, now: Time): Table {
    t.(downUntil := now + TTL)
  }

  /** The module variables, changed in place by the four critical sections. */
  class NodeNamespaceState {
    var cache: map<Node, Entry>
    var inflight: map<Node, nat>
    var downUntil: Time
    var nextFlight: nat

    ghost function View(): Table
      reads this
    {
      Table(cache, inflight, downUntil)
    }

    constructor ()
      ensures View() == Table(map[], map[], 0.0) && nextFlight == 0
    {
      cache, inflight, downUntil, nextFlight := map[], map[], 0.0, 0;
    }

    method CachedOrDownNow(node: Node, now: Time) returns (hit: bool, value: Option<Snapshot>)
      ensures (if hit then Hit(value) else Miss) == CachedOrDown(View(), node, now)
      ensures !hit ==> value == None
    {
      if node in cache && now - cache[node].at < TTL {
        return true, Some(cache[node].snapshot);
      }
      return now < downUntil, None;
    }

    method Enter(node: Node, now: Time) returns (d: Decision)
      modifies this
      ensures d == Decide(old(View()), node, now, old(nextFlight))
      ensures View() == AfterEnter(old(View()), node, d)
      ensures nextFlight == old(nextFlight) + (if d.Own? then 1 else 0)
    {
      var hit, value := CachedOrDownNow(node, now);
      if hit {
        return Answer(value);
      }
      if node in inflight {
        return Join(inflight[node]);
      }
      d := Own(nextFlight);
      inflight := inflight[node := nextFlight];
      nextFlight := nextFlight + 1;
    }

    method Publish(node: Node, now: Time, result: Option<Snapshot>)
      modifies this`cache, this`inflight
      ensures View() == AfterPublish(old(View()), node, now, result)
    {
      if result.Some? {
        cache := cache[node := Entry(now, result.value)];
      }
      inflight := inflight - {node};
    }

    method TripBreaker(now: Time)
      modifies this`downUntil
      ensures View() == AfterTrip(old(View()), now)
    {
      downUntil := now + TTL;
    }
  }

  // ---- the protocol -------------------------------------------------------------------

  /** Where one call of `fetch_node_namespaces` stands. */
  datatype Phase =
    | Waiting(node: Node, flight: nat)
    | Querying(node: Node, flight: nat, since: Time)
    | Tripping(node: Node, flight: nat, since: Time)
    | Publishing(node: Node, flight: nat, since: Time, result: Option<Snapshot>, raised: bool)
    | Signalling(node: Node, flight: nat, result: Option<Snapshot>, raised: bool)
    | Rechecking(node: Node)
    | Returned(answer: Option<Snapshot>)
    | Raised
  {
    /** The call entered its query and has not yet left the in-flight table. */
    predicate Owns() {
      Querying? || Tripping? || Publishing?
    }

    /** The call still has to set its event. */
    predicate Holds() {
      Owns() || Signalling?
    }
  }

  datatype Source = FromCache | FromWait | FromQuery

  datatype Record =
    | Admitted(node: Node, at: Time)
    | Published(node: Node, at: Time, snapshot: Snapshot)
    | Tripped(at: Time)
    | Answered(node: Node, at: Time, answer: Option<Snapshot>, source: Source)

  datatype System = System(
    table: Table,
    now: Time,
    nextFlight: nat,
    signalled: set<nat>,
    calls: map<nat, Phase>,
    log: seq<Record>)

  datatype Outcome = Listed(snapshot: Snapshot) | NoConfig | ApiError | Escaped

  datatype Action =
    | Enter(node: Node)
    | Query(outcome: Outcome)
    | Trip
    | Publish
    | Signal
    | Wake
    | TimeOut
    | Recheck

  /** Call `call` performs `action` at time `at`. */
  datatype Step = Step(call: nat, at: Time, action: Action)

  function Init(start: Time): System {
    System(Table(map[], map[], 0.0), start, 0, {}, map[], [])
  }

  predicate Enabled(s: System, x: Step) {
    && s.now <= x.at
    && match x.action
       case Enter(_) => x.call !in s.calls
       case Query(_) => x.call in s.calls && s.calls[x.call].Querying?
       case Trip => x.call in s.calls && s.calls[x.call].Tripping?
       case Publish => x.call in s.calls && s.calls[x.call].Publishing?
       case Signal => x.call in s.calls && s.calls[x.call].Signalling?
       case Wake => x.call in s.calls && s.calls[x.call].Waiting? && s.calls[x.call].flight in s.signalled
       case TimeOut => x.call in s.calls && s.calls[x.call].Waiting?
       case Recheck => x.call in s.calls && s.calls[x.call].Rechecking?
  }

  function Apply(s: System, x: Step): System
    requires Enabled(s, x)
  {
    var c, t := x.call, x.at;
    match x.action
    case Enter(node) =>
      if node == "" then
        s.(now := t, calls := s.calls[c := Returned(None)])
      else
        var d := Decide(s.table, node, t, s.nextFlight);
        var s' := s.(now := t, table := AfterEnter(s.table, node, d));
        (match d
         case Answer(v) => s'.(calls := s.calls[c := Returned(v)], log := s.log + [Answered(node, t, v, FromCache)])
         case Join(f) => s'.(calls := s.calls[c := Waiting(node, f)])
         case Own(f) => s'.(calls := s.calls[c := Querying(node, f, t)], nextFlight := s.nextFlight + 1,
                            log := s.log + [Admitted(node, t)]))
    case Query(outcome) =>
      var Querying(node, f, since) := s.calls[c];
      var phase := match outcome
        case Listed(v) => Publishing(node, f, since, Some(v), false)
        case NoConfig => Publishing(node, f, since, None, false)
        case ApiError => Tripping(node, f, since)
        case Escaped => Publishing(node, f, since, None, true);
      s.(now := t, calls := s.calls[c := phase])
    case Trip =>
      var Tripping(node, f, since) := s.calls[c];
      s.(now := t, table := AfterTrip(s.table, t), calls := s.calls[c := Publishing(node, f, since, None, false)],
         log := s.log + [Tripped(t)])
    case Publish =>
      var Publishing(node, f, _, result, raised) := s.calls[c];
      s.(now := t, table := AfterPublish(s.table, node, t, result),
         calls := s.calls[c := Signalling(node, f, result, raised)],
         log := if result.Some? then s.log + [Published(node, t, result.value)] else s.log)
    case Signal =>
      var Signalling(node, f, result, raised) := s.calls[c];
      s.(now := t, signalled := s.signalled + {f},
         calls := s.calls[c := if raised then Raised else Returned(result)],
         log := if raised then s.log else s.log + [Answered(node, t, result, FromQuery)])
    case Wake => s.(now := t, calls := s.calls[c := Rechecking(s.calls[c].node)])
    case TimeOut => s.(now := t, calls := s.calls[c := Rechecking(s.calls[c].node)])
    case Recheck =>
      var node := s.calls[c].node;
      var l := CachedOrDown(s.table, node, t);
      var v := if l.Hit? then l.value else None;
      s.(now := t, calls := s.calls[c := Returned(v)], log := s.log + [Answered(node, t, v, FromWait)])
  }

  /** The state after a run, or None when some step of it was not enabled. */
  function Run(start: Time, steps: seq<Step>): Option<System> {
    if steps == [] then Some(Init(start))
    else
      var last := |steps| - 1;
      match Run(start, steps[..last])
      case None => None
      case Some(s) => if Enabled(s, steps[last]) then Some(Apply(s, steps[last])) else None
  }

  // ---- ownership: who holds a node and its event ---------------------------------------

  ghost predicate FlightsAreOwned(s: System) {
    && (forall n | n in s.table.inflight :: HasOwner(s, n, s.table.inflight[n]))
    && (forall c | c in s.calls && s.calls[c].Owns() ::
          s.calls[c].node in s.table.inflight && s.table.inflight[s.calls[c].node] == s.calls[c].flight)
  }

  ghost predicate HasOwner(s: System, node: Node, flight: nat) {
    exists c :: c in s.calls && s.calls[c].Owns() && s.calls[c].node == node && s.calls[c].flight == flight
  }

  ghost predicate FlightsAreFresh(s: System) {
    && (forall c | c in s.calls && s.calls[c].Holds() ::
          s.calls[c].flight < s.nextFlight && s.calls[c].flight !in s.signalled)
    && (forall c, d | c in s.calls && d in s.calls && s.calls[c].Holds() && s.calls[d].Holds() ::
          s.calls[c].flight == s.calls[d].flight ==> c == d)
    && (forall f | f in s.signalled :: f < s.nextFlight)
  }

  ghost predicate WaitersAreServed(s: System) {
    forall w | w in s.calls && s.calls[w].Waiting? ::
      s.calls[w].flight < s.nextFlight &&
      (s.calls[w].flight in s.signalled || HasHolder(s, s.calls[w].flight))
  }

  ghost predicate HasHolder(s: System, flight: nat) {
    exists c :: c in s.calls && s.calls[c].Holds() && s.calls[c].flight == flight
  }

  ghost predicate Ownership(s: System) {
    FlightsAreOwned(s) && FlightsAreFresh(s) && WaitersAreServed(s)
  }

  /** Call `c` is the only one whose phase differs between the two states. */
  ghost predicate OnlyMoves(s: System, s': System, c: nat, p: Phase) {
    s'.calls == s.calls[c := p]
  }

  ghost predicate SameHold(s: System, c: nat, p: Phase) {
    if c in s.calls then
      && s.calls[c].Owns() == p.Owns() && s.calls[c].Holds() == p.Holds()
      && (p.Holds() ==> s.calls[c].node == p.node && s.calls[c].flight == p.flight)
    else !p.Holds()
  }

  /** A call that keeps what it holds, or that starts to wait for a held or set event. */
  lemma {:induction false} KeepsHold(s: System, s': System, c: nat, p: Phase)
    requires Ownership(s) && OnlyMoves(s, s', c, p) && SameHold(s, c, p)
    requires s'.table.inflight == s.table.inflight
    requires s'.nextFlight == s.nextFlight && s'.signalled == s.signalled
    requires p.Waiting? ==> p.flight < s.nextFlight && HasHolder(s, p.flight)
    ensures Ownership(s')
  {
    OwnersRemain(s, s', c, p, {});
    HoldersRemain(s, s', c, p);
  }

  lemma {:induction false} OwnersRemain(s: System, s': System, c: nat, p: Phase, gone: set<Node>)
    requires OnlyMoves(s, s', c, p)
    requires c in s.calls && s.calls[c].Owns() ==>
               s.calls[c].node in gone || (p.Owns() && p.node == s.calls[c].node && p.flight == s.calls[c].flight)
    ensures forall n, f | HasOwner(s, n, f) && n !in gone :: HasOwner(s', n, f)
  {
    forall n, f | HasOwner(s, n, f) && n !in gone
      ensures HasOwner(s', n, f)
    {
      var d :| d in s.calls && s.calls[d].Owns() && s.calls[d].node == n && s.calls[d].flight == f;
      assert d in s'.calls && s'.calls[d].Owns() && s'.calls[d].node == n && s'.calls[d].flight == f;
    }
  }

  lemma {:induction false} HoldersRemain(s: System, s': System, c: nat, p: Phase)
    requires OnlyMoves(s, s', c, p)
    requires c in s.calls && s.calls[c].Holds() ==> p.Holds() && p.flight == s.calls[c].flight
    ensures forall f | HasHolder(s, f) :: HasHolder(s', f)
  {
    forall f | HasHolder(s, f)
      ensures HasHolder(s', f)
    {
      var d :| d in s.calls && s.calls[d].Holds() && s.calls[d].flight == f;
      assert d in s'.calls && s'.calls[d].Holds() && s'.calls[d].flight == f;
    }
  }

  lemma {:induction false} OwningKeepsOwnership(s: System, s': System, c: nat, node: Node, at: Time)
    requires Ownership(s) && c !in s.calls && node !in s.table.inflight
    requires OnlyMoves(s, s', c, Querying(node, s.nextFlight, at))
    requires s'.table.inflight == s.table.inflight[node := s.nextFlight]
    requires s'.nextFlight == s.nextFlight + 1 && s'.signalled == s.signalled
    ensures Ownership(s')
  {
    assert s'.calls[c].Owns();
    assert HasOwner(s', node, s.nextFlight);
    OwnersRemain(s, s', c, s'.calls[c], {});
    HoldersRemain(s, s', c, s'.calls[c]);
  }

  lemma {:induction false} PublishingKeepsOwnership(s: System, s': System, c: nat, p: Phase)
    requires Ownership(s) && c in s.calls && s.calls[c].Publishing? && p.Signalling?
    requires p.node == s.calls[c].node && p.flight == s.calls[c].flight
    requires OnlyMoves(s, s', c, p)
    requires s'.table.inflight == s.table.inflight - {p.node}
    requires s'.nextFlight == s.nextFlight && s'.signalled == s.signalled
    ensures Ownership(s')
  {
    OwnersRemain(s, s', c, p, {p.node});
    forall d | d in s'.calls && s'.calls[d].Owns()
      ensures s'.calls[d].node in s'.table.inflight
    {
      assert d in s.calls && s.calls[d].Owns() && d != c;
    }
    HoldersRemain(s, s', c, p);
  }

  ghost predicate Signals(s: System, s': System, c: nat, p: Phase) {
    && c in s.calls && s.calls[c].Signalling? && (p.Returned? || p.Raised?)
    && OnlyMoves(s, s', c, p)
    && s'.table.inflight == s.table.inflight && s'.nextFlight == s.nextFlight
    && s'.signalled == s.signalled + {s.calls[c].flight}
  }

  lemma {:induction false} SignallingKeepsFlightsFresh(s: System, s': System, c: nat, p: Phase)
    requires FlightsAreFresh(s) && Signals(s, s', c, p)
    ensures FlightsAreFresh(s')
  {
    forall d | d in s'.calls && s'.calls[d].Holds()
      ensures s'.calls[d].flight < s'.nextFlight && s'.calls[d].flight !in s'.signalled
    {
      assert d != c && s.calls[d].Holds() && s.calls[c].Holds();
    }
  }

  lemma {:induction false} SignallingKeepsWaitersServed(s: System, s': System, c: nat, p: Phase)
    requires WaitersAreServed(s) && Signals(s, s', c, p)
    ensures WaitersAreServed(s')
  {
    forall w | w in s'.calls && s'.calls[w].Waiting? && s'.calls[w].flight !in s'.signalled
      ensures HasHolder(s', s'.calls[w].flight)
    {
      assert w in s.calls && s.calls[w].Waiting?;
      var d :| d in s.calls && s.calls[d].Holds() && s.calls[d].flight == s.calls[w].flight;
      assert d in s'.calls && s'.calls[d].Holds() && s'.calls[d].flight == s'.calls[w].flight;
    }
  }

  lemma {:induction false} SignallingKeepsOwnership(s: System, s': System, c: nat, p: Phase)
    requires Ownership(s) && Signals(s, s', c, p)
    ensures Ownership(s')
  {
    OwnersRemain(s, s', c, p, {});
    SignallingKeepsFlightsFresh(s, s', c, p);
    SignallingKeepsWaitersServed(s, s', c, p);
  }

  lemma {:induction false} EnterKeepsOwnership(s: System, x: Step)
    requires Ownership(s) && Enabled(s, x) && x.action.Enter?
    ensures Ownership(Apply(s, x))
  {
    var s', node := Apply(s, x), x.action.node;
    var d := Decide(s.table, node, x.at, s.nextFlight);
    if node == "" || d.Answer? {
      KeepsHold(s, s', x.call, s'.calls[x.call]);
    } else if d.Own? {
      OwningKeepsOwnership(s, s', x.call, node, x.at);
    } else {
      assert HasOwner(s, node, d.flight);
      assert HasHolder(s, d.flight);
      KeepsHold(s, s', x.call, s'.calls[x.call]);
    }
  }

  lemma {:induction false} StepKeepsOwnership(s: System, x: Step)
    requires Ownership(s) && Enabled(s, x)
    ensures Ownership(Apply(s, x))
  {
    var s' := Apply(s, x);
    match x.action
    case Enter(_) => EnterKeepsOwnership(s, x);
    case Publish => PublishingKeepsOwnership(s, s', x.call, s'.calls[x.call]);
    case Signal => SignallingKeepsOwnership(s, s', x.call, s'.calls[x.call]);
    case _ => KeepsHold(s, s', x.call, s'.calls[x.call]);
  }

  // ---- time stamps: how the table and the open queries relate to the history -----------

  ghost predicate CacheIsLatest(s: System) {
    && (forall i | 0 <= i < |s.log| && s.log[i].Published? ::
          s.log[i].node in s.table.cache && s.log[i].at <= s.table.cache[s.log[i].node].at)
    && (forall n | n in s.table.cache :: WasPublished(s.log, n, s.table.cache[n]))
  }

  ghost predicate WasPublished(log: seq<Record>, n: Node, e: Entry) {
    exists i :: 0 <= i < |log| && log[i] == Published(n, e.at, e.snapshot)
  }

  ghost predicate StampsArePast(s: System) {
    && (forall i | 0 <= i < |s.log| :: s.log[i].at <= s.now)
    && (forall i | 0 <= i < |s.log| && s.log[i].Tripped? :: s.log[i].at + TTL <= s.table.downUntil)
  }

  ghost predicate OwnersSawNoFreshEntry(s: System) {
    forall c | c in s.calls && s.calls[c].Owns() :: SawNoFreshEntry(s, c)
  }

  ghost predicate Stamps(s: System) {
    CacheIsLatest(s) && StampsArePast(s) && OwnersSawNoFreshEntry(s)
  }

  lemma {:induction false} LogGrows(s: System, x: Step)
    requires Enabled(s, x)
    ensures var s' := Apply(s, x);
            && s.log <= s'.log && |s'.log| <= |s.log| + 1 && s.now <= s'.now == x.at
            && (|s'.log| == |s.log| + 1 ==> s'.log[|s.log|].at == x.at)
  {
  }

  lemma {:induction false} OnlyPublishFillsCache(s: System, x: Step)
    requires Enabled(s, x) && !x.action.Publish?
    ensures var s' := Apply(s, x);
            s'.table.cache == s.table.cache && (|s'.log| > |s.log| ==> !s'.log[|s.log|].Published?)
  {
  }

  lemma {:induction false} PublishedLater(log: seq<Record>, log': seq<Record>, n: Node, e: Entry)
    requires log <= log' && WasPublished(log, n, e)
    ensures WasPublished(log', n, e)
  {
    var i :| 0 <= i < |log| && log[i] == Published(n, e.at, e.snapshot);
    assert log'[i] == log[i];
  }

  lemma {:induction false} StepKeepsCacheLatest(s: System, x: Step)
    requires CacheIsLatest(s) && StampsArePast(s) && Enabled(s, x)
    ensures CacheIsLatest(Apply(s, x))
  {
    var s' := Apply(s, x);
    LogGrows(s, x);
    if x.action.Publish? {
      PublishKeepsCacheLatest(s, x);
    } else {
      OnlyPublishFillsCache(s, x);
      forall n | n in s.table.cache
        ensures WasPublished(s'.log, n, s.table.cache[n])
      {
        PublishedLater(s.log, s'.log, n, s.table.cache[n]);
      }
      assert forall i | 0 <= i < |s'.log| && s'.log[i].Published? :: i < |s.log| && s'.log[i] == s.log[i];
    }
  }

  lemma {:induction false} PublishKeepsCacheLatest(s: System, x: Step)
    requires CacheIsLatest(s) && StampsArePast(s) && Enabled(s, x) && x.action.Publish?
    ensures CacheIsLatest(Apply(s, x))
  {
    var s' := Apply(s, x);
    var p := s.calls[x.call];
    forall n | n in s'.table.cache
      ensures WasPublished(s'.log, n, s'.table.cache[n])
    {
      if p.result.Some? && n == p.node {
        assert s'.log[|s.log|] == Published(n, x.at, p.result.value);
      } else {
        PublishedLater(s.log, s'.log, n, s.table.cache[n]);
      }
    }
  }

  lemma {:induction false} StepKeepsStampsPast(s: System, x: Step)
    requires StampsArePast(s) && Enabled(s, x)
    ensures StampsArePast(Apply(s, x))
  {
    LogGrows(s, x);
  }

  lemma {:induction false} OwnerIsUnique(s: System, c: nat, d: nat)
    requires Ownership(s) && c in s.calls && d in s.calls && s.calls[c].Owns() && s.calls[d].Owns()
    requires s.calls[c].node == s.calls[d].node
    ensures c == d
  {
    assert s.calls[c].flight == s.table.inflight[s.calls[c].node] == s.calls[d].flight;
  }

  /** The cache has no fresh entry for the node of call `c`, as of the time it was admitted. */
  ghost predicate SawNoFreshEntry(s: System, c: nat)
    requires c in s.calls && s.calls[c].Owns()
  {
    && s.calls[c].since <= s.now
    && (s.calls[c].node in s.table.cache ==> s.table.cache[s.calls[c].node].at + TTL <= s.calls[c].since)
  }

  lemma {:induction false} PublishKeepsOwnerStale(s: System, x: Step, c: nat)
    requires Ownership(s) && OwnersSawNoFreshEntry(s) && Enabled(s, x) && x.action.Publish?
    requires c in Apply(s, x).calls && Apply(s, x).calls[c].Owns()
    ensures SawNoFreshEntry(Apply(s, x), c)
  {
    assert c != x.call && c in s.calls && s.calls[c].Owns() && SawNoFreshEntry(s, c);
    if s.calls[c].node == s.calls[x.call].node {
      OwnerIsUnique(s, c, x.call);
    }
  }

  lemma {:induction false} EnterKeepsOwnerStale(s: System, x: Step, c: nat)
    requires OwnersSawNoFreshEntry(s) && Enabled(s, x) && x.action.Enter?
    requires c in Apply(s, x).calls && Apply(s, x).calls[c].Owns()
    ensures SawNoFreshEntry(Apply(s, x), c)
  {
    if c != x.call {
      assert SawNoFreshEntry(s, c);
    }
  }

  lemma {:induction false} StepKeepsOwnersStale(s: System, x: Step)
    requires Ownership(s) && OwnersSawNoFreshEntry(s) && Enabled(s, x)
    ensures OwnersSawNoFreshEntry(Apply(s, x))
  {
    var s' := Apply(s, x);
    forall c | c in s'.calls && s'.calls[c].Owns()
      ensures SawNoFreshEntry(s', c)
    {
      if x.action.Publish? {
        PublishKeepsOwnerStale(s, x, c);
      } else if x.action.Enter? {
        EnterKeepsOwnerStale(s, x, c);
      } else {
        assert c in s.calls && s.calls[c].Owns() && SawNoFreshEntry(s, c);
      }
    }
  }

  // ---- the history: what a whole run promises -------------------------------------------

  /** Successive successful publishes for one node are at least a TTL apart. */
  ghost predicate PublishesAreSpaced(log: seq<Record>) {
    forall i, j | 0 <= i < j < |log| && log[i].Published? && log[j].Published? && log[i].node == log[j].node ::
      log[i].at + TTL <= log[j].at
  }

  /** After a trip no query starts, for any node, until a TTL has passed. */
  ghost predicate TripsHoldOff(log: seq<Record>) {
    forall i, j | 0 <= i < j < |log| && log[i].Tripped? && log[j].Admitted? :: log[i].at + TTL <= log[j].at
  }

  /** An answer taken from the table is a snapshot of that node, published less than a TTL ago. */
  ghost predicate AnswersAreFresh(log: seq<Record>) {
    forall j | 0 <= j < |log| && log[j].Answered? && log[j].source != FromQuery && log[j].answer.Some? ::
      IsFreshAnswer(log, j)
  }

  ghost predicate IsFreshAnswer(log: seq<Record>, j: nat)
    requires j < |log| && log[j].Answered? && log[j].answer.Some?
  {
    exists i :: 0 <= i < j && log[i] == Published(log[j].node, log[i].at, log[j].answer.value)
                && log[i].at <= log[j].at < log[i].at + TTL
  }

  /** For a TTL after a publish every table answer for that node is that snapshot, whatever else fails. */
  ghost predicate FreshIsNeverHidden(log: seq<Record>) {
    forall i, j | 0 <= i < j < |log| && log[i].Published? && log[j].Answered? && log[j].source != FromQuery
                  && log[i].node == log[j].node && log[j].at < log[i].at + TTL ::
      log[j].answer == Some(log[i].snapshot)
  }

  ghost predicate History(log: seq<Record>) {
    PublishesAreSpaced(log) && TripsHoldOff(log) && AnswersAreFresh(log) && FreshIsNeverHidden(log)
  }

  /** A fresh publish is the cached entry: later publishes for the node would be too close to it. */
  lemma {:induction false} FreshPublishIsCached(s: System, i: nat, now: Time)
    requires Stamps(s) && PublishesAreSpaced(s.log) && s.now <= now
    requires i < |s.log| && s.log[i].Published? && now < s.log[i].at + TTL
    ensures s.log[i].node in s.table.cache
    ensures s.table.cache[s.log[i].node] == Entry(s.log[i].at, s.log[i].snapshot)
  {
    var n := s.log[i].node;
    var e := s.table.cache[n];
    var k :| 0 <= k < |s.log| && s.log[k] == Published(n, e.at, e.snapshot);
    assert s.log[k].at <= s.now && s.log[i].at <= e.at;
    assert k == i;
  }

  lemma {:induction false} FreshAnswerStays(log: seq<Record>, log': seq<Record>, j: nat)
    requires log <= log' && j < |log| && log[j].Answered? && log[j].answer.Some? && IsFreshAnswer(log, j)
    ensures IsFreshAnswer(log', j)
  {
    var i :| 0 <= i < j && log[i] == Published(log[j].node, log[i].at, log[j].answer.value)
             && log[i].at <= log[j].at < log[i].at + TTL;
    assert log'[i] == log[i] && log'[j] == log[j];
  }

  lemma {:induction false} AnswerKeepsHistory(s: System, node: Node, at: Time, answer: Option<Snapshot>, source: Source)
    requires Stamps(s) && History(s.log) && s.now <= at
    requires source != FromQuery ==>
      answer == (match CachedOrDown(s.table, node, at) case Hit(v) => v case Miss => None)
    ensures History(s.log + [Answered(node, at, answer, source)])
  {
    var log' := s.log + [Answered(node, at, answer, source)];
    forall j | 0 <= j < |log'| && log'[j].Answered? && log'[j].source != FromQuery && log'[j].answer.Some?
      ensures IsFreshAnswer(log', j)
    {
      if j < |s.log| {
        FreshAnswerStays(s.log, log', j);
      } else {
        var e := s.table.cache[node];
        var i :| 0 <= i < |s.log| && s.log[i] == Published(node, e.at, e.snapshot);
        assert log'[i] == Published(node, log'[i].at, answer.value);
      }
    }
    forall i | 0 <= i < |s.log| && s.log[i].Published? && s.log[i].node == node && source != FromQuery
               && at < s.log[i].at + TTL
      ensures answer == Some(s.log[i].snapshot)
    {
      FreshPublishIsCached(s, i, at);
    }
  }

  lemma {:induction false} OtherRecordKeepsHistory(s: System, r: Record)
    requires Stamps(s) && History(s.log) && !r.Answered?
    requires r.Published? ==> r.node in s.table.cache ==> s.table.cache[r.node].at + TTL <= r.at
    requires r.Admitted? ==> s.table.downUntil <= r.at
    ensures History(s.log + [r])
  {
    var log' := s.log + [r];
    forall j | 0 <= j < |log'| && log'[j].Answered? && log'[j].source != FromQuery && log'[j].answer.Some?
      ensures IsFreshAnswer(log', j)
    {
      FreshAnswerStays(s.log, log', j);
    }
  }

  lemma {:induction false} StepKeepsHistory(s: System, x: Step)
    requires Ownership(s) && Stamps(s) && History(s.log) && Enabled(s, x)
    ensures History(Apply(s, x).log)
  {
    var s' := Apply(s, x);
    LogGrows(s, x);
    if s'.log == s.log { return; }
    var r := s'.log[|s.log|];
    assert s'.log == s.log + [r];
    if r.Answered? {
      AnswerKeepsHistory(s, r.node, x.at, r.answer, r.source);
    } else {
      OtherRecordKeepsHistory(s, r);
    }
  }

  // ---- the results over every run -------------------------------------------------------

  lemma {:induction false} EveryRunIsSound(start: Time, steps: seq<Step>)
    requires Run(start, steps).Some?
    ensures Ownership(Run(start, steps).value) && Stamps(Run(start, steps).value)
            && History(Run(start, steps).value.log)
  {
    if steps != [] {
      var last := |steps| - 1;
      EveryRunIsSound(start, steps[..last]);
      var s, x := Run(start, steps[..last]).value, steps[last];
      StepKeepsOwnership(s, x);
      StepKeepsCacheLatest(s, x);
      StepKeepsStampsPast(s, x);
      StepKeepsOwnersStale(s, x);
      StepKeepsHistory(s, x);
    }
  }

  /** A node is in the in-flight table iff exactly one call owns its query. */
  lemma {:induction false} OneOwnerPerNode(start: Time, steps: seq<Step>, node: Node)
    requires Run(start, steps).Some?
    ensures var s := Run(start, steps).value;
            && (node in s.table.inflight <==> exists c :: c in s.calls && s.calls[c].Owns() && s.calls[c].node == node)
            && (forall c, d | c in s.calls && d in s.calls && s.calls[c].Owns() && s.calls[d].Owns()
                              && s.calls[c].node == node == s.calls[d].node :: c == d)
  {
    EveryRunIsSound(start, steps);
    var s := Run(start, steps).value;
    if node in s.table.inflight {
      assert HasOwner(s, node, s.table.inflight[node]);
    }
    forall c, d | c in s.calls && d in s.calls && s.calls[c].Owns() && s.calls[d].Owns()
                  && s.calls[c].node == node == s.calls[d].node
      ensures c == d
    {
      OwnerIsUnique(s, c, d);
    }
  }

  /** The steps a holder still has to take, whatever its query will come back with. */
  function Remaining(c: nat, p: Phase, at: Time, outcome: Outcome): seq<Step>
    requires p.Holds()
  {
    var tail := [Step(c, at, Signal)];
    match p
    case Signalling(_, _, _, _) => tail
    case Publishing(_, _, _, _, _) => [Step(c, at, Publish)] + tail
    case Tripping(_, _, _) => [Step(c, at, Trip), Step(c, at, Publish)] + tail
    case Querying(_, _, _) =>
      (if outcome.ApiError? then [Step(c, at, Query(outcome)), Step(c, at, Trip), Step(c, at, Publish)]
       else [Step(c, at, Query(outcome)), Step(c, at, Publish)]) + tail
  }

  lemma {:induction false} RemainingSteps(c: nat, p: Phase, at: Time, outcome: Outcome)
    requires p.Holds()
    ensures 1 <= |Remaining(c, p, at, outcome)| <= 4
    ensures forall x | x in Remaining(c, p, at, outcome) ::
              x.call == c && (x.action.Query? ==> x.action.outcome == outcome)
  {
  }

  /** A step that leaves every other call where it is. */
  ghost predicate OthersStay(s: System, s': System, c: nat) {
    s'.calls.Keys == s.calls.Keys && forall d | d in s.calls && d != c :: s'.calls[d] == s.calls[d]
  }

  /** What the first remaining step of a holder does. */
  lemma {:induction false} HolderStep(s: System, c: nat, outcome: Outcome, rest: seq<Step>)
    requires c in s.calls && s.calls[c].Holds() && rest == Remaining(c, s.calls[c], s.now, outcome)
    ensures |rest| >= 1 && Enabled(s, rest[0])
    ensures OthersStay(s, Apply(s, rest[0]), c)
    ensures |rest| == 1 ==> s.calls[c].flight in Apply(s, rest[0]).signalled
    ensures |rest| > 1 ==> Apply(s, rest[0]).calls[c].Holds() && Apply(s, rest[0]).calls[c].flight == s.calls[c].flight
    ensures |rest| > 1 ==> Remaining(c, Apply(s, rest[0]).calls[c], Apply(s, rest[0]).now, outcome) == rest[1..]
  {
  }

  lemma {:induction false} RunSnoc(start: Time, steps: seq<Step>, x: Step)
    requires Run(start, steps).Some? && Enabled(Run(start, steps).value, x)
    ensures Run(start, steps + [x]) == Some(Apply(Run(start, steps).value, x))
  {
    assert (steps + [x])[..|steps|] == steps;
  }

  /** Whatever the outcome of its query, a holder sets its event in at most four steps of its own. */
  lemma {:induction false} HolderCanFinish(start: Time, steps: seq<Step>, c: nat, outcome: Outcome)
    requires Run(start, steps).Some?
    requires c in Run(start, steps).value.calls && Run(start, steps).value.calls[c].Holds()
    ensures var s := Run(start, steps).value;
            var rest := Remaining(c, s.calls[c], s.now, outcome);
            && |rest| <= 4
            && Run(start, steps + rest).Some?
            && s.calls[c].flight in Run(start, steps + rest).value.signalled
            && (forall d | d in s.calls && d != c ::
                  d in Run(start, steps + rest).value.calls && Run(start, steps + rest).value.calls[d] == s.calls[d])
    decreases |Remaining(c, Run(start, steps).value.calls[c], Run(start, steps).value.now, outcome)|
  {
    var s := Run(start, steps).value;
    var rest := Remaining(c, s.calls[c], s.now, outcome);
    RemainingSteps(c, s.calls[c], s.now, outcome);
    HolderStep(s, c, outcome, rest);
    RunSnoc(start, steps, rest[0]);
    if |rest| == 1 {
      assert rest == [rest[0]];
    } else {
      HolderCanFinish(start, steps + [rest[0]], c, outcome);
      assert steps + [rest[0]] + rest[1..] == steps + rest;
    }
  }

  /** No lost wakeup: a waiter's event is set, or some call can still set it, in at most four
      steps of its own and whatever the outcome of its query. */
  lemma {:induction false} NoLostWakeup(start: Time, steps: seq<Step>, w: nat, outcome: Outcome)
      returns (rest: seq<Step>)
    requires Run(start, steps).Some?
    requires w in Run(start, steps).value.calls && Run(start, steps).value.calls[w].Waiting?
    ensures |rest| <= 4 && Run(start, steps + rest).Some?
    ensures forall x | x in rest :: x.call != w && (x.action.Query? ==> x.action.outcome == outcome)
    ensures var s' := Run(start, steps + rest).value; Enabled(s', Step(w, s'.now, Wake))
  {
    EveryRunIsSound(start, steps);
    var s := Run(start, steps).value;
    if s.calls[w].flight in s.signalled {
      rest := [];
      assert steps + rest == steps;
    } else {
      assert HasHolder(s, s.calls[w].flight);
      var c :| c in s.calls && s.calls[c].Holds() && s.calls[c].flight == s.calls[w].flight;
      rest := Remaining(c, s.calls[c], s.now, outcome);
      RemainingSteps(c, s.calls[c], s.now, outcome);
      HolderCanFinish(start, steps, c, outcome);
    }
  }

  /** What the history of every run satisfies. */
  lemma {:induction false} EveryHistory(start: Time, steps: seq<Step>)
    requires Run(start, steps).Some?
    ensures PublishesAreSpaced(Run(start, steps).value.log)
    ensures TripsHoldOff(Run(start, steps).value.log)
    ensures AnswersAreFresh(Run(start, steps).value.log)
    ensures FreshIsNeverHidden(Run(start, steps).value.log)
  {
    EveryRunIsSound(start, steps);
  }

  // ---- what a call answers is what its own query listed --------------------------------------

  /** The node that call `c` asked for. */
  function NodeOf(steps: seq<Step>, c: nat): Node {
    if steps == [] then ""
    else
      var x := steps[|steps| - 1];
      if x.call == c && x.action.Enter? then x.action.node else NodeOf(steps[..|steps| - 1], c)
  }

  /** What the query of call `c` came back with. */
  function OutcomeOf(steps: seq<Step>, c: nat): Option<Outcome> {
    if steps == [] then None
    else
      var x := steps[|steps| - 1];
      if x.call == c && x.action.Query? then Some(x.action.outcome) else OutcomeOf(steps[..|steps| - 1], c)
  }

  /** Call `c` has tripped the breaker. */
  ghost predicate TrippedBy(steps: seq<Step>, c: nat) {
    exists n :: 0 <= n < |steps| && steps[n].call == c && steps[n].action.Trip?
  }

  /** The answer that an outcome stands for. */
  function Yield(o: Outcome): Option<Snapshot> {
    match o
    case Listed(v) => Some(v)
    case _ => None
  }

  /** The query came back with `result`, and a failed one has tripped the breaker. */
  ghost predicate CameBack(steps: seq<Step>, c: nat, result: Option<Snapshot>, raised: bool) {
    && OutcomeOf(steps, c).Some?
    && result == Yield(OutcomeOf(steps, c).value) && raised == OutcomeOf(steps, c).value.Escaped?
    && (OutcomeOf(steps, c).value.ApiError? ==> TrippedBy(steps, c))
  }

  /** A call stands where the steps so far have brought it. */
  ghost predicate Stands(steps: seq<Step>, c: nat, p: Phase) {
    match p
    case Waiting(node, _) => node == NodeOf(steps, c) && OutcomeOf(steps, c).None?
    case Querying(node, _, _) => node == NodeOf(steps, c) && OutcomeOf(steps, c).None?
    case Tripping(node, _, _) => node == NodeOf(steps, c) && OutcomeOf(steps, c) == Some(ApiError)
    case Publishing(node, _, _, result, raised) => node == NodeOf(steps, c) && CameBack(steps, c, result, raised)
    case Signalling(node, _, result, raised) => node == NodeOf(steps, c) && CameBack(steps, c, result, raised)
    case Rechecking(node) => node == NodeOf(steps, c) && OutcomeOf(steps, c).None?
    case Returned(answer) => OutcomeOf(steps, c).Some? ==> CameBack(steps, c, answer, false)
    case Raised => CameBack(steps, c, None, true)
  }

  ghost predicate AllStand(steps: seq<Step>, s: System) {
    && (forall c | c in s.calls :: Stands(steps, c, s.calls[c]))
    && (forall c | c !in s.calls :: OutcomeOf(steps, c).None?)
  }

  lemma {:induction false} OthersStand(steps: seq<Step>, x: Step, c: nat, p: Phase)
    requires Stands(steps, c, p) && x.call != c
    ensures Stands(steps + [x], c, p)
  {
    assert (steps + [x])[..|steps|] == steps;
    if TrippedBy(steps, c) {
      var n :| 0 <= n < |steps| && steps[n].call == c && steps[n].action.Trip?;
      assert (steps + [x])[n] == steps[n];
    }
  }

  lemma {:induction false} OwnStands(steps: seq<Step>, s: System, x: Step)
    requires AllStand(steps, s) && Enabled(s, x)
    ensures x.call in Apply(s, x).calls && Stands(steps + [x], x.call, Apply(s, x).calls[x.call])
  {
    var c, all := x.call, steps + [x];
    assert all[..|steps|] == steps && all[|steps|] == x;
    if TrippedBy(steps, c) {
      var n :| 0 <= n < |steps| && steps[n].call == c && steps[n].action.Trip?;
      assert all[n] == steps[n];
    }
    assert x.action.Trip? ==> TrippedBy(all, c);
  }

  lemma {:induction false} StepKeepsStanding(steps: seq<Step>, s: System, x: Step)
    requires AllStand(steps, s) && Enabled(s, x)
    ensures AllStand(steps + [x], Apply(s, x))
  {
    var s' := Apply(s, x);
    OwnStands(steps, s, x);
    forall c | c in s'.calls
      ensures Stands(steps + [x], c, s'.calls[c])
    {
      if c != x.call {
        assert c in s.calls && s'.calls[c] == s.calls[c];
        OthersStand(steps, x, c, s.calls[c]);
      }
    }
    assert (steps + [x])[..|steps|] == steps;
  }

  lemma {:induction false} EveryCallStands(start: Time, steps: seq<Step>)
    requires Run(start, steps).Some?
    ensures AllStand(steps, Run(start, steps).value)
  {
    if steps != [] {
      var last := |steps| - 1;
      EveryCallStands(start, steps[..last]);
      StepKeepsStanding(steps[..last], Run(start, steps[..last]).value, steps[last]);
      assert steps == steps[..last] + [steps[last]];
    }
  }

  /** A call that asked the API returns the snapshot listed for it, None after a failure, and raises iff
      its query raised; a failed query has tripped the breaker by then. */
  lemma {:induction false} CallsAnswerTheirQuery(start: Time, steps: seq<Step>, c: nat)
    requires Run(start, steps).Some? && c in Run(start, steps).value.calls && OutcomeOf(steps, c).Some?
    ensures var p, o := Run(start, steps).value.calls[c], OutcomeOf(steps, c).value;
            && (p.Returned? ==> !o.Escaped? && p.answer == if o.Listed? then Some(o.snapshot) else None)
            && (p.Raised? ==> o.Escaped?)
            && (p.Returned? && o.ApiError? ==> TrippedBy(steps, c))
  {
    EveryCallStands(start, steps);
  }

  /** Each of the three closing steps of a call, by the node it asked for and what its query came back with:
      only a trip after a failure, only the listed snapshot into cache and history, only its own answer. */
  lemma {:induction false} ClosingSteps(start: Time, steps: seq<Step>, x: Step)
    requires Run(start, steps).Some? && Enabled(Run(start, steps).value, x)
    requires x.action.Trip? || x.action.Publish? || x.action.Signal?
    ensures OutcomeOf(steps, x.call).Some?
    ensures var s, s' := Run(start, steps).value, Apply(Run(start, steps).value, x);
            var node, o := NodeOf(steps, x.call), OutcomeOf(steps, x.call).value;
            && (x.action.Trip? ==>
                  o.ApiError? && s'.log == s.log + [Tripped(x.at)] && s'.table.downUntil == x.at + 30.0)
            && (x.action.Publish? && o.Listed? ==>
                  s'.log == s.log + [Published(node, x.at, o.snapshot)]
                  && s'.table.cache == s.table.cache[node := Entry(x.at, o.snapshot)])
            && (x.action.Publish? && !o.Listed? ==> s'.log == s.log && s'.table.cache == s.table.cache)
            && (x.action.Publish? && o.ApiError? ==> TrippedBy(steps, x.call))
            && (x.action.Signal? && o.Listed? ==> s'.log == s.log + [Answered(node, x.at, Some(o.snapshot), FromQuery)])
            && (x.action.Signal? && (o.NoConfig? || o.ApiError?) ==>
                  s'.log == s.log + [Answered(node, x.at, None, FromQuery)])
            && (x.action.Signal? && o.Escaped? ==> s'.log == s.log && s'.calls[x.call].Raised?)
  {
    EveryCallStands(start, steps);
  }

  // ---- an answer of nothing means the breaker is open -----------------------------------------------

  ghost predicate DownSince(log: seq<Record>, until: Time) {
    exists i :: 0 <= i < |log| && log[i].Tripped? && log[i].at + TTL == until
  }

  /** A call turned away without a snapshot came within a TTL after a trip (or before time zero). */
  ghost predicate NoneMeansDown(log: seq<Record>) {
    forall j | 0 <= j < |log| && log[j].Answered? && log[j].source.FromCache? && log[j].answer.None? ::
      log[j].at < 0.0 || TrippedWithinTtl(log, j)
  }

  ghost predicate TrippedWithinTtl(log: seq<Record>, j: nat)
    requires j < |log|
  {
    exists i :: 0 <= i < j && log[i].Tripped? && log[j].at < log[i].at + TTL
  }

  ghost predicate DownIsTripped(s: System) {
    NoneMeansDown(s.log) && (s.table.downUntil == 0.0 || DownSince(s.log, s.table.downUntil))
  }

  lemma {:induction false} TripsStay(log: seq<Record>, r: Record, until: Time)
    ensures DownSince(log, until) ==> DownSince(log + [r], until)
    ensures NoneMeansDown(log) ==>
              forall j | 0 <= j < |log| && log[j].Answered? && log[j].source.FromCache? && log[j].answer.None? ::
                log[j].at < 0.0 || TrippedWithinTtl(log + [r], j)
  {
    if DownSince(log, until) {
      var i :| 0 <= i < |log| && log[i].Tripped? && log[i].at + TTL == until;
      assert (log + [r])[i] == log[i];
    }
    forall j | 0 <= j < |log| && TrippedWithinTtl(log, j)
      ensures TrippedWithinTtl(log + [r], j)
    {
      var i :| 0 <= i < j && log[i].Tripped? && log[j].at < log[i].at + TTL;
      assert (log + [r])[i] == log[i] && (log + [r])[j] == log[j];
    }
  }

  lemma {:induction false} StepKeepsDownTripped(s: System, x: Step)
    requires DownIsTripped(s) && Enabled(s, x)
    ensures DownIsTripped(Apply(s, x))
  {
    var s' := Apply(s, x);
    LogGrows(s, x);
    if s'.log == s.log { return; }
    var n, r := |s.log|, s'.log[|s.log|];
    assert s'.log == s.log + [r] && s'.log[n] == r;
    TripsStay(s.log, r, s.table.downUntil);
    if r.Answered? && r.source.FromCache? && r.answer.None? && r.at >= 0.0 {
      var i :| 0 <= i < n && s.log[i].Tripped? && s.log[i].at + TTL == s.table.downUntil;
      assert s'.log[i] == s.log[i] && TrippedWithinTtl(s'.log, n);
    }
  }

  /** In every run a call is turned away only within a TTL after a trip. */
  lemma {:induction false} TurnedAwayOnlyWhenDown(start: Time, steps: seq<Step>)
    requires Run(start, steps).Some?
    ensures DownIsTripped(Run(start, steps).value)
  {
    if steps != [] {
      var last := |steps| - 1;
      TurnedAwayOnlyWhenDown(start, steps[..last]);
      StepKeepsDownTripped(Run(start, steps[..last]).value, steps[last]);
    }
  }

  /** A call that enters within a TTL after a publish for its node gets that snapshot at once; one that
      enters within a TTL after a trip returns at once; any other waits or asks. */
  lemma {:induction false} EnterAnswersAtOnce(start: Time, steps: seq<Step>, x: Step, i: nat)
    requires Run(start, steps).Some? && Enabled(Run(start, steps).value, x) && x.action.Enter? && x.action.node != ""
    requires i < |Run(start, steps).value.log|
    ensures var r, p := Run(start, steps).value.log[i], Apply(Run(start, steps).value, x).calls[x.call];
            && (r.Published? && r.node == x.action.node && x.at < r.at + 30.0 ==> p == Returned(Some(r.snapshot)))
            && (r.Tripped? && x.at < r.at + 30.0 ==> p.Returned?)
            && (p.Returned? || p.Waiting? || p.Querying?)
  {
    EveryRunIsSound(start, steps);
    var s := Run(start, steps).value;
    if s.log[i].Published? && s.log[i].node == x.action.node && x.at < s.log[i].at + TTL {
      FreshPublishIsCached(s, i, x.at);
    }
  }

  // ---- runs there are -----------------------------------------------------------------------------------

  /** Everything starts empty: nothing cached, nobody asking, the breaker closed from time zero on. */
  lemma {:induction false} NothingAtStart(start: Time)
    ensures Run(start, []).Some?
    ensures var s := Run(start, []).value;
            && s.table.cache == map[] && s.table.inflight == map[] && s.table.downUntil == 0.0
            && s.calls == map[] && s.log == [] && s.now == start
  {
  }

  /** No call is ever stuck: at any time from now on a new call can enter, a waiting one can give up waiting,
      and one that has waited can look again and return. */
  lemma {:induction false} NoCallIsStuck(start: Time, steps: seq<Step>, c: nat, at: Time, node: Node)
    requires Run(start, steps).Some? && Run(start, steps).value.now <= at
    ensures var s := Run(start, steps).value;
            && (c !in s.calls ==> Run(start, steps + [Step(c, at, Enter(node))]).Some?)
            && (c !in s.calls ==>
                  Run(start, steps + [Step(c, at, Enter(""))]) ==
                  Some(s.(now := at, calls := s.calls[c := Returned(None)])))
            && (c in s.calls && s.calls[c].Waiting? ==>
                  Run(start, steps + [Step(c, at, TimeOut)]).Some?
                  && Run(start, steps + [Step(c, at, TimeOut)]).value.calls[c] == Rechecking(s.calls[c].node))
            && (c in s.calls && s.calls[c].Rechecking? ==>
                  Run(start, steps + [Step(c, at, Recheck)]).Some?
                  && Run(start, steps + [Step(c, at, Recheck)]).value.calls[c].Returned?)
            && (c in s.calls && s.calls[c].Holds() ==>
                  forall o: Outcome :: Enabled(s, Remaining(c, s.calls[c], at, o)[0]))
  {
    var s := Run(start, steps).value;
    if c !in s.calls {
      RunSnoc(start, steps, Step(c, at, Enter(node)));
      RunSnoc(start, steps, Step(c, at, Enter("")));
    } else if s.calls[c].Waiting? {
      RunSnoc(start, steps, Step(c, at, TimeOut));
    } else if s.calls[c].Rechecking? {
      RunSnoc(start, steps, Step(c, at, Recheck));
    }
  }
}
