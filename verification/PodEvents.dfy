/**
  The pod events known at a moment (`_pod_events`, app/context/kg_incident_context.py): the rows
  of the query, clipped at `asOf`, one per (namespace, pod, reason), ranked and cut.

  A row is a mutable aggregate: `last` and `count` are rewritten later.  What the selection keeps is stated
  as a relation (`Picks`), and two tables that differ only in the future are compared through it.
*/
module PodEvents {
  import opened Common
  import opened StableSort

  const POD_EVENT_SCAN := 400
  const POD_EVENTS_KEEP := 40
  const SEVEN_DAYS := 7 * 24 * 60 * 60

  /** A stored row; times are seconds. */
  datatype Row = Row(
    namespace: string, pod: string, reason: string, service: string, kind: string, message: string,
    count: Option<int>, first: Option<int>, last: Option<int>)

  /** An emitted event. */
  datatype PodEvent = PodEvent(
    namespace: string, pod: string, reason: string, service: string, kind: string, message: string,
    count: Option<int>, firstSeen: int, lastSeen: int)

  datatype Key = Key(namespace: string, pod: string, reason: string)

  datatype Scope = Scope(namespace: string, asOf: int, windowMin: nat)

  function KeyOf(r: Row): Key {
    Key(r.namespace, r.pod, r.reason)
  }

  function EventKey(e: PodEvent): Key {
    Key(e.namespace, e.pod, e.reason)
  }

  /** `coalesce(last_seen, first_seen)` */
  function LastAct(r: Row): Option<int> {
    if r.last.Some? then r.last else r.first
  }

  predicate Usable(r: Row) {
    r.first.Some?
  }

  function Clip(r: Row, asOf: int): int
    requires Usable(r)
  {
    Min(LastAct(r).value, asOf)
  }

  function EventOf(r: Row, asOf: int): PodEvent
    requires Usable(r)
  {
    PodEvent(r.namespace, r.pod, r.reason, r.service, r.kind, r.message,
             if LastAct(r).value <= asOf then r.count else None,
             r.first.value, Clip(r, asOf))
  }

  // ---- the query --------------------------------------------------------------------------------

  predicate Matches(r: Row, namespaces: set<string>, scope: Scope) {
    && r.namespace in namespaces
    && r.first.Some?
    && scope.asOf - SEVEN_DAYS <= r.first.value <= scope.asOf
    && LastAct(r).value >= scope.asOf - 60 * scope.windowMin
  }

  /** `ORDER BY last_act DESC` */
  function Newest(r: Row): real {
    if LastAct(r).Some? then -(LastAct(r).value as real) else 0.0
  }

  function Found(table: seq<Row>, namespaces: set<string>, scope: Scope): seq<Row> {
    Filter(table, (r: Row) => Matches(r, namespaces, scope))
  }

  function Query(table: seq<Row>, namespaces: set<string>, scope: Scope): seq<Row> {
    var rows := Sort(Found(table, namespaces, scope), Newest);
    rows[..Min(POD_EVENT_SCAN, |rows|)]
  }

  // ---- the selection ------------------------------------------------------------------------------

  /** Row `i` is the first of the latest rows of its key, after clipping. */
  ghost predicate IsLatest(rows: seq<Row>, asOf: int, i: int) {
    && 0 <= i < |rows| && Usable(rows[i])
    && (forall j | 0 <= j < |rows| && Usable(rows[j]) && KeyOf(rows[j]) == KeyOf(rows[i]) ::
          if j < i then Clip(rows[j], asOf) < Clip(rows[i], asOf) else Clip(rows[j], asOf) <= Clip(rows[i], asOf))
  }

  ghost predicate DistinctKeys(events: seq<PodEvent>) {
    forall a, b | 0 <= a < b < |events| :: EventKey(events[a]) != EventKey(events[b])
  }

  ghost predicate Comes(rows: seq<Row>, asOf: int, e: PodEvent, i: int) {
    IsLatest(rows, asOf, i) && e == EventOf(rows[i], asOf)
  }

  ghost predicate Chosen(rows: seq<Row>, asOf: int, e: PodEvent) {
    exists i :: Comes(rows, asOf, e, i)
  }

  ghost predicate AllChosen(rows: seq<Row>, asOf: int, events: seq<PodEvent>) {
    forall a | 0 <= a < |events| :: Chosen(rows, asOf, events[a])
  }

  ghost predicate HasKey(events: seq<PodEvent>, k: Key) {
    exists a :: 0 <= a < |events| && EventKey(events[a]) == k
  }

  /** One event per key, each the latest row of its key. */
  ghost predicate Picks(rows: seq<Row>, asOf: int, events: seq<PodEvent>) {
    && DistinctKeys(events)
    && AllChosen(rows, asOf, events)
    && Covers(rows, events)
  }

  ghost predicate Covers(rows: seq<Row>, events: seq<PodEvent>) {
    forall i | 0 <= i < |rows| && Usable(rows[i]) :: HasKey(events, KeyOf(rows[i]))
  }

  /** Position of the event with key `k`, or the length. */
  method Find(events: seq<PodEvent>, k: Key) returns (a: nat)
    ensures a <= |events| && (a < |events| ==> EventKey(events[a]) == k)
    ensures forall b | 0 <= b < a :: EventKey(events[b]) != k
  {
    a := 0;
    while a < |events| && EventKey(events[a]) != k
      invariant a <= |events|
      invariant forall b | 0 <= b < a :: EventKey(events[b]) != k
    {
      a := a + 1;
    }
  }

  /** A row that is not usable, or older than what its key has, changes nothing. */
  lemma {:induction false} PickNone(rows: seq<Row>, asOf: int, events: seq<PodEvent>, r: Row, a: nat)
    requires Picks(rows, asOf, events)
    requires Usable(r) ==> a < |events| && EventKey(events[a]) == KeyOf(r) && Clip(r, asOf) <= events[a].lastSeen
    ensures Picks(rows + [r], asOf, events)
  {
    var all := rows + [r];
    forall b | 0 <= b < |events|
      ensures Chosen(all, asOf, events[b])
    {
      assert Chosen(rows, asOf, events[b]);
      var i :| Comes(rows, asOf, events[b], i);
      assert all[i] == rows[i];
      assert Comes(all, asOf, events[b], i);
    }
    KeysCovered(rows, events, r, events);
  }

  /** `events'` has the keys of `events` and of `r`. */
  lemma {:induction false} KeysCovered(rows: seq<Row>, events: seq<PodEvent>, r: Row, events': seq<PodEvent>)
    requires Covers(rows, events) && |events| <= |events'| && (Usable(r) ==> HasKey(events', KeyOf(r)))
    requires forall b | 0 <= b < |events| :: EventKey(events'[b]) == EventKey(events[b])
    ensures Covers(rows + [r], events')
  {
    var all := rows + [r];
    forall i | 0 <= i < |all| && Usable(all[i])
      ensures HasKey(events', KeyOf(all[i]))
    {
      if i < |rows| {
        assert HasKey(events, KeyOf(rows[i]));
        var b :| 0 <= b < |events| && EventKey(events[b]) == KeyOf(rows[i]);
        assert EventKey(events'[b]) == KeyOf(all[i]);
      }
    }
  }

  lemma {:induction false} PickReplaces(rows: seq<Row>, asOf: int, events: seq<PodEvent>, r: Row, a: nat)
    requires Picks(rows, asOf, events) && Usable(r) && a < |events|
    requires EventKey(events[a]) == KeyOf(r) && events[a].lastSeen < Clip(r, asOf)
    ensures Picks(rows + [r], asOf, events[a := EventOf(r, asOf)])
  {
    var all, events' := rows + [r], events[a := EventOf(r, asOf)];
    forall b | 0 <= b < |events'|
      ensures Chosen(all, asOf, events'[b])
    {
      if b == a {
        assert Comes(all, asOf, events'[b], |rows|);
      } else {
        assert Chosen(rows, asOf, events[b]);
        var i :| Comes(rows, asOf, events[b], i);
        assert Comes(all, asOf, events'[b], i);
      }
    }
    assert EventKey(events'[a]) == KeyOf(r);
    assert forall b | 0 <= b < |events| :: EventKey(events'[b]) == EventKey(events[b]);
    assert DistinctKeys(events');
    KeysCovered(rows, events, r, events');
  }

  lemma {:induction false} PickAppends(rows: seq<Row>, asOf: int, events: seq<PodEvent>, r: Row)
    requires Picks(rows, asOf, events) && Usable(r)
    requires forall b | 0 <= b < |events| :: EventKey(events[b]) != KeyOf(r)
    ensures Picks(rows + [r], asOf, events + [EventOf(r, asOf)])
  {
    var all, events' := rows + [r], events + [EventOf(r, asOf)];
    forall b | 0 <= b < |events'|
      ensures Chosen(all, asOf, events'[b])
    {
      if b == |events| {
        assert Comes(all, asOf, events'[b], |rows|);
      } else {
        assert Chosen(rows, asOf, events[b]);
        var i :| Comes(rows, asOf, events[b], i);
        assert Comes(all, asOf, events'[b], i);
      }
    }
    assert EventKey(events'[|events|]) == KeyOf(r);
    KeysCovered(rows, events, r, events');
  }

  /** The loop over the rows: keep the latest event of each key. */
  method Latest(rows: seq<Row>, asOf: int) returns (events: seq<PodEvent>)
    ensures Picks(rows, asOf, events)
  {
    events := [];
    for n := 0 to |rows|
      invariant Picks(rows[..n], asOf, events)
    {
      var r := rows[n];
      assert rows[..n + 1] == rows[..n] + [r];
      if r.first.None? {
        PickNone(rows[..n], asOf, events, r, 0);
        continue;
      }
      var e := EventOf(r, asOf);
      var a := Find(events, EventKey(e));
      if a == |events| {
        PickAppends(rows[..n], asOf, events, r);
        events := events + [e];
      } else if e.lastSeen > events[a].lastSeen {
        PickReplaces(rows[..n], asOf, events, r, a);
        events := events[a := e];
      } else {
        PickNone(rows[..n], asOf, events, r, a);
      }
    }
    assert rows[..|rows|] == rows;
  }

  // ---- the ranking ---------------------------------------------------------------------------------------

  /** Own namespace first, then warnings, then the newest. */
  predicate Precedes(a: PodEvent, b: PodEvent, namespace: string) {
    if (a.namespace == namespace) != (b.namespace == namespace) then a.namespace == namespace
    else if (a.kind == "Warning") != (b.kind == "Warning") then a.kind == "Warning"
    else a.lastSeen >= b.lastSeen
  }

  function Place(e: PodEvent, s: seq<PodEvent>, namespace: string): (r: seq<PodEvent>)
    ensures multiset(r) == multiset{e} + multiset(s)
  {
    if s == [] || Precedes(e, s[0], namespace) then [e] + s
    else
      assert s == [s[0]] + s[1..];
      [s[0]] + Place(e, s[1..], namespace)
  }

  function Ranked(s: seq<PodEvent>, namespace: string): (r: seq<PodEvent>)
    ensures multiset(r) == multiset(s)
  {
    if s == [] then []
    else
      assert s == [s[0]] + s[1..];
      Place(s[0], Ranked(s[1..], namespace), namespace)
  }

  ghost predicate InOrder(s: seq<PodEvent>, namespace: string) {
    forall a, b | 0 <= a < b < |s| :: Precedes(s[a], s[b], namespace)
  }

  lemma {:induction false} PlaceInOrder(e: PodEvent, s: seq<PodEvent>, namespace: string)
    requires InOrder(s, namespace)
    ensures InOrder(Place(e, s, namespace), namespace)
  {
    if s != [] && !Precedes(e, s[0], namespace) {
      PlaceInOrder(e, s[1..], namespace);
      var r := Place(e, s[1..], namespace);
      forall b | 0 <= b < |r|
        ensures Precedes(s[0], r[b], namespace)
      {
        assert r[b] in multiset(r);
        assert r[b] == e || r[b] in s[1..];
      }
    }
  }

  lemma {:induction false} RankedInOrder(s: seq<PodEvent>, namespace: string)
    ensures InOrder(Ranked(s, namespace), namespace)
  {
    if s != [] {
      RankedInOrder(s[1..], namespace);
      PlaceInOrder(s[0], Ranked(s[1..], namespace), namespace);
    }
  }

  /** When a row was last active. */
  function LastActive(r: Row): int
    requires r.first.Some?
  {
    if r.last.Some? then r.last.value else r.first.value
  }

  /** The event repeats the row; what the row says of the time after `asOf` is left out. */
  ghost predicate Shows(e: PodEvent, r: Row, asOf: int) {
    && r.first.Some? && e.firstSeen == r.first.value
    && e.namespace == r.namespace && e.pod == r.pod && e.reason == r.reason
    && e.service == r.service && e.kind == r.kind && e.message == r.message
    && (LastActive(r) <= asOf ==> e.lastSeen == LastActive(r) && e.count == r.count)
    && (LastActive(r) > asOf ==> e.lastSeen == asOf && e.count == None)
  }

  /** The event shows a row, and no row of its pod and reason was active later by `asOf`. */
  ghost predicate ShowsLatest(rows: seq<Row>, asOf: int, e: PodEvent) {
    && (exists i :: 0 <= i < |rows| && Shows(e, rows[i], asOf))
    && (forall j | 0 <= j < |rows| && rows[j].first.Some? && rows[j].namespace == e.namespace && rows[j].pod == e.pod
                   && rows[j].reason == e.reason :: LastActive(rows[j]) <= e.lastSeen || e.lastSeen == asOf)
  }

  lemma {:induction false} ChosenShowsLatest(rows: seq<Row>, asOf: int, e: PodEvent)
    requires Chosen(rows, asOf, e)
    ensures ShowsLatest(rows, asOf, e)
  {
    var i :| Comes(rows, asOf, e, i);
    assert Shows(e, rows[i], asOf);
    forall j | 0 <= j < |rows| && rows[j].first.Some? && rows[j].namespace == e.namespace && rows[j].pod == e.pod
               && rows[j].reason == e.reason
      ensures LastActive(rows[j]) <= e.lastSeen || e.lastSeen == asOf
    {
      assert KeyOf(rows[j]) == KeyOf(rows[i]);
    }
  }

  /** The three parts of the sort key, one inside the other. */
  ghost predicate OwnThenWarningsThenNewest(events: seq<PodEvent>, namespace: string) {
    forall a, b | 0 <= a < b < |events| ::
      && (events[b].namespace == namespace ==> events[a].namespace == namespace)
      && ((events[a].namespace == namespace <==> events[b].namespace == namespace) ==>
            && (events[b].kind == "Warning" ==> events[a].kind == "Warning")
            && ((events[a].kind == "Warning" <==> events[b].kind == "Warning")
                ==> events[a].lastSeen >= events[b].lastSeen))
  }

  function Cut(events: seq<PodEvent>): seq<PodEvent> {
    events[..Min(POD_EVENTS_KEEP, |events|)]
  }

  /** `_pod_events`, given the rows of the query. */
  method PodEventsOf(rows: seq<Row>, scope: Scope) returns (events: seq<PodEvent>, ghost latest: seq<PodEvent>)
    ensures Picks(rows, scope.asOf, latest)
    ensures events == Cut(Ranked(latest, scope.namespace))
    ensures InOrder(events, scope.namespace) && DistinctKeys(events)
    ensures forall a | 0 <= a < |events| :: events[a].lastSeen <= scope.asOf
    ensures forall a | 0 <= a < |events| :: ShowsLatest(rows, scope.asOf, events[a])
    ensures OwnThenWarningsThenNewest(events, scope.namespace)
    ensures |events| <= 40 && (|latest| <= 40 ==> |events| == |latest|)
  {
    var all := Latest(rows, scope.asOf);
    latest := all;
    events := Cut(Ranked(all, scope.namespace));
    RankedInOrder(all, scope.namespace);
    RankedFacts(rows, scope, all);
    CutIsRanked(all, scope.namespace);
    CutShowsLatest(rows, scope, all);
  }

  lemma {:induction false} CutIsRanked(latest: seq<PodEvent>, namespace: string)
    ensures OwnThenWarningsThenNewest(Cut(Ranked(latest, namespace)), namespace)
    ensures |Cut(Ranked(latest, namespace))| == Min(40, |latest|)
  {
    var ranked := Ranked(latest, namespace);
    RankedInOrder(latest, namespace);
    assert |multiset(ranked)| == |multiset(latest)|;
    forall a, b | 0 <= a < b < |Cut(ranked)|
      ensures Precedes(Cut(ranked)[a], Cut(ranked)[b], namespace)
    {
      assert Precedes(ranked[a], ranked[b], namespace);
    }
  }

  lemma {:induction false} CutShowsLatest(rows: seq<Row>, scope: Scope, latest: seq<PodEvent>)
    requires Picks(rows, scope.asOf, latest)
    ensures forall a | 0 <= a < |Cut(Ranked(latest, scope.namespace))| ::
              ShowsLatest(rows, scope.asOf, Cut(Ranked(latest, scope.namespace))[a])
  {
    var events := Cut(Ranked(latest, scope.namespace));
    RankedFacts(rows, scope, latest);
    forall a | 0 <= a < |events|
      ensures ShowsLatest(rows, scope.asOf, events[a])
    {
      assert events[a] in Ranked(latest, scope.namespace);
      var k :| 0 <= k < |latest| && latest[k] == events[a];
      assert Chosen(rows, scope.asOf, latest[k]);
      ChosenShowsLatest(rows, scope.asOf, events[a]);
    }
  }

  lemma {:induction false} DistinctIffMultiset(s: seq<PodEvent>, t: seq<PodEvent>)
    requires DistinctKeys(s) && multiset(s) == multiset(t)
    ensures DistinctKeys(t)
  {
    forall a, b | 0 <= a < b < |t|
      ensures EventKey(t[a]) != EventKey(t[b])
    {
      if EventKey(t[a]) == EventKey(t[b]) {
        assert t == t[..b] + [t[b]] + t[b + 1..];
        assert t[a] == t[..b][a];
        assert t[a] in multiset(t[..b]);
        assert t[a] in multiset(s) && t[b] in multiset(s);
        var i :| 0 <= i < |s| && s[i] == t[a];
        var j :| 0 <= j < |s| && s[j] == t[b];
        assert i == j;
        OnceInMultiset(s, i);
      }
    }
  }

  lemma {:induction false} OnceInMultiset(s: seq<PodEvent>, i: nat)
    requires DistinctKeys(s) && i < |s|
    ensures multiset(s)[s[i]] == 1
  {
    assert s == s[..i] + [s[i]] + s[i + 1..];
    assert s[i] !in s[..i] && s[i] !in s[i + 1..];
    assert s[i] !in multiset(s[..i]) && s[i] !in multiset(s[i + 1..]);
  }

  lemma {:induction false} RankedFacts(rows: seq<Row>, scope: Scope, latest: seq<PodEvent>)
    requires Picks(rows, scope.asOf, latest)
    ensures DistinctKeys(Ranked(latest, scope.namespace))
    ensures forall e | e in Ranked(latest, scope.namespace) :: e in latest && e.lastSeen <= scope.asOf
  {
    var ranked := Ranked(latest, scope.namespace);
    DistinctIffMultiset(latest, ranked);
    forall e | e in ranked
      ensures e in latest && e.lastSeen <= scope.asOf
    {
      assert e in multiset(ranked);
      var a :| 0 <= a < |latest| && latest[a] == e;
      assert Chosen(rows, scope.asOf, latest[a]);
      var i :| Comes(rows, scope.asOf, latest[a], i);
    }
  }

  // ---- the future does not show ----------------------------------------------------------------------------

  predicate UpdatedLater(r: Row, asOf: int) {
    r.last.Some? && r.last.value > asOf
  }

  /** The same row, except that both versions were updated after `asOf`, to different values. */
  predicate SameUntil(r: Row, r': Row, asOf: int) {
    r == r' || (UpdatedLater(r, asOf) && UpdatedLater(r', asOf) && r' == r.(last := r'.last, count := r'.count))
  }

  ghost predicate SameTableUntil(t: seq<Row>, t': seq<Row>, asOf: int) {
    |t| == |t'| && forall i | 0 <= i < |t| :: SameUntil(t[i], t'[i], asOf)
  }

  /** What must not depend on the future. */
  datatype Fact = Fact(key: Key, lastSeen: int, count: Option<int>)

  function FactOf(e: PodEvent): Fact {
    Fact(EventKey(e), e.lastSeen, e.count)
  }

  ghost function Facts(events: seq<PodEvent>): set<Fact> {
    set a | 0 <= a < |events| :: FactOf(events[a])
  }

  /** In rows from newest to oldest, the latest of a key is its first row. */
  lemma {:induction false} LatestIsFirst(rows: seq<Row>, asOf: int, i: int, j: nat)
    requires Ascending(rows, Newest) && IsLatest(rows, asOf, i)
    requires j < |rows| && Usable(rows[j]) && KeyOf(rows[j]) == KeyOf(rows[i])
    ensures i <= j && LastAct(rows[j]).value <= LastAct(rows[i]).value
  {
    if i < j {
      assert Newest(rows[i]) <= Newest(rows[j]);
    }
  }

  lemma {:induction false} FirstOfFilter(rows: seq<Row>, keep: Row -> bool, i: nat)
    requires i < |rows| && keep(rows[i]) && forall j | 0 <= j < i :: !keep(rows[j])
    ensures Filter(rows, keep) != [] && Filter(rows, keep)[0] == rows[i]
    decreases i
  {
    if i > 0 {
      assert forall j | 0 <= j < i - 1 :: rows[1..][j] == rows[j + 1];
      FirstOfFilter(rows[1..], keep, i - 1);
    }
  }

  /** The rows of a key that no table version updates later are the same rows. */
  lemma {:induction false} SameGroup(t: seq<Row>, t': seq<Row>, asOf: int, keep: Row -> bool)
    requires SameTableUntil(t, t', asOf)
    requires forall i | 0 <= i < |t| :: (keep(t[i]) <==> keep(t'[i])) && (keep(t[i]) ==> t[i] == t'[i])
    ensures Filter(t, keep) == Filter(t', keep)
  {
    if t != [] {
      assert keep(t[0]) <==> keep(t'[0]);
      var u, u' := t[1..], t'[1..];
      forall i | 0 <= i < |u|
        ensures SameUntil(u[i], u'[i], asOf) && (keep(u[i]) <==> keep(u'[i])) && (keep(u[i]) ==> u[i] == u'[i])
      {
        assert u[i] == t[i + 1] && u'[i] == t'[i + 1];
      }
      SameGroup(u, u', asOf, keep);
    }
  }

  lemma {:induction false} FilterTwice(t: seq<Row>, f: Row -> bool, g: Row -> bool, fg: Row -> bool)
    requires forall r :: fg(r) <==> f(r) && g(r)
    ensures Filter(Filter(t, f), g) == Filter(t, fg)
  {
    if t != [] {
      FilterTwice(t[1..], f, g, fg);
    }
  }

  /** The newest row of a key comes first in the group that the table itself orders. */
  lemma {:induction false} FirstOfGroup(table: seq<Row>, namespaces: set<string>, scope: Scope, rows: seq<Row>,
      i: int, inGroup: Row -> bool)
    requires rows == Sort(Found(table, namespaces, scope), Newest) && IsLatest(rows, scope.asOf, i)
    requires forall r :: inGroup(r) <==> Matches(r, namespaces, scope) && KeyOf(r) == KeyOf(rows[i])
    ensures var group := Sort(Filter(table, inGroup), Newest); group != [] && group[0] == rows[i]
  {
    var hasKey := (r: Row) => KeyOf(r) == KeyOf(rows[i]);
    var found := Found(table, namespaces, scope);
    FilterTwice(table, (r: Row) => Matches(r, namespaces, scope), hasKey, inGroup);
    FilterSort(found, Newest, hasKey);
    RowsMatch(table, namespaces, scope);
    SortAscends(found, Newest);
    forall j | 0 <= j < i
      ensures !hasKey(rows[j])
    {
      if hasKey(rows[j]) {
        LatestIsFirst(rows, scope.asOf, i, j);
      }
    }
    FirstOfFilter(rows, hasKey, i);
  }

  /** The rows of the sorted query are the matching rows of the table. */
  lemma {:induction false} RowsMatch(table: seq<Row>, namespaces: set<string>, scope: Scope)
    ensures var rows := Sort(Found(table, namespaces, scope), Newest);
            && (forall i | 0 <= i < |rows| :: Matches(rows[i], namespaces, scope) && rows[i] in table)
            && (forall r | r in table && Matches(r, namespaces, scope) :: r in rows)
  {
    SortMembers(Found(table, namespaces, scope), Newest);
    FilterMembers(table, (r: Row) => Matches(r, namespaces, scope));
    var rows := Sort(Found(table, namespaces, scope), Newest);
    forall i | 0 <= i < |rows|
      ensures Matches(rows[i], namespaces, scope) && rows[i] in table
    {
      assert rows[i] in rows;
    }
  }

  /** The row lies in the scanned window: a namespace of the scope, first seen in the seven days up to `asOf`,
      active in the last minutes of the scope's window or after. */
  ghost predicate InWindow(r: Row, namespaces: set<string>, scope: Scope) {
    && r.namespace in namespaces && r.first.Some?
    && scope.asOf - 604800 <= r.first.value <= scope.asOf
    && LastActive(r) >= scope.asOf - 60 * scope.windowMin
  }

  /** All matching rows, newest first, lie in the window. */
  lemma {:induction false} SortedWindow(table: seq<Row>, namespaces: set<string>, scope: Scope, all: seq<Row>)
    requires all == Sort(Found(table, namespaces, scope), Newest)
    ensures forall i | 0 <= i < |all| :: all[i] in table && InWindow(all[i], namespaces, scope)
    ensures forall i, j | 0 <= i < j < |all| && all[i].first.Some? && all[j].first.Some? ::
              LastActive(all[i]) >= LastActive(all[j])
    ensures forall r | r in table && InWindow(r, namespaces, scope) :: r in all
  {
    SortAscends(Found(table, namespaces, scope), Newest);
    RowsMatch(table, namespaces, scope);
    forall i | 0 <= i < |all|
      ensures all[i] in table && InWindow(all[i], namespaces, scope)
    {
      var m := RowOfTable(table, namespaces, scope, all, i);
    }
    forall i, j | 0 <= i < j < |all| && all[i].first.Some? && all[j].first.Some?
      ensures LastActive(all[i]) >= LastActive(all[j])
    {
      assert Newest(all[i]) <= Newest(all[j]);
    }
  }

  /** What is scanned: at most 400 rows of the window, newest first, and no row left out is newer. */
  lemma {:induction false} QueryScansWindow(table: seq<Row>, namespaces: set<string>, scope: Scope)
    ensures var rows := Query(table, namespaces, scope);
            && |rows| <= 400
            && (forall i | 0 <= i < |rows| :: rows[i] in table && InWindow(rows[i], namespaces, scope))
            && (forall i, j | 0 <= i < j < |rows| :: LastActive(rows[i]) >= LastActive(rows[j]))
            && (forall r | r in table && InWindow(r, namespaces, scope) && r !in rows ::
                  |rows| == 400 && forall i | 0 <= i < |rows| :: LastActive(rows[i]) >= LastActive(r))
  {
    var all := Sort(Found(table, namespaces, scope), Newest);
    var rows := Query(table, namespaces, scope);
    SortedWindow(table, namespaces, scope, all);
    assert forall i | 0 <= i < |rows| :: rows[i] == all[i];
    forall r | r in table && InWindow(r, namespaces, scope) && r !in rows
      ensures |rows| == 400 && forall i | 0 <= i < |rows| :: LastActive(rows[i]) >= LastActive(r)
    {
      var j :| 0 <= j < |all| && all[j] == r;
      assert j >= |rows|;
    }
  }

  /** A key one of whose rows was updated later is emitted as (`asOf`, unknown count). */
  lemma {:induction false} LaterRowWins(table: seq<Row>, namespaces: set<string>, scope: Scope, rows: seq<Row>,
      i: int, r: Row)
    requires rows == Sort(Found(table, namespaces, scope), Newest) && IsLatest(rows, scope.asOf, i)
    requires r in table && Matches(r, namespaces, scope) && KeyOf(r) == KeyOf(rows[i]) && UpdatedLater(r, scope.asOf)
    ensures FactOf(EventOf(rows[i], scope.asOf)) == Fact(KeyOf(r), scope.asOf, None)
  {
    RowsMatch(table, namespaces, scope);
    SortAscends(Found(table, namespaces, scope), Newest);
    var j :| 0 <= j < |rows| && rows[j] == r;
    LatestIsFirst(rows, scope.asOf, i, j);
  }

  /** Two latest rows of one key, one in each table, say the same fact. */
  lemma {:induction false} SameFact(
      t: seq<Row>, t': seq<Row>, namespaces: set<string>, scope: Scope,
      rows: seq<Row>, rows': seq<Row>, i: int, i': int)
    requires SameTableUntil(t, t', scope.asOf)
    requires rows == Sort(Found(t, namespaces, scope), Newest) && rows' == Sort(Found(t', namespaces, scope), Newest)
    requires IsLatest(rows, scope.asOf, i) && IsLatest(rows', scope.asOf, i') && KeyOf(rows[i]) == KeyOf(rows'[i'])
    ensures FactOf(EventOf(rows[i], scope.asOf)) == FactOf(EventOf(rows'[i'], scope.asOf))
  {
    var k := KeyOf(rows[i]);
    var inGroup := (r: Row) => Matches(r, namespaces, scope) && KeyOf(r) == k;
    if n :| 0 <= n < |t| && inGroup(t[n]) && UpdatedLater(t[n], scope.asOf) {
      assert SameUntil(t[n], t'[n], scope.asOf);
      assert t'[n] in t';
      LaterRowWins(t, namespaces, scope, rows, i, t[n]);
      LaterRowWins(t', namespaces, scope, rows', i', t'[n]);
    } else {
      forall n | 0 <= n < |t|
        ensures (inGroup(t[n]) <==> inGroup(t'[n])) && (inGroup(t[n]) ==> t[n] == t'[n])
      {
        assert SameUntil(t[n], t'[n], scope.asOf);
      }
      SameGroup(t, t', scope.asOf, inGroup);
      FirstOfGroup(t, namespaces, scope, rows, i, inGroup);
      FirstOfGroup(t', namespaces, scope, rows', i', inGroup);
    }
  }

  /** A key found in one table is found in the other. */
  lemma {:induction false} KeyShared(t: seq<Row>, t': seq<Row>, namespaces: set<string>, scope: Scope,
                                     r: Row)
      returns (j: int)
    requires SameTableUntil(t, t', scope.asOf) && r in t && Matches(r, namespaces, scope)
    ensures var rows' := Sort(Found(t', namespaces, scope), Newest);
            0 <= j < |rows'| && Usable(rows'[j]) && KeyOf(rows'[j]) == KeyOf(r)
  {
    var rows' := Sort(Found(t', namespaces, scope), Newest);
    RowsMatch(t', namespaces, scope);
    var n :| 0 <= n < |t| && t[n] == r;
    assert SameUntil(t[n], t'[n], scope.asOf);
    assert t'[n] in t' && Matches(t'[n], namespaces, scope);
    assert t'[n] in rows';
    j :| 0 <= j < |rows'| && rows'[j] == t'[n];
  }

  lemma {:induction false} FactsShared(
      t: seq<Row>, t': seq<Row>, namespaces: set<string>, scope: Scope,
      rows: seq<Row>, rows': seq<Row>, latest: seq<PodEvent>, latest': seq<PodEvent>)
    requires SameTableUntil(t, t', scope.asOf)
    requires rows == Sort(Found(t, namespaces, scope), Newest) && rows' == Sort(Found(t', namespaces, scope), Newest)
    requires Picks(rows, scope.asOf, latest) && Picks(rows', scope.asOf, latest')
    ensures Facts(latest) <= Facts(latest')
  {
    RowsMatch(t, namespaces, scope);
    forall a | 0 <= a < |latest|
      ensures FactOf(latest[a]) in Facts(latest')
    {
      assert Chosen(rows, scope.asOf, latest[a]);
      var i :| Comes(rows, scope.asOf, latest[a], i);
      var j := KeyShared(t, t', namespaces, scope, rows[i]);
      assert HasKey(latest', KeyOf(rows'[j]));
      var b :| 0 <= b < |latest'| && EventKey(latest'[b]) == KeyOf(rows'[j]);
      assert Chosen(rows', scope.asOf, latest'[b]);
      var i' :| Comes(rows', scope.asOf, latest'[b], i');
      SameFact(t, t', namespaces, scope, rows, rows', i, i');
    }
  }

  /** What `PodEventsOf` emits for a table. */
  ghost predicate Emits(table: seq<Row>, namespaces: set<string>, scope: Scope, latest: seq<PodEvent>,
                        events: seq<PodEvent>) {
    && Picks(Query(table, namespaces, scope), scope.asOf, latest)
    && events == Cut(Ranked(latest, scope.namespace))
  }

  lemma {:induction false} UncutFacts(latest: seq<PodEvent>, namespace: string, events: seq<PodEvent>)
    requires |latest| <= POD_EVENTS_KEEP
    requires events == Cut(Ranked(latest, namespace))
    ensures Facts(events) == Facts(latest)
  {
    assert |multiset(Ranked(latest, namespace))| == |multiset(latest)|;
    assert events == Ranked(latest, namespace);
    forall f | f in Facts(events)
      ensures f in Facts(latest)
    {
      var a :| 0 <= a < |events| && FactOf(events[a]) == f;
      assert events[a] in multiset(latest);
    }
    forall f | f in Facts(latest)
      ensures f in Facts(events)
    {
      var a :| 0 <= a < |latest| && FactOf(latest[a]) == f;
      assert latest[a] in multiset(events);
    }
  }

  lemma {:induction false} SameSize(t: seq<Row>, t': seq<Row>, namespaces: set<string>, scope: Scope)
    requires SameTableUntil(t, t', scope.asOf)
    ensures |Found(t, namespaces, scope)| == |Found(t', namespaces, scope)|
  {
    if t != [] {
      assert SameUntil(t[0], t'[0], scope.asOf);
      assert Matches(t[0], namespaces, scope) <==> Matches(t'[0], namespaces, scope);
      var u, u' := t[1..], t'[1..];
      assert forall i | 0 <= i < |u| :: u[i] == t[i + 1] && u'[i] == t'[i + 1];
      SameSize(u, u', namespaces, scope);
    }
  }

  lemma {:induction false} FactsSize(events: seq<PodEvent>)
    requires DistinctKeys(events)
    ensures |Facts(events)| == |events|
  {
    if events != [] {
      var last := |events| - 1;
      FactsSize(events[..last]);
      assert FactOf(events[last]) !in Facts(events[..last]);
      assert Facts(events) == Facts(events[..last]) + {FactOf(events[last])};
    }
  }

  lemma {:induction false} UncutQuery(t: seq<Row>, namespaces: set<string>, scope: Scope)
    requires |Found(t, namespaces, scope)| <= POD_EVENT_SCAN
    ensures Query(t, namespaces, scope) == Sort(Found(t, namespaces, scope), Newest)
  {
  }

  lemma {:induction false} LatestFactsAreSame(
      t: seq<Row>, t': seq<Row>, namespaces: set<string>, scope: Scope, latest: seq<PodEvent>, latest': seq<PodEvent>)
    requires SameTableUntil(t, t', scope.asOf) && |Found(t, namespaces, scope)| <= POD_EVENT_SCAN
    requires Picks(Query(t, namespaces, scope), scope.asOf, latest)
    requires Picks(Query(t', namespaces, scope), scope.asOf, latest')
    ensures Facts(latest) == Facts(latest') && |latest| == |latest'|
  {
    SameSize(t, t', namespaces, scope);
    UncutQuery(t, namespaces, scope);
    UncutQuery(t', namespaces, scope);
    var rows, rows' := Query(t, namespaces, scope), Query(t', namespaces, scope);
    FactsShared(t, t', namespaces, scope, rows, rows', latest, latest');
    FactsShared(t', t, namespaces, scope, rows', rows, latest', latest);
    FactsSize(latest);
    FactsSize(latest');
  }

  /** With no limit reached, rewriting later updates changes no emitted fact. */
  lemma {:induction false} FutureDoesNotLeak(
      t: seq<Row>, t': seq<Row>, namespaces: set<string>, scope: Scope,
      latest: seq<PodEvent>, latest': seq<PodEvent>, events: seq<PodEvent>, events': seq<PodEvent>)
    requires SameTableUntil(t, t', scope.asOf)
    requires Emits(t, namespaces, scope, latest, events) && Emits(t', namespaces, scope, latest', events')
    requires |Found(t, namespaces, scope)| <= POD_EVENT_SCAN && |latest| <= POD_EVENTS_KEEP
    ensures Facts(events) == Facts(events')
  {
    LatestFactsAreSame(t, t', namespaces, scope, latest, latest');
    UncutFacts(latest, scope.namespace, events);
    UncutFacts(latest', scope.namespace, events');
  }

  // ---- the other fields ------------------------------------------------------------------------------------

  predicate InGroup(r: Row, namespaces: set<string>, scope: Scope, k: Key) {
    Matches(r, namespaces, scope) && KeyOf(r) == k
  }

  ghost function Scanned(t: seq<Row>, namespaces: set<string>, scope: Scope): seq<Row> {
    Sort(Found(t, namespaces, scope), Newest)
  }

  /** The table emits `e` for key `k`. */
  ghost predicate EmitsFor(t: seq<Row>, namespaces: set<string>, scope: Scope, k: Key, e: PodEvent) {
    EventKey(e) == k && Chosen(Scanned(t, namespaces, scope), scope.asOf, e)
  }

  /** With no limit reached, the events of the output are exactly the ones emitted for their keys. */
  lemma {:induction false} EmittedIffChosen(
      t: seq<Row>, namespaces: set<string>, scope: Scope, latest: seq<PodEvent>, events: seq<PodEvent>, e: PodEvent)
    requires Emits(t, namespaces, scope, latest, events)
    requires |Found(t, namespaces, scope)| <= POD_EVENT_SCAN && |latest| <= POD_EVENTS_KEEP
    ensures e in events <==> EmitsFor(t, namespaces, scope, EventKey(e), e)
  {
    UncutQuery(t, namespaces, scope);
    var rows := Scanned(t, namespaces, scope);
    UncutIsAll(latest, scope.namespace, events);
    if e in latest {
      var a :| 0 <= a < |latest| && latest[a] == e;
      assert Chosen(rows, scope.asOf, latest[a]);
    }
  }

  lemma {:induction false} UncutIsAll(latest: seq<PodEvent>, namespace: string, events: seq<PodEvent>)
    requires |latest| <= POD_EVENTS_KEEP && events == Cut(Ranked(latest, namespace))
    ensures forall e :: e in events <==> e in latest
  {
    assert |multiset(Ranked(latest, namespace))| == |multiset(latest)|;
    assert events == Ranked(latest, namespace);
    forall e
      ensures e in events <==> e in latest
    {
      assert e in events <==> e in multiset(events);
      assert e in latest <==> e in multiset(latest);
    }
  }

  /** The event emitted for `k`, message included, is the same whatever later updates say. */
  ghost predicate Fixed(t: seq<Row>, namespaces: set<string>, scope: Scope, k: Key) {
    forall t': seq<Row>, e: PodEvent, e': PodEvent
      | SameTableUntil(t, t', scope.asOf) && EmitsFor(t, namespaces, scope, k, e)
          && EmitsFor(t', namespaces, scope, k, e')
      :: e == e'
  }

  /** The rows of the key that were updated later would all show the same event. */
  ghost predicate LaterRowsAgree(t: seq<Row>, namespaces: set<string>, scope: Scope, k: Key) {
    forall m, n | 0 <= m < |t| && 0 <= n < |t|
                  && InGroup(t[m], namespaces, scope, k) && UpdatedLater(t[m], scope.asOf)
                  && InGroup(t[n], namespaces, scope, k) && UpdatedLater(t[n], scope.asOf) ::
      EventOf(t[m], scope.asOf) == EventOf(t[n], scope.asOf)
  }

  lemma {:induction false} RowOfTable(t: seq<Row>, namespaces: set<string>, scope: Scope, rows: seq<Row>, i: int)
      returns (m: nat)
    requires rows == Scanned(t, namespaces, scope) && 0 <= i < |rows|
    ensures m < |t| && t[m] == rows[i] && Matches(rows[i], namespaces, scope)
  {
    SortMembers(Found(t, namespaces, scope), Newest);
    FilterMembers(t, (r: Row) => Matches(r, namespaces, scope));
    assert rows[i] in rows;
    m :| m < |t| && t[m] == rows[i];
  }

  /** Where an emitted event comes from: no row of its key was active later than that row. */
  lemma {:induction false} EmittedRow(t: seq<Row>, namespaces: set<string>, scope: Scope, k: Key, e: PodEvent)
      returns (m: nat)
    requires EmitsFor(t, namespaces, scope, k, e)
    ensures m < |t| && InGroup(t[m], namespaces, scope, k) && e == EventOf(t[m], scope.asOf)
    ensures forall n | 0 <= n < |t| && InGroup(t[n], namespaces, scope, k) :: LastAct(t[n]).value <= LastAct(t[m]).value
  {
    var rows := Scanned(t, namespaces, scope);
    var i :| Comes(rows, scope.asOf, e, i);
    m := RowOfTable(t, namespaces, scope, rows, i);
    RowsMatch(t, namespaces, scope);
    SortAscends(Found(t, namespaces, scope), Newest);
    forall n | 0 <= n < |t| && InGroup(t[n], namespaces, scope, k)
      ensures LastAct(t[n]).value <= LastAct(t[m]).value
    {
      assert t[n] in rows;
      var j :| 0 <= j < |rows| && rows[j] == t[n];
      LatestIsFirst(rows, scope.asOf, i, j);
    }
  }

  /** Of the rows of a key some row is the latest. */
  lemma {:induction false} LatestExists(rows: seq<Row>, asOf: int, n: nat, j: int) returns (i: int)
    requires n <= |rows| && 0 <= j < n && Usable(rows[j])
    ensures IsLatest(rows[..n], asOf, i) && KeyOf(rows[i]) == KeyOf(rows[j])
    decreases n
  {
    if j < n - 1 || (exists h :: 0 <= h < n - 1 && Usable(rows[h]) && KeyOf(rows[h]) == KeyOf(rows[j])) {
      var h := j;
      if j == n - 1 {
        h :| 0 <= h < n - 1 && Usable(rows[h]) && KeyOf(rows[h]) == KeyOf(rows[j]);
      }
      var p := LatestExists(rows, asOf, n - 1, h);
      assert forall x | 0 <= x < n - 1 :: rows[..n][x] == rows[..n - 1][x];
      var l := rows[n - 1];
      if Usable(l) && KeyOf(l) == KeyOf(rows[j]) && Clip(l, asOf) > Clip(rows[p], asOf) {
        i := n - 1;
      } else {
        i := p;
      }
    } else {
      i := j;
    }
  }

  /** A key with a matching row is emitted. */
  lemma {:induction false} KeyIsEmitted(t: seq<Row>, namespaces: set<string>, scope: Scope, n: nat)
        returns (e: PodEvent)
    requires n < |t| && Matches(t[n], namespaces, scope)
    ensures EmitsFor(t, namespaces, scope, KeyOf(t[n]), e)
  {
    var rows := Scanned(t, namespaces, scope);
    RowsMatch(t, namespaces, scope);
    assert t[n] in rows;
    var j :| 0 <= j < |rows| && rows[j] == t[n];
    var i := LatestExists(rows, scope.asOf, |rows|, j);
    assert rows[..|rows|] == rows;
    e := EventOf(rows[i], scope.asOf);
    assert Comes(rows, scope.asOf, e, i);
  }

  lemma {:induction false} AgreeingRowsFix(
      t: seq<Row>, t': seq<Row>, namespaces: set<string>, scope: Scope, k: Key, e: PodEvent, e': PodEvent)
    requires LaterRowsAgree(t, namespaces, scope, k) && SameTableUntil(t, t', scope.asOf)
    requires EmitsFor(t, namespaces, scope, k, e) && EmitsFor(t', namespaces, scope, k, e')
    ensures e == e'
  {
    var m := EmittedRow(t, namespaces, scope, k, e);
    var m' := EmittedRow(t', namespaces, scope, k, e');
    assert SameUntil(t[m'], t'[m'], scope.asOf) && SameUntil(t[m], t'[m], scope.asOf);
    if UpdatedLater(t[m], scope.asOf) {
      assert InGroup(t'[m], namespaces, scope, k);
      assert UpdatedLater(t[m'], scope.asOf);
    } else {
      SameLatest(t, t', namespaces, scope, k, e, e');
    }
  }

  /** A key without later updates is emitted from the same rows. */
  lemma {:induction false} SameLatest(
      t: seq<Row>, t': seq<Row>, namespaces: set<string>, scope: Scope, k: Key, e: PodEvent, e': PodEvent)
    requires SameTableUntil(t, t', scope.asOf)
    requires EmitsFor(t, namespaces, scope, k, e) && EmitsFor(t', namespaces, scope, k, e')
    requires forall n | 0 <= n < |t| && InGroup(t[n], namespaces, scope, k) :: !UpdatedLater(t[n], scope.asOf)
    ensures e == e'
  {
    var rows, rows' := Scanned(t, namespaces, scope), Scanned(t', namespaces, scope);
    var i :| Comes(rows, scope.asOf, e, i);
    var i' :| Comes(rows', scope.asOf, e', i');
    var inGroup := (r: Row) => InGroup(r, namespaces, scope, k);
    forall n | 0 <= n < |t|
      ensures (inGroup(t[n]) <==> inGroup(t'[n])) && (inGroup(t[n]) ==> t[n] == t'[n])
    {
      assert SameUntil(t[n], t'[n], scope.asOf);
    }
    SameGroup(t, t', scope.asOf, inGroup);
    FirstOfGroup(t, namespaces, scope, rows, i, inGroup);
    FirstOfGroup(t', namespaces, scope, rows', i', inGroup);
  }

  /** A time after every activity in the table. */
  function After(t: seq<Row>, asOf: int): (z: int)
    ensures z > asOf && forall n | 0 <= n < |t| && LastAct(t[n]).Some? :: LastAct(t[n]).value < z
  {
    if t == [] then asOf + 1
    else
      var z := After(t[..|t| - 1], asOf);
      var l := LastAct(t[|t| - 1]);
      if l.Some? && l.value >= z then l.value + 1 else z
  }

  /** The table in which row `m` was updated last of all. */
  function Raised(t: seq<Row>, m: nat, asOf: int): seq<Row>
    requires m < |t|
  {
    t[m := t[m].(last := Some(After(t, asOf)))]
  }

  /** Any row of a key that was updated later can be made the one shown. */
  lemma {:induction false} RaisedRowIsShown(t: seq<Row>, namespaces: set<string>, scope: Scope, k: Key, m: nat)
    requires m < |t| && InGroup(t[m], namespaces, scope, k) && UpdatedLater(t[m], scope.asOf)
    ensures SameTableUntil(t, Raised(t, m, scope.asOf), scope.asOf)
    ensures EmitsFor(Raised(t, m, scope.asOf), namespaces, scope, k, EventOf(t[m], scope.asOf))
  {
    var t' := Raised(t, m, scope.asOf);
    forall n | 0 <= n < |t|
      ensures SameUntil(t[n], t'[n], scope.asOf)
    {
      if n == m {
        assert t'[n] == t[n].(last := t'[n].last, count := t'[n].count);
      }
    }
    var e := KeyIsEmitted(t', namespaces, scope, m);
    var n := EmittedRow(t', namespaces, scope, k, e);
    assert InGroup(t'[m], namespaces, scope, k);
  }

  /** The event of a key is independent of later updates iff its rows updated later agree on it. */
  lemma {:induction false} FixedIffLaterRowsAgree(t: seq<Row>, namespaces: set<string>, scope: Scope, k: Key)
    ensures Fixed(t, namespaces, scope, k) <==> LaterRowsAgree(t, namespaces, scope, k)
  {
    if LaterRowsAgree(t, namespaces, scope, k) {
      forall t': seq<Row>, e: PodEvent, e': PodEvent
        | SameTableUntil(t, t', scope.asOf)
          && EmitsFor(t, namespaces, scope, k, e) && EmitsFor(t', namespaces, scope, k, e')
        ensures e == e'
      {
        AgreeingRowsFix(t, t', namespaces, scope, k, e, e');
      }
    }
    if Fixed(t, namespaces, scope, k) {
      forall m, n | 0 <= m < |t| && 0 <= n < |t|
                    && InGroup(t[m], namespaces, scope, k) && UpdatedLater(t[m], scope.asOf)
                    && InGroup(t[n], namespaces, scope, k) && UpdatedLater(t[n], scope.asOf)
        ensures EventOf(t[m], scope.asOf) == EventOf(t[n], scope.asOf)
      {
        var e := KeyIsEmitted(t, namespaces, scope, m);
        RaisedRowIsShown(t, namespaces, scope, k, m);
        RaisedRowIsShown(t, namespaces, scope, k, n);
      }
    }
  }

  /** With two rows of one key, which message is shown does depend on later updates. */
  lemma {:induction false} SharedKeyLeaksMessage(asOf: int)
    ensures var scope := Scope("ns", asOf, 120);
            var a := Row("ns", "p", "BackOff", "s", "Warning", "a", Some(1), Some(asOf), Some(asOf + 2));
            var b := a.(message := "b", last := Some(asOf + 1));
            var b' := b.(last := Some(asOf + 3));
            && SameTableUntil([a, b], [a, b'], asOf)
            && Emits([a, b], {"ns"}, scope, [EventOf(a, asOf)], [EventOf(a, asOf)])
            && Emits([a, b'], {"ns"}, scope, [EventOf(b, asOf)], [EventOf(b, asOf)])
            && EventOf(a, asOf).message != EventOf(b, asOf).message
  {
    var scope := Scope("ns", asOf, 120);
    var a := Row("ns", "p", "BackOff", "s", "Warning", "a", Some(1), Some(asOf), Some(asOf + 2));
    var b := a.(message := "b", last := Some(asOf + 1));
    var b' := b.(last := Some(asOf + 3));
    QueryOfTwo(a, b, {"ns"}, scope);
    QueryOfTwo(a, b', {"ns"}, scope);
    FirstIsEmitted(a, b, scope);
    FirstIsEmitted(b', a, scope);
  }

  lemma {:induction false} QueryOfTwo(a: Row, b: Row, namespaces: set<string>, scope: Scope)
    requires Matches(a, namespaces, scope) && Matches(b, namespaces, scope)
    ensures Query([a, b], namespaces, scope) == if LastAct(a).value >= LastAct(b).value then [a, b] else [b, a]
  {
    var keep := (r: Row) => Matches(r, namespaces, scope);
    assert [a, b][1..] == [b] && [b][1..] == [];
    assert Filter([b], keep) == [b];
    assert Found([a, b], namespaces, scope) == [a, b];
    assert Sort([b], Newest) == [b];
    assert Insert(a, [], Newest) == [a];
  }

  lemma {:induction false} FirstIsEmitted(a: Row, b: Row, scope: Scope)
    requires Usable(a) && Usable(b) && KeyOf(a) == KeyOf(b) && LastAct(a).value >= LastAct(b).value
    ensures Picks([a, b], scope.asOf, [EventOf(a, scope.asOf)])
    ensures Cut(Ranked([EventOf(a, scope.asOf)], scope.namespace)) == [EventOf(a, scope.asOf)]
  {
    var e := EventOf(a, scope.asOf);
    assert Comes([a, b], scope.asOf, e, 0);
    assert [e][0] == e && EventKey([e][0]) == KeyOf(a);
    assert [e][1..] == [];
  }
}
