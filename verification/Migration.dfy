/**
  The idempotency migration
  (alembic/versions/20260807_0400_kg_idempotency_constraints.py): three tables changed in place
  by DELETE, UPDATE and changes of UNIQUE keys.

  A table maps row ids to rows.  A column that does not exist is None.  UNIQUE follows SQL: rows with a NULL in the
  key never conflict.
*/
module Migration {
  import opened Common
  import opened Decimal

  datatype Deployment = Deployment(serviceId: int, buildtypeId: Option<string>, buildNumber: Option<string>,
      rest: string)

  datatype Log = Log(
    serviceId: Option<int>, ts: int, level: string, source: Option<string>, rest: string, appName: Option<string>)

  /** `extrasDirection` is `extras ->> 'direction'`. */
  datatype Edge = Edge(
    srcId: int, dstId: int, kind: string, extrasDirection: Option<string>, rest: string, direction: Option<string>)

  type Table<R> = map<int, R>

  // ---- SQL keys -----------------------------------------------------------------------------------

  /** UNIQUE: no two rows share a key without NULLs. */
  predicate Unique<R, K(==)>(t: Table<R>, key: R -> Option<K>) {
    forall i, j | i in t && j in t && i != j && key(t[i]).Some? :: key(t[i]) != key(t[j])
  }

  /** An older row has the same key. */
  predicate IsDuplicate<R, K(==)>(t: Table<R>, key: R -> Option<K>, i: int)
    requires i in t
  {
    exists j :: j in t && j < i && key(t[j]).Some? && key(t[j]) == key(t[i])
  }

  /** `DELETE … USING keep WHERE key = keep.key AND id > keep.id` */
  function WithoutDuplicates<R, K(==)>(t: Table<R>, key: R -> Option<K>): Table<R> {
    map i | i in t && !IsDuplicate(t, key, i) :: t[i]
  }

  lemma {:induction false} DedupIsUnique<R, K>(t: Table<R>, key: R -> Option<K>)
    ensures Unique(WithoutDuplicates(t, key), key)
  {
  }

  /** Row `i` has the least id of its key. */
  ghost predicate IsOldest<R, K>(t: Table<R>, key: R -> Option<K>, i: int) {
    i in t && forall j | j in t && key(t[j]) == key(t[i]) :: i <= j
  }

  lemma {:induction false} OldestExists<R, K>(t: Table<R>, key: R -> Option<K>, i: int) returns (m: int)
    requires i in t
    ensures IsOldest(t, key, m) && key(t[m]) == key(t[i])
  {
    var group := set j | j in t && key(t[j]) == key(t[i]);
    m := Least(group, i);
    forall j | j in t && key(t[j]) == key(t[m])
      ensures m <= j
    {
      assert j in group;
    }
  }

  lemma {:induction false} Least(s: set<int>, x: int) returns (m: int)
    requires x in s
    ensures m in s && forall z | z in s :: m <= z
    decreases |s|
  {
    if y :| y in s && y < x {
      m := Least(s - {x}, y);
      assert forall z | z in s :: z == x || z in s - {x};
    } else {
      m := x;
    }
  }

  /** Exactly the rows with a NULL in the key and the oldest row of every other key survive, unchanged. */
  lemma {:induction false} SurvivorsAreOldest<R, K>(t: Table<R>, key: R -> Option<K>, i: int)
    ensures var d := WithoutDuplicates(t, key);
            && (i in d <==> i in t && (key(t[i]).None? || IsOldest(t, key, i)))
            && (i in d ==> d[i] == t[i])
  {
    if i in t && key(t[i]).Some? {
      if !IsOldest(t, key, i) {
        var j :| j in t && key(t[j]) == key(t[i]) && j < i;
        assert IsDuplicate(t, key, i);
      }
    }
  }

  /** Every key has exactly one survivor. */
  lemma {:induction false} OneSurvivorPerKey<R, K>(t: Table<R>, key: R -> Option<K>, i: int) returns (m: int)
    requires i in t && key(t[i]).Some?
    ensures var d := WithoutDuplicates(t, key);
            && m in d && key(d[m]) == key(t[i])
            && (forall j | j in d && key(d[j]) == key(t[i]) :: j == m)
  {
    m := OldestExists(t, key, i);
    SurvivorsAreOldest(t, key, m);
    DedupIsUnique(t, key);
  }

  /** The DELETE removes nothing iff the key already held. */
  lemma {:induction false} LosesNothingIffUnique<R, K>(t: Table<R>, key: R -> Option<K>)
    ensures WithoutDuplicates(t, key) == t <==> Unique(t, key)
  {
    DedupIsUnique(t, key);
    if Unique(t, key) {
      forall i | i in t
        ensures i in WithoutDuplicates(t, key)
      {
        assert !IsDuplicate(t, key, i);
      }
      assert WithoutDuplicates(t, key) == t;
    }
  }

  // ---- the keys -------------------------------------------------------------------------------------

  datatype BuildKey = BuildKey(serviceId: int, buildtypeId: string, buildNumber: string)
  datatype OldLogKey = OldLogKey(serviceId: int, ts: int, level: string, source: string)
  datatype NewLogKey = NewLogKey(ts: int, level: string, source: string, appName: string)
  datatype OldEdgeKey = OldEdgeKey(srcId: int, dstId: int, kind: string)
  datatype NewEdgeKey = NewEdgeKey(srcId: int, dstId: int, kind: string, direction: string)

  function ByBuild(d: Deployment): Option<BuildKey> {
    if d.buildtypeId.None? || d.buildNumber.None? then None
    else Some(BuildKey(d.serviceId, d.buildtypeId.value, d.buildNumber.value))
  }

  function ByService(l: Log): Option<OldLogKey> {
    if l.serviceId.None? || l.source.None? then None
    else Some(OldLogKey(l.serviceId.value, l.ts, l.level, l.source.value))
  }

  function ByApp(l: Log): Option<NewLogKey> {
    if l.source.None? || l.appName.None? then None
    else Some(NewLogKey(l.ts, l.level, l.source.value, l.appName.value))
  }

  function ByEnds(e: Edge): Option<OldEdgeKey> {
    Some(OldEdgeKey(e.srcId, e.dstId, e.kind))
  }

  function ByDirection(e: Edge): Option<NewEdgeKey> {
    if e.direction.None? then None else Some(NewEdgeKey(e.srcId, e.dstId, e.kind, e.direction.value))
  }

  // ---- the updates -----------------------------------------------------------------------------------

  /** The deterministic surrogate for a row written before `app_name` existed. */
  function LegacyName(id: int, l: Log): string {
    if l.serviceId.Some? then "legacy-svc:" + Text(l.serviceId.value) else "legacy:" + Text(id)
  }

  function Backfilled(logs: Table<Log>): Table<Log> {
    map i | i in logs :: logs[i].(appName := Some(LegacyName(i, logs[i])))
  }

  function LegacyDirection(e: Edge): string {
    if e.kind == "uses_nats" && e.extrasDirection.Some? then e.extrasDirection.value else ""
  }

  function Directed(edges: Table<Edge>): Table<Edge> {
    map i | i in edges :: edges[i].(direction := Some(LegacyDirection(edges[i])))
  }

  function WithoutName(logs: Table<Log>): Table<Log> {
    map i | i in logs :: logs[i].(appName := None)
  }

  function WithoutDirection(edges: Table<Edge>): Table<Edge> {
    map i | i in edges :: edges[i].(direction := None)
  }

  lemma {:induction false} SameTable<I, R>(a: map<I, R>, b: map<I, R>)
    requires a.Keys == b.Keys && forall i | i in a :: a[i] == b[i]
    ensures a == b
  {
  }

  class Database {
    var deployments: Table<Deployment>
    var logs: Table<Log>
    var edges: Table<Edge>

    constructor (deployments: Table<Deployment>, logs: Table<Log>, edges: Table<Edge>)
      ensures this.deployments == deployments && this.logs == logs && this.edges == edges
    {
      this.deployments, this.logs, this.edges := deployments, logs, edges;
    }

    /** Add `app_name` and fill it, matched rows first. */
    method FillNames()
      modifies this`logs
      ensures logs == Backfilled(old(logs))
    {
      ghost var before := logs;
      logs := map i | i in logs :: logs[i].(appName := Some(""));
      logs := map i | i in logs ::
        if logs[i].serviceId.Some?
        then logs[i].(appName := Some("legacy-svc:" + Text(logs[i].serviceId.value)))
        else logs[i];
      logs := map i | i in logs ::
        if logs[i].serviceId.None? then logs[i].(appName := Some("legacy:" + Text(i))) else logs[i];
      SameTable(logs, Backfilled(before));
    }

    /** Add `direction` and fill it for NATS edges. */
    method FillDirections()
      modifies this`edges
      ensures edges == Directed(old(edges))
    {
      ghost var before := edges;
      edges := map i | i in edges :: edges[i].(direction := Some(""));
      edges := map i | i in edges ::
        if edges[i].kind == "uses_nats" then
          edges[i].(direction := Some(if edges[i].extrasDirection.Some? then edges[i].extrasDirection.value else ""))
        else edges[i];
      assert forall i | i in before :: edges[i] == before[i].(direction := Some(LegacyDirection(before[i])));
      SameTable(edges, Directed(before));
    }

    /** `upgrade`, in one transaction: a key that does not hold rolls everything back. */
    method Upgrade() returns (ok: bool)
      modifies this
      ensures ok <==> Unique(Backfilled(old(logs)), ByApp) && Unique(Directed(old(edges)), ByDirection)
      ensures ok ==> deployments == WithoutDuplicates(old(deployments), ByBuild)
      ensures ok ==> logs == Backfilled(old(logs)) && edges == Directed(old(edges))
      ensures !ok ==> deployments == old(deployments) && logs == old(logs) && edges == old(edges)
    {
      var deployments0, logs0, edges0 := deployments, logs, edges;
      deployments := WithoutDuplicates(deployments, ByBuild);
      DedupIsUnique(deployments0, ByBuild);
      ok := Unique(deployments, ByBuild);
      FillNames();
      ok := ok && Unique(logs, ByApp);
      FillDirections();
      ok := ok && Unique(edges, ByDirection);
      if !ok {
        deployments, logs, edges := deployments0, logs0, edges0;
      }
    }

    /** `downgrade`; its keys always hold. */
    method Downgrade() returns (ok: bool)
      modifies this
      ensures ok && deployments == old(deployments)
      ensures logs == WithoutName(WithoutDuplicates(old(logs), ByService)) && Unique(logs, ByService)
      ensures edges == WithoutDirection(WithoutDuplicates(old(edges), ByEnds)) && Unique(edges, ByEnds)
    {
      DedupIsUnique(edges, ByEnds);
      edges := WithoutDuplicates(edges, ByEnds);
      ok := Unique(edges, ByEnds);
      DedupIsUnique(logs, ByService);
      logs := WithoutDuplicates(logs, ByService);
      ok := ok && Unique(logs, ByService);
      edges := WithoutDirection(edges);
      logs := WithoutName(logs);
    }
  }

  // ---- the new keys hold -------------------------------------------------------------------------------

  lemma {:induction false} PrefixesAreDisjoint(a: string, b: string)
    ensures "legacy-svc:" + a != "legacy:" + b
  {
    assert ("legacy-svc:" + a)[6] == '-' && ("legacy:" + b)[6] == ':';
  }

  /** Surrogates collide only within one service; a row without a service shares its name with none. */
  lemma {:induction false} NamesCollideOnlyWithinService(i: int, l: Log, j: int, m: Log)
    ensures LegacyName(i, l) == LegacyName(j, m) <==> l.serviceId == m.serviceId && (l.serviceId.None? ==> i == j)
  {
    if LegacyName(i, l) == LegacyName(j, m) {
      if l.serviceId.Some? && m.serviceId.Some? {
        SamePrefix("legacy-svc:", Text(l.serviceId.value), Text(m.serviceId.value));
        TextIsInjective(l.serviceId.value, m.serviceId.value);
      } else if l.serviceId.None? && m.serviceId.None? {
        SamePrefix("legacy:", Text(i), Text(j));
        TextIsInjective(i, j);
      } else if l.serviceId.Some? {
        PrefixesAreDisjoint(Text(l.serviceId.value), Text(j));
      } else {
        PrefixesAreDisjoint(Text(m.serviceId.value), Text(i));
      }
    }
  }

  /** The backfilled names meet the new key iff the old one held. */
  lemma {:induction false} BackfillUniqueIff(logs: Table<Log>)
    ensures Unique(Backfilled(logs), ByApp) <==> Unique(logs, ByService)
  {
    var b := Backfilled(logs);
    forall i, j | i in logs && j in logs && i != j
      ensures ByApp(b[i]).Some? && ByApp(b[i]) == ByApp(b[j])
              <==> ByService(logs[i]).Some? && ByService(logs[i]) == ByService(logs[j])
    {
      NamesCollideOnlyWithinService(i, logs[i], j, logs[j]);
    }
    if !Unique(logs, ByService) {
      var i, j :| i in logs && j in logs && i != j && ByService(logs[i]).Some?
          && ByService(logs[i]) == ByService(logs[j]);
      assert i in b && j in b && ByApp(b[i]) == ByApp(b[j]);
    }
  }

  /** Columns that do not exist yet, and the keys of the old schema. */
  ghost predicate OldSchema(logs: Table<Log>, edges: Table<Edge>) {
    && Unique(logs, ByService) && Unique(edges, ByEnds)
    && (forall i | i in logs :: logs[i].appName.None?)
    && (forall i | i in edges :: edges[i].direction.None?)
  }

  /** The upgrade succeeds on every table that satisfies the old keys. */
  lemma {:induction false} UpgradeNeverFails(deployments: Table<Deployment>, logs: Table<Log>, edges: Table<Edge>)
    requires OldSchema(logs, edges)
    ensures Unique(WithoutDuplicates(deployments, ByBuild), ByBuild)
    ensures Unique(Backfilled(logs), ByApp) && Unique(Directed(edges), ByDirection)
  {
    DedupIsUnique(deployments, ByBuild);
    BackfillUniqueIff(logs);
  }

  // ---- there and back ------------------------------------------------------------------------------------

  /** The names that old log rows get: the service's if it is known, the row's own otherwise. */
  lemma {:induction false} NamesOfOldLogs(logs: Table<Log>, i: int)
    requires i in logs
    ensures logs[i].serviceId.Some? ==>
              Backfilled(logs)[i].appName == Some("legacy-svc:" + Text(logs[i].serviceId.value))
    ensures logs[i].serviceId.None? ==> Backfilled(logs)[i].appName == Some("legacy:" + Text(i))
  {
  }

  /** The direction of old edges: a NATS edge keeps the one in its extras, any other edge gets none. */
  lemma {:induction false} DirectionsOfOldEdges(edges: Table<Edge>, i: int)
    requires i in edges
    ensures edges[i].kind == "uses_nats" && edges[i].extrasDirection.Some? ==>
              Directed(edges)[i].direction == edges[i].extrasDirection
    ensures edges[i].kind != "uses_nats" || edges[i].extrasDirection.None? ==> Directed(edges)[i].direction == Some("")
  {
  }

  /** Which rows conflict, column by column: a NULL in a key conflicts with nothing. */
  lemma {:induction false} ConflictsByColumn(d: Deployment, d': Deployment, l: Log, l': Log, e: Edge, e': Edge)
    ensures ByBuild(d).Some? && ByBuild(d) == ByBuild(d') <==>
            && d.serviceId == d'.serviceId && d.buildtypeId == d'.buildtypeId && d.buildNumber == d'.buildNumber
            && d.buildtypeId.Some? && d.buildNumber.Some?
    ensures ByService(l).Some? && ByService(l) == ByService(l') <==>
            && l.serviceId == l'.serviceId && l.ts == l'.ts && l.level == l'.level && l.source == l'.source
            && l.serviceId.Some? && l.source.Some?
    ensures ByApp(l).Some? && ByApp(l) == ByApp(l') <==>
            && l.ts == l'.ts && l.level == l'.level && l.source == l'.source && l.appName == l'.appName
            && l.source.Some? && l.appName.Some?
    ensures ByEnds(e).Some? && ByEnds(e) == ByEnds(e')
            <==> e.srcId == e'.srcId && e.dstId == e'.dstId && e.kind == e'.kind
    ensures ByDirection(e).Some? && ByDirection(e) == ByDirection(e') <==>
            && e.srcId == e'.srcId && e.dstId == e'.dstId && e.kind == e'.kind && e.direction == e'.direction
            && e.direction.Some?
  {
  }

  lemma {:induction false} SameKeysSameUnique<R, K>(a: Table<R>, b: Table<R>, key: R -> Option<K>)
    requires a.Keys == b.Keys && forall i | i in a :: key(a[i]) == key(b[i])
    ensures Unique(b, key) <==> Unique(a, key)
  {
    assert forall i :: i in a <==> i in b;
  }

  lemma {:induction false} BackfillLosesNothing(logs: Table<Log>)
    ensures Backfilled(logs).Keys == logs.Keys
    ensures forall i | i in logs :: Backfilled(logs)[i].(appName := logs[i].appName) == logs[i]
    ensures Unique(Backfilled(logs), ByService) <==> Unique(logs, ByService)
  {
    SameKeysSameUnique(logs, Backfilled(logs), ByService);
  }

  lemma {:induction false} DirectLosesNothing(edges: Table<Edge>)
    ensures Directed(edges).Keys == edges.Keys
    ensures forall i | i in edges :: Directed(edges)[i].(direction := edges[i].direction) == edges[i]
    ensures Unique(Directed(edges), ByEnds) <==> Unique(edges, ByEnds)
  {
    SameKeysSameUnique(edges, Directed(edges), ByEnds);
  }

  /** Downgrading a fresh upgrade gives back every log and every edge. */
  lemma {:induction false} DowngradeUndoesUpgrade(logs: Table<Log>, edges: Table<Edge>)
    requires OldSchema(logs, edges)
    ensures WithoutName(WithoutDuplicates(Backfilled(logs), ByService)) == logs
    ensures WithoutDirection(WithoutDuplicates(Directed(edges), ByEnds)) == edges
  {
    BackfillLosesNothing(logs);
    DirectLosesNothing(edges);
    LosesNothingIffUnique(Backfilled(logs), ByService);
    LosesNothingIffUnique(Directed(edges), ByEnds);
  }

  /** Upgrading again finds no more duplicate deployments. */
  lemma {:induction false} SecondUpgradeKeepsDeployments(deployments: Table<Deployment>)
    ensures var once := WithoutDuplicates(deployments, ByBuild); WithoutDuplicates(once, ByBuild) == once
  {
    DedupIsUnique(deployments, ByBuild);
    LosesNothingIffUnique(WithoutDuplicates(deployments, ByBuild), ByBuild);
  }

  /** Rows written after the upgrade can be lost: of two directions of one edge the newer goes. */
  lemma {:induction false} DowngradeDropsSecondDirection(i: int, j: int, e: Edge)
    requires i < j
    ensures var edges := map[i := e.(direction := Some("pub")), j := e.(direction := Some("sub"))];
            && Unique(edges, ByDirection)
            && WithoutDirection(WithoutDuplicates(edges, ByEnds)) == map[i := e.(direction := None)]
  {
    var edges := map[i := e.(direction := Some("pub")), j := e.(direction := Some("sub"))];
    SurvivorsAreOldest(edges, ByEnds, i);
    SurvivorsAreOldest(edges, ByEnds, j);
    assert "pub"[0] != "sub"[0];
    assert !IsOldest(edges, ByEnds, j) by {
      assert i in edges && ByEnds(edges[i]) == ByEnds(edges[j]);
    }
  }
}
