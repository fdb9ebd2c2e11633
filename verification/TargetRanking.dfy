/**
  The ranking of broken workloads (`_proximity`, `select_targets`,
  app/context/kg_incident_context.py).

  A piece of evidence is a pod event or an alert.  The reference is the list of contributions that
  the evidence makes; a candidate's score is the sum of its contributions.  Scores are exact reals; times are
  minutes.  `workloadOf` (the owner of a pod name) and `mentioned` (the medic's text names a
  workload) are parameters.
*/
module TargetRanking {
  import opened Common
  import opened StableSort

  const BAD_POD_REASONS: set<string> := {
    "BackOff", "CrashLoopBackOff", "Failed", "FailedCreate", "FailedMount", "FailedAttachVolume",
    "FailedScheduling", "ErrImagePull", "ImagePullBackOff", "ErrImageNeverPull", "InspectFailed",
    "CreateContainerConfigError", "CreateContainerError", "Unhealthy", "OOMKilling", "OOMKilled",
    "Evicted", "BackoffLimitExceeded", "DeadlineExceeded"}
  const NOISE_ALERTS: set<string> := {"KubeDeploymentGenerationMismatch"}
  const SOFT_REASONS: set<string> := {"Unhealthy"}
  const SOFT_WEIGHT := 0.2
  const NOT_TARGETS: set<string> := {"vm-kube-state-metrics", "kube-state-metrics"}

  datatype Key = Key(namespace: string, workload: string)

  datatype Event = Event(namespace: string, pod: string, reason: string, count: Option<int>, lastSeen: Option<real>)

  /** "" is a missing service or name. */
  datatype Alert = Alert(service: string, namespace: string, name: string, resolved: bool, noisy: bool,
      firedAt: Option<real>)

  /** What is known at `asOf`; `rolled` are the workloads deployed in the window. */
  datatype Context = Context(asOf: Option<real>, rolled: set<Key>, events: seq<Event>, alerts: seq<Alert>)

  datatype Target = Target(key: Key, score: real, reasons: set<string>, sources: set<string>)

  /** `_proximity` */
  function Proximity(t: Option<real>, asOf: Option<real>): (w: real)
    ensures 0.0 < w <= 1.0
    ensures t.Some? && asOf.Some? && t.value >= asOf.value ==> w == 1.0
  {
    if t.None? || asOf.None? then 0.5
    else
      var age := if asOf.value - t.value > 0.0 then asOf.value - t.value else 0.0;
      1.0 / (1.0 + age / 30.0)
  }

  /** An older event never weighs more. */
  lemma {:induction false} ProximityDecays(t: real, u: real, asOf: real)
    requires t <= u
    ensures Proximity(Some(t), Some(asOf)) <= Proximity(Some(u), Some(asOf))
  {
    var a := if asOf - t > 0.0 then asOf - t else 0.0;
    var b := if asOf - u > 0.0 then asOf - u else 0.0;
    ReciprocalDecays(1.0 + b / 30.0, 1.0 + a / 30.0);
  }

  /** The weight of an event `age` minutes old is 30 / (30 + age): one half at half an hour; of an event whose
      age is unknown one half; of one after `asOf` one. */
  lemma {:induction false} ProximityByAge(t: Option<real>, asOf: Option<real>)
    ensures t.None? || asOf.None? ==> Proximity(t, asOf) == 0.5
    ensures t.Some? && asOf.Some? && t.value >= asOf.value ==> Proximity(t, asOf) == 1.0
    ensures t.Some? && asOf.Some? && t.value < asOf.value ==>
              Proximity(t, asOf) * (30.0 + (asOf.value - t.value)) == 30.0
  {
    if t.Some? && asOf.Some? && t.value < asOf.value {
      var age := asOf.value - t.value;
      var w := 1.0 / (1.0 + age / 30.0);
      assert w * (1.0 + age / 30.0) == 1.0;
      assert 30.0 + age == 30.0 * (1.0 + age / 30.0);
    }
  }

  lemma {:induction false} ReciprocalDecays(x: real, y: real)
    requires 0.0 < x <= y
    ensures 1.0 / y <= 1.0 / x
  {
    var p := 1.0 / y;
    assert p * x <= p * y == 1.0;
  }

  // ---- contributions ----------------------------------------------------------------------------

  datatype Contribution = Contribution(key: Key, points: real, reason: string, fromAlert: bool)

  /** `min(int(count or 1), 20)` */
  function Weight(count: Option<int>): int {
    Min(if count.None? || count.value == 0 then 1 else count.value, 20)
  }

  /** What a pod event adds, if it counts. */
  function OfEvent(c: Context, e: Event, workloadOf: string -> string): (r: Option<Contribution>)
    ensures r.Some? ==> !r.value.fromAlert && r.value.points <= 20.0
  {
    var key := Key(e.namespace, workloadOf(e.pod));
    if e.reason !in BAD_POD_REASONS || key.workload == "" || key.workload in NOT_TARGETS then None
    else if e.reason in SOFT_REASONS && key in c.rolled then None
    else
      var w := if e.reason in SOFT_REASONS then SOFT_WEIGHT else 1.0;
      var p := Proximity(e.lastSeen, c.asOf);
      PointsAreBounded(w, Weight(e.count), p);
      Some(Contribution(key, w * (Weight(e.count) as real) * p, e.reason, false))
  }

  lemma {:induction false} PointsAreBounded(w: real, n: int, p: real)
    requires 0.0 < w <= 1.0 && n <= 20 && 0.0 < p <= 1.0
    ensures w * (n as real) * p <= 20.0
    ensures n > 0 ==> w * (n as real) * p > 0.0
  {
    var x := n as real;
    if n > 0 {
      assert 0.0 < w * x <= x;
      assert 0.0 < (w * x) * p <= w * x;
    } else {
      assert w * x <= 0.0;
      assert (w * x) * p <= 0.0;
    }
  }

  /** What an alert adds, if it counts. */
  function OfAlert(c: Context, a: Alert): (r: Option<Contribution>)
    ensures r.Some? ==> r.value.fromAlert && 0.0 < r.value.points <= 5.0
  {
    var key := Key(a.namespace, a.service);
    if a.service == "" || a.service in NOT_TARGETS || a.resolved || a.noisy then None
    else if a.name in NOISE_ALERTS && key !in c.rolled then None
    else Some(Contribution(key, 5.0 * Proximity(a.firedAt, c.asOf), if a.name != "" then a.name else "alert", true))
  }

  /** What a counted pod event adds: its count, at least one for none given and at most 20, times its
      weight by age, a fifth of that for a failed probe; to the owner of its pod. */
  lemma {:induction false} EventAdds(c: Context, e: Event, workloadOf: string -> string)
    requires OfEvent(c, e, workloadOf).Some?
    ensures var x := OfEvent(c, e, workloadOf).value;
            var times := if e.count.None? || e.count.value == 0 then 1 else if e.count.value > 20 then 20
                else e.count.value;
            var full := times as real * Proximity(e.lastSeen, c.asOf);
            && x.key == Key(e.namespace, workloadOf(e.pod)) && x.reason == e.reason
            && (e.reason != "Unhealthy" ==> x.points == full)
            && (e.reason == "Unhealthy" ==> 5.0 * x.points == full)
  {
    var n, p := Weight(e.count) as real, Proximity(e.lastSeen, c.asOf);
    FifthOf(n, p);
  }

  lemma {:induction false} FifthOf(n: real, p: real)
    ensures 5.0 * (0.2 * n * p) == n * p && 1.0 * n * p == n * p
  {
    assert 0.2 * n * p == 0.2 * (n * p);
  }

  /** What a counted alert adds: five times its weight by age, to its own service, under its name. */
  lemma {:induction false} AlertAdds(c: Context, a: Alert)
    requires OfAlert(c, a).Some?
    ensures var x := OfAlert(c, a).value;
            && x.key == Key(a.namespace, a.service) && x.points == 5.0 * Proximity(a.firedAt, c.asOf)
            && (a.name != "" ==> x.reason == a.name) && (a.name == "" ==> x.reason == "alert")
  {
  }

  function EventContributions(c: Context, events: seq<Event>, workloadOf: string -> string): seq<Contribution> {
    if events == [] then []
    else
      var last := |events| - 1;
      var r := OfEvent(c, events[last], workloadOf);
      EventContributions(c, events[..last], workloadOf) + if r.Some? then [r.value] else []
  }

  function AlertContributions(c: Context, alerts: seq<Alert>): seq<Contribution> {
    if alerts == [] then []
    else
      var last := |alerts| - 1;
      var r := OfAlert(c, alerts[last]);
      AlertContributions(c, alerts[..last]) + if r.Some? then [r.value] else []
  }

  /** All contributions, in the order they are added. */
  function Contributions(c: Context, workloadOf: string -> string): seq<Contribution> {
    EventContributions(c, c.events, workloadOf) + AlertContributions(c, c.alerts)
  }

  /** The sum of the contributions to a candidate. */
  function Points(cs: seq<Contribution>, k: Key): real {
    if cs == [] then 0.0
    else
      var last := |cs| - 1;
      Points(cs[..last], k) + if cs[last].key == k then cs[last].points else 0.0
  }

  ghost function Reasons(cs: seq<Contribution>, k: Key): set<string> {
    set i | 0 <= i < |cs| && cs[i].key == k :: cs[i].reason
  }

  function Source(x: Contribution): string {
    if x.fromAlert then "kg_alerts" else "kg_pod_events"
  }

  ghost function Sources(cs: seq<Contribution>, k: Key): set<string> {
    set i | 0 <= i < |cs| && cs[i].key == k :: Source(cs[i])
  }

  // ---- accumulation ------------------------------------------------------------------------------

  ghost predicate DistinctKeys(ts: seq<Target>) {
    forall i, j | 0 <= i < j < |ts| :: ts[i].key != ts[j].key
  }

  ghost predicate HasSlot(ts: seq<Target>, k: Key) {
    exists i :: 0 <= i < |ts| && ts[i].key == k
  }

  ghost predicate HasEvidence(cs: seq<Contribution>, k: Key) {
    exists i :: 0 <= i < |cs| && cs[i].key == k
  }

  ghost predicate Sums(t: Target, cs: seq<Contribution>) {
    && HasEvidence(cs, t.key)
    && t.score == Points(cs, t.key)
    && t.reasons == Reasons(cs, t.key)
    && t.sources == Sources(cs, t.key)
  }

  /** One target per key with evidence, each with the sum of its contributions. */
  ghost predicate Collects(ts: seq<Target>, cs: seq<Contribution>) {
    && DistinctKeys(ts)
    && (forall i | 0 <= i < |ts| :: Sums(ts[i], cs))
    && (forall i | 0 <= i < |cs| :: HasSlot(ts, cs[i].key))
  }

  lemma {:induction false} Snoc(cs: seq<Contribution>, x: Contribution, k: Key)
    ensures Points(cs + [x], k) == Points(cs, k) + if x.key == k then x.points else 0.0
    ensures Reasons(cs + [x], k) == Reasons(cs, k) + if x.key == k then {x.reason} else {}
    ensures Sources(cs + [x], k) == Sources(cs, k) + if x.key == k then {Source(x)} else {}
    ensures HasEvidence(cs + [x], k) <==> HasEvidence(cs, k) || x.key == k
  {
    var all := cs + [x];
    assert all[..|cs|] == cs;
    assert forall i | 0 <= i < |cs| :: all[i] == cs[i];
    assert all[|cs|] == x;
    if HasEvidence(cs, k) {
      var i :| 0 <= i < |cs| && cs[i].key == k;
      assert all[i].key == k;
    }
    assert forall r | r in Reasons(cs, k) :: r in Reasons(all, k);
    assert forall r | r in Sources(cs, k) :: r in Sources(all, k);
  }

  lemma {:induction false} NoEvidenceNoPoints(cs: seq<Contribution>, k: Key)
    requires !HasEvidence(cs, k)
    ensures Points(cs, k) == 0.0 && Reasons(cs, k) == {} && Sources(cs, k) == {}
  {
    if cs != [] {
      var last := |cs| - 1;
      assert cs == cs[..last] + [cs[last]];
      Snoc(cs[..last], cs[last], k);
      NoEvidenceNoPoints(cs[..last], k);
    }
  }

  /** `slot` and the update of its fields. */
  method Add(ts: seq<Target>, x: Contribution, ghost cs: seq<Contribution>) returns (ts': seq<Target>)
    requires Collects(ts, cs)
    ensures Collects(ts', cs + [x])
  {
    var i := 0;
    while i < |ts| && ts[i].key != x.key
      invariant i <= |ts|
      invariant forall j | 0 <= j < i :: ts[j].key != x.key
    {
      i := i + 1;
    }
    if i < |ts| {
      var t := ts[i];
      ts' := ts[i := Target(t.key, t.score + x.points, t.reasons + {x.reason}, t.sources + {Source(x)})];
    } else {
      ts' := ts + [Target(x.key, x.points, {x.reason}, {Source(x)})];
      SlotIffEvidence(ts, cs, x.key);
      NoEvidenceNoPoints(cs, x.key);
    }
    AddCollects(ts, x, cs, ts', i);
  }

  lemma {:induction false} AddCollects(ts: seq<Target>, x: Contribution, cs: seq<Contribution>, ts': seq<Target>,
      at: nat)
    requires Collects(ts, cs) && DistinctKeys(ts') && at < |ts'| && |ts| <= |ts'| && ts'[at].key == x.key
    requires forall i | 0 <= i < |ts'| && i != at :: i < |ts| && ts'[i] == ts[i] && ts'[i].key != x.key
    requires at < |ts| ==> ts[at].key == x.key
    requires ts'[at].score == Points(cs, x.key) + x.points
    requires ts'[at].reasons == Reasons(cs, x.key) + {x.reason}
    requires ts'[at].sources == Sources(cs, x.key) + {Source(x)}
    ensures Collects(ts', cs + [x])
  {
    var all := cs + [x];
    forall i | 0 <= i < |ts'|
      ensures Sums(ts'[i], all)
    {
      Snoc(cs, x, ts'[i].key);
      if i != at {
        assert Sums(ts[i], cs);
      }
    }
    forall i | 0 <= i < |all|
      ensures HasSlot(ts', all[i].key)
    {
      if i < |cs| {
        assert HasSlot(ts, cs[i].key);
        var j :| 0 <= j < |ts| && ts[j].key == cs[i].key;
        assert ts'[j].key == all[i].key;
      } else {
        assert ts'[at].key == all[i].key;
      }
    }
  }

  /** The sources of a candidate: pod events iff it has one, alerts iff it has one, and nothing else. */
  ghost predicate SourcesTellEvidence(t: Target, cs: seq<Contribution>) {
    && ("kg_pod_events" in t.sources <==> exists i :: 0 <= i < |cs| && cs[i].key == t.key && !cs[i].fromAlert)
    && ("kg_alerts" in t.sources <==> exists i :: 0 <= i < |cs| && cs[i].key == t.key && cs[i].fromAlert)
    && t.sources <= {"kg_pod_events", "kg_alerts"}
  }

  lemma {:induction false} SumsTellSources(t: Target, cs: seq<Contribution>)
    requires Sums(t, cs)
    ensures SourcesTellEvidence(t, cs)
  {
    assert |"kg_alerts"| == 9 && |"kg_pod_events"| == 13;
    forall i | 0 <= i < |cs| && cs[i].key == t.key
      ensures (if cs[i].fromAlert then "kg_alerts" else "kg_pod_events") in t.sources
    {
      assert Source(cs[i]) in Sources(cs, t.key);
    }
  }

  /** The two accumulation loops. */
  method Accumulate(c: Context, workloadOf: string -> string) returns (acc: seq<Target>)
    ensures Collects(acc, Contributions(c, workloadOf))
    ensures forall i | 0 <= i < |acc| :: SourcesTellEvidence(acc[i], Contributions(c, workloadOf))
  {
    acc := [];
    for n := 0 to |c.events|
      invariant Collects(acc, EventContributions(c, c.events[..n], workloadOf))
    {
      assert c.events[..n + 1][..n] == c.events[..n];
      var x := OfEvent(c, c.events[n], workloadOf);
      ghost var before := EventContributions(c, c.events[..n], workloadOf);
      if x.Some? {
        acc := Add(acc, x.value, before);
      } else {
        assert before + [] == before;
      }
    }
    assert c.events[..|c.events|] == c.events;
    ghost var fromEvents := EventContributions(c, c.events, workloadOf);
    assert fromEvents + [] == fromEvents;
    for n := 0 to |c.alerts|
      invariant Collects(acc, fromEvents + AlertContributions(c, c.alerts[..n]))
    {
      assert c.alerts[..n + 1][..n] == c.alerts[..n];
      var x := OfAlert(c, c.alerts[n]);
      ghost var before := AlertContributions(c, c.alerts[..n]);
      if x.Some? {
        acc := Add(acc, x.value, fromEvents + before);
        assert fromEvents + before + [x.value] == fromEvents + (before + [x.value]);
      } else {
        assert before + [] == before;
      }
    }
    assert c.alerts[..|c.alerts|] == c.alerts;
    forall i | 0 <= i < |acc| {
      SumsTellSources(acc[i], Contributions(c, workloadOf));
    }
  }

  // ---- the medic's text ---------------------------------------------------------------------------------

  /** A candidate with a hard reason that the text names. */
  predicate Boosts(t: Target, mentioned: string -> bool) {
    t.reasons - SOFT_REASONS != {} && mentioned(t.key.workload)
  }

  function Boosted(t: Target, mentioned: string -> bool): Target {
    if Boosts(t, mentioned) then t.(score := t.score * 1.5, sources := t.sources + {"medic_applied"}) else t
  }

  /** The text changes neither candidates nor reasons and multiplies scores by 1 or 1.5. */
  ghost predicate OnlyScaled(ts: seq<Target>, ts': seq<Target>) {
    |ts'| == |ts| &&
    forall i | 0 <= i < |ts| ::
      && ts'[i].key == ts[i].key
      && ts'[i].reasons == ts[i].reasons
      && (ts'[i].score == ts[i].score || ts'[i].score == ts[i].score * 1.5)
      && (ts[i].reasons <= SOFT_REASONS ==> ts'[i] == ts[i])
  }

  method ApplyMedicText(acc: seq<Target>, hasText: bool, mentioned: string -> bool) returns (r: seq<Target>)
    ensures OnlyScaled(acc, r)
    ensures forall i | 0 <= i < |acc| :: r[i] == if hasText then Boosted(acc[i], mentioned) else acc[i]
    ensures forall i | 0 <= i < |acc| ::
              var named := hasText && mentioned(acc[i].key.workload) && exists x ::
                  x in acc[i].reasons && x != "Unhealthy";
              && (named ==> r[i].score == acc[i].score * 1.5 && r[i].sources == acc[i].sources + {"medic_applied"})
              && (!named ==> r[i] == acc[i])
  {
    r := acc;
    if hasText {
      for n := 0 to |acc|
        invariant |r| == |acc|
        invariant forall i | 0 <= i < n :: r[i] == Boosted(acc[i], mentioned)
        invariant forall i | n <= i < |acc| :: r[i] == acc[i]
      {
        r := r[n := Boosted(r[n], mentioned)];
      }
    }
    forall i | 0 <= i < |acc| {
      BoostsIff(acc[i], mentioned);
    }
  }

  lemma {:induction false} BoostsIff(t: Target, mentioned: string -> bool)
    ensures Boosts(t, mentioned) <==> mentioned(t.key.workload) && exists x :: x in t.reasons && x != "Unhealthy"
  {
    if t.reasons - SOFT_REASONS != {} {
      var x :| x in t.reasons - SOFT_REASONS;
    }
    if x :| x in t.reasons && x != "Unhealthy" {
      assert x in t.reasons - SOFT_REASONS;
    }
  }

  // ---- the ranking ----------------------------------------------------------------------------------------

  function Negated(t: Target): real {
    -t.score
  }

  function Ranked(ts: seq<Target>, limit: nat): seq<Target> {
    var sorted := Sort(ts, Negated);
    sorted[..Min(limit, |sorted|)]
  }

  /** `round(x, 2)` on the exact value. */
  function Round2(x: real): real {
    RoundHalfEven(x * 100.0) as real / 100.0
  }

  /** A score is shown as a number of hundredths, the nearest one. */
  lemma {:induction false} Round2IsNearest(x: real) returns (hundredths: int)
    ensures Round2(x) == hundredths as real / 100.0 && x - 0.005 <= Round2(x) <= x + 0.005
  {
    hundredths := RoundHalfEven(x * 100.0);
    RoundIsNearest(x * 100.0);
    var h := hundredths as real;
    assert x * 100.0 - 0.5 <= h <= x * 100.0 + 0.5;
  }

  /** `select_targets` */
  method SelectTargets(c: Context, hasText: bool, mentioned: string -> bool, workloadOf: string -> string, limit: nat)
      returns (r: seq<Target>, ghost plain: seq<Target>, ghost all: seq<Target>)
    ensures Collects(plain, Contributions(c, workloadOf)) && OnlyScaled(plain, all)
    ensures forall i | 0 <= i < |plain| :: all[i] == if hasText then Boosted(plain[i], mentioned) else plain[i]
    ensures |r| <= limit && forall i, j | 0 <= i < j < |r| :: r[i].score >= r[j].score
    ensures Emitted(r, Ranked(all, limit))
  {
    var acc := Accumulate(c, workloadOf);
    plain := acc;
    acc := ApplyMedicText(acc, hasText, mentioned);
    all := acc;
    var ranked := Ranked(acc, limit);
    r := [];
    for n := 0 to |ranked|
      invariant Emitted(r, ranked[..n])
    {
      assert ranked[..n + 1][..n] == ranked[..n];
      if ranked[n].score > 0.0 {
        r := r + [ranked[n].(score := Round2(ranked[n].score))];
      }
    }
    assert ranked[..|ranked|] == ranked;
    RankedDescends(all, limit);
    EmittedDescends(r, ranked);
  }

  /** The positive ones, scores rounded, in the same order. */
  ghost predicate Emitted(r: seq<Target>, ranked: seq<Target>) {
    if ranked == [] then r == []
    else
      var last := |ranked| - 1;
      if ranked[last].score > 0.0 then
        && |r| > 0
        && r[|r| - 1] == ranked[last].(score := Round2(ranked[last].score))
        && Emitted(r[..|r| - 1], ranked[..last])
      else Emitted(r, ranked[..last])
  }

  ghost predicate Descends(ts: seq<Target>) {
    forall i, j | 0 <= i < j < |ts| :: ts[i].score >= ts[j].score
  }

  lemma {:induction false} RankedDescends(ts: seq<Target>, limit: nat)
    ensures Descends(Ranked(ts, limit))
  {
    SortAscends(ts, Negated);
    var r := Ranked(ts, limit);
    forall i, j | 0 <= i < j < |r|
      ensures r[i].score >= r[j].score
    {
      assert Negated(r[i]) <= Negated(r[j]);
    }
  }

  lemma {:induction false} EmittedFrom(r: seq<Target>, ranked: seq<Target>, i: nat) returns (j: nat)
    requires Emitted(r, ranked) && i < |r|
    ensures j < |ranked| && ranked[j].score > 0.0 && r[i] == ranked[j].(score := Round2(ranked[j].score))
  {
    var last := |ranked| - 1;
    if ranked[last].score > 0.0 && i == |r| - 1 {
      j := last;
    } else {
      j := EmittedFrom(if ranked[last].score > 0.0 then r[..|r| - 1] else r, ranked[..last], i);
    }
  }

  lemma {:induction false} EmittedDescends(r: seq<Target>, ranked: seq<Target>)
    requires Emitted(r, ranked) && Descends(ranked)
    ensures |r| <= |ranked| && Descends(r)
  {
    if ranked != [] {
      var last := |ranked| - 1;
      if ranked[last].score > 0.0 {
        var p := r[..|r| - 1];
        EmittedDescends(p, ranked[..last]);
        forall i | 0 <= i < |p|
          ensures p[i].score >= r[|r| - 1].score
        {
          var j := EmittedFrom(p, ranked[..last], i);
          RoundIsMonotone(ranked[last].score * 100.0, ranked[j].score * 100.0);
        }
      } else {
        EmittedDescends(r, ranked[..last]);
      }
    }
  }

  /** No candidate left out by the limit scores more than one kept. */
  lemma {:induction false} KeepsTheWorst(ts: seq<Target>, limit: nat, kept: Target, dropped: Target)
    requires kept in Ranked(ts, limit) && dropped in ts && dropped !in Ranked(ts, limit)
    ensures kept.score >= dropped.score
  {
    SortAscends(ts, Negated);
    SortMembers(ts, Negated);
    var sorted := Sort(ts, Negated);
    var i :| 0 <= i < |Ranked(ts, limit)| && Ranked(ts, limit)[i] == kept;
    var j :| 0 <= j < |sorted| && sorted[j] == dropped;
    assert Negated(sorted[i]) <= Negated(sorted[j]);
  }

  // ---- who is a candidate ----------------------------------------------------------------------------------

  /** A bad pod event of workload `k` that counts. */
  ghost predicate BadEvent(c: Context, e: Event, workloadOf: string -> string, k: Key) {
    && e.reason in BAD_POD_REASONS && k == Key(e.namespace, workloadOf(e.pod))
    && k.workload != "" && k.workload !in NOT_TARGETS
    && (e.reason in SOFT_REASONS ==> k !in c.rolled)
  }

  /** A live alert of service `k` that counts. */
  ghost predicate LiveAlert(c: Context, a: Alert, k: Key) {
    && k == Key(a.namespace, a.service) && a.service != "" && a.service !in NOT_TARGETS
    && !a.resolved && !a.noisy
    && (a.name in NOISE_ALERTS ==> k in c.rolled)
  }

  lemma {:induction false} EventEvidence(c: Context, events: seq<Event>, workloadOf: string -> string, k: Key)
    ensures HasEvidence(EventContributions(c, events, workloadOf), k) <==>
            exists i :: 0 <= i < |events| && BadEvent(c, events[i], workloadOf, k)
  {
    if events != [] {
      var last := |events| - 1;
      var p := events[..last];
      EventEvidence(c, p, workloadOf, k);
      var x := OfEvent(c, events[last], workloadOf);
      var cs := EventContributions(c, p, workloadOf);
      if x.Some? {
        Snoc(cs, x.value, k);
      } else {
        assert cs + [] == cs;
      }
      assert (exists i :: 0 <= i < |events| && BadEvent(c, events[i], workloadOf, k)) <==>
             (exists i :: 0 <= i < |p| && BadEvent(c, p[i], workloadOf, k))
                 || BadEvent(c, events[last], workloadOf, k) by {
        assert forall i | 0 <= i < last :: p[i] == events[i];
      }
    }
  }

  lemma {:induction false} AlertEvidence(c: Context, alerts: seq<Alert>, k: Key)
    ensures HasEvidence(AlertContributions(c, alerts), k) <==>
            exists i :: 0 <= i < |alerts| && LiveAlert(c, alerts[i], k)
  {
    if alerts != [] {
      var last := |alerts| - 1;
      var p := alerts[..last];
      AlertEvidence(c, p, k);
      var x := OfAlert(c, alerts[last]);
      var cs := AlertContributions(c, p);
      if x.Some? {
        Snoc(cs, x.value, k);
      } else {
        assert cs + [] == cs;
      }
      assert (exists i :: 0 <= i < |alerts| && LiveAlert(c, alerts[i], k)) <==>
             (exists i :: 0 <= i < |p| && LiveAlert(c, p[i], k)) || LiveAlert(c, alerts[last], k) by {
        assert forall i | 0 <= i < last :: p[i] == alerts[i];
      }
    }
  }

  lemma {:induction false} EvidenceConcat(a: seq<Contribution>, b: seq<Contribution>, k: Key)
    ensures HasEvidence(a + b, k) <==> HasEvidence(a, k) || HasEvidence(b, k)
    ensures Points(a + b, k) == Points(a, k) + Points(b, k)
  {
    if b == [] {
      assert a + b == a;
    } else {
      var last := |b| - 1;
      EvidenceConcat(a, b[..last], k);
      assert a + b == (a + b[..last]) + [b[last]];
      Snoc(a + b[..last], b[last], k);
      assert b == b[..last] + [b[last]];
      Snoc(b[..last], b[last], k);
    }
  }

  lemma {:induction false} SlotIffEvidence(acc: seq<Target>, cs: seq<Contribution>, k: Key)
    requires Collects(acc, cs)
    ensures HasSlot(acc, k) <==> HasEvidence(cs, k)
  {
    if HasSlot(acc, k) {
      var i :| 0 <= i < |acc| && acc[i].key == k;
      assert Sums(acc[i], cs);
    }
    if HasEvidence(cs, k) {
      var i :| 0 <= i < |cs| && cs[i].key == k;
      assert HasSlot(acc, cs[i].key);
    }
  }

  /** A workload is a candidate iff some bad event or live alert of its own counts. */
  lemma {:induction false} CandidateIff(c: Context, workloadOf: string -> string, acc: seq<Target>, k: Key)
    requires Collects(acc, Contributions(c, workloadOf))
    ensures HasSlot(acc, k) <==>
            || (exists i :: 0 <= i < |c.events| && BadEvent(c, c.events[i], workloadOf, k))
            || (exists i :: 0 <= i < |c.alerts| && LiveAlert(c, c.alerts[i], k))
  {
    SlotIffEvidence(acc, Contributions(c, workloadOf), k);
    EvidenceConcat(EventContributions(c, c.events, workloadOf), AlertContributions(c, c.alerts), k);
    EventEvidence(c, c.events, workloadOf, k);
    AlertEvidence(c, c.alerts, k);
  }

  /** Failed probes during its own rollout alone never make a workload a candidate. */
  lemma {:induction false} WarmUpIsNoEvidence(c: Context, workloadOf: string -> string, acc: seq<Target>, k: Key)
    requires Collects(acc, Contributions(c, workloadOf)) && k in c.rolled
    requires forall i | 0 <= i < |c.events| && Key(c.events[i].namespace, workloadOf(c.events[i].pod)) == k ::
               c.events[i].reason in SOFT_REASONS || c.events[i].reason !in BAD_POD_REASONS
    requires forall i | 0 <= i < |c.alerts| && Key(c.alerts[i].namespace, c.alerts[i].service) == k ::
               c.alerts[i].resolved || c.alerts[i].noisy
    ensures !HasSlot(acc, k)
  {
    CandidateIff(c, workloadOf, acc, k);
  }

  // ---- the size of a score ----------------------------------------------------------------------------------

  /** The pod events, or the alerts, that count for a candidate. */
  ghost function Evidence(cs: seq<Contribution>, k: Key, alerts: bool): set<int> {
    set i | 0 <= i < |cs| && cs[i].key == k && cs[i].fromAlert == alerts
  }

  lemma {:induction false} EvidenceSnoc(cs: seq<Contribution>, x: Contribution, k: Key, alerts: bool)
    ensures |Evidence(cs + [x], k, alerts)| ==
            |Evidence(cs, k, alerts)| + if x.key == k && x.fromAlert == alerts then 1 else 0
  {
    var all := cs + [x];
    assert Evidence(all, k, alerts) ==
           Evidence(cs, k, alerts) + if x.key == k && x.fromAlert == alerts then {|cs|} else {};
  }

  /** At most 20 points per pod event and 5 per alert. */
  ghost predicate Plausible(cs: seq<Contribution>) {
    forall i | 0 <= i < |cs| :: cs[i].points <= if cs[i].fromAlert then 5.0 else 20.0
  }

  ghost predicate Positive(cs: seq<Contribution>) {
    forall i | 0 <= i < |cs| :: cs[i].points > 0.0
  }

  lemma {:induction false} PointsBound(cs: seq<Contribution>, k: Key)
    requires Plausible(cs)
    ensures Points(cs, k) <= 20.0 * (|Evidence(cs, k, false)| as real) + 5.0 * (|Evidence(cs, k, true)| as real)
  {
    if cs != [] {
      var rest, x := cs[..|cs| - 1], cs[|cs| - 1];
      PointsBound(rest, k);
      assert cs == rest + [x];
      EvidenceSnoc(rest, x, k, false);
      EvidenceSnoc(rest, x, k, true);
    }
  }

  lemma {:induction false} PointsPositive(cs: seq<Contribution>, k: Key)
    requires Positive(cs)
    ensures Points(cs, k) >= 0.0 && (HasEvidence(cs, k) ==> Points(cs, k) > 0.0)
  {
    if cs != [] {
      var last := |cs| - 1;
      PointsPositive(cs[..last], k);
      assert cs == cs[..last] + [cs[last]];
      Snoc(cs[..last], cs[last], k);
    }
  }

  ghost predicate CountsAreSane(events: seq<Event>) {
    forall i | 0 <= i < |events| :: events[i].count.Some? ==> events[i].count.value >= 0
  }

  lemma {:induction false} EventIsPositiveIff(c: Context, e: Event, workloadOf: string -> string)
    requires OfEvent(c, e, workloadOf).Some?
    ensures OfEvent(c, e, workloadOf).value.points > 0.0 <==> (e.count.Some? ==> e.count.value >= 0)
  {
    var w := if e.reason in SOFT_REASONS then SOFT_WEIGHT else 1.0;
    var p := Proximity(e.lastSeen, c.asOf);
    PointsArePositiveIff(w, Weight(e.count), p);
  }

  lemma {:induction false} PointsArePositiveIff(w: real, n: int, p: real)
    requires 0.0 < w && 0.0 < p
    ensures w * (n as real) * p > 0.0 <==> n > 0
  {
    var x := n as real;
    if n > 0 {
      assert w * x > 0.0;
      assert (w * x) * p > 0.0;
    } else {
      assert w * x <= 0.0;
      assert (w * x) * p <= 0.0;
    }
  }

  lemma {:induction false} EventPoints(c: Context, events: seq<Event>, workloadOf: string -> string)
    ensures Plausible(EventContributions(c, events, workloadOf))
    ensures CountsAreSane(events) ==> Positive(EventContributions(c, events, workloadOf))
  {
    if events != [] {
      var last := |events| - 1;
      EventPoints(c, events[..last], workloadOf);
      if OfEvent(c, events[last], workloadOf).Some? {
        EventIsPositiveIff(c, events[last], workloadOf);
      }
    }
  }

  lemma {:induction false} AlertPoints(c: Context, alerts: seq<Alert>)
    ensures Plausible(AlertContributions(c, alerts)) && Positive(AlertContributions(c, alerts))
  {
    if alerts != [] {
      AlertPoints(c, alerts[..|alerts| - 1]);
    }
  }

  lemma {:induction false} SumIsBounded(c: Context, workloadOf: string -> string, k: Key)
    ensures var cs := Contributions(c, workloadOf);
            && Points(cs, k) <= 20.0 * (|Evidence(cs, k, false)| as real) + 5.0 * (|Evidence(cs, k, true)| as real)
            && (CountsAreSane(c.events) && HasEvidence(cs, k) ==> Points(cs, k) > 0.0)
  {
    EventPoints(c, c.events, workloadOf);
    AlertPoints(c, c.alerts);
    var cs := Contributions(c, workloadOf);
    PointsBound(cs, k);
    if CountsAreSane(c.events) {
      PointsPositive(cs, k);
    }
  }

  /** Every score is positive and at most 1.5 (20 per bad pod event + 5 per alert). */
  lemma {:induction false} ScoreIsBounded(c: Context, workloadOf: string -> string, acc: seq<Target>,
      all: seq<Target>, i: nat)
    requires Collects(acc, Contributions(c, workloadOf)) && OnlyScaled(acc, all) && i < |all|
    ensures CountsAreSane(c.events) ==> all[i].score > 0.0
    ensures var cs := Contributions(c, workloadOf);
            var bound := 20.0 * (|Evidence(cs, all[i].key, false)| as real)
                         + 5.0 * (|Evidence(cs, all[i].key, true)| as real);
            all[i].score <= 1.5 * bound
  {
    SumIsBounded(c, workloadOf, all[i].key);
    assert Sums(acc[i], Contributions(c, workloadOf));
  }
}
