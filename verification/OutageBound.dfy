/**
  `check_alertmanager` (app/api/rate_limit.py): a counter shared through Redis, and the
  in-process counter of each replica when Redis fails.

  The run model takes one (ip, window) key `k` and any number of replicas.  A request is an
  INCR, answered or lost (and then applied or not), followed for count 1 by an EXPIRE, answered or
  lost.  Requests for other keys use the same in-process counters, and the shared key may vanish
  (`Lapse`: it expired or Redis lost it).
*/
module OutageBound {
  import opened Common
  import opened FallbackLimiter

  /** `check_alertmanager`; `incr` and `expired` are what Redis answers. */
  method CheckAlertmanager(local: FallbackCounters, ip: string, window: int, incr: Option<int>, expired: bool)
      returns (allowed: bool)
    modifies local
    ensures ip == "" ==> allowed && local.View() == old(local.View())
    ensures ip != "" && incr.Some? && (incr.value != 1 || expired) ==>
              local.View() == old(local.View()) && (allowed <==> incr.value <= 10)
    ensures ip != "" && (incr.None? || (incr.value == 1 && !expired)) ==>
              && local.View() == Touch(old(local.View()), Key(ip, window), FALLBACK_MAX_KEYS)
              && (allowed <==> Allows(old(local.View()), Key(ip, window)))
  {
    if ip == "" {
      return true;
    }
    var failed := incr.None?;
    if !failed && incr.value == 1 {
      failed := !expired;
    }
    if !failed {
      return incr.value <= ALERTMANAGER_RATE_LIMIT;
    }
    allowed := local.CheckLocalFallback(ip, window);
  }

  // ---- runs -----------------------------------------------------------------------------------

  datatype State = State(
    shared: nat,               // the Redis counter
    local: seq<seq<Key>>,      // per replica, the keys its in-process counter has counted
    pending: seq<nat>,         // replicas of the requests that hold count 1 and await EXPIRE
    redisAdmitted: nat,        // requests let through by the shared counter
    localAdmitted: seq<nat>,   // requests let through by each replica's own counter
    lapses: nat)               // times the shared key vanished

  datatype Step =
    | Incr(replica: nat)
    | IncrLost(replica: nat, applied: bool)
    | Expire(replica: nat)
    | ExpireLost(replica: nat)
    | OtherKey(replica: nat, key: Key)
    | Lapse

  function Start(replicas: nat): State {
    State(0, seq(replicas, _ => []), [], 0, seq(replicas, _ => 0), 0)
  }

  predicate WellFormed(s: State) {
    |s.localAdmitted| == |s.local|
  }

  predicate Enabled(s: State, k: Key, step: Step) {
    match step
    case Incr(r) => r < |s.local|
    case IncrLost(r, _) => r < |s.local|
    case Expire(r) => r < |s.local| && r in s.pending
    case ExpireLost(r) => r < |s.local| && r in s.pending
    case OtherKey(r, x) => r < |s.local| && x != k
    case Lapse => true
  }

  /** One request falls back to the counter of its replica. */
  function Fallback(s: State, k: Key, r: nat): (s': State)
    requires WellFormed(s) && r < |s.local|
    ensures WellFormed(s') && |s'.local| == |s.local|
  {
    var allowed := if Allows(Run(s.local[r], FALLBACK_MAX_KEYS), k) then 1 else 0;
    s.(local := s.local[r := s.local[r] + [k]], localAdmitted := s.localAdmitted[r := s.localAdmitted[r] + allowed])
  }

  function DropFirst(p: seq<nat>, r: nat): (q: seq<nat>)
    ensures |q| == if r in p then |p| - 1 else |p|
  {
    if p == [] then [] else if p[0] == r then p[1..] else [p[0]] + DropFirst(p[1..], r)
  }

  function Apply(s: State, k: Key, step: Step): (s': State)
    requires WellFormed(s) && Enabled(s, k, step)
    ensures WellFormed(s') && |s'.local| == |s.local|
  {
    match step
    case Incr(r) =>
      var count := s.shared + 1;
      if count == 1 then s.(shared := count, pending := s.pending + [r])
      else s.(shared := count, redisAdmitted := s.redisAdmitted + if count <= ALERTMANAGER_RATE_LIMIT then 1 else 0)
    case IncrLost(r, applied) =>
      Fallback(s.(shared := s.shared + if applied then 1 else 0), k, r)
    case Expire(r) =>
      s.(pending := DropFirst(s.pending, r), redisAdmitted := s.redisAdmitted + 1)
    case ExpireLost(r) =>
      Fallback(s.(pending := DropFirst(s.pending, r)), k, r)
    case OtherKey(r, x) =>
      s.(local := s.local[r := s.local[r] + [x]])
    case Lapse =>
      s.(shared := 0, lapses := s.lapses + 1)
  }

  ghost predicate CanRun(s: State, k: Key, steps: seq<Step>)
    requires WellFormed(s)
    decreases |steps|
  {
    steps == [] || (Enabled(s, k, steps[0]) && CanRun(Apply(s, k, steps[0]), k, steps[1..]))
  }

  ghost function RunFrom(s: State, k: Key, steps: seq<Step>): (s': State)
    requires WellFormed(s) && CanRun(s, k, steps)
    ensures WellFormed(s') && |s'.local| == |s.local|
    decreases |steps|
  {
    if steps == [] then s else RunFrom(Apply(s, k, steps[0]), k, steps[1..])
  }

  /** Which steps can come next: at any replica a request can start, its INCR answered or lost, one that waits for
      EXPIRE can have it answered or lost, another key can be used; and the shared key can vanish. */
  lemma {:induction false} PossibleSteps(s: State, k: Key, r: nat, lost: bool, other: Key)
    requires r < |s.local|
    ensures Enabled(s, k, Incr(r)) && Enabled(s, k, IncrLost(r, lost)) && Enabled(s, k, Lapse)
    ensures Enabled(s, k, Expire(r)) <==> r in s.pending
    ensures Enabled(s, k, ExpireLost(r)) <==> r in s.pending
    ensures Enabled(s, k, OtherKey(r, other)) <==> other != k
  {
  }

  function Sum(counts: seq<nat>): nat {
    if counts == [] then 0 else counts[0] + Sum(counts[1..])
  }

  function Admitted(s: State): nat {
    s.redisAdmitted + Sum(s.localAdmitted)
  }

  /** No replica has evicted `k` between two of its uses. */
  ghost predicate NoEviction(s: State, k: Key) {
    forall r | 0 <= r < |s.local| :: GapsAreSmall(s.local[r], k, FALLBACK_MAX_KEYS)
  }

  /** What every step keeps. */
  ghost predicate Bounded(s: State, k: Key) {
    && WellFormed(s)
    && s.redisAdmitted + |s.pending| <= ALERTMANAGER_RATE_LIMIT * s.lapses + Min(s.shared, ALERTMANAGER_RATE_LIMIT)
    && forall r | 0 <= r < |s.local| :: s.localAdmitted[r] == Min(Uses(s.local[r], k), ALERTMANAGER_RATE_LIMIT)
  }

  // ---- the bound ---------------------------------------------------------------------------------

  lemma {:induction false} UsesSnoc(uses: seq<Key>, x: Key, k: Key)
    ensures Uses(uses + [x], k) == Uses(uses, k) + if x == k then 1 else 0
  {
    assert (uses + [x])[..|uses|] == uses;
  }

  lemma {:induction false} FallbackKeepsBound(s: State, k: Key, r: nat)
    requires Bounded(s, k) && r < |s.local| && GapsAreSmall(s.local[r] + [k], k, FALLBACK_MAX_KEYS)
    ensures Bounded(Fallback(s, k, r), k)
  {
    SameDecision(s.local[r], k);
    UsesSnoc(s.local[r], k, k);
  }

  lemma {:induction false} StepKeepsBound(s: State, k: Key, step: Step)
    requires Bounded(s, k) && Enabled(s, k, step) && NoEviction(Apply(s, k, step), k)
    ensures Bounded(Apply(s, k, step), k)
  {
    var s' := Apply(s, k, step);
    match step
    case Incr(r) =>
    case IncrLost(r, applied) =>
      assert s'.local[r] == s.local[r] + [k];
      FallbackKeepsBound(s.(shared := s.shared + if applied then 1 else 0), k, r);
    case Expire(r) =>
    case ExpireLost(r) =>
      assert s'.local[r] == s.local[r] + [k];
      FallbackKeepsBound(s.(pending := DropFirst(s.pending, r)), k, r);
    case OtherKey(r, x) =>
      UsesSnoc(s.local[r], x, k);
    case Lapse =>
  }

  lemma {:induction false} GapsBefore(uses: seq<Key>, x: Key, k: Key)
    requires GapsAreSmall(uses + [x], k, FALLBACK_MAX_KEYS)
    ensures GapsAreSmall(uses, k, FALLBACK_MAX_KEYS)
  {
    assert (uses + [x])[..|uses + [x]| - 1] == uses;
    GapsOfPrefix(uses + [x], k, FALLBACK_MAX_KEYS);
  }

  lemma {:induction false} NoEvictionBefore(s: State, k: Key, step: Step)
    requires WellFormed(s) && Enabled(s, k, step) && NoEviction(Apply(s, k, step), k)
    ensures NoEviction(s, k)
  {
    var s' := Apply(s, k, step);
    forall r | 0 <= r < |s.local|
      ensures GapsAreSmall(s.local[r], k, FALLBACK_MAX_KEYS)
    {
      assert GapsAreSmall(s'.local[r], k, FALLBACK_MAX_KEYS);
      if s'.local[r] != s.local[r] {
        var x := if step.OtherKey? then step.key else k;
        assert s'.local[r] == s.local[r] + [x];
        GapsBefore(s.local[r], x, k);
      }
    }
  }

  lemma {:induction false} NoEvictionAllAlong(s: State, k: Key, steps: seq<Step>)
    requires WellFormed(s) && CanRun(s, k, steps) && NoEviction(RunFrom(s, k, steps), k)
    ensures NoEviction(s, k)
    decreases |steps|
  {
    if steps != [] {
      NoEvictionAllAlong(Apply(s, k, steps[0]), k, steps[1..]);
      NoEvictionBefore(s, k, steps[0]);
    }
  }

  lemma {:induction false} RunKeepsBound(s: State, k: Key, steps: seq<Step>)
    requires Bounded(s, k) && CanRun(s, k, steps) && NoEviction(RunFrom(s, k, steps), k)
    ensures Bounded(RunFrom(s, k, steps), k)
    decreases |steps|
  {
    if steps != [] {
      var s' := Apply(s, k, steps[0]);
      NoEvictionAllAlong(s', k, steps[1..]);
      StepKeepsBound(s, k, steps[0]);
      RunKeepsBound(s', k, steps[1..]);
    }
  }

  lemma {:induction false} SumBound(counts: seq<nat>, each: nat)
    requires forall i | 0 <= i < |counts| :: counts[i] <= each
    ensures Sum(counts) <= each * |counts|
  {
    if counts != [] {
      SumBound(counts[1..], each);
    }
  }

  /** At most 10 per replica plus 10 per life of the shared key, however Redis fails. */
  lemma {:induction false} OutageBound(replicas: nat, k: Key, steps: seq<Step>)
    requires CanRun(Start(replicas), k, steps) && NoEviction(RunFrom(Start(replicas), k, steps), k)
    ensures var s := RunFrom(Start(replicas), k, steps);
            Admitted(s) <= ALERTMANAGER_RATE_LIMIT * (replicas + 1 + s.lapses)
  {
    RunKeepsBound(Start(replicas), k, steps);
    SumBound(RunFrom(Start(replicas), k, steps).localAdmitted, ALERTMANAGER_RATE_LIMIT);
  }

  /** The requests at a replica whose INCR or EXPIRE was lost. */
  function LostAt(steps: seq<Step>, r: nat): nat {
    if steps == [] then 0
    else
      var x := steps[0];
      LostAt(steps[1..], r)
      + if (x.IncrLost? && x.replica == r) || (x.ExpireLost? && x.replica == r) then 1 else 0
  }

  lemma {:induction false} LostAreCounted(s: State, k: Key, steps: seq<Step>, r: nat)
    requires WellFormed(s) && CanRun(s, k, steps) && r < |s.local|
    ensures Uses(RunFrom(s, k, steps).local[r], k) == Uses(s.local[r], k) + LostAt(steps, r)
    decreases |steps|
  {
    if steps != [] {
      var s', x := Apply(s, k, steps[0]), steps[0];
      LostAreCounted(s', k, steps[1..], r);
      if s'.local[r] != s.local[r] {
        var used := if x.OtherKey? then x.key else k;
        assert s'.local[r] == s.local[r] + [used];
        UsesSnoc(s.local[r], used, k);
      }
    }
  }

  /** Every lost request falls back to its replica, which lets exactly the first 10 of them through. */
  lemma {:induction false} LostRequestsFallBack(replicas: nat, k: Key, steps: seq<Step>, r: nat)
    requires CanRun(Start(replicas), k, steps) && NoEviction(RunFrom(Start(replicas), k, steps), k) && r < replicas
    ensures RunFrom(Start(replicas), k, steps).localAdmitted[r] == Min(LostAt(steps, r), 10)
  {
    RunKeepsBound(Start(replicas), k, steps);
    LostAreCounted(Start(replicas), k, steps, r);
  }

  /** The INCRs that reached the shared key since it last vanished, their answers lost or not. */
  function Applied(steps: seq<Step>): nat {
    if steps == [] then 0
    else
      var x := steps[|steps| - 1];
      if x.Lapse? then 0 else Applied(steps[..|steps| - 1]) + if x.Incr? || (x.IncrLost? && x.applied) then 1 else 0
  }

  function Lapses(steps: seq<Step>): nat {
    if steps == [] then 0 else Lapses(steps[..|steps| - 1]) + if steps[|steps| - 1].Lapse? then 1 else 0
  }

  lemma {:induction false} RunSnoc(s: State, k: Key, steps: seq<Step>)
    requires WellFormed(s) && steps != [] && CanRun(s, k, steps)
    ensures CanRun(s, k, steps[..|steps| - 1]) && Enabled(RunFrom(s, k, steps[..|steps| - 1]), k, steps[|steps| - 1])
    ensures RunFrom(s, k, steps) == Apply(RunFrom(s, k, steps[..|steps| - 1]), k, steps[|steps| - 1])
    decreases |steps|
  {
    if |steps| > 1 {
      RunSnoc(Apply(s, k, steps[0]), k, steps[1..]);
      assert steps[1..][..|steps| - 2] == steps[..|steps| - 1][1..];
    } else {
      assert steps[..0] == [] && steps[1..] == [];
    }
  }

  /** The shared counter stands at the INCRs that reached it, and every vanishing is counted. */
  lemma {:induction false} SharedCountsApplied(replicas: nat, k: Key, steps: seq<Step>)
    requires CanRun(Start(replicas), k, steps)
    ensures RunFrom(Start(replicas), k, steps).shared == Applied(steps)
    ensures RunFrom(Start(replicas), k, steps).lapses == Lapses(steps)
  {
    if steps != [] {
      RunSnoc(Start(replicas), k, steps);
      SharedCountsApplied(replicas, k, steps[..|steps| - 1]);
    }
  }

  // ---- Redis never fails -----------------------------------------------------------------------------

  predicate Healthy(step: Step) {
    !step.IncrLost? && !step.ExpireLost? && !step.Lapse?
  }

  function Requests(steps: seq<Step>): nat {
    if steps == [] then 0 else (if steps[0].Incr? then 1 else 0) + Requests(steps[1..])
  }

  ghost predicate AllShared(s: State) {
    && WellFormed(s)
    && s.redisAdmitted + |s.pending| == Min(s.shared, ALERTMANAGER_RATE_LIMIT)
    && forall r | 0 <= r < |s.localAdmitted| :: s.localAdmitted[r] == 0
  }

  lemma {:induction false} HealthyRunCountsAll(s: State, k: Key, steps: seq<Step>)
    requires AllShared(s) && CanRun(s, k, steps) && forall i | 0 <= i < |steps| :: Healthy(steps[i])
    ensures AllShared(RunFrom(s, k, steps)) && RunFrom(s, k, steps).shared == s.shared + Requests(steps)
    decreases |steps|
  {
    if steps != [] {
      assert Healthy(steps[0]);
      HealthyRunCountsAll(Apply(s, k, steps[0]), k, steps[1..]);
    }
  }

  /** With a healthy Redis exactly the first 10 requests of all replicas together get through. */
  lemma {:induction false} HealthyRedisIsExact(replicas: nat, k: Key, steps: seq<Step>)
    requires CanRun(Start(replicas), k, steps) && forall i | 0 <= i < |steps| :: Healthy(steps[i])
    ensures var s := RunFrom(Start(replicas), k, steps);
            Admitted(s) + |s.pending| == Min(Requests(steps), ALERTMANAGER_RATE_LIMIT)
  {
    HealthyRunCountsAll(Start(replicas), k, steps);
    SumBound(RunFrom(Start(replicas), k, steps).localAdmitted, 0);
  }

  // ---- the bound is reached ------------------------------------------------------------------------------

  function Repeat<T>(x: T, n: nat): (r: seq<T>)
    ensures |r| == n && forall i | 0 <= i < n :: r[i] == x
  {
    seq(n, _ => x)
  }

  lemma {:induction false} OnlyOneKey(k: Key, n: nat)
    ensures Uses(Repeat(k, n), k) == n && GapsAreSmall(Repeat(k, n) + [k], k, FALLBACK_MAX_KEYS)
  {
    if n > 0 {
      OnlyOneKey(k, n - 1);
      assert Repeat(k, n)[..n - 1] == Repeat(k, n - 1);
    }
    var all := Repeat(k, n) + [k];
    forall i: nat, j: nat | i < j < |all|
      ensures SmallGap(all, k, FALLBACK_MAX_KEYS, i, j)
    {
      if k !in all[i + 1..j] {
        assert i + 1 < j ==> all[i + 1] == k;
        assert KeysOf(all[i + 1..j]) == {};
      }
    }
  }

  lemma {:induction false} RunCons(s: State, k: Key, step: Step, rest: seq<Step>)
    requires WellFormed(s) && Enabled(s, k, step) && CanRun(Apply(s, k, step), k, rest)
    ensures CanRun(s, k, [step] + rest)
    ensures RunFrom(s, k, [step] + rest) == RunFrom(Apply(s, k, step), k, rest)
  {
    assert ([step] + rest)[1..] == rest;
  }

  lemma {:induction false} RunConcat(s: State, k: Key, a: seq<Step>, b: seq<Step>)
    requires WellFormed(s) && CanRun(s, k, a) && CanRun(RunFrom(s, k, a), k, b)
    ensures CanRun(s, k, a + b) && RunFrom(s, k, a + b) == RunFrom(RunFrom(s, k, a), k, b)
    decreases |a|
  {
    if a == [] {
      assert a + b == b;
    } else {
      RunConcat(Apply(s, k, a[0]), k, a[1..], b);
      assert (a + b)[1..] == a[1..] + b;
    }
  }

  /** `s` with `n` requests counted and all of them admitted at replica `r`. */
  function Filled(s: State, k: Key, r: nat, n: nat): (s': State)
    requires WellFormed(s) && r < |s.local|
    ensures WellFormed(s') && |s'.local| == |s.local|
  {
    s.(local := s.local[r := Repeat(k, n)], localAdmitted := s.localAdmitted[r := n])
  }

  lemma {:induction false} LostIncr(s: State, k: Key, r: nat, n: nat)
    requires WellFormed(s) && r < |s.local| && n < ALERTMANAGER_RATE_LIMIT
    ensures Apply(Filled(s, k, r, n), k, IncrLost(r, false)) == Filled(s, k, r, n + 1)
  {
    OnlyOneKey(k, n);
    SameDecision(Repeat(k, n), k);
    assert Repeat(k, n) + [k] == Repeat(k, n + 1);
  }

  /** Lost INCRs at one replica are all admitted until its counter is full. */
  lemma {:induction false} LostIncrs(s: State, k: Key, r: nat, n: nat, more: nat) returns (steps: seq<Step>)
    requires WellFormed(s) && r < |s.local| && n + more <= ALERTMANAGER_RATE_LIMIT
    ensures CanRun(Filled(s, k, r, n), k, steps)
    ensures RunFrom(Filled(s, k, r, n), k, steps) == Filled(s, k, r, n + more)
    decreases more
  {
    if more == 0 {
      steps := [];
    } else {
      var rest := LostIncrs(s, k, r, n + 1, more - 1);
      LostIncr(s, k, r, n);
      RunCons(Filled(s, k, r, n), k, IncrLost(r, false), rest);
      steps := [IncrLost(r, false)] + rest;
    }
  }

  /** The state after replicas `0..done` lost Redis and `shared` requests went through it. */
  function Exhausted(replicas: nat, done: nat, k: Key): State
    requires done <= replicas
  {
    State(ALERTMANAGER_RATE_LIMIT,
          seq(replicas, r requires 0 <= r < replicas => if r < done then Repeat(k, ALERTMANAGER_RATE_LIMIT) else []),
          [], ALERTMANAGER_RATE_LIMIT,
          seq(replicas, r requires 0 <= r < replicas => if r < done then ALERTMANAGER_RATE_LIMIT else 0), 0)
  }

  lemma {:induction false} SharedIncrs(s: State, k: Key, more: nat) returns (steps: seq<Step>)
    requires WellFormed(s) && |s.local| > 0 && 1 <= s.shared && s.shared + more <= ALERTMANAGER_RATE_LIMIT
    ensures CanRun(s, k, steps)
    ensures RunFrom(s, k, steps) == s.(shared := s.shared + more, redisAdmitted := s.redisAdmitted + more)
    decreases more
  {
    if more == 0 {
      steps := [];
    } else {
      var rest := SharedIncrs(Apply(s, k, Incr(0)), k, more - 1);
      RunCons(s, k, Incr(0), rest);
      steps := [Incr(0)] + rest;
    }
  }

  lemma {:induction false} ReachShared(replicas: nat, k: Key) returns (steps: seq<Step>)
    requires replicas > 0
    ensures CanRun(Start(replicas), k, steps) && RunFrom(Start(replicas), k, steps) == Exhausted(replicas, 0, k)
  {
    var s1 := Apply(Start(replicas), k, Incr(0));
    var s2 := Apply(s1, k, Expire(0));
    var rest := SharedIncrs(s2, k, ALERTMANAGER_RATE_LIMIT - 1);
    RunCons(s1, k, Expire(0), rest);
    RunCons(Start(replicas), k, Incr(0), [Expire(0)] + rest);
    steps := [Incr(0)] + ([Expire(0)] + rest);
  }

  lemma {:induction false} ReachExhausted(replicas: nat, done: nat, k: Key) returns (steps: seq<Step>)
    requires replicas > 0 && done <= replicas
    ensures CanRun(Start(replicas), k, steps) && RunFrom(Start(replicas), k, steps) == Exhausted(replicas, done, k)
    decreases done
  {
    if done == 0 {
      steps := ReachShared(replicas, k);
    } else {
      var a := ReachExhausted(replicas, done - 1, k);
      var s := Exhausted(replicas, done - 1, k);
      assert Filled(s, k, done - 1, 0) == s;
      var b := LostIncrs(s, k, done - 1, 0, ALERTMANAGER_RATE_LIMIT);
      assert Filled(s, k, done - 1, ALERTMANAGER_RATE_LIMIT) == Exhausted(replicas, done, k);
      RunConcat(Start(replicas), k, a, b);
      steps := a + b;
    }
  }

  lemma {:induction false} SumOfEqual(counts: seq<nat>, each: nat)
    requires forall i | 0 <= i < |counts| :: counts[i] == each
    ensures Sum(counts) == each * |counts|
  {
    if counts != [] {
      SumOfEqual(counts[1..], each);
    }
  }

  /** For every number of replicas some run without eviction or lapse admits the whole bound. */
  lemma {:induction false} OutageBoundIsReached(replicas: nat, k: Key) returns (steps: seq<Step>)
    requires replicas > 0
    ensures CanRun(Start(replicas), k, steps) && NoEviction(RunFrom(Start(replicas), k, steps), k)
    ensures RunFrom(Start(replicas), k, steps).lapses == 0
    ensures Admitted(RunFrom(Start(replicas), k, steps)) == ALERTMANAGER_RATE_LIMIT * (replicas + 1)
  {
    steps := ReachExhausted(replicas, replicas, k);
    var s := RunFrom(Start(replicas), k, steps);
    SumOfEqual(s.localAdmitted, ALERTMANAGER_RATE_LIMIT);
    var uses := Repeat(k, ALERTMANAGER_RATE_LIMIT);
    OnlyOneKey(k, ALERTMANAGER_RATE_LIMIT);
    GapsBefore(uses, k, k);
  }
}
