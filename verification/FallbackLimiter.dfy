/**
  The in-process fixed-window counter that takes over when Redis is unreachable
  (app/api/rate_limit.py): an ordered dictionary of at most 8192 (ip, window) keys, the
  least recently used one evicted first.

  The reference is the same counter without a bound.  `Recent` lists the keys of a run by
  last use; the bounded order is its tail, which says exactly when a key is forgotten.
*/
module FallbackLimiter {

  datatype Key = Key(ip: string, window: int)

  const ALERTMANAGER_RATE_LIMIT := 10
  const FALLBACK_MAX_KEYS := 8192

  /** The ordered dictionary: keys from oldest to newest use, and their counts. */
  datatype Counters = Counters(order: seq<Key>, counts: map<Key, nat>)

  function CountOf(c: Counters, k: Key): nat {
    if k in c.counts then c.counts[k] else 0
  }

  function Remove(s: seq<Key>, k: Key): seq<Key> {
    if s == [] then []
    else
      var last := |s| - 1;
      if s[last] == k then Remove(s[..last], k) else Remove(s[..last], k) + [s[last]]
  }

  /** `popitem(last=False)` until at most `max` keys are left. */
  function Trim(c: Counters, max: nat): Counters
    decreases |c.order|
  {
    if |c.order| > max then Trim(Counters(c.order[1..], c.counts - {c.order[0]}), max) else c
  }

  /** Count a use and move the key to the end. */
  function Counted(c: Counters, k: Key): Counters {
    Counters(Remove(c.order, k) + [k], c.counts[k := CountOf(c, k) + 1])
  }

  /** One use of a key. */
  function Touch(c: Counters, k: Key, max: nat): Counters {
    Trim(Counted(c, k), max)
  }

  /** The decision for the use of `k` in this state. */
  predicate Allows(c: Counters, k: Key) {
    CountOf(c, k) + 1 <= ALERTMANAGER_RATE_LIMIT
  }

  class FallbackCounters {
    var order: seq<Key>
    var counts: map<Key, nat>

    ghost function View(): Counters
      reads this
    {
      Counters(order, counts)
    }

    constructor ()
      ensures View() == Counters([], map[])
    {
      order, counts := [], map[];
    }

    /** `_check_local_fallback` */
    method CheckLocalFallback(ip: string, window: int) returns (allowed: bool)
      modifies this
      ensures View() == Touch(old(View()), Key(ip, window), FALLBACK_MAX_KEYS)
      ensures allowed <==> Allows(old(View()), Key(ip, window))
    {
      var key := Key(ip, window);
      var count := (if key in counts then counts[key] else 0) + 1;
      counts := counts[key := count];
      order := Remove(order, key) + [key];
      while |order| > FALLBACK_MAX_KEYS
        invariant Trim(View(), FALLBACK_MAX_KEYS) == Touch(old(View()), key, FALLBACK_MAX_KEYS)
        decreases |order|
      {
        counts := counts - {order[0]};
        order := order[1..];
      }
      return count <= ALERTMANAGER_RATE_LIMIT;
    }
  }

  // ---- runs -----------------------------------------------------------------------------

  function Run(uses: seq<Key>, max: nat): Counters {
    if uses == [] then Counters([], map[])
    else Touch(Run(uses[..|uses| - 1], max), uses[|uses| - 1], max)
  }

  /** The unbounded counter. */
  function Uses(uses: seq<Key>, k: Key): nat {
    if uses == [] then 0
    else Uses(uses[..|uses| - 1], k) + if uses[|uses| - 1] == k then 1 else 0
  }

  /** The keys of a run, by last use. */
  function Recent(uses: seq<Key>): seq<Key> {
    if uses == [] then []
    else Remove(Recent(uses[..|uses| - 1]), uses[|uses| - 1]) + [uses[|uses| - 1]]
  }

  function Last(s: seq<Key>, n: nat): seq<Key> {
    if |s| <= n then s else s[|s| - n..]
  }

  ghost predicate NoDuplicates(s: seq<Key>) {
    forall i, j | 0 <= i < j < |s| :: s[i] != s[j]
  }

  // ---- lists ---------------------------------------------------------------------------------

  lemma {:induction false} RemoveFacts(s: seq<Key>, k: Key)
    ensures k !in Remove(s, k) && |Remove(s, k)| <= |s|
    ensures forall x | x != k :: x in Remove(s, k) <==> x in s
    ensures k !in s ==> Remove(s, k) == s
  {
    if s != [] {
      var last := |s| - 1;
      RemoveFacts(s[..last], k);
      assert s == s[..last] + [s[last]];
    }
  }

  lemma {:induction false} RemoveFromDistinct(s: seq<Key>, k: Key)
    requires NoDuplicates(s)
    ensures NoDuplicates(Remove(s, k)) && |s| - 1 <= |Remove(s, k)|
  {
    if s != [] {
      var last := |s| - 1;
      RemoveFromDistinct(s[..last], k);
      RemoveFacts(s[..last], k);
      if s[last] == k {
        assert k !in s[..last];
      } else {
        assert s[last] !in s[..last];
        assert s[last] !in Remove(s[..last], k);
      }
    }
  }

  lemma {:induction false} RemoveConcat(a: seq<Key>, b: seq<Key>, k: Key)
    ensures Remove(a + b, k) == Remove(a, k) + Remove(b, k)
  {
    if b == [] {
      assert a + b == a;
    } else {
      var last := |b| - 1;
      RemoveConcat(a, b[..last], k);
      assert (a + b)[..|a + b| - 1] == a + b[..last];
    }
  }

  /** What lies further back than `n` elements does not show in the last `n`. */
  lemma {:induction false} LastOfConcat(a: seq<Key>, b: seq<Key>, n: nat)
    requires n <= |b|
    ensures Last(a + b, n) == Last(b, n)
  {
  }

  lemma {:induction false} LastSnoc(s: seq<Key>, k: Key, n: nat)
    requires n >= 1
    ensures Last(s + [k], n) == Last(s, n - 1) + [k]
  {
  }

  // ---- the bounded order is the tail of the recency list -----------------------------------------

  lemma {:induction false} TrimDrops(c: Counters, max: nat, d: nat)
    requires d == if |c.order| > max then |c.order| - max else 0
    ensures Trim(c, max) == Counters(c.order[d..], c.counts - (set k | k in c.order[..d]))
    decreases |c.order|
  {
    if d > 0 {
      var c' := Counters(c.order[1..], c.counts - {c.order[0]});
      TrimDrops(c', max, d - 1);
      assert c'.order[d - 1..] == c.order[d..];
      var rest := c'.order[..d - 1];
      assert c.order[..d] == [c.order[0]] + rest;
      assert (set k | k in c.order[..d]) == {c.order[0]} + set k | k in rest;
    }
  }

  lemma {:induction false} TrimIsLast(c: Counters, max: nat)
    ensures Trim(c, max).order == Last(c.order, max)
    ensures forall k | k in Trim(c, max).counts :: k in c.counts && Trim(c, max).counts[k] == c.counts[k]
    ensures forall k | k in c.counts && k !in c.order[..|c.order| - |Last(c.order, max)|] :: k in Trim(c, max).counts
    ensures forall k | k in c.order[..|c.order| - |Last(c.order, max)|] :: k !in Trim(c, max).counts
  {
    TrimDrops(c, max, |c.order| - |Last(c.order, max)|);
  }

  lemma {:induction false} TailCommutes(r: seq<Key>, k: Key, max: nat)
    requires NoDuplicates(r) && max >= 1
    ensures Last(Remove(Last(r, max), k) + [k], max) == Last(Remove(r, k) + [k], max)
  {
    var o := Last(r, max);
    var p := r[..|r| - |o|];
    assert r == p + o;
    RemoveConcat(p, o, k);
    assert NoDuplicates(o);
    RemoveFromDistinct(o, k);
    LastSnoc(Remove(o, k), k, max);
    LastSnoc(Remove(r, k), k, max);
    if p == [] {
      assert r == o;
    } else {
      LastOfConcat(Remove(p, k), Remove(o, k), max - 1);
    }
  }

  lemma {:induction false} SnocMembers(s: seq<Key>, k: Key)
    ensures forall x :: x in s + [k] <==> x in s || x == k
  {
  }

  lemma {:induction false} MoveToEnd(r: seq<Key>, k: Key)
    requires NoDuplicates(r)
    ensures NoDuplicates(Remove(r, k) + [k])
    ensures forall x :: x in Remove(r, k) + [k] <==> x in r || x == k
  {
    RemoveFromDistinct(r, k);
    RemoveFacts(r, k);
    SnocMembers(Remove(r, k), k);
  }

  lemma {:induction false} RecentFacts(uses: seq<Key>)
    ensures NoDuplicates(Recent(uses)) && forall k :: k in Recent(uses) <==> k in uses
  {
    if uses != [] {
      var rest, k := uses[..|uses| - 1], uses[|uses| - 1];
      RecentFacts(rest);
      MoveToEnd(Recent(rest), k);
      SnocMembers(rest, k);
      assert uses == rest + [k];
    }
  }

  /** The dictionary is one: its keys are listed once each. */
  ghost predicate Consistent(c: Counters) {
    NoDuplicates(c.order) && forall k :: k in c.counts <==> k in c.order
  }

  lemma {:induction false} TouchOrder(c: Counters, k: Key, max: nat)
    ensures Touch(c, k, max).order == Last(Remove(c.order, k) + [k], max)
  {
    TrimIsLast(Counted(c, k), max);
  }

  lemma {:induction false} TrimKeepsConsistent(c: Counters, max: nat)
    requires Consistent(c)
    ensures Consistent(Trim(c, max))
    ensures forall k | k in Trim(c, max).order :: k in c.order && CountOf(Trim(c, max), k) == CountOf(c, k)
  {
    TrimIsLast(c, max);
  }

  lemma {:induction false} CountedIsConsistent(c: Counters, k: Key)
    requires Consistent(c)
    ensures Consistent(Counted(c, k))
    ensures forall x | x in Counted(c, k).order && x != k :: x in c.order
  {
    RemoveFacts(c.order, k);
    RemoveFromDistinct(c.order, k);
    var o := Remove(c.order, k);
    assert forall x :: x in o + [k] <==> x == k || x in o;
  }

  lemma {:induction false} TouchCounts(c: Counters, k: Key, max: nat)
    requires Consistent(c) && max >= 1
    ensures Consistent(Touch(c, k, max))
    ensures k in Touch(c, k, max).order && CountOf(Touch(c, k, max), k) == CountOf(c, k) + 1
    ensures forall x | x in Touch(c, k, max).order && x != k ::
            x in c.order && CountOf(Touch(c, k, max), x) == CountOf(c, x)
  {
    CountedIsConsistent(c, k);
    TrimKeepsConsistent(Counted(c, k), max);
    TouchOrder(c, k, max);
    var tail := Last(Remove(c.order, k) + [k], max);
    assert tail[|tail| - 1] == k;
  }

  lemma {:induction false} RunIsConsistent(uses: seq<Key>, max: nat)
    requires max >= 1
    ensures Consistent(Run(uses, max))
  {
    if uses != [] {
      RunIsConsistent(uses[..|uses| - 1], max);
      TouchCounts(Run(uses[..|uses| - 1], max), uses[|uses| - 1], max);
    }
  }

  /** The map holds the `max` most recently used keys, or all if they are fewer, oldest use first. */
  ghost predicate HoldsMostRecent(uses: seq<Key>, max: nat) {
    Run(uses, max).order == Last(Recent(uses), max)
  }

  /** The map never holds more than `max` keys: exactly the most recently used ones. */
  lemma {:induction false} OrderIsRecentTail(uses: seq<Key>, max: nat)
    requires max >= 1
    ensures HoldsMostRecent(uses, max)
  {
    if uses != [] {
      var last := |uses| - 1;
      OrderIsRecentTail(uses[..last], max);
      RecentFacts(uses[..last]);
      TouchOrder(Run(uses[..last], max), uses[last], max);
      TailCommutes(Recent(uses[..last]), uses[last], max);
    }
  }

  // ---- when a key is forgotten -------------------------------------------------------------------

  ghost function KeysOf(uses: seq<Key>): set<Key> {
    set k | k in uses
  }

  lemma {:induction false} DistinctSize(s: seq<Key>)
    requires NoDuplicates(s)
    ensures |KeysOf(s)| == |s|
  {
    if s != [] {
      var last := |s| - 1;
      DistinctSize(s[..last]);
      assert s[last] !in s[..last];
      assert KeysOf(s) == KeysOf(s[..last]) + {s[last]};
    }
  }

  lemma {:induction false} RecentSnoc(uses: seq<Key>, x: Key)
    ensures Recent(uses + [x]) == Remove(Recent(uses), x) + [x]
  {
    assert (uses + [x])[..|uses|] == uses;
  }

  lemma {:induction false} RemoveAround(o: seq<Key>, k: Key, r: seq<Key>, x: Key)
    requires x != k
    ensures Remove(o + [k] + r, x) == Remove(o, x) + [k] + Remove(r, x)
  {
    RemoveConcat(o + [k], r, x);
    RemoveConcat(o, [k], x);
    assert [k][..0] == [];
    assert Remove([k], x) == [k];
  }

  lemma {:induction false} RecentAfterStep(uses: seq<Key>, o: seq<Key>, k: Key, after: seq<Key>, x: Key)
    requires Recent(uses) == o + [k] + Recent(after) && x != k
    ensures Recent(uses + [x]) == Remove(o, x) + [k] + Recent(after + [x])
  {
    RecentSnoc(uses, x);
    RecentSnoc(after, x);
    RemoveAround(o, k, Recent(after), x);
  }

  /** The recency list ends with the keys used after the last use of a key. */
  lemma {:induction false} RecentAfter(uses: seq<Key>, at: nat) returns (older: seq<Key>)
    requires at < |uses| && uses[at] !in uses[at + 1..]
    ensures Recent(uses) == older + [uses[at]] + Recent(uses[at + 1..])
  {
    var last := |uses| - 1;
    var rest := uses[..last];
    if at == last {
      older := Remove(Recent(rest), uses[at]);
    } else {
      var after := rest[at + 1..];
      assert uses[at + 1..] == after + [uses[last]];
      var o := RecentAfter(rest, at);
      RecentAfterStep(rest, o, uses[at], after, uses[last]);
      assert uses == rest + [uses[last]];
      older := Remove(o, uses[last]);
    }
  }

  lemma {:induction false} InLastIff(s: seq<Key>, n: nat, i: nat)
    requires NoDuplicates(s) && i < |s|
    ensures s[i] in Last(s, n) <==> |s| - i <= n
  {
    var d := |s| - |Last(s, n)|;
    assert forall j | 0 <= j < |s| - d :: Last(s, n)[j] == s[d + j];
    if i >= d {
      assert Last(s, n)[i - d] == s[i];
    }
  }

  /** A used key is still held iff fewer than `max` distinct other keys were used since. */
  lemma {:induction false} HeldIffFewOthersSince(uses: seq<Key>, at: nat, max: nat)
    requires at < |uses| && uses[at] !in uses[at + 1..] && max >= 1
    ensures uses[at] in Run(uses, max).order <==> |KeysOf(uses[at + 1..])| < max
  {
    var k, after := uses[at], uses[at + 1..];
    var older := RecentAfter(uses, at);
    OrderIsRecentTail(uses, max);
    RecentFacts(uses);
    RecentFacts(after);
    DistinctSize(Recent(after));
    assert KeysOf(Recent(after)) == KeysOf(after);
    assert Recent(uses)[|older|] == k;
    InLastIff(Recent(uses), max, |older|);
  }

  // ---- the bounded counter against the unbounded one -------------------------------------------------

  /** It never counts more than happened, so it never blocks what the unbounded counter allows. */
  lemma {:induction false} NeverOvercounts(uses: seq<Key>, k: Key, max: nat)
    requires max >= 1
    ensures CountOf(Run(uses, max), k) <= Uses(uses, k)
  {
    if uses != [] {
      var last := |uses| - 1;
      var c := Run(uses[..last], max);
      NeverOvercounts(uses[..last], k, max);
      RunIsConsistent(uses[..last], max);
      TouchCounts(c, uses[last], max);
    }
  }

  /** If the uses `i` and `j` are consecutive uses of `k`, fewer than `max` distinct other keys lie between. */
  ghost predicate SmallGap(uses: seq<Key>, k: Key, max: nat, i: nat, j: nat)
    requires i < j < |uses|
  {
    uses[i] == k && uses[j] == k && k !in uses[i + 1..j] ==> |KeysOf(uses[i + 1..j])| < max
  }

  /** Between two consecutive uses of `k` fewer than `max` distinct other keys are used. */
  ghost predicate GapsAreSmall(uses: seq<Key>, k: Key, max: nat) {
    forall i: nat, j: nat | i < j < |uses| :: SmallGap(uses, k, max, i, j)
  }

  lemma {:induction false} GapsOfPrefix(uses: seq<Key>, k: Key, max: nat)
    requires uses != [] && GapsAreSmall(uses, k, max)
    ensures GapsAreSmall(uses[..|uses| - 1], k, max)
  {
    var p := uses[..|uses| - 1];
    forall i: nat, j: nat | i < j < |p|
      ensures SmallGap(p, k, max, i, j)
    {
      assert SmallGap(uses, k, max, i, j);
      assert p[i + 1..j] == uses[i + 1..j];
    }
  }

  lemma {:induction false} LastUse(uses: seq<Key>, k: Key) returns (i: nat)
    requires k in uses
    ensures i < |uses| && uses[i] == k && k !in uses[i + 1..]
  {
    var last := |uses| - 1;
    if uses[last] == k {
      i := last;
    } else {
      i := LastUse(uses[..last], k);
      assert uses[i + 1..] == uses[..last][i + 1..] + [uses[last]];
    }
  }

  lemma {:induction false} UnusedIsZero(uses: seq<Key>, k: Key)
    requires k !in uses
    ensures Uses(uses, k) == 0
  {
    if uses != [] {
      UnusedIsZero(uses[..|uses| - 1], k);
    }
  }

  /** A key that comes back in time is still held when it does. */
  lemma {:induction false} HeldAtReuse(uses: seq<Key>, k: Key, max: nat)
    requires uses != [] && uses[|uses| - 1] == k && k in uses[..|uses| - 1] && GapsAreSmall(uses, k, max) && max >= 1
    ensures k in Run(uses[..|uses| - 1], max).order
  {
    var p := uses[..|uses| - 1];
    var i := LastUse(p, k);
    assert p[i + 1..] == uses[i + 1..|uses| - 1];
    assert SmallGap(uses, k, max, i, |uses| - 1);
    HeldIffFewOthersSince(p, i, max);
  }

  lemma {:induction false} SmallGapsCountExactly(uses: seq<Key>, k: Key, max: nat)
    requires max >= 1 && GapsAreSmall(uses, k, max)
    ensures k in Run(uses, max).order ==> CountOf(Run(uses, max), k) == Uses(uses, k)
  {
    if uses != [] {
      var last := |uses| - 1;
      var p := uses[..last];
      GapsOfPrefix(uses, k, max);
      SmallGapsCountExactly(p, k, max);
      RunIsConsistent(p, max);
      TouchCounts(Run(p, max), uses[last], max);
      if uses[last] == k {
        if k in p {
          HeldAtReuse(uses, k, max);
        } else {
          UnusedIsZero(p, k);
          NeverOvercounts(p, k, max);
        }
      }
    }
  }

  lemma {:induction false} UsedIsCounted(uses: seq<Key>, k: Key)
    requires k in uses
    ensures Uses(uses, k) >= 1
  {
    var last := |uses| - 1;
    if uses[last] != k {
      UsedIsCounted(uses[..last], k);
    }
  }

  /** An undercount is never made good. */
  lemma {:induction false} DeficitStays(uses: seq<Key>, j: nat, k: Key, max: nat)
    requires max >= 1 && j <= |uses| && CountOf(Run(uses[..j], max), k) < Uses(uses[..j], k)
    ensures CountOf(Run(uses, max), k) < Uses(uses, k)
    decreases |uses|
  {
    if j == |uses| {
      assert uses[..j] == uses;
    } else {
      var p := uses[..|uses| - 1];
      assert p[..j] == uses[..j];
      DeficitStays(p, j, k, max);
      RunIsConsistent(p, max);
      TouchCounts(Run(p, max), uses[|uses| - 1], max);
    }
  }

  lemma {:induction false} BigGapLosesCounts(uses: seq<Key>, i: nat, k: Key, max: nat)
    requires max >= 1 && i < |uses| && uses[i] == k && k !in uses[i + 1..] && |KeysOf(uses[i + 1..])| >= max
    ensures CountOf(Run(uses, max), k) < Uses(uses, k)
  {
    HeldIffFewOthersSince(uses, i, max);
    RunIsConsistent(uses, max);
    UsedIsCounted(uses, k);
  }

  lemma {:induction false} SmallGapsAreExact(all: seq<Key>, k: Key, max: nat)
    requires max >= 1 && all != [] && all[|all| - 1] == k && GapsAreSmall(all, k, max)
    ensures CountOf(Run(all[..|all| - 1], max), k) == Uses(all[..|all| - 1], k)
  {
    var uses := all[..|all| - 1];
    GapsOfPrefix(all, k, max);
    SmallGapsCountExactly(uses, k, max);
    if k in uses {
      HeldAtReuse(all, k, max);
    } else {
      UnusedIsZero(uses, k);
      NeverOvercounts(uses, k, max);
    }
  }

  lemma {:induction false} GapIsInexact(all: seq<Key>, i: nat, j: nat, k: Key, max: nat)
    requires max >= 1 && i < j < |all| && !SmallGap(all, k, max, i, j)
    ensures CountOf(Run(all[..j], max), k) < Uses(all[..j], k)
  {
    var p := all[..j];
    assert p[i + 1..] == all[i + 1..j];
    BigGapLosesCounts(p, i, k, max);
  }

  lemma {:induction false} BigGapIsInexact(all: seq<Key>, k: Key, max: nat)
    requires max >= 1 && all != [] && !GapsAreSmall(all, k, max)
    ensures CountOf(Run(all[..|all| - 1], max), k) < Uses(all[..|all| - 1], k)
  {
    var i: nat, j: nat :| i < j < |all| && !SmallGap(all, k, max, i, j);
    GapIsInexact(all, i, j, k, max);
    assert all[..|all| - 1][..j] == all[..j];
    DeficitStays(all[..|all| - 1], j, k, max);
  }

  /** The count met by the next use of `k` is exact iff no gap, the open one included, is big. */
  lemma {:induction false} ExactIffGapsAreSmall(uses: seq<Key>, k: Key, max: nat)
    requires max >= 1
    ensures CountOf(Run(uses, max), k) == Uses(uses, k) <==> GapsAreSmall(uses + [k], k, max)
  {
    var all := uses + [k];
    assert all[..|all| - 1] == uses;
    if GapsAreSmall(all, k, max) {
      SmallGapsAreExact(all, k, max);
    } else {
      BigGapIsInexact(all, k, max);
    }
  }

  /** For a key whose gaps are small, every decision is the unbounded counter's decision. */
  lemma {:induction false} SameDecision(uses: seq<Key>, k: Key)
    requires GapsAreSmall(uses + [k], k, FALLBACK_MAX_KEYS)
    ensures Allows(Run(uses, FALLBACK_MAX_KEYS), k) <==> Uses(uses, k) + 1 <= ALERTMANAGER_RATE_LIMIT
  {
    ExactIffGapsAreSmall(uses, k, FALLBACK_MAX_KEYS);
  }

  /** The limiter never blocks what the unbounded counter allows, and holds at most 8192 keys. */
  lemma {:induction false} NeverBlocksMore(uses: seq<Key>, k: Key)
    ensures Uses(uses, k) + 1 <= ALERTMANAGER_RATE_LIMIT ==> Allows(Run(uses, FALLBACK_MAX_KEYS), k)
    ensures |Run(uses, FALLBACK_MAX_KEYS).counts| <= FALLBACK_MAX_KEYS
  {
    NeverOvercounts(uses, k, FALLBACK_MAX_KEYS);
    OrderIsRecentTail(uses, FALLBACK_MAX_KEYS);
    RunIsConsistent(uses, FALLBACK_MAX_KEYS);
    var c := Run(uses, FALLBACK_MAX_KEYS);
    DistinctSize(c.order);
    assert c.counts.Keys == KeysOf(c.order);
  }
}
