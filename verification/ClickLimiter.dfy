/**
  The per-user sliding window on approval clicks (app/api/discord_interactions.py): a deque of
  accepted time stamps per user, evicted from the front on every click.

  The reference is the window itself, counted over everything that was ever accepted.
*/
module ClickLimiter {

  type Time = real
  type Deques = map<string, seq<Time>>

  const WINDOW: Time := 3600.0

  function Clicks(d: Deques, user: string): seq<Time> {
    if user in d then d[user] else []
  }

  /** Drop the leading stamps that are older than the cutoff. */
  function Evict(q: seq<Time>, cutoff: Time): seq<Time> {
    if q != [] && q[0] < cutoff then Evict(q[1..], cutoff) else q
  }

  function CheckRateLimit(d: Deques, cap: int, user: string, now: Time): (Deques, bool) {
    if cap <= 0 || user == "" then (d, true)
    else
      var q := Evict(Clicks(d, user), now - WINDOW);
      if |q| >= cap then (d[user := q], false) else (d[user := q + [now]], true)
  }

  class RateState {
    var clicks: Deques

    constructor ()
      ensures clicks == map[]
    {
      clicks := map[];
    }

    /** `_check_rate_limit` at time `now`, under the lock. */
    method Check(cap: int, user: string, now: Time) returns (allowed: bool)
      modifies this
      ensures (clicks, allowed) == CheckRateLimit(old(clicks), cap, user, now)
    {
      if cap <= 0 {
        return true;
      }
      if user == "" {
        return true;
      }
      var cutoff := now - WINDOW;
      var q := if user in clicks then clicks[user] else [];
      while q != [] && q[0] < cutoff
        invariant Evict(q, cutoff) == Evict(Clicks(old(clicks), user), cutoff)
        decreases |q|
      {
        q := q[1..];
      }
      if |q| >= cap {
        clicks := clicks[user := q];
        return false;
      }
      clicks := clicks[user := q + [now]];
      return true;
    }
  }

  // ---- runs -----------------------------------------------------------------------------

  datatype Click = Click(user: string, at: Time)

  /** The deques, and every stamp that was ever accepted. */
  datatype State = State(deques: Deques, accepted: Deques)

  /** Whether a click in this state goes through. */
  predicate Allowed(s: State, cap: int, c: Click) {
    CheckRateLimit(s.deques, cap, c.user, c.at).1
  }

  function Next(s: State, cap: int, c: Click): State {
    var (d, ok) := CheckRateLimit(s.deques, cap, c.user, c.at);
    State(d, if ok then s.accepted[c.user := Clicks(s.accepted, c.user) + [c.at]] else s.accepted)
  }

  function Run(cap: int, clicks: seq<Click>): State {
    if clicks == [] then State(map[], map[])
    else Next(Run(cap, clicks[..|clicks| - 1]), cap, clicks[|clicks| - 1])
  }

  /** How many stamps lie in the closed interval [lo, hi]. */
  function Within(s: seq<Time>, lo: Time, hi: Time): nat {
    if s == [] then 0
    else Within(s[..|s| - 1], lo, hi) + if lo <= s[|s| - 1] <= hi then 1 else 0
  }

  ghost predicate NonDecreasing(clicks: seq<Click>) {
    forall i, j | 0 <= i < j < |clicks| :: clicks[i].at <= clicks[j].at
  }

  ghost predicate Sorted(s: seq<Time>) {
    forall i, j | 0 <= i < j < |s| :: s[i] <= s[j]
  }

  lemma {:induction false} WithinConcat(a: seq<Time>, b: seq<Time>, lo: Time, hi: Time)
    ensures Within(a + b, lo, hi) == Within(a, lo, hi) + Within(b, lo, hi)
  {
    if b == [] {
      assert a + b == a;
    } else {
      WithinConcat(a, b[..|b| - 1], lo, hi);
      assert (a + b)[..|a + b| - 1] == a + b[..|b| - 1];
    }
  }

  lemma {:induction false} WithinNone(s: seq<Time>, lo: Time, hi: Time)
    requires forall i | 0 <= i < |s| :: s[i] < lo
    ensures Within(s, lo, hi) == 0
  {
    if s != [] {
      WithinNone(s[..|s| - 1], lo, hi);
    }
  }

  lemma {:induction false} WithinAll(s: seq<Time>, lo: Time, hi: Time)
    requires forall i | 0 <= i < |s| :: lo <= s[i] <= hi
    ensures Within(s, lo, hi) == |s|
  {
    if s != [] {
      WithinAll(s[..|s| - 1], lo, hi);
    }
  }

  /** No stamp exceeds `hi'`, so every stamp in [lo, hi] is one in [lo', hi'] when lo' <= lo. */
  lemma {:induction false} WithinWidens(s: seq<Time>, lo: Time, hi: Time, lo': Time, hi': Time)
    requires lo' <= lo && forall i | 0 <= i < |s| :: s[i] <= hi'
    ensures Within(s, lo, hi) <= Within(s, lo', hi')
  {
    if s != [] {
      WithinWidens(s[..|s| - 1], lo, hi, lo', hi');
    }
  }

  lemma {:induction false} EvictSplits(q: seq<Time>, cutoff: Time) returns (k: nat)
    requires Sorted(q)
    ensures k <= |q| && Evict(q, cutoff) == q[k..]
    ensures forall i | 0 <= i < k :: q[i] < cutoff
    ensures forall i | k <= i < |q| :: cutoff <= q[i]
  {
    if q != [] && q[0] < cutoff {
      var t := q[1..];
      var j := EvictSplits(t, cutoff);
      k := j + 1;
      assert t[j..] == q[k..];
      assert forall i | 1 <= i < |q| :: q[i] == t[i - 1];
    } else {
      k := 0;
    }
  }

  // ---- the deque against the full history ---------------------------------------------------

  /** The deque is the history without its first `k` stamps, each older than a window at time `now`. */
  ghost predicate Remembers(q: seq<Time>, all: seq<Time>, now: Time, k: nat) {
    && k <= |all| && q == all[k..]
    && (forall i | 0 <= i < k :: all[i] < now - WINDOW)
    && Sorted(all) && (forall i | 0 <= i < |all| :: all[i] <= now)
  }

  lemma {:induction false} EvictRemembers(q: seq<Time>, all: seq<Time>, now: Time, k: nat) returns (m: nat)
    requires Remembers(q, all, now, k)
    ensures Remembers(Evict(q, now - WINDOW), all, now, m)
    ensures forall i | m <= i < |all| :: now - WINDOW <= all[i]
  {
    var j := EvictSplits(q, now - WINDOW);
    m := k + j;
    assert q[j..] == all[m..];
    assert forall i | k <= i < |all| :: all[i] == q[i - k];
  }

  /** What is left after eviction are exactly the accepted clicks of the last window. */
  lemma {:induction false} RememberedCount(q: seq<Time>, all: seq<Time>, now: Time, k: nat)
    requires Remembers(q, all, now, k)
    ensures |Evict(q, now - WINDOW)| == Within(all, now - WINDOW, now)
  {
    var m := EvictRemembers(q, all, now, k);
    assert all == all[..m] + all[m..];
    WithinConcat(all[..m], all[m..], now - WINDOW, now);
    WithinNone(all[..m], now - WINDOW, now);
    WithinAll(all[m..], now - WINDOW, now);
  }

  lemma {:induction false} AppendRemembers(q: seq<Time>, all: seq<Time>, now: Time, k: nat)
    requires Remembers(q, all, now, k)
    ensures Remembers(q + [now], all + [now], now, k)
  {
    assert (all + [now])[k..] == q + [now];
  }

  lemma {:induction false} StepRemembers(s: State, cap: int, c: Click, user: string, k: nat) returns (m: nat)
    requires cap > 0 && user != "" && Remembers(Clicks(s.deques, user), Clicks(s.accepted, user), c.at, k)
    ensures Remembers(Clicks(Next(s, cap, c).deques, user), Clicks(Next(s, cap, c).accepted, user), c.at, m)
  {
    m := k;
    if c.user == user {
      var all := Clicks(s.accepted, user);
      m := EvictRemembers(Clicks(s.deques, user), all, c.at, k);
      AppendRemembers(Evict(Clicks(s.deques, user), c.at - WINDOW), all, c.at, m);
    }
  }

  lemma {:induction false} RunRemembers(cap: int, clicks: seq<Click>, user: string, now: Time) returns (k: nat)
    requires cap > 0 && user != "" && NonDecreasing(clicks) && forall i | 0 <= i < |clicks| :: clicks[i].at <= now
    ensures Remembers(Clicks(Run(cap, clicks).deques, user), Clicks(Run(cap, clicks).accepted, user), now, k)
  {
    if clicks == [] {
      k := 0;
    } else {
      var last := |clicks| - 1;
      k := RunRemembers(cap, clicks[..last], user, clicks[last].at);
      k := StepRemembers(Run(cap, clicks[..last]), cap, clicks[last], user, k);
    }
  }

  // ---- the results ----------------------------------------------------------------------------

  lemma {:induction false} RememberedAllows(s: State, cap: int, c: Click, k: nat)
    requires cap > 0 && c.user != "" && Remembers(Clicks(s.deques, c.user), Clicks(s.accepted, c.user), c.at, k)
    ensures Allowed(s, cap, c) <==> Within(Clicks(s.accepted, c.user), c.at - WINDOW, c.at) < cap
  {
    RememberedCount(Clicks(s.deques, c.user), Clicks(s.accepted, c.user), c.at, k);
  }

  /** A click goes through iff fewer than `cap` accepted clicks of that user lie in the last window. */
  lemma {:induction false} AllowedIffWindowNotFull(cap: int, before: seq<Click>, c: Click)
    requires cap > 0 && c.user != "" && NonDecreasing(before + [c])
    ensures Allowed(Run(cap, before), cap, c) <==>
            Within(Clicks(Run(cap, before).accepted, c.user), c.at - WINDOW, c.at) < cap
  {
    var run := before + [c];
    assert forall i | 0 <= i < |before| :: before[i] == run[i] && run[i].at <= run[|before|].at;
    var k := RunRemembers(cap, before, c.user, c.at);
    RememberedAllows(Run(cap, before), cap, c, k);
  }

  /** Without a cap, or without a user, every click goes through and no deque changes. */
  lemma {:induction false} UnlimitedClicksGoThrough(s: State, cap: int, c: Click)
    requires cap <= 0 || c.user == ""
    ensures Allowed(s, cap, c) && Next(s, cap, c).deques == s.deques
  {
  }

  // ---- stamps out of order -----------------------------------------------------------------------

  /** The stamp is taken before the lock, so stamps may reach the deque out of order: no stamp of the
      user lies more than `d` behind an earlier one. */
  ghost predicate Skewed(clicks: seq<Click>, user: string, d: Time) {
    forall i, j | 0 <= i < j < |clicks| && clicks[i].user == user && clicks[j].user == user ::
      clicks[i].at - d <= clicks[j].at
  }

  /** The deque is the history without its first `k` stamps, each older than a window at time `top`. */
  ghost predicate Forgets(q: seq<Time>, all: seq<Time>, top: Time, k: nat) {
    k <= |all| && q == all[k..] && forall i | 0 <= i < k :: all[i] < top - WINDOW
  }

  lemma {:induction false} EvictForgets(q: seq<Time>, all: seq<Time>, now: Time, top: Time, k: nat) returns (m: nat)
    requires Forgets(q, all, top, k) && now <= top
    ensures Forgets(Evict(q, now - WINDOW), all, top, m)
    decreases |q|
  {
    if q != [] && q[0] < now - WINDOW {
      assert q[0] == all[k] && q[1..] == all[k + 1..];
      m := EvictForgets(q[1..], all, now, top, k + 1);
    } else {
      m := k;
    }
  }

  lemma {:induction false} StepForgets(s: State, cap: int, c: Click, user: string, top: Time, k: nat) returns (m: nat)
    requires cap > 0 && user != "" && (c.user == user ==> c.at <= top)
    requires Forgets(Clicks(s.deques, user), Clicks(s.accepted, user), top, k)
    ensures Forgets(Clicks(Next(s, cap, c).deques, user), Clicks(Next(s, cap, c).accepted, user), top, m)
  {
    m := k;
    if c.user == user {
      var q, all := Clicks(s.deques, user), Clicks(s.accepted, user);
      m := EvictForgets(q, all, c.at, top, k);
      assert (all + [c.at])[m..] == all[m..] + [c.at];
    }
  }

  lemma {:induction false} RunForgets(cap: int, clicks: seq<Click>, user: string, top: Time) returns (k: nat)
    requires cap > 0 && user != ""
    requires forall i | 0 <= i < |clicks| && clicks[i].user == user :: clicks[i].at <= top
    ensures Forgets(Clicks(Run(cap, clicks).deques, user), Clicks(Run(cap, clicks).accepted, user), top, k)
  {
    if clicks == [] {
      k := 0;
    } else {
      var last := |clicks| - 1;
      k := RunForgets(cap, clicks[..last], user, top);
      k := StepForgets(Run(cap, clicks[..last]), cap, clicks[last], user, top, k);
    }
  }

  lemma {:induction false} WithinLength(s: seq<Time>, lo: Time, hi: Time)
    ensures Within(s, lo, hi) <= |s|
  {
    if s != [] {
      WithinLength(s[..|s| - 1], lo, hi);
    }
  }

  /** Forgotten stamps lie outside every interval that holds a stamp at most `WINDOW - d` later. */
  lemma {:induction false} ForgottenAreOutside(q: seq<Time>, all: seq<Time>, top: Time, k: nat, lo: Time, hi: Time)
    requires Forgets(q, all, top, k) && top - WINDOW <= lo
    ensures Within(all, lo, hi) <= |q|
  {
    assert all == all[..k] + all[k..];
    WithinConcat(all[..k], all[k..], lo, hi);
    WithinNone(all[..k], lo, hi);
    WithinLength(q, lo, hi);
  }

  lemma {:induction false} WithinSnoc(s: seq<Time>, x: Time, lo: Time, hi: Time)
    ensures Within(s + [x], lo, hi) == Within(s, lo, hi) + if lo <= x <= hi then 1 else 0
  {
    assert (s + [x])[..|s|] == s;
  }

  lemma {:induction false} StepWithinCap(s: State, cap: int, c: Click, d: Time, t: Time, k: nat)
    requires cap > 0 && c.user != "" && d >= 0.0
    requires Forgets(Clicks(s.deques, c.user), Clicks(s.accepted, c.user), c.at + d, k)
    requires Within(Clicks(s.accepted, c.user), t, t + (WINDOW - d)) <= cap
    ensures Within(Clicks(Next(s, cap, c).accepted, c.user), t, t + (WINDOW - d)) <= cap
  {
    var q, all, hi := Clicks(s.deques, c.user), Clicks(s.accepted, c.user), t + (WINDOW - d);
    if Allowed(s, cap, c) {
      assert Clicks(Next(s, cap, c).accepted, c.user) == all + [c.at];
      WithinSnoc(all, c.at, t, hi);
      if t <= c.at <= hi {
        var m := EvictForgets(q, all, c.at, c.at + d, k);
        ForgottenAreOutside(Evict(q, c.at - WINDOW), all, c.at + d, m, t, hi);
      }
    }
  }

  /** In no closed interval of a window less the skew does a user have more than `cap` accepted clicks. */
  lemma {:induction false} SkewedWithinCap(cap: int, clicks: seq<Click>, user: string, d: Time, t: Time)
    requires cap > 0 && user != "" && d >= 0.0 && Skewed(clicks, user, d)
    ensures Within(Clicks(Run(cap, clicks).accepted, user), t, t + (WINDOW - d)) <= cap
  {
    if clicks != [] {
      var last := |clicks| - 1;
      var rest, c := clicks[..last], clicks[last];
      SkewedWithinCap(cap, rest, user, d, t);
      if c.user == user {
        assert forall i | 0 <= i < |rest| && rest[i].user == user :: clicks[i].at - d <= clicks[last].at;
        var k := RunForgets(cap, rest, user, c.at + d);
        StepWithinCap(Run(cap, rest), cap, c, d, t, k);
      }
    }
  }

  /** With stamps in order, in no closed interval of one window. */
  lemma {:induction false} NeverMoreThanCap(cap: int, clicks: seq<Click>, user: string, t: Time)
    requires cap > 0 && user != "" && Skewed(clicks, user, 0.0)
    ensures InWindow(cap, clicks, user, t) <= cap
  {
    SkewedWithinCap(cap, clicks, user, 0.0, t);
  }

  // ---- a cap of one needs no order ------------------------------------------------------------------

  /** Accepted stamps are more than a window apart, and the deque holds the last one. */
  ghost predicate Apart(q: seq<Time>, all: seq<Time>) {
    && (forall i, j | 0 <= i < j < |all| :: all[i] + WINDOW < all[j])
    && (if all == [] then q == [] else q == [all[|all| - 1]])
  }

  lemma {:induction false} EvictOne(q: seq<Time>, cutoff: Time)
    requires |q| <= 1
    ensures Evict(q, cutoff) == if q != [] && q[0] < cutoff then [] else q
  {
    assert q != [] ==> q[1..] == [];
  }

  lemma {:induction false} CapOneKeepsApart(s: State, c: Click)
    requires c.user != "" && Apart(Clicks(s.deques, c.user), Clicks(s.accepted, c.user))
    ensures Apart(Clicks(Next(s, 1, c).deques, c.user), Clicks(Next(s, 1, c).accepted, c.user))
  {
    EvictOne(Clicks(s.deques, c.user), c.at - WINDOW);
  }

  lemma {:induction false} RunOfCapOne(clicks: seq<Click>, user: string)
    requires user != ""
    ensures Apart(Clicks(Run(1, clicks).deques, user), Clicks(Run(1, clicks).accepted, user))
  {
    if clicks != [] {
      var last := |clicks| - 1;
      RunOfCapOne(clicks[..last], user);
      if clicks[last].user == user {
        CapOneKeepsApart(Run(1, clicks[..last]), clicks[last]);
      }
    }
  }

  lemma {:induction false} ApartWithin(s: seq<Time>, t: Time)
    requires forall i, j | 0 <= i < j < |s| :: s[i] + WINDOW < s[j]
    ensures Within(s, t, t + WINDOW) <= 1
  {
    if s != [] {
      var last := |s| - 1;
      ApartWithin(s[..last], t);
      if t <= s[last] <= t + WINDOW {
        WithinNone(s[..last], t, t + WINDOW);
      }
    }
  }

  // ---- the exact condition --------------------------------------------------------------------------

  /** `cap` clicks at 0, one just past the window, and one that got its stamp before that one. */
  function Overtaken(user: string, cap: nat, d: Time): seq<Click> {
    seq(cap, _ => Click(user, 0.0)) + [Click(user, WINDOW + d)] + [Click(user, WINDOW)]
  }

  function Zeros(n: nat): (z: seq<Time>)
    ensures |z| == n && forall i | 0 <= i < n :: z[i] == 0.0
  {
    seq(n, _ => 0.0)
  }

  lemma {:induction false} ZerosAreEvicted(n: nat, d: Time)
    requires d > 0.0
    ensures Evict(Zeros(n), d) == []
  {
    if n > 0 {
      assert Zeros(n)[1..] == Zeros(n - 1);
      ZerosAreEvicted(n - 1, d);
    }
  }

  lemma {:induction false} FillsUp(user: string, cap: nat, n: nat)
    requires user != "" && n <= cap
    ensures var s := Run(cap, seq(n, _ => Click(user, 0.0)));
            Clicks(s.deques, user) == Zeros(n) && Clicks(s.accepted, user) == Zeros(n)
  {
    if n > 0 {
      var clicks := seq(n, _ => Click(user, 0.0));
      assert clicks[..n - 1] == seq(n - 1, _ => Click(user, 0.0));
      FillsUp(user, cap, n - 1);
      assert Zeros(n - 1) + [0.0] == Zeros(n);
    }
  }

  lemma {:induction false} OvertakenIsAccepted(user: string, cap: nat, d: Time)
    requires user != "" && cap >= 2 && d > 0.0
    ensures Clicks(Run(cap, Overtaken(user, cap, d)).accepted, user) == Zeros(cap) + [WINDOW + d] + [WINDOW]
  {
    var zeros := seq(cap, _ => Click(user, 0.0));
    var late, early := Click(user, WINDOW + d), Click(user, WINDOW);
    FillsUp(user, cap, cap);
    ZerosAreEvicted(cap, d);
    assert Clicks(Run(cap, zeros + [late]).deques, user) == [WINDOW + d];
  }

  /** However small the skew, a cap of two or more is exceeded in one window. */
  lemma {:induction false} SkewBreaksTheBound(user: string, cap: nat, d: Time)
    requires user != "" && cap >= 2 && d > 0.0
    ensures Skewed(Overtaken(user, cap, d), user, d)
    ensures InWindow(cap, Overtaken(user, cap, d), user, 0.0) == cap + 1
  {
    OvertakenIsAccepted(user, cap, d);
    WithinConcat(Zeros(cap) + [WINDOW + d], [WINDOW], 0.0, WINDOW);
    WithinConcat(Zeros(cap), [WINDOW + d], 0.0, WINDOW);
    WithinAll(Zeros(cap), 0.0, WINDOW);
    assert [WINDOW + d][..0] == [] && [WINDOW][..0] == [];
  }

  /** The accepted clicks of a user in the closed window that starts at `t`. */
  function InWindow(cap: int, clicks: seq<Click>, user: string, t: Time): nat {
    Within(Clicks(Run(cap, clicks).accepted, user), t, t + WINDOW)
  }

  /** In every run with this skew, no closed window holds more than `cap` accepted clicks of a user. */
  ghost predicate Guaranteed(cap: int, d: Time) {
    forall clicks: seq<Click>, user: string, t: Time | user != "" && Skewed(clicks, user, d) ::
      InWindow(cap, clicks, user, t) <= cap
  }

  /** The bound is guaranteed iff the cap is one or the stamps of a user come in order. */
  lemma {:induction false} GuaranteedIff(cap: int, d: Time)
    requires cap > 0 && d >= 0.0
    ensures Guaranteed(cap, d) <==> cap == 1 || d == 0.0
  {
    if cap == 1 || d == 0.0 {
      forall clicks: seq<Click>, user: string, t: Time | user != "" && Skewed(clicks, user, d)
        ensures InWindow(cap, clicks, user, t) <= cap
      {
        if cap == 1 {
          RunOfCapOne(clicks, user);
          ApartWithin(Clicks(Run(1, clicks).accepted, user), t);
        } else {
          NeverMoreThanCap(cap, clicks, user, t);
        }
      }
    } else {
      SkewBreaksTheBound("u", cap, d);
      assert InWindow(cap, Overtaken("u", cap, d), "u", 0.0) > cap;
    }
  }

  function ClicksOf(clicks: seq<Click>, user: string): seq<Click> {
    if clicks == [] then []
    else
      var last := |clicks| - 1;
      var rest := ClicksOf(clicks[..last], user);
      if clicks[last].user == user then rest + [clicks[last]] else rest
  }

  ghost predicate AgreeOn(s: State, s': State, user: string) {
    Clicks(s.deques, user) == Clicks(s'.deques, user) && Clicks(s.accepted, user) == Clicks(s'.accepted, user)
  }

  /** A click changes and reads the deque of its own user only. */
  lemma {:induction false} StepIsLocal(s: State, s': State, cap: int, c: Click, user: string)
    requires AgreeOn(s, s', user)
    ensures AgreeOn(Next(s, cap, c), if c.user == user then Next(s', cap, c) else s', user)
    ensures c.user == user ==> Allowed(s, cap, c) == Allowed(s', cap, c)
  {
  }

  /** Users do not affect each other: the clicks of others can be left out of any run. */
  lemma {:induction false} UsersAreIndependent(cap: int, clicks: seq<Click>, user: string)
    ensures AgreeOn(Run(cap, clicks), Run(cap, ClicksOf(clicks, user)), user)
  {
    if clicks != [] {
      var last := |clicks| - 1;
      var c, mine := clicks[last], ClicksOf(clicks[..last], user);
      UsersAreIndependent(cap, clicks[..last], user);
      StepIsLocal(Run(cap, clicks[..last]), Run(cap, mine), cap, c, user);
    }
  }
}
