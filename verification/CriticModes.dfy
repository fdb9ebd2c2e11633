/**
  The two modes of `critique_all` (app/agents/fact_critic.py) and how they relate.

  Batch mode is fail-closed: an unrefuted hypothesis was looked at by the model, or the model
  was unreachable for it alone.  With an oracle whose opinion does not depend on the batch,
  batch mode gives the very list that one call per hypothesis gives.
*/
module CriticModes {
  import opened Common
  import opened CriticModel
  import opened StableSort
  import opened BatchCritic

  const BATCH_NO_VERDICT := "critic: no verdict for this hypothesis in batch response"
  const BATCH_NOT_REVIEWED := "critic: not reviewed (outside batch top-N by confidence)"

  // ---- the hypotheses the model is to see -------------------------------------------------

  type Checked = (Hypothesis, bool)

  function Prechecked(hs: seq<Hypothesis>, facts: FactStore): seq<Checked> {
    seq(|hs|, i requires 0 <= i < |hs| => Precheck(hs[i], facts))
  }

  /** The hypotheses that passed the algorithmic check, with their original positions. */
  function Pending(pre: seq<Checked>): seq<Item> {
    if pre == [] then []
    else
      var last := |pre| - 1;
      Pending(pre[..last]) + (if pre[last].1 then [Item(last, pre[last].0)] else [])
  }

  ghost predicate Ordered(items: seq<Item>) {
    forall i, j | 0 <= i < j < |items| :: items[i].index < items[j].index
  }

  lemma {:induction false} PendingMembers(pre: seq<Checked>)
    ensures forall p | p in Pending(pre) :: p.index < |pre| && pre[p.index] == (p.h, true)
    ensures forall i | 0 <= i < |pre| && pre[i].1 :: Item(i, pre[i].0) in Pending(pre)
  {
    if pre != [] {
      var last := |pre| - 1;
      PendingMembers(pre[..last]);
      assert forall i | 0 <= i < last :: pre[..last][i] == pre[i];
    }
  }

  lemma {:induction false} PendingIsOrdered(pre: seq<Checked>)
    ensures Ordered(Pending(pre))
  {
    if pre != [] {
      var rest := pre[..|pre| - 1];
      PendingIsOrdered(rest);
      PendingMembers(rest);
      assert forall k | 0 <= k < |Pending(rest)| :: Pending(rest)[k] in Pending(rest);
    }
  }

  lemma {:induction false} PendingIsExact(pre: seq<Checked>)
    ensures Ordered(Pending(pre))
    ensures forall p | p in Pending(pre) :: p.index < |pre| && pre[p.index] == (p.h, true)
    ensures forall i | 0 <= i < |pre| && pre[i].1 :: Item(i, pre[i].0) in Pending(pre)
  {
    PendingMembers(pre);
    PendingIsOrdered(pre);
  }

  /** Better confidence first; among equals, the original order. */
  predicate Precedes(q: Item, p: Item) {
    q.h.confidence > p.h.confidence || (q.h.confidence == p.h.confidence && q.index < p.index)
  }

  function Ranked(pending: seq<Item>): seq<Item> {
    Sort(pending, (p: Item) => -p.h.confidence)
  }

  function ByIndex(items: seq<Item>): seq<Item> {
    Sort(items, (p: Item) => p.index as real)
  }

  function Reviewed(pending: seq<Item>, topN: int): seq<Item> {
    if topN > 0 && |pending| > topN then ByIndex(Ranked(pending)[..topN]) else pending
  }

  ghost predicate StrictlyRanked(s: seq<Item>) {
    forall i, j | 0 <= i < j < |s| :: Precedes(s[i], s[j])
  }

  lemma {:induction false} InsertKeepsRank(x: Item, s: seq<Item>)
    requires StrictlyRanked(s) && forall p | p in s :: x.index < p.index
    ensures StrictlyRanked(Insert(x, s, (p: Item) => -p.h.confidence))
  {
    var key := (p: Item) => -p.h.confidence;
    if s != [] && key(x) > key(s[0]) {
      InsertKeepsRank(x, s[1..]);
      InsertMembers(x, s[1..], key);
      var r := Insert(x, s[1..], key);
      forall j | 0 <= j < |r|
        ensures Precedes(s[0], r[j])
      {
        assert r[j] in r;
      }
    }
  }

  lemma {:induction false} RankedIsStrict(pending: seq<Item>)
    requires Ordered(pending)
    ensures StrictlyRanked(Ranked(pending))
  {
    if pending != [] {
      var x, t := pending[0], pending[1..];
      RankedIsStrict(t);
      SortMembers(t, (p: Item) => -p.h.confidence);
      InsertKeepsRank(x, Ranked(t));
    }
  }

  lemma {:induction false} RankedIsDistinct(pending: seq<Item>)
    requires Ordered(pending)
    ensures Distinct(Ranked(pending))
  {
    var s := Ranked(pending);
    RankedIsStrict(pending);
    SortMembers(pending, (p: Item) => -p.h.confidence);
    forall i, j | 0 <= i < j < |s|
      ensures s[i].index != s[j].index
    {
      assert s[i] in pending && s[j] in pending && Precedes(s[i], s[j]);
    }
  }

  /** How many pending hypotheses come before `p`. */
  ghost function Rank(pending: seq<Item>, p: Item): nat {
    |set q | q in pending && Precedes(q, p)|
  }

  ghost function Members(s: seq<Item>): set<Item> {
    set q | q in s
  }

  lemma {:induction false} MembersSize(s: seq<Item>)
    requires Distinct(s)
    ensures |Members(s)| == |s|
  {
    if s != [] {
      var last := |s| - 1;
      MembersSize(s[..last]);
      assert s[last] !in s[..last];
      assert Members(s) == Members(s[..last]) + {s[last]};
    }
  }

  lemma {:induction false} PositionIsRank(pending: seq<Item>, k: nat)
    requires Ordered(pending) && k < |pending|
    ensures Rank(pending, Ranked(pending)[k]) == k
  {
    var s := Ranked(pending);
    RankedIsStrict(pending);
    SortMembers(pending, (p: Item) => -p.h.confidence);
    RankedIsDistinct(pending);
    MembersSize(s[..k]);
    var before := set q | q in pending && Precedes(q, s[k]);
    forall q
      ensures q in before <==> q in s[..k]
    {
      if q in before {
        var j :| 0 <= j < |s| && s[j] == q;
        assert j < k;
        assert q == s[..k][j];
      }
      if q in s[..k] {
        var j :| 0 <= j < k && s[..k][j] == q;
        assert s[j] == q && q in s;
      }
    }
    assert before == Members(s[..k]);
  }

  lemma {:induction false} InsertKeepsOrder(x: Item, s: seq<Item>)
    requires Ordered(s) && forall p | p in s :: p.index != x.index
    ensures Ordered(Insert(x, s, (p: Item) => p.index as real))
  {
    var key := (p: Item) => p.index as real;
    if s != [] && key(x) > key(s[0]) {
      InsertKeepsOrder(x, s[1..]);
      InsertMembers(x, s[1..], key);
      var r := Insert(x, s[1..], key);
      forall j | 0 <= j < |r|
        ensures s[0].index < r[j].index
      {
        assert r[j] in r;
      }
    }
  }

  lemma {:induction false} ByIndexOrders(items: seq<Item>)
    requires Distinct(items)
    ensures Ordered(ByIndex(items))
  {
    if items != [] {
      var x, t := items[0], items[1..];
      ByIndexOrders(t);
      SortMembers(t, (p: Item) => p.index as real);
      InsertKeepsOrder(x, ByIndex(t));
    }
  }

  lemma {:induction false} RankPosition(pending: seq<Item>, p: Item) returns (k: nat)
    requires Ordered(pending) && p in pending
    ensures k < |pending| && Ranked(pending)[k] == p && Rank(pending, p) == k
  {
    SortMembers(pending, (q: Item) => -q.h.confidence);
    k :| 0 <= k < |pending| && Ranked(pending)[k] == p;
    PositionIsRank(pending, k);
  }

  lemma {:induction false} TopIffRank(pending: seq<Item>, topN: nat, p: Item)
    requires Ordered(pending) && topN <= |pending|
    ensures p in Ranked(pending)[..topN] <==> p in pending && Rank(pending, p) < topN
  {
    var s := Ranked(pending);
    if p in pending {
      var k := RankPosition(pending, p);
      if k < topN {
        assert s[..topN][k] == p;
      }
    }
    if p in s[..topN] {
      var j :| 0 <= j < topN && s[..topN][j] == p;
      assert s[j] == p && p in s;
      SortMembers(pending, (q: Item) => -q.h.confidence);
      PositionIsRank(pending, j);
    }
  }

  /** The model sees exactly the top N by penalised confidence, ties by original order, in original order. */
  lemma {:induction false} ReviewedIsTopN(pending: seq<Item>, topN: int)
    requires Ordered(pending)
    ensures Ordered(Reviewed(pending, topN))
    ensures forall p :: p in Reviewed(pending, topN) <==> p in pending && (topN <= 0 || Rank(pending, p) < topN)
  {
    if topN > 0 && |pending| > topN {
      var top := Ranked(pending)[..topN];
      RankedIsDistinct(pending);
      ByIndexOrders(top);
      SortMembers(top, (p: Item) => p.index as real);
      forall p
        ensures p in top <==> p in pending && Rank(pending, p) < topN
      {
        TopIffRank(pending, topN, p);
      }
    } else {
      forall p | p in pending
        ensures topN <= 0 || Rank(pending, p) < topN
      {
        var _ := RankPosition(pending, p);
      }
    }
  }

  // ---- batch mode ---------------------------------------------------------------------

  /** FACT_CRITIC_BATCH_TOP_N, FACT_CRITIC_BATCH_MAX and PIPELINE_STAGE_TIMEOUT_SECONDS. */
  datatype Settings = Settings(topN: int, batchMax: int, stageTimeout: real)

  function Find(items: seq<Item>, i: nat): (r: Option<nat>)
    ensures r.Some? ==> r.value < |items| && items[r.value].index == i
    ensures r.None? ==> forall n | 0 <= n < |items| :: items[n].index != i
  {
    if items == [] then None
    else
      var last := |items| - 1;
      if items[last].index == i then Some(last) else Find(items[..last], i)
  }

  function Judged(h: Hypothesis, v: Verdict): Hypothesis {
    h.(refutations := if v.None? then [BATCH_NO_VERDICT] else v.value)
  }

  function Outcome(pre: seq<Checked>, reviewed: seq<Item>, vs: seq<Verdict>, i: nat): Hypothesis
    requires i < |pre| && |vs| == |reviewed|
  {
    var (working, needsModel) := pre[i];
    if !needsModel then working
    else
      match Find(reviewed, i)
      case None => working.(refutations := [BATCH_NOT_REVIEWED])
      case Some(n) => Judged(working, vs[n])
  }

  function Outcomes(pre: seq<Checked>, reviewed: seq<Item>, vs: seq<Verdict>): seq<Hypothesis>
    requires |vs| == |reviewed|
  {
    seq(|pre|, i requires 0 <= i < |pre| => Outcome(pre, reviewed, vs, i))
  }

  function Size(cfg: Settings): nat {
    Max(1, cfg.batchMax)
  }

  datatype Critiqued = Critiqued(result: Result<seq<Hypothesis>>, world: World)

  function CritiqueBatch(o: Oracle, cfg: Settings, hs: seq<Hypothesis>, facts: FactStore, w: World): Critiqued {
    CritiqueChecked(o, cfg, Prechecked(hs, facts), w)
  }

  function CritiqueChecked(o: Oracle, cfg: Settings, pre: seq<Checked>, w: World): Critiqued {
    var reviewed := Reviewed(Pending(pre), cfg.topN);
    if reviewed == [] then Critiqued(Ok(Outcomes(pre, [], [])), w)
    else
      var deadline := w.now + cfg.stageTimeout;
      var asked := AskBatch(o, Size(cfg), reviewed, deadline, w);
      match asked.result
      case Ok(vs) =>
        BatchExplained(o, Size(cfg), reviewed, deadline, w);
        Critiqued(Ok(Outcomes(pre, reviewed, vs)), asked.world)
      case RaisedTruncated => Critiqued(RaisedTruncated, asked.world)
      case RaisedNoRecording => Critiqued(RaisedNoRecording, asked.world)
  }

  /** The call has nothing against its item at position `m`: every refutation in the first answer under
      the item's id is an empty string, or the call for the item alone failed. */
  ghost predicate Clears(c: Call, m: nat) {
    || (c.reply.Text? && c.reply.entries.Some? && exists n :: FirstAnswerIsEmpty(c.reply.entries.value, Id(m), n))
    || (c.reply.Failed? && |c.items| == 1)
  }

  ghost predicate FirstAnswerIsEmpty(entries: seq<Entry>, id: string, n: int) {
    FirstAnswer(entries, id, n) && forall r | r in entries[n].refutations.value :: r == ""
  }

  /** Some call since position `from` covered the item and cleared it. */
  ghost predicate Cleared(log: seq<Call>, from: nat, item: Item) {
    exists k: nat, m: nat | from <= k < |log| && m < |log[k].items| && log[k].items[m] == item :: Clears(log[k], m)
  }

  lemma {:induction false} EmptyVerdictClears(c: Call, m: nat)
    requires VerdictAt(c, m) == Some([])
    ensures Clears(c, m)
  {
    VerdictOnRaw(c, m);
    if c.reply.Text? {
      var entries := c.reply.entries.value;
      FirstValidOnRaw(entries, Id(m));
      var n :| FirstAnswer(entries, Id(m), n);
      var at :| KeptAt(entries[n].refutations.value, [], at);
      assert FirstAnswerIsEmpty(entries, Id(m), n);
    }
  }

  /** Length and order are kept, and only refutations and a lowered confidence may differ. */
  lemma {:induction false} BatchKeepsOrder(o: Oracle, cfg: Settings, hs: seq<Hypothesis>, facts: FactStore, w: World)
    requires CritiqueBatch(o, cfg, hs, facts, w).result.Ok?
    ensures var out := CritiqueBatch(o, cfg, hs, facts, w).result.value;
            |out| == |hs| && forall i | 0 <= i < |hs| ::
              out[i].(refutations := []) == Precheck(hs[i], facts).0.(refutations := [])
  {
    var pre := Prechecked(hs, facts);
    assert forall i | 0 <= i < |hs| :: pre[i] == Precheck(hs[i], facts);
  }

  lemma {:induction false} FoundInReviewed(pre: seq<Checked>, topN: int, i: nat)
    requires i < |pre| && pre[i].1
    ensures var reviewed := Reviewed(Pending(pre), topN);
            var n := Find(reviewed, i);
            && (n.Some? <==> topN <= 0 || Rank(Pending(pre), Item(i, pre[i].0)) < topN)
            && (n.Some? ==> reviewed[n.value] == Item(i, pre[i].0))
  {
    var pending := Pending(pre);
    var reviewed := Reviewed(pending, topN);
    PendingIsExact(pre);
    ReviewedIsTopN(pending, topN);
    var n := Find(reviewed, i);
    if n.Some? {
      assert reviewed[n.value] in reviewed;
    } else {
      assert Item(i, pre[i].0) !in reviewed;
    }
  }

  /** After the check: what comes out unrefuted was needed, within the top N, and cleared in this run. */
  lemma {:induction false} UnrefutedAfterCheck(o: Oracle, cfg: Settings, pre: seq<Checked>, w: World, i: nat)
    requires CritiqueChecked(o, cfg, pre, w).result.Ok? && i < |pre| && pre[i].1
    requires CritiqueChecked(o, cfg, pre, w).result.value[i].refutations == []
    ensures cfg.topN <= 0 || Rank(Pending(pre), Item(i, pre[i].0)) < cfg.topN
    ensures Cleared(CritiqueChecked(o, cfg, pre, w).world.log, |w.log|, Item(i, pre[i].0))
  {
    FoundInReviewed(pre, cfg.topN, i);
    var reviewed := Reviewed(Pending(pre), cfg.topN);
    var deadline := w.now + cfg.stageTimeout;
    BatchExplained(o, Size(cfg), reviewed, deadline, w);
    var n := Find(reviewed, i).value;
    var asked := AskBatch(o, Size(cfg), reviewed, deadline, w);
    assert Explains(asked.world.log, |w.log|, reviewed[n], asked.result.value[n]);
    var k: nat, m: nat :| SaidBy(asked.world.log, |w.log|, reviewed[n], Some([]), k, m);
    EmptyVerdictClears(asked.world.log[k], m);
  }

  /** A refutation that the model gave stays: whatever answer of this run covered the hypothesis, the raw
      refutations of its first entry, less the empty ones, are the refutations that come out. */
  lemma {:induction false} AnsweredRefutationsStay(o: Oracle, cfg: Settings, pre: seq<Checked>, w: World, i: nat,
                                                   k: nat, m: nat, n: int)
    requires CritiqueChecked(o, cfg, pre, w).result.Ok? && i < |pre| && pre[i].1
    requires var log := CritiqueChecked(o, cfg, pre, w).world.log;
             && |w.log| <= k < |log| && m < |log[k].items| && log[k].items[m] == Item(i, pre[i].0)
             && log[k].reply.Text? && log[k].reply.entries.Some? && FirstAnswer(log[k].reply.entries.value, Id(m), n)
    ensures var raw := CritiqueChecked(o, cfg, pre, w).world.log[k].reply.entries.value[n].refutations.value;
            var out := CritiqueChecked(o, cfg, pre, w).result.value[i];
            && out == pre[i].0.(refutations := out.refutations)
            && Keeps(raw, out.refutations)
            && (out.refutations == [] <==> forall j | 0 <= j < |raw| :: raw[j] == "")
  {
    var reviewed := Reviewed(Pending(pre), cfg.topN);
    var deadline := w.now + cfg.stageTimeout;
    var item := Item(i, pre[i].0);
    var asked := AskBatch(o, Size(cfg), reviewed, deadline, w);
    AskedIsCritiqued(o, cfg, pre, w, asked);
    ReviewedIsPending(pre, cfg.topN);
    BatchIsOnlyAbout(o, Size(cfg), reviewed, deadline, w);
    BatchHearsEveryAnswer(o, Size(cfg), reviewed, deadline, w);
    var c := asked.world.log[k];
    assert c.items[m] in reviewed;
    FoundInReviewed(pre, cfg.topN, i);
    var p := Find(reviewed, i).value;
    assert AnswersFor(asked.world.log, |w.log|, reviewed[p], asked.result.value[p]);
    AnswerIsCleaned(c, m, n);
  }

  lemma {:induction false} AnswerIsCleaned(c: Call, m: nat, n: int)
    requires c.reply.Text? && c.reply.entries.Some? && FirstAnswer(c.reply.entries.value, Id(m), n)
    ensures var raw := c.reply.entries.value[n].refutations.value;
            && VerdictAt(c, m).Some? && Keeps(raw, VerdictAt(c, m).value)
            && (VerdictAt(c, m).value == [] <==> forall j | 0 <= j < |raw| :: raw[j] == "")
  {
    var entries := c.reply.entries.value;
    FirstValidOnRaw(entries, Id(m));
    var f := FirstValidIsFirst(entries, Id(m));
    assert f == n;
    NonEmptyKeeps(entries[n].refutations.value);
  }

  /** Fail closed: what comes out unrefuted passed the algorithmic check, was within the top N, and
      was cleared by a call made in this very run. */
  lemma {:induction false} UnrefutedWasReviewed(o: Oracle, cfg: Settings, hs: seq<Hypothesis>, facts: FactStore,
      w: World, i: nat)
    requires CritiqueBatch(o, cfg, hs, facts, w).result.Ok? && i < |hs|
    requires CritiqueBatch(o, cfg, hs, facts, w).result.value[i].refutations == []
    ensures var item := Item(i, Precheck(hs[i], facts).0);
            && (forall k | k in hs[i].anchors :: Grounded(facts, k))
            && (cfg.topN <= 0 || Rank(Pending(Prechecked(hs, facts)), item) < cfg.topN)
            && Cleared(CritiqueBatch(o, cfg, hs, facts, w).world.log, |w.log|, item)
  {
    var pre := Prechecked(hs, facts);
    assert pre[i] == Precheck(hs[i], facts);
    assert pre[i].1;
    UnrefutedAfterCheck(o, cfg, pre, w, i);
  }

  /** Hence the best candidate is never a hypothesis that nobody reviewed. */
  lemma {:induction false} BestCandidateWasReviewed(o: Oracle, cfg: Settings, hs: seq<Hypothesis>, facts: FactStore,
      w: World) returns (i: nat)
    requires CritiqueBatch(o, cfg, hs, facts, w).result.Ok?
    requires BestCandidate(CritiqueBatch(o, cfg, hs, facts, w).result.value).Some?
    ensures i < |hs|
    ensures var r := CritiqueBatch(o, cfg, hs, facts, w);
            var item := Item(i, Precheck(hs[i], facts).0);
            && BestCandidate(r.result.value) == Some(r.result.value[i])
            && (forall k | k in hs[i].anchors :: Grounded(facts, k))
            && (cfg.topN <= 0 || Rank(Pending(Prechecked(hs, facts)), item) < cfg.topN)
            && Cleared(r.world.log, |w.log|, item)
  {
    var out := CritiqueBatch(o, cfg, hs, facts, w).result.value;
    var best := BestCandidate(out).value;
    i :| 0 <= i < |out| && out[i] == best;
    UnrefutedWasReviewed(o, cfg, hs, facts, w, i);
  }

  /** No call without a pending hypothesis, and never more than 2n less the number of chunks. */
  lemma {:induction false} CritiqueCost(o: Oracle, cfg: Settings, hs: seq<Hypothesis>, facts: FactStore, w: World)
    ensures var n := |Reviewed(Pending(Prechecked(hs, facts)), cfg.topN)|;
            |CritiqueBatch(o, cfg, hs, facts, w).world.log| <= |w.log| + 2 * n - Chunks(n, Size(cfg))
  {
    var pre := Prechecked(hs, facts);
    var reviewed := Reviewed(Pending(pre), cfg.topN);
    if reviewed != [] {
      BatchCost(o, Size(cfg), reviewed, w.now + cfg.stageTimeout, w);
      AskedIsCritiqued(o, cfg, pre, w, AskBatch(o, Size(cfg), reviewed, w.now + cfg.stageTimeout, w));
    }
  }

  /** No call of a critique is about more hypotheses than the batch maximum, or than one if that is less. */
  lemma {:induction false} CritiqueCallsAreSmall(o: Oracle, cfg: Settings, pre: seq<Checked>, w: World, k: nat)
    requires |w.log| <= k < |CritiqueChecked(o, cfg, pre, w).world.log|
    ensures var n := |CritiqueChecked(o, cfg, pre, w).world.log[k].items|; n == 1 || 1 <= n <= cfg.batchMax
  {
    var reviewed := Reviewed(Pending(pre), cfg.topN);
    if reviewed != [] {
      var deadline := w.now + cfg.stageTimeout;
      AskedIsCritiqued(o, cfg, pre, w, AskBatch(o, Size(cfg), reviewed, deadline, w));
      BatchCallsAreSmall(o, Size(cfg), reviewed, deadline, w);
    }
  }

  // ---- per-hypothesis mode --------------------------------------------------------------

  /** `Refs(None)`: the answer could not be parsed, which this mode reads as no refutation. */
  datatype SingleReply = Refs(refs: Option<seq<string>>) | SingleTruncated | SingleFailed

  type SingleOracle = (nat, Hypothesis) -> SingleReply

  /** `critique` after the algorithmic check. */
  function CritiqueOne(reply: SingleReply, working: Hypothesis): Result<Hypothesis> {
    match reply
    case Refs(None) => Ok(working.(refutations := []))
    case Refs(Some(refs)) => Ok(working.(refutations := NonEmpty(refs)))
    case SingleTruncated => RaisedTruncated
    case SingleFailed => Ok(working)
  }

  function Single(o: SingleOracle, calls: nat, c: Checked): Result<Hypothesis> {
    if c.1 then CritiqueOne(o(calls, c.0), c.0) else Ok(c.0)
  }

  function CallsFor(pre: seq<Checked>): nat {
    if pre == [] then 0 else CallsFor(pre[..|pre| - 1]) + if pre[|pre| - 1].1 then 1 else 0
  }

  function CritiqueEach(o: SingleOracle, pre: seq<Checked>): Result<seq<Hypothesis>> {
    if pre == [] then Ok([])
    else
      var last := |pre| - 1;
      match CritiqueEach(o, pre[..last])
      case Ok(done) =>
        (match Single(o, CallsFor(pre[..last]), pre[last])
         case Ok(h) => Ok(done + [h])
         case RaisedTruncated => RaisedTruncated
         case RaisedNoRecording => RaisedNoRecording)
      case raised => raised
  }

  lemma {:induction false} EachStep(o: SingleOracle, pre: seq<Checked>, i: nat, done: seq<Hypothesis>)
    requires i < |pre| && CritiqueEach(o, pre[..i]) == Ok(done)
    ensures CallsFor(pre[..i + 1]) == CallsFor(pre[..i]) + if pre[i].1 then 1 else 0
    ensures var one := Single(o, CallsFor(pre[..i]), pre[i]);
            CritiqueEach(o, pre[..i + 1]) == if one.Ok? then Ok(done + [one.value]) else RaisedTruncated
  {
    assert pre[..i + 1][..i] == pre[..i];
  }

  /** The loop of `critique_all` in per-hypothesis mode. */
  method CritiqueEachLoop(o: SingleOracle, hs: seq<Hypothesis>, facts: FactStore) returns (r: Result<seq<Hypothesis>>)
    ensures r == CritiqueEach(o, Prechecked(hs, facts))
  {
    ghost var pre := Prechecked(hs, facts);
    var done: seq<Hypothesis> := [];
    var calls := 0;
    for i := 0 to |hs|
      invariant calls == CallsFor(pre[..i])
      invariant CritiqueEach(o, pre[..i]) == Ok(done)
    {
      EachStep(o, pre, i, done);
      var (working, needsModel) := Precheck(hs[i], facts);
      assert pre[i] == (working, needsModel);
      var one := if needsModel then CritiqueOne(o(calls, working), working) else Ok(working);
      if one.RaisedTruncated? {
        RaiseStops(o, pre, i + 1);
        return RaisedTruncated;
      }
      done := done + [one.value];
      calls := calls + if needsModel then 1 else 0;
    }
    assert pre[..|hs|] == pre;
    r := Ok(done);
  }

  lemma {:induction false} RaiseStops(o: SingleOracle, pre: seq<Checked>, n: nat)
    requires n <= |pre| && CritiqueEach(o, pre[..n]) == RaisedTruncated
    ensures CritiqueEach(o, pre) == RaisedTruncated
    decreases |pre| - n
  {
    if n < |pre| {
      assert pre[..n + 1][..n] == pre[..n];
      RaiseStops(o, pre, n + 1);
    } else {
      assert pre[..n] == pre;
    }
  }

  /** `_critique_batch`: the output list is patched in place, slot by slot. */
  method CritiqueBatchLoop(o: Oracle, cfg: Settings, hs: seq<Hypothesis>, facts: FactStore, w: World)
    returns (r: Result<seq<Hypothesis>>, w': World)
    ensures r == CritiqueBatch(o, cfg, hs, facts, w).result
    ensures w' == CritiqueBatch(o, cfg, hs, facts, w).world
  {
    var out, pending := PrecheckLoop(hs, facts);
    r, w' := JudgePending(o, cfg, out, pending, w, Prechecked(hs, facts));
  }

  method JudgePending(o: Oracle, cfg: Settings, start: seq<Hypothesis>, pending: seq<Item>, w: World,
      ghost pre: seq<Checked>)
    returns (r: Result<seq<Hypothesis>>, w': World)
    requires pending == Pending(pre) && |start| == |pre| && forall i | 0 <= i < |pre| :: start[i] == pre[i].0
    ensures r == CritiqueChecked(o, cfg, pre, w).result
    ensures w' == CritiqueChecked(o, cfg, pre, w).world
  {
    var out, reviewed := CutToTop(start, pending, cfg.topN, pre);
    if reviewed == [] {
      SlotsAreOutcomes(pre, [], [], out, out);
      return Ok(out), w;
    }
    var deadline := w.now + cfg.stageTimeout;
    ghost var asked := AskBatch(o, Size(cfg), reviewed, deadline, w);
    AskedIsCritiqued(o, cfg, pre, w, asked);
    var verdicts;
    verdicts, w' := AskBatchLoop(o, Size(cfg), reviewed, deadline, w);
    match verdicts
    case RaisedTruncated => r := RaisedTruncated;
    case RaisedNoRecording => r := RaisedNoRecording;
    case Ok(table) =>
      var marked := MarkVerdicts(out, reviewed, table, asked.result.value);
      SlotsAreOutcomes(pre, reviewed, asked.result.value, out, marked);
      r := Ok(marked);
  }

  lemma {:induction false} AskedIsCritiqued(o: Oracle, cfg: Settings, pre: seq<Checked>, w: World, asked: Asked)
    requires Reviewed(Pending(pre), cfg.topN) != []
    requires asked == AskBatch(o, Size(cfg), Reviewed(Pending(pre), cfg.topN), w.now + cfg.stageTimeout, w)
    ensures CritiqueChecked(o, cfg, pre, w).world == asked.world
    ensures asked.result.RaisedTruncated? ==> CritiqueChecked(o, cfg, pre, w).result == RaisedTruncated
    ensures asked.result.RaisedNoRecording? ==> CritiqueChecked(o, cfg, pre, w).result == RaisedNoRecording
    ensures asked.result.Ok? ==>
              && |asked.result.value| == |Reviewed(Pending(pre), cfg.topN)|
              && CritiqueChecked(o, cfg, pre, w).result ==
                 Ok(Outcomes(pre, Reviewed(Pending(pre), cfg.topN), asked.result.value))
  {
    assert Pending(pre) != [];
    if asked.result.Ok? {
      BatchExplained(o, Size(cfg), Reviewed(Pending(pre), cfg.topN), w.now + cfg.stageTimeout, w);
    }
  }

  /** What a slot holds before the model answers. */
  function BeforeVerdict(c: Checked, seen: bool): Hypothesis {
    if c.1 && !seen then c.0.(refutations := [BATCH_NOT_REVIEWED]) else c.0
  }

  lemma {:induction false} SlotsAreOutcomes(pre: seq<Checked>, reviewed: seq<Item>, vs: seq<Verdict>,
                                            before: seq<Hypothesis>, out: seq<Hypothesis>)
    requires |before| == |out| == |pre| && |vs| == |reviewed|
    requires forall i | 0 <= i < |pre| :: before[i] == BeforeVerdict(pre[i], Find(reviewed, i).Some?)
    requires forall i | 0 <= i < |pre| :: out[i] == Verdicted(before[i], reviewed, vs, i)
    requires forall p | p in reviewed :: p.index < |pre| && pre[p.index].1
    ensures out == Outcomes(pre, reviewed, vs)
  {
    forall i | 0 <= i < |pre|
      ensures out[i] == Outcome(pre, reviewed, vs, i)
    {
      if Find(reviewed, i).Some? {
        assert reviewed[Find(reviewed, i).value] in reviewed;
      }
    }
  }

  /** Keep the top N for the model and mark the rest as not reviewed. */
  method CutToTop(start: seq<Hypothesis>, pending: seq<Item>, topN: int, ghost pre: seq<Checked>)
    returns (out: seq<Hypothesis>, reviewed: seq<Item>)
    requires pending == Pending(pre) && |start| == |pre| && forall i | 0 <= i < |pre| :: start[i] == pre[i].0
    ensures reviewed == Reviewed(pending, topN) && Distinct(reviewed)
    ensures |out| == |pre|
    ensures forall i | 0 <= i < |pre| :: out[i] == BeforeVerdict(pre[i], Find(reviewed, i).Some?)
    ensures forall p | p in reviewed :: p.index < |pre| && pre[p.index].1 && out[p.index] == p.h
  {
    ReviewedIsPending(pre, topN);
    out, reviewed := start, pending;
    if topN > 0 && |pending| > topN {
      var ranked := Ranked(pending);
      reviewed := ByIndex(ranked[..topN]);
      SkippedAreTheRest(pre, topN);
      out := MarkSkipped(start, ranked[topN..]);
    } else {
      AllAreReviewed(pre);
    }
  }

  lemma {:induction false} ReviewedIsPending(pre: seq<Checked>, topN: int)
    ensures var reviewed := Reviewed(Pending(pre), topN);
            && Distinct(reviewed)
            && (forall p | p in reviewed ::
                  p.index < |pre| && pre[p.index] == (p.h, true) && Find(reviewed, p.index).Some?)
  {
    var reviewed := Reviewed(Pending(pre), topN);
    PendingIsExact(pre);
    ReviewedIsTopN(Pending(pre), topN);
    forall p | p in reviewed
      ensures Find(reviewed, p.index).Some?
    {
      var n :| 0 <= n < |reviewed| && reviewed[n] == p;
    }
  }

  lemma {:induction false} AllAreReviewed(pre: seq<Checked>)
    ensures forall i | 0 <= i < |pre| && pre[i].1 :: Find(Pending(pre), i).Some?
  {
    PendingIsExact(pre);
    forall i | 0 <= i < |pre| && pre[i].1
      ensures Find(Pending(pre), i).Some?
    {
      assert Item(i, pre[i].0) in Pending(pre);
    }
  }

  method PrecheckLoop(hs: seq<Hypothesis>, facts: FactStore) returns (out: seq<Hypothesis>, pending: seq<Item>)
    ensures |out| == |hs| && forall i | 0 <= i < |hs| :: out[i] == Prechecked(hs, facts)[i].0
    ensures pending == Pending(Prechecked(hs, facts))
  {
    out, pending := [], [];
    ghost var pre := Prechecked(hs, facts);
    for i := 0 to |hs|
      invariant |out| == i && forall j | 0 <= j < i :: out[j] == pre[j].0
      invariant pending == Pending(pre[..i])
    {
      assert pre[..i + 1][..i] == pre[..i];
      var (working, needsModel) := Precheck(hs[i], facts);
      assert pre[i] == (working, needsModel);
      out := out + [working];
      if needsModel {
        pending := pending + [Item(i, working)];
      }
    }
    assert pre[..|hs|] == pre;
  }

  /** What the loop over the skipped leaves in each slot. */
  function Skipped(working: Hypothesis, skipped: seq<Item>, i: nat): Hypothesis {
    if Find(skipped, i).Some? then working.(refutations := [BATCH_NOT_REVIEWED]) else working
  }

  method MarkSkipped(start: seq<Hypothesis>, skipped: seq<Item>) returns (out: seq<Hypothesis>)
    requires Distinct(skipped)
    requires forall p | p in skipped :: p.index < |start| && start[p.index] == p.h
    ensures |out| == |start| && forall i | 0 <= i < |out| :: out[i] == Skipped(start[i], skipped, i)
  {
    out := start;
    for n := 0 to |skipped|
      invariant |out| == |start|
      invariant forall i | 0 <= i < |out| :: out[i] == Skipped(start[i], skipped[..n], i)
    {
      assert skipped[n] in skipped;
      assert skipped[..n + 1][..n] == skipped[..n];
      out := out[skipped[n].index := skipped[n].h.(refutations := [BATCH_NOT_REVIEWED])];
    }
    assert skipped[..|skipped|] == skipped;
  }

  function Verdicted(current: Hypothesis, reviewed: seq<Item>, vs: seq<Verdict>, i: nat): Hypothesis
    requires |reviewed| <= |vs|
  {
    match Find(reviewed, i)
    case Some(n) => Judged(current, vs[n])
    case None => current
  }

  lemma {:induction false} VerdictedStep(current: Hypothesis, reviewed: seq<Item>, vs: seq<Verdict>, n: nat, i: nat)
    requires n < |reviewed| <= |vs|
    ensures Verdicted(current, reviewed[..n + 1], vs, i) ==
            if reviewed[n].index == i then Judged(current, vs[n]) else Verdicted(current, reviewed[..n], vs, i)
  {
    assert reviewed[..n + 1][..n] == reviewed[..n];
  }

  method MarkVerdicts(start: seq<Hypothesis>, reviewed: seq<Item>, verdicts: map<nat, Verdict>, ghost vs: seq<Verdict>)
    returns (out: seq<Hypothesis>)
    requires Distinct(reviewed) && Tabulates(verdicts, reviewed, vs)
    requires forall p | p in reviewed :: p.index < |start| && start[p.index] == p.h
    ensures |out| == |start| && forall i | 0 <= i < |out| :: out[i] == Verdicted(start[i], reviewed, vs, i)
  {
    out := start;
    for n := 0 to |reviewed|
      invariant |out| == |start|
      invariant forall i | 0 <= i < |out| :: out[i] == Verdicted(start[i], reviewed[..n], vs, i)
    {
      assert reviewed[n] in reviewed;
      var item := reviewed[n];
      ghost var before := out;
      out := out[item.index := Judged(item.h, verdicts[item.index])];
      forall i | 0 <= i < |out|
        ensures out[i] == Verdicted(start[i], reviewed[..n + 1], vs, i)
      {
        VerdictedStep(start[i], reviewed, vs, n, i);
        assert i != item.index ==> out[i] == before[i];
      }
    }
    assert reviewed[..|reviewed|] == reviewed;
  }

  /** Every hypothesis is skipped exactly when it is pending and not reviewed. */
  lemma {:induction false} SkippedAreTheRest(pre: seq<Checked>, topN: int)
    requires topN > 0 && |Pending(pre)| > topN
    ensures Distinct(Ranked(Pending(pre))[topN..])
    ensures forall p | p in Ranked(Pending(pre))[topN..] :: p.index < |pre| && pre[p.index] == (p.h, true)
    ensures forall i | 0 <= i < |pre| ::
      Find(Ranked(Pending(pre))[topN..], i).Some? <==> pre[i].1 && Find(Reviewed(Pending(pre), topN), i).None?
  {
    PendingIsExact(pre);
    RankedIsDistinct(Pending(pre));
    SortMembers(Pending(pre), (p: Item) => -p.h.confidence);
    assert forall p | p in Ranked(Pending(pre))[topN..] :: p in Ranked(Pending(pre));
    forall i | 0 <= i < |pre|
      ensures Find(Ranked(Pending(pre))[topN..], i).Some? <==> pre[i].1 && Find(Reviewed(Pending(pre), topN), i).None?
    {
      SkippedOne(pre, topN, i);
    }
  }

  lemma {:induction false} SkippedOne(pre: seq<Checked>, topN: int, i: nat)
    requires topN > 0 && |Pending(pre)| > topN && i < |pre|
    ensures Find(Ranked(Pending(pre))[topN..], i).Some? <==> pre[i].1 && Find(Reviewed(Pending(pre), topN), i).None?
  {
    var pending, ranked := Pending(pre), Ranked(Pending(pre));
    PendingIsExact(pre);
    if pre[i].1 {
      var k := RankPosition(pending, Item(i, pre[i].0));
      RankedIsDistinct(pending);
      FoundInReviewed(pre, topN, i);
    } else {
      SortMembers(pending, (p: Item) => -p.h.confidence);
      assert forall n | topN <= n < |ranked| :: ranked[n] in ranked && ranked[n].index != i;
    }
  }

  // ---- batch mode refines per-hypothesis mode ----------------------------------------------

  /** The per-hypothesis oracle holds the same opinions. */
  ghost predicate Follows(o: SingleOracle, ops: Opinions) {
    forall n: nat, h: Hypothesis ::
      o(n, h) == match ops(h)
                 case Says(refs) => Refs(Some(refs))
                 case Garbled => Refs(None)
                 case Silent => SingleFailed
                 case Cut => SingleTruncated
  }

  /** What batch mode makes of a hypothesis. */
  function Batched(ops: Opinions, c: Checked): Hypothesis {
    if !c.1 then c.0 else Judged(c.0, VerdictFrom(ops(c.0)))
  }

  /** What per-hypothesis mode makes of it. */
  function Singled(ops: Opinions, c: Checked): Hypothesis {
    if !c.1 || ops(c.0).Silent? then c.0
    else c.0.(refutations := if ops(c.0).Says? then NonEmpty(ops(c.0).refs) else [])
  }

  function BatchedAll(ops: Opinions, pre: seq<Checked>): seq<Hypothesis> {
    seq(|pre|, i requires 0 <= i < |pre| => Batched(ops, pre[i]))
  }

  function SingledAll(ops: Opinions, pre: seq<Checked>): seq<Hypothesis> {
    seq(|pre|, i requires 0 <= i < |pre| => Singled(ops, pre[i]))
  }

  ghost predicate SomeCut(ops: Opinions, pre: seq<Checked>) {
    exists i :: 0 <= i < |pre| && pre[i].1 && ops(pre[i].0).Cut?
  }

  lemma {:induction false} EachIsSingled(o: SingleOracle, ops: Opinions, pre: seq<Checked>)
    requires Follows(o, ops)
    ensures CritiqueEach(o, pre) == if SomeCut(ops, pre) then RaisedTruncated else Ok(SingledAll(ops, pre))
  {
    if pre == [] {
      assert SingledAll(ops, pre) == [];
    } else {
      var last := |pre| - 1;
      var rest, c := pre[..last], pre[last];
      assert forall i | 0 <= i < last :: rest[i] == pre[i];
      EachIsSingled(o, ops, rest);
      if SomeCut(ops, rest) {
        var i :| 0 <= i < |rest| && rest[i].1 && ops(rest[i].0).Cut?;
        assert pre[i] == rest[i];
      } else {
        assert SomeCut(ops, pre) <==> c.1 && ops(c.0).Cut?;
        if !SomeCut(ops, pre) {
          assert Single(o, CallsFor(rest), c) == Ok(Singled(ops, c));
          assert SingledAll(ops, pre) == SingledAll(ops, rest) + [Singled(ops, c)];
        }
      }
    }
  }

  lemma {:induction false} PendingCut(ops: Opinions, pre: seq<Checked>)
    ensures AnyCut(ops, Pending(pre)) <==> SomeCut(ops, pre)
  {
    PendingIsExact(pre);
    var pending := Pending(pre);
    if AnyCut(ops, pending) {
      var n :| 0 <= n < |pending| && ops(pending[n].h).Cut?;
      assert pending[n] in pending;
      assert pre[pending[n].index].1;
    }
    if SomeCut(ops, pre) {
      var i :| 0 <= i < |pre| && pre[i].1 && ops(pre[i].0).Cut?;
      assert Item(i, pre[i].0) in pending;
      var n :| 0 <= n < |pending| && pending[n] == Item(i, pre[i].0);
    }
  }

  /** The top-N cut is off, or does not bite. */
  predicate Uncut(cfg: Settings, pre: seq<Checked>) {
    cfg.topN <= 0 || |Pending(pre)| <= cfg.topN
  }

  /** The unanswered calls of this very run leave time to split them. */
  ghost predicate InTime(o: Oracle, cfg: Settings, pre: seq<Checked>, w: World) {
    Pending(pre) != [] ==> BatchInTime(o, Size(cfg), Pending(pre), w.now + cfg.stageTimeout, w)
  }

  lemma {:induction false} AllIsBatched(o: Oracle, ops: Opinions, cfg: Settings, pre: seq<Checked>, w: World)
    requires Uncut(cfg, pre) && Opinionated(o, ops) && InTime(o, cfg, pre, w)
    ensures CritiqueChecked(o, cfg, pre, w).result ==
            if SomeCut(ops, pre) then RaisedTruncated else Ok(BatchedAll(ops, pre))
  {
    PendingCut(ops, pre);
    var pending := Pending(pre);
    if !AnyCut(ops, pending) {
      forall i | 0 <= i < |pre|
        ensures Outcome(pre, pending, Expected(ops, pending).value, i) == Batched(ops, pre[i])
      {
        if pre[i].1 {
          FoundInReviewed(pre, 0, i);
        }
      }
      assert Outcomes(pre, pending, Expected(ops, pending).value) == BatchedAll(ops, pre);
    }
    if pending == [] {
      assert !AnyCut(ops, pending) && Expected(ops, pending).value == [];
    } else {
      SteadyBatch(o, ops, Size(cfg), pending, w.now + cfg.stageTimeout, w);
    }
  }

  /** The two modes read this opinion alike: an answer that cannot be parsed clears a hypothesis in one
      mode and refutes it in the other, and a failed call keeps old refutations in one mode only. */
  predicate ReadAlike(ops: Opinions, h: Hypothesis) {
    !ops(h).Garbled? && (ops(h).Silent? ==> h.refutations == [])
  }

  ghost predicate AllReadAlike(ops: Opinions, pre: seq<Checked>) {
    forall i | 0 <= i < |pre| && pre[i].1 :: ReadAlike(ops, pre[i].0)
  }

  lemma {:induction false} SameListIff(ops: Opinions, pre: seq<Checked>)
    requires !SomeCut(ops, pre)
    ensures BatchedAll(ops, pre) == SingledAll(ops, pre) <==> AllReadAlike(ops, pre)
  {
    forall i | 0 <= i < |pre|
      ensures BatchedAll(ops, pre)[i] == SingledAll(ops, pre)[i] <==> (pre[i].1 ==> ReadAlike(ops, pre[i].0))
    {
    }
    if BatchedAll(ops, pre) == SingledAll(ops, pre) {
      forall i | 0 <= i < |pre| && pre[i].1
        ensures ReadAlike(ops, pre[i].0)
      {
        assert BatchedAll(ops, pre)[i] == SingledAll(ops, pre)[i];
      }
    }
  }

  /** After the check, the modes agree iff some pending answer is truncated, so that both raise, or
      every pending opinion is one that both read alike. */
  lemma {:induction false} CheckedRefinesSingle(o: Oracle, so: SingleOracle, ops: Opinions, cfg: Settings,
                                                pre: seq<Checked>, w: World)
    requires Uncut(cfg, pre) && Opinionated(o, ops) && InTime(o, cfg, pre, w) && Follows(so, ops)
    ensures CritiqueChecked(o, cfg, pre, w).result == CritiqueEach(so, pre) <==>
            SomeCut(ops, pre) || AllReadAlike(ops, pre)
  {
    EachIsSingled(so, ops, pre);
    AllIsBatched(o, ops, cfg, pre, w);
    if !SomeCut(ops, pre) {
      SameListIff(ops, pre);
    }
  }

  /** For every batch maximum and every pattern of unanswered calls that there is time to split, both
      modes give one and the same list, or fail alike, iff every pending opinion is read alike; for
      inputs without refutations that is, iff no pending answer is unparsable. */
  lemma {:induction false} BatchRefinesSingle(o: Oracle, so: SingleOracle, ops: Opinions, cfg: Settings,
                                              hs: seq<Hypothesis>, facts: FactStore, w: World)
    requires Uncut(cfg, Prechecked(hs, facts))
    requires Opinionated(o, ops) && InTime(o, cfg, Prechecked(hs, facts), w) && Follows(so, ops)
    ensures CritiqueBatch(o, cfg, hs, facts, w).result == CritiqueEach(so, Prechecked(hs, facts)) <==>
            SomeCut(ops, Prechecked(hs, facts)) || AllReadAlike(ops, Prechecked(hs, facts))
    ensures (forall i | 0 <= i < |hs| :: hs[i].refutations == []) ==>
              (AllReadAlike(ops, Prechecked(hs, facts)) <==> NoneGarbled(ops, Prechecked(hs, facts)))
  {
    var pre := Prechecked(hs, facts);
    CheckedRefinesSingle(o, so, ops, cfg, pre, w);
    forall i | 0 <= i < |pre| && pre[i].1
      ensures hs[i].refutations == [] ==> (ReadAlike(ops, pre[i].0) <==> !ops(pre[i].0).Garbled?)
    {
      assert pre[i] == Precheck(hs[i], facts);
    }
  }

  ghost predicate NoneGarbled(ops: Opinions, pre: seq<Checked>) {
    forall i | 0 <= i < |pre| && pre[i].1 :: !ops(pre[i].0).Garbled?
  }

  /** A stage timeout of two calls per hypothesis is enough time. */
  lemma {:induction false} LongStageIsInTime(o: Oracle, longest: real, cfg: Settings, pre: seq<Checked>, w: World)
    requires Prompt(o, longest) && Lasting(2 * |Pending(pre)|, longest) <= cfg.stageTimeout
    ensures InTime(o, cfg, pre, w)
  {
    if Pending(pre) != [] {
      BatchHasTime(o, longest, Size(cfg), Pending(pre), w.now + cfg.stageTimeout, w);
    }
  }

  /** The refinement covers every mix of opinions, outages and truncations included: each is held by an
      oracle with a clock that moves forward and calls that fail, in time, wherever they can. */
  lemma {:induction false} RefinementIsReached(ops: Opinions, so: SingleOracle, took: real, cfg: Settings,
                                               pre: seq<Checked>, w: World)
    requires Follows(so, ops) && Uncut(cfg, pre) && took >= 0.0
    requires Lasting(2 * |Pending(pre)|, took) <= cfg.stageTimeout
    ensures Opinionated(Unlucky(ops, took), ops) && InTime(Unlucky(ops, took), cfg, pre, w)
    ensures CritiqueChecked(Unlucky(ops, took), cfg, pre, w).result == CritiqueEach(so, pre) <==>
            SomeCut(ops, pre) || AllReadAlike(ops, pre)
  {
    EveryOpinionIsHeld(ops, took);
    LongStageIsInTime(Unlucky(ops, took), took, cfg, pre, w);
    CheckedRefinesSingle(Unlucky(ops, took), so, ops, cfg, pre, w);
  }

  /** A provider outage with a real clock: every call fails, and every pending hypothesis comes out
      of batch mode as it went in, unrefuted. */
  lemma {:induction false} OutageClearsAll(took: real, cfg: Settings, pre: seq<Checked>, w: World)
    requires Uncut(cfg, pre) && took >= 0.0 && Lasting(2 * |Pending(pre)|, took) <= cfg.stageTimeout
    ensures var r := CritiqueChecked((_, _) => Spoken(Failed, took), cfg, pre, w).result;
            r.Ok? && |r.value| == |pre| &&
            forall i | 0 <= i < |pre| && pre[i].1 :: r.value[i] == pre[i].0.(refutations := [])
  {
    var o: Oracle := (_, _) => Spoken(Failed, took);
    var ops: Opinions := _ => Silent;
    assert Opinionated(o, ops) && Prompt(o, took);
    LongStageIsInTime(o, took, cfg, pre, w);
    AllIsBatched(o, ops, cfg, pre, w);
  }
}
