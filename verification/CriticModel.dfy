/**
  Hypotheses, facts and the algorithmic half of the critic (app/agents/fact_critic.py),
  shared by the per-hypothesis and the batch mode.
*/
module CriticModel {
  import opened Common

  datatype Hypothesis = Hypothesis(
    cause: string,
    detail: string,
    anchors: seq<string>,
    confidence: real,
    perspective: string,
    refutations: seq<string>)

  /** A fact is observed, absent or (when the check could not be made) unknown. */
  datatype Fact = Fact(kind: string, observed: bool, unknown: bool, confidence: real)

  type FactStore = seq<Fact>

  const VERY_LOW_CONFIDENCE := 0.25
  const LOW_CONFIDENCE := 0.5
  const LOW_CONFIDENCE_PENALTY := 0.6

  predicate Observed(facts: FactStore, kind: string) {
    exists i :: 0 <= i < |facts| && facts[i].kind == kind && facts[i].observed
  }

  predicate Unknown(facts: FactStore, kind: string) {
    !Observed(facts, kind) && exists i :: 0 <= i < |facts| && facts[i].kind == kind && facts[i].unknown
  }

  /** The largest confidence among the observed facts of a kind. */
  function MaxConfidence(facts: FactStore, kind: string): (m: real)
    requires Observed(facts, kind)
    ensures exists i :: 0 <= i < |facts| && facts[i].kind == kind && facts[i].observed && facts[i].confidence == m
    ensures forall i | 0 <= i < |facts| && facts[i].kind == kind && facts[i].observed :: facts[i].confidence <= m
  {
    var rest := facts[1..];
    assert forall i | 1 <= i < |facts| :: facts[i] == rest[i - 1];
    if facts[0].kind == kind && facts[0].observed then
      if Observed(rest, kind) then
        var m := MaxConfidence(rest, kind);
        if m <= facts[0].confidence then facts[0].confidence else m
      else facts[0].confidence
    else
      assert Observed(rest, kind) by {
        var i :| 0 <= i < |facts| && facts[i].kind == kind && facts[i].observed;
        assert rest[i - 1] == facts[i];
      }
      MaxConfidence(rest, kind)
  }

  /** The refutation that one anchor earns on its own, if any. */
  function AnchorRefutation(facts: FactStore, kind: string): Option<string> {
    if !Observed(facts, kind) then
      if Unknown(facts, kind) then None
      else Some("algo: anchor '" + kind + "' is NOT observed in fact store")
    else if MaxConfidence(facts, kind) < VERY_LOW_CONFIDENCE then
      Some("algo: anchor '" + kind + "' is observed only with low confidence")
    else None
  }

  function AlgorithmicRefutations(anchors: seq<string>, facts: FactStore): seq<string> {
    if anchors == [] then []
    else
      var last := |anchors| - 1;
      var r := AnchorRefutation(facts, anchors[last]);
      AlgorithmicRefutations(anchors[..last], facts) + (if r.Some? then [r.value] else [])
  }

  /** An anchor survives when the check was impossible, or found a signal that is not negligible. */
  predicate Grounded(facts: FactStore, kind: string) {
    Unknown(facts, kind) || (Observed(facts, kind) && VERY_LOW_CONFIDENCE <= MaxConfidence(facts, kind))
  }

  lemma {:induction false} AnchorIsGroundedIff(facts: FactStore, kind: string)
    ensures AnchorRefutation(facts, kind).None? <==> Grounded(facts, kind)
  {
  }

  ghost predicate AllGrounded(anchors: seq<string>, facts: FactStore) {
    forall k | k in anchors :: Grounded(facts, k)
  }

  lemma {:induction false} GroundedSnoc(anchors: seq<string>, kind: string, facts: FactStore)
    ensures AllGrounded(anchors + [kind], facts) <==> AllGrounded(anchors, facts) && Grounded(facts, kind)
  {
    assert forall k :: k in anchors + [kind] <==> k in anchors || k == kind;
  }

  lemma {:induction false} NoRefutationsIffGrounded(anchors: seq<string>, facts: FactStore)
    ensures AlgorithmicRefutations(anchors, facts) == [] <==> forall k | k in anchors :: Grounded(facts, k)
  {
    if anchors != [] {
      var rest, kind := anchors[..|anchors| - 1], anchors[|anchors| - 1];
      NoRefutationsIffGrounded(rest, facts);
      AnchorIsGroundedIff(facts, kind);
      GroundedSnoc(rest, kind, facts);
      assert anchors == rest + [kind];
      assert AllGrounded(anchors, facts) <==> AllGrounded(rest, facts) && Grounded(facts, kind);
    }
  }

  /** What is said against an anchor: its kind, and whether it was seen at all. */
  ghost predicate SaidAgainst(t: string, facts: FactStore, kind: string) {
    if exists i :: 0 <= i < |facts| && facts[i].kind == kind && facts[i].observed
    then t == "algo: anchor '" + kind + "' is observed only with low confidence"
    else t == "algo: anchor '" + kind + "' is NOT observed in fact store"
  }

  /** The refutations are what is said against the anchors that are not grounded, and nothing else. */
  lemma {:induction false} RefutationsNameAnchors(anchors: seq<string>, facts: FactStore, t: string)
    ensures t in AlgorithmicRefutations(anchors, facts) <==>
            exists k :: k in anchors && !Grounded(facts, k) && SaidAgainst(t, facts, k)
  {
    if anchors != [] {
      var rest, kind := anchors[..|anchors| - 1], anchors[|anchors| - 1];
      RefutationsNameAnchors(rest, facts, t);
      AnchorIsGroundedIff(facts, kind);
      assert anchors == rest + [kind];
      assert !Grounded(facts, kind) ==> (AnchorRefutation(facts, kind) == Some(t) <==> SaidAgainst(t, facts, kind));
    }
  }

  method CollectRefutations(h: Hypothesis, facts: FactStore) returns (out: seq<string>)
    ensures out == AlgorithmicRefutations(h.anchors, facts)
    ensures out == [] <==> forall k | k in h.anchors :: Grounded(facts, k)
  {
    out := [];
    for i := 0 to |h.anchors|
      invariant out == AlgorithmicRefutations(h.anchors[..i], facts)
    {
      var kind := h.anchors[i];
      assert h.anchors[..i + 1][..i] == h.anchors[..i];
      if !Observed(facts, kind) {
        if Unknown(facts, kind) {
          continue;
        }
        out := out + ["algo: anchor '" + kind + "' is NOT observed in fact store"];
        continue;
      }
      if MaxConfidence(facts, kind) < VERY_LOW_CONFIDENCE {
        out := out + ["algo: anchor '" + kind + "' is observed only with low confidence"];
      }
    }
    assert h.anchors[..|h.anchors|] == h.anchors;
    NoRefutationsIffGrounded(h.anchors, facts);
  }

  predicate SoftAnchor(facts: FactStore, kind: string) {
    Observed(facts, kind) && VERY_LOW_CONFIDENCE <= MaxConfidence(facts, kind) < LOW_CONFIDENCE
  }

  function ConfidencePenalty(h: Hypothesis, facts: FactStore): real {
    if exists i :: 0 <= i < |h.anchors| && SoftAnchor(facts, h.anchors[i]) then LOW_CONFIDENCE_PENALTY else 1.0
  }

  /** Python's `round(x, 4)` on the exact value: to the nearest multiple, ties to the even one. */
  function Round4(x: real): real {
    RoundHalfEven(x * 10000.0) as real / 10000.0
  }

  /** `_precheck`: the hypothesis to go on with, and whether the model must still look at it. */
  function Precheck(h: Hypothesis, facts: FactStore): (r: (Hypothesis, bool))
    ensures r.1 <==> forall k | k in h.anchors :: Grounded(facts, k)
    ensures !r.1 ==> r.0.refutations != []
    ensures r.1 ==> r.0.refutations == h.refutations
    ensures r.0.anchors == h.anchors && r.0.cause == h.cause
  {
    var algo := AlgorithmicRefutations(h.anchors, facts);
    NoRefutationsIffGrounded(h.anchors, facts);
    if algo != [] then (h.(refutations := algo), false)
    else
      var penalty := ConfidencePenalty(h, facts);
      if penalty < 1.0 then (h.(confidence := Round4(h.confidence * penalty)), true)
      else (h, true)
  }

  /** Fact `i` is the most confident observed fact of its kind. */
  ghost predicate IsTop(facts: FactStore, kind: string, i: int) {
    && 0 <= i < |facts| && facts[i].kind == kind && facts[i].observed
    && (forall j | 0 <= j < |facts| && facts[j].kind == kind && facts[j].observed ::
        facts[j].confidence <= facts[i].confidence)
  }

  /** The best observation of the kind is there, but only half convincing. */
  ghost predicate HalfConvincing(facts: FactStore, kind: string) {
    exists i :: IsTop(facts, kind, i) && 0.25 <= facts[i].confidence < 0.5
  }

  lemma {:induction false} SoftIsHalfConvincing(facts: FactStore, kind: string)
    ensures SoftAnchor(facts, kind) <==> HalfConvincing(facts, kind)
    ensures Observed(facts, kind) ==> exists i ::
            IsTop(facts, kind, i) && facts[i].confidence == MaxConfidence(facts, kind)
  {
    if Observed(facts, kind) {
      var m := MaxConfidence(facts, kind);
      var i :| 0 <= i < |facts| && facts[i].kind == kind && facts[i].observed && facts[i].confidence == m;
      assert IsTop(facts, kind, i);
    }
    if HalfConvincing(facts, kind) {
      var i :| IsTop(facts, kind, i) && 0.25 <= facts[i].confidence < 0.5;
      assert Observed(facts, kind);
    }
  }

  /** An anchor is grounded iff its kind was only ever unknown, or its best observation reaches a quarter. */
  lemma {:induction false} GroundedByBestFact(facts: FactStore, kind: string)
    ensures Grounded(facts, kind) <==>
            || (exists i :: IsTop(facts, kind, i) && facts[i].confidence >= 0.25)
            || ((forall i | 0 <= i < |facts| && facts[i].kind == kind :: !facts[i].observed)
                && exists i :: 0 <= i < |facts| && facts[i].kind == kind && facts[i].unknown)
  {
    SoftIsHalfConvincing(facts, kind);
    if Observed(facts, kind) {
      var i :| IsTop(facts, kind, i) && facts[i].confidence == MaxConfidence(facts, kind);
      assert forall j | IsTop(facts, kind, j) :: facts[j].confidence == facts[i].confidence;
    }
  }

  ghost predicate SomeHalfConvincing(h: Hypothesis, facts: FactStore) {
    exists k :: k in h.anchors && HalfConvincing(facts, k)
  }

  lemma {:induction false} PenaltyIff(h: Hypothesis, facts: FactStore)
    ensures ConfidencePenalty(h, facts) == if SomeHalfConvincing(h, facts) then 0.6 else 1.0
  {
    if SomeHalfConvincing(h, facts) {
      var k :| k in h.anchors && HalfConvincing(facts, k);
      SoftIsHalfConvincing(facts, k);
      var i :| 0 <= i < |h.anchors| && h.anchors[i] == k;
      assert SoftAnchor(facts, h.anchors[i]);
    } else if i :| 0 <= i < |h.anchors| && SoftAnchor(facts, h.anchors[i]) {
      SoftIsHalfConvincing(facts, h.anchors[i]);
      assert h.anchors[i] in h.anchors;
    }
  }

  /** The confidence that goes on: times 0.6, to the nearest ten-thousandth, iff some anchor's best
      observation is only half convincing; otherwise the one it came with. */
  lemma {:induction false} ConfidenceIsLoweredIff(h: Hypothesis, facts: FactStore)
    ensures var (working, needsModel) := Precheck(h, facts);
            working.confidence ==
            if needsModel && SomeHalfConvincing(h, facts)
                then RoundHalfEven(h.confidence * 0.6 * 10000.0) as real / 10000.0
            else h.confidence
  {
    PenaltyIff(h, facts);
  }

  // ---- after the critic ---------------------------------------------------------------

  function Survivors(hs: seq<Hypothesis>): seq<Hypothesis> {
    if hs == [] then []
    else if hs[0].refutations == [] then [hs[0]] + Survivors(hs[1..])
    else Survivors(hs[1..])
  }

  lemma {:induction false} SurvivorsAreUnrefuted(hs: seq<Hypothesis>)
    ensures forall h :: h in Survivors(hs) <==> h in hs && h.refutations == []
  {
    if hs != [] {
      SurvivorsAreUnrefuted(hs[1..]);
    }
  }

  /** The key of `best_candidate`: confidence, then the number of anchors. */
  predicate Outranks(a: Hypothesis, b: Hypothesis) {
    a.confidence > b.confidence || (a.confidence == b.confidence && |a.anchors| > |b.anchors|)
  }

  /** `max` keeps the first of equal elements. */
  function BestIndex(s: seq<Hypothesis>): (i: nat)
    requires s != []
    ensures i < |s|
    ensures forall j | 0 <= j < |s| :: !Outranks(s[j], s[i])
    ensures forall j | 0 <= j < i :: Outranks(s[i], s[j])
  {
    var last := |s| - 1;
    if last == 0 then 0
    else
      var i := BestIndex(s[..last]);
      assert forall j | 0 <= j < last :: s[..last][j] == s[j];
      if Outranks(s[last], s[i]) then last else i
  }

  function BestCandidate(hs: seq<Hypothesis>): (best: Option<Hypothesis>)
    ensures best.None? <==> forall h | h in hs :: h.refutations != []
    ensures best.Some? ==> best.value in hs && best.value.refutations == []
    ensures best.Some? ==> forall h | h in hs && h.refutations == [] ::
              h.confidence < best.value.confidence
              || (h.confidence == best.value.confidence && |h.anchors| <= |best.value.anchors|)
  {
    SurvivorsAreUnrefuted(hs);
    var s := Survivors(hs);
    if s == [] then
      assert forall h | h in hs :: h.refutations == [] ==> h in s;
      None
    else
      assert s[0] in s && s[BestIndex(s)] in s;
      Some(s[BestIndex(s)])
  }

  lemma {:induction false} SurvivorPosition(hs: seq<Hypothesis>, b: nat) returns (i: nat)
    requires b < |Survivors(hs)|
    ensures i < |hs| && hs[i] == Survivors(hs)[b]
    ensures forall j | 0 <= j < i && hs[j].refutations == [] :: exists a :: 0 <= a < b && Survivors(hs)[a] == hs[j]
  {
    var s, rest := Survivors(hs), Survivors(hs[1..]);
    if hs[0].refutations == [] && b == 0 {
      i := 0;
    } else {
      var d := if hs[0].refutations == [] then 1 else 0;
      var p := SurvivorPosition(hs[1..], b - d);
      i := p + 1;
      forall j | 0 <= j < i && hs[j].refutations == []
        ensures exists a :: 0 <= a < b && s[a] == hs[j]
      {
        if j > 0 {
          assert hs[1..][j - 1] == hs[j];
          var a :| 0 <= a < b - d && rest[a] == hs[j];
          assert s[a + d] == hs[j];
        } else {
          assert s[0] == hs[j];
        }
      }
    }
  }

  /** Among equally good survivors the first one is the best candidate. */
  lemma {:induction false} BestCandidateIsFirst(hs: seq<Hypothesis>) returns (i: nat)
    requires BestCandidate(hs).Some?
    ensures i < |hs| && hs[i] == BestCandidate(hs).value
    ensures forall j | 0 <= j < i && hs[j].refutations == [] ::
              hs[j].confidence < hs[i].confidence
              || (hs[j].confidence == hs[i].confidence && |hs[j].anchors| < |hs[i].anchors|)
  {
    var s := Survivors(hs);
    i := SurvivorPosition(hs, BestIndex(s));
    forall j | 0 <= j < i && hs[j].refutations == []
      ensures hs[j].confidence < hs[i].confidence
              || (hs[j].confidence == hs[i].confidence && |hs[j].anchors| < |hs[i].anchors|)
    {
      var a :| 0 <= a < BestIndex(s) && s[a] == hs[j];
      assert Outranks(hs[i], s[a]);
    }
  }
}
