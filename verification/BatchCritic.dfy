/**
  The batch mode of the critic (app/agents/fact_critic.py): chunks, halving after a failed
  or truncated call, the stage deadline, answers matched by id, and the top-N cut.

  The language model is an oracle: any function of everything said so far, of the clock and
  of the hypotheses in the prompt.  `World` keeps every call made, so that results can say
  which call a verdict came from and how many calls were spent.
*/
module BatchCritic {
  import opened Common
  import opened CriticModel
  import opened StableSort
  import opened Decimal

  // ---- the model's answers ------------------------------------------------------------

  /** One element of the `critiques` list after JSON parsing; a falsy refutation is the empty string. */
  datatype Entry = NotAnObject | Critique(id: string, refutations: Option<seq<string>>)

  /** `Text(None)`: the answer is empty, is not JSON, or has no list of critiques. */
  datatype Reply = Text(entries: Option<seq<Entry>>) | Truncated | Failed | NoRecording

  datatype Item = Item(index: nat, h: Hypothesis)

  datatype Call = Call(items: seq<Item>, reply: Reply)

  datatype World = World(log: seq<Call>, now: real)

  datatype Spoken = Spoken(reply: Reply, took: real)

  type Oracle = (World, seq<Hypothesis>) -> Spoken

  datatype Result<+T> = Ok(value: T) | RaisedTruncated | RaisedNoRecording

  type Verdict = Option<seq<string>>

  function Id(n: nat): string {
    "h" + NatText(n + 1)
  }

  lemma {:induction false} IdIsInjective(m: nat, n: nat)
    requires Id(m) == Id(n)
    ensures m == n
  {
    assert NatText(m + 1) == Id(m)[1..] == Id(n)[1..] == NatText(n + 1);
    ValueOfText(m + 1);
    ValueOfText(n + 1);
  }

  /** `[str(r) for r in refs if r]` */
  function NonEmpty(refs: seq<string>): seq<string> {
    Filter(refs, r => r != "")
  }

  /** `kept` holds exactly the non-empty strings of `raw`, in order; `at` are their positions. */
  ghost predicate KeptAt(raw: seq<string>, kept: seq<string>, at: seq<nat>) {
    && |at| == |kept|
    && (forall k | 0 <= k < |at| :: at[k] < |raw| && raw[at[k]] != "" && kept[k] == raw[at[k]])
    && (forall j, k | 0 <= j < k < |at| :: at[j] < at[k])
    && (forall i: nat | i < |raw| && raw[i] != "" :: i in at)
  }

  ghost predicate Keeps(raw: seq<string>, kept: seq<string>) {
    exists at :: KeptAt(raw, kept, at)
  }

  /** A longer list keeps what it kept, and its last string unless that is empty. */
  lemma {:induction false} KeptSnoc(raw: seq<string>, x: string, kept: seq<string>, at: seq<nat>)
    requires KeptAt(raw, kept, at)
    ensures x == "" ==> KeptAt(raw + [x], kept, at)
    ensures x != "" ==> KeptAt(raw + [x], kept + [x], at + [|raw|])
  {
    assert forall k | 0 <= k < |at| :: (raw + [x])[at[k]] == raw[at[k]];
    assert forall i: nat | i < |raw| && raw[i] != "" :: i in at + [|raw|];
  }

  lemma {:induction false} NonEmptySnoc(raw: seq<string>, x: string)
    ensures NonEmpty(raw + [x]) == NonEmpty(raw) + if x != "" then [x] else []
  {
    if raw == [] {
      assert raw + [x] == [x] && [x][1..] == [];
    } else {
      NonEmptySnoc(raw[1..], x);
      assert (raw + [x])[1..] == raw[1..] + [x];
    }
  }

  lemma {:induction false} NonEmptyKeepsAt(raw: seq<string>) returns (at: seq<nat>)
    ensures KeptAt(raw, NonEmpty(raw), at)
  {
    if raw == [] {
      at := [];
    } else {
      var rest, x := raw[..|raw| - 1], raw[|raw| - 1];
      at := NonEmptyKeepsAt(rest);
      assert raw == rest + [x];
      NonEmptySnoc(rest, x);
      KeptSnoc(rest, x, NonEmpty(rest), at);
      if x != "" {
        at := at + [|rest|];
      }
    }
  }

  /** Cleaning drops the empty strings and nothing else; nothing is left iff there was nothing else. */
  lemma {:induction false} NonEmptyKeeps(raw: seq<string>)
    ensures Keeps(raw, NonEmpty(raw))
    ensures NonEmpty(raw) == [] <==> forall i | 0 <= i < |raw| :: raw[i] == ""
  {
    var at := NonEmptyKeepsAt(raw);
    if NonEmpty(raw) == [] {
      assert forall i: nat | i < |raw| :: raw[i] != "" ==> i in at;
    } else {
      assert raw[at[0]] != "";
    }
  }

  predicate Answers(e: Entry, id: string) {
    e.Critique? && e.id == id && e.refutations.Some?
  }

  /** The first well-formed entry for an id wins; later ones cannot rewrite it. */
  function FirstValid(entries: seq<Entry>, id: string): Verdict {
    if entries == [] then None
    else if Answers(entries[0], id) then Some(NonEmpty(entries[0].refutations.value))
    else FirstValid(entries[1..], id)
  }

  /** Entry `n` is the first that answers for the id: an object with that id and a list of refutations. */
  ghost predicate FirstAnswer(entries: seq<Entry>, id: string, n: int) {
    && 0 <= n < |entries|
    && entries[n].Critique? && entries[n].id == id && entries[n].refutations.Some?
    && (forall m | 0 <= m < n :: entries[m].Critique? && entries[m].id == id ==> entries[m].refutations.None?)
  }

  ghost predicate Answered(entries: seq<Entry>, id: string) {
    exists n :: FirstAnswer(entries, id, n)
  }

  lemma {:induction false} FirstValidIsFirst(entries: seq<Entry>, id: string) returns (n: int)
    ensures FirstValid(entries, id).Some? ==>
              FirstAnswer(entries, id, n) && FirstValid(entries, id).value == NonEmpty(entries[n].refutations.value)
    ensures FirstValid(entries, id).None? ==> !Answered(entries, id)
  {
    n := 0;
    if entries != [] && !Answers(entries[0], id) {
      var m := FirstValidIsFirst(entries[1..], id);
      n := m + 1;
      forall k | FirstAnswer(entries, id, k)
        ensures FirstAnswer(entries[1..], id, k - 1)
      {
        assert forall j | 0 <= j < |entries| - 1 :: entries[1..][j] == entries[j + 1];
      }
      assert FirstValid(entries, id).Some? ==> forall j | 0 < j < n :: entries[j] == entries[1..][j - 1];
    }
  }

  /** The verdict under an id, on the raw entries: the cleaned list of the first answer, if there is one. */
  lemma {:induction false} FirstValidOnRaw(entries: seq<Entry>, id: string)
    ensures FirstValid(entries, id).Some? <==> Answered(entries, id)
    ensures forall n | FirstAnswer(entries, id, n) ::
              FirstValid(entries, id).Some? && Keeps(entries[n].refutations.value, FirstValid(entries, id).value)
  {
    var n := FirstValidIsFirst(entries, id);
    forall m | FirstAnswer(entries, id, m)
      ensures FirstValid(entries, id).Some? && Keeps(entries[m].refutations.value, FirstValid(entries, id).value)
    {
      assert Answered(entries, id);
      assert m == n;
      NonEmptyKeeps(entries[n].refutations.value);
    }
  }

  lemma {:induction false} FirstValidSnoc(entries: seq<Entry>, e: Entry, id: string)
    ensures FirstValid(entries + [e], id) ==
            if FirstValid(entries, id).Some? then FirstValid(entries, id)
            else if Answers(e, id) then Some(NonEmpty(e.refutations.value)) else None
  {
    if entries == [] {
      assert [e][1..] == [];
    } else {
      FirstValidSnoc(entries[1..], e, id);
      assert (entries + [e])[1..] == entries[1..] + [e];
    }
  }

  /** `_parse_batch`: exactly the wanted ids that have a well-formed entry, each with its first one. */
  method ParseBatch(entries: Option<seq<Entry>>, ids: set<string>) returns (out: map<string, seq<string>>)
    ensures forall id :: id in out <==> id in ids && entries.Some? && FirstValid(entries.value, id).Some?
    ensures forall id | id in out :: entries.Some? && Some(out[id]) == FirstValid(entries.value, id)
    ensures forall id :: id in out <==> id in ids && entries.Some? && Answered(entries.value, id)
    ensures forall id, n | id in out && FirstAnswer(entries.value, id, n) ::
              Keeps(entries.value[n].refutations.value, out[id])
  {
    out := map[];
    if entries.None? {
      return;
    }
    var es := entries.value;
    for i := 0 to |es|
      invariant forall id :: id in out <==> id in ids && FirstValid(es[..i], id).Some?
      invariant forall id | id in out :: Some(out[id]) == FirstValid(es[..i], id)
    {
      var e := es[i];
      assert es[..i + 1] == es[..i] + [e];
      forall id {
        FirstValidSnoc(es[..i], e, id);
      }
      if e.NotAnObject? {
        continue;
      }
      if e.id !in ids || e.id in out || e.refutations.None? {
        continue;
      }
      out := out[e.id := NonEmpty(e.refutations.value)];
    }
    assert es[..|es|] == es;
    forall id {
      FirstValidOnRaw(es, id);
    }
  }

  // ---- one chunk: ask, and halve what could not be answered ------------------------------

  function Hypotheses(items: seq<Item>): seq<Hypothesis> {
    seq(|items|, i requires 0 <= i < |items| => items[i].h)
  }

  /** What the call says about the item at position `n` when it is not asked again. */
  function VerdictAt(c: Call, n: nat): Verdict {
    match c.reply
    case Text(Some(es)) => FirstValid(es, Id(n))
    case Failed => if |c.items| == 1 then Some([]) else None
    case _ => None
  }

  function VerdictsOf(c: Call): seq<Verdict> {
    seq(|c.items|, n requires 0 <= n < |c.items| => VerdictAt(c, n))
  }

  datatype Asked = Asked(result: Result<seq<Verdict>>, world: World)

  function After(o: Oracle, items: seq<Item>, w: World): World {
    var s := o(w, Hypotheses(items));
    World(w.log + [Call(items, s.reply)], w.now + s.took)
  }

  /** There is time to ask both halves if a failed call's own duration still fits before the deadline. */
  predicate TimeToSplit(o: Oracle, items: seq<Item>, deadline: real, w: World) {
    var s := o(w, Hypotheses(items));
    s.took <= deadline - (w.now + s.took)
  }

  /** Several items, no answer, and time left. */
  predicate Splits(o: Oracle, items: seq<Item>, deadline: real, w: World) {
    var reply := o(w, Hypotheses(items)).reply;
    |items| > 1 && (reply.Truncated? || reply.Failed?) && TimeToSplit(o, items, deadline, w)
  }

  /** `_ask_batch` on at most one batch maximum of items. */
  function AskChunk(o: Oracle, items: seq<Item>, deadline: real, w: World): Asked
    requires items != []
    decreases |items|
  {
    var reply := o(w, Hypotheses(items)).reply;
    var w' := After(o, items, w);
    if Splits(o, items, deadline, w) then AskHalves(o, items, deadline, w')
    else
      match reply
      case Truncated => Asked(RaisedTruncated, w')
      case NoRecording => Asked(RaisedNoRecording, w')
      case _ => Asked(Ok(VerdictsOf(Call(items, reply))), w')
  }

  function AskHalves(o: Oracle, items: seq<Item>, deadline: real, w: World): Asked
    requires |items| > 1
    decreases |items|, 0
  {
    var half := |items| / 2;
    var first := AskChunk(o, items[..half], deadline, w);
    if !first.result.Ok? then first
    else Then(first.result.value, AskChunk(o, items[half..], deadline, first.world))
  }

  function Then(first: seq<Verdict>, second: Asked): Asked {
    if second.result.Ok? then second.(result := Ok(first + second.result.value)) else second
  }

  /** `_ask_batch`: chunks of at most `size` items, one after the other. */
  function AskBatch(o: Oracle, size: nat, items: seq<Item>, deadline: real, w: World): Asked
    requires items != [] && size >= 1
    decreases |items|
  {
    if |items| <= size then AskChunk(o, items, deadline, w)
    else
      var first := AskChunk(o, items[..size], deadline, w);
      if !first.result.Ok? then first
      else Then(first.result.value, AskBatch(o, size, items[size..], deadline, first.world))
  }

  // ---- the dictionaries of `_ask_batch` ---------------------------------------------------

  ghost predicate Distinct(items: seq<Item>) {
    forall i, j | 0 <= i < j < |items| :: items[i].index != items[j].index
  }

  /** The dictionary has exactly the items' indices as keys and the verdicts as values. */
  ghost predicate Tabulates(d: map<nat, Verdict>, items: seq<Item>, vs: seq<Verdict>) {
    && |vs| == |items|
    && (forall n | 0 <= n < |items| :: items[n].index in d && d[items[n].index] == vs[n])
    && (forall i | i in d :: exists n :: 0 <= n < |items| && items[n].index == i)
  }

  ghost predicate Agrees(r: Result<map<nat, Verdict>>, items: seq<Item>, spec: Result<seq<Verdict>>) {
    match spec
    case Ok(vs) => r.Ok? && Tabulates(r.value, items, vs)
    case RaisedTruncated => r == RaisedTruncated
    case RaisedNoRecording => r == RaisedNoRecording
  }

  lemma {:induction false} MergeTabulates(d: map<nat, Verdict>, e: map<nat, Verdict>, items: seq<Item>, cut: nat,
                       xs: seq<Verdict>, ys: seq<Verdict>)
    requires cut <= |items| && Distinct(items)
    requires Tabulates(d, items[..cut], xs) && Tabulates(e, items[cut..], ys)
    ensures Tabulates(d + e, items, xs + ys)
  {
    forall n | 0 <= n < |items|
      ensures items[n].index in d + e && (d + e)[items[n].index] == (xs + ys)[n]
    {
      if n < cut {
        assert items[..cut][n] == items[n];
        assert items[n].index !in e;
      } else {
        assert items[cut..][n - cut] == items[n];
      }
    }
    forall i | i in d + e
      ensures exists n :: 0 <= n < |items| && items[n].index == i
    {
      if i in e {
        var m :| 0 <= m < |items[cut..]| && items[cut..][m].index == i;
        assert items[cut + m].index == i;
      } else {
        var m :| 0 <= m < |items[..cut]| && items[..cut][m].index == i;
        assert items[m].index == i;
      }
    }
  }

  /** `{i: v for (i, _), v in zip(items, vs)}` */
  function Spread(items: seq<Item>, vs: seq<Verdict>): (d: map<nat, Verdict>)
    requires Distinct(items) && |vs| == |items|
  {
    map n | 0 <= n < |items| :: items[n].index := vs[n]
  }

  /** What an answer says under an id. */
  function SaidUnder(reply: Reply, id: string): Verdict {
    if reply.Text? && reply.entries.Some? then FirstValid(reply.entries.value, id) else None
  }

  method Tabulate(items: seq<Item>, reply: Reply) returns (d: map<nat, Verdict>)
    requires Distinct(items) && (reply.Text? || reply.Failed?)
    ensures Tabulates(d, items, VerdictsOf(Call(items, reply)))
  {
    var vs: seq<Verdict>;
    if reply.Failed? {
      var v: Verdict := if |items| == 1 then Some([]) else None;
      vs := seq(|items|, _ => v);
    } else {
      var ids := set n | 0 <= n < |items| :: Id(n);
      var byId := ParseBatch(reply.entries, ids);
      vs := seq(|items|, n requires 0 <= n < |items| => if Id(n) in byId then Some(byId[Id(n)]) else None);
    }
    assert vs == VerdictsOf(Call(items, reply));
    d := Spread(items, vs);
  }

  /** `_ask_batch`: a verdict slot for exactly the pending indices, whatever the oracle does. */
  method AskBatchLoop(o: Oracle, size: nat, items: seq<Item>, deadline: real, w: World)
    returns (r: Result<map<nat, Verdict>>, w': World)
    requires items != [] && size >= 1 && Distinct(items)
    ensures Agrees(r, items, AskBatch(o, size, items, deadline, w).result)
    ensures w' == AskBatch(o, size, items, deadline, w).world
    decreases |items|
  {
    if |items| > size {
      r, w' := AskChunksLoop(o, size, items, deadline, w);
      return;
    }
    var spoken := o(w, Hypotheses(items));
    w' := World(w.log + [Call(items, spoken.reply)], w.now + spoken.took);
    match spoken.reply
    case NoRecording =>
      r := RaisedNoRecording;
    case Truncated =>
      if |items| == 1 || deadline - w'.now < spoken.took {
        r := RaisedTruncated;
      } else {
        r, w' := AskHalvesLoop(o, size, items, deadline, w');
      }
    case Failed =>
      if |items| > 1 && !(deadline - w'.now < spoken.took) {
        r, w' := AskHalvesLoop(o, size, items, deadline, w');
      } else {
        var d := Tabulate(items, spoken.reply);
        r := Ok(d);
      }
    case Text(_) =>
      var d := Tabulate(items, spoken.reply);
      r := Ok(d);
  }

  method AskHalvesLoop(o: Oracle, size: nat, items: seq<Item>, deadline: real, w: World)
    returns (r: Result<map<nat, Verdict>>, w': World)
    requires 1 < |items| <= size && Distinct(items)
    ensures Agrees(r, items, AskHalves(o, items, deadline, w).result)
    ensures w' == AskHalves(o, items, deadline, w).world
    decreases |items|, 0
  {
    var half := |items| / 2;
    r, w' := AskBatchLoop(o, size, items[..half], deadline, w);
    if r.Ok? {
      var second;
      ghost var w1 := w';
      second, w' := AskBatchLoop(o, size, items[half..], deadline, w');
      if second.Ok? {
        MergeTabulates(r.value, second.value, items, half,
                       AskChunk(o, items[..half], deadline, w).result.value,
                       AskChunk(o, items[half..], deadline, w1).result.value);
        r := Ok(r.value + second.value);
      } else {
        r := second;
      }
    }
  }

  method AskChunksLoop(o: Oracle, size: nat, items: seq<Item>, deadline: real, w: World)
    returns (r: Result<map<nat, Verdict>>, w': World)
    requires size >= 1 && |items| > size && Distinct(items)
    ensures Agrees(r, items, AskBatch(o, size, items, deadline, w).result)
    ensures w' == AskBatch(o, size, items, deadline, w).world
    decreases |items|, 0
  {
    var merged: map<nat, Verdict> := map[];
    w' := w;
    var start := 0;
    ghost var vs: seq<Verdict> := [];
    ghost var spec := AskBatch(o, size, items, deadline, w);
    assert items[0..] == items && spec == Then([], spec) by { ThenNothing(spec); }
    while start < |items|
      invariant 0 <= start <= |items|
      invariant Tabulates(merged, items[..start], vs)
      invariant start < |items| ==> spec == Then(vs, AskBatch(o, size, items[start..], deadline, w'))
      invariant start == |items| ==> spec == Asked(Ok(vs), w')
    {
      var stop := Min(start + size, |items|);
      ghost var rest := items[start..];
      assert items[start..stop] == rest[..stop - start];
      assert stop == |items| ==> items[start..stop] == rest;
      ghost var w0 := w';
      r, w' := AskBatchLoop(o, size, items[start..stop], deadline, w');
      if !r.Ok? {
        return;
      }
      ghost var more := AskChunk(o, items[start..stop], deadline, w0).result.value;
      assert items[..stop][..start] == items[..start] && items[..stop][start..] == items[start..stop];
      MergeTabulates(merged, r.value, items[..stop], start, vs, more);
      merged := merged + r.value;
      if stop < |items| {
        assert rest[size..] == items[stop..];
        ThenAssociates(vs, more, AskBatch(o, size, items[stop..], deadline, w'));
      }
      vs := vs + more;
      start := stop;
    }
    assert items[..|items|] == items;
    r := Ok(merged);
  }

  lemma {:induction false} ThenNothing(a: Asked)
    ensures Then([], a) == a
  {
    if a.result.Ok? {
      assert [] + a.result.value == a.result.value;
    }
  }

  lemma {:induction false} ThenAssociates(xs: seq<Verdict>, ys: seq<Verdict>, a: Asked)
    ensures Then(xs, Then(ys, a)) == Then(xs + ys, a)
  {
    if a.result.Ok? {
      assert xs + (ys + a.result.value) == xs + ys + a.result.value;
    }
  }

  // ---- cost ---------------------------------------------------------------------------

  function Chunks(n: nat, size: nat): nat
    requires size >= 1
  {
    if n <= size then (if n == 0 then 0 else 1) else 1 + Chunks(n - size, size)
  }

  /** Whatever the oracle does, a chunk of n items costs between 1 and 2n-1 calls. */
  lemma {:induction false} ChunkCost(o: Oracle, items: seq<Item>, deadline: real, w: World)
    requires items != []
    ensures w.log < AskChunk(o, items, deadline, w).world.log
    ensures |AskChunk(o, items, deadline, w).world.log| <= |w.log| + 2 * |items| - 1
    decreases |items|
  {
    var w' := After(o, items, w);
    if Splits(o, items, deadline, w) {
      var half := |items| / 2;
      ChunkCost(o, items[..half], deadline, w');
      var first := AskChunk(o, items[..half], deadline, w');
      if first.result.Ok? {
        ChunkCost(o, items[half..], deadline, first.world);
      }
    }
  }

  /** The whole batch costs at most 2n calls less one per chunk. */
  lemma {:induction false} BatchCost(o: Oracle, size: nat, items: seq<Item>, deadline: real, w: World)
    requires items != [] && size >= 1
    ensures w.log < AskBatch(o, size, items, deadline, w).world.log
    ensures |AskBatch(o, size, items, deadline, w).world.log| <= |w.log| + 2 * |items| - Chunks(|items|, size)
    decreases |items|
  {
    if |items| <= size {
      ChunkCost(o, items, deadline, w);
    } else {
      ChunkCost(o, items[..size], deadline, w);
      var first := AskChunk(o, items[..size], deadline, w);
      ChunksBounded(|items| - size, size);
      if first.result.Ok? {
        BatchCost(o, size, items[size..], deadline, first.world);
      }
    }
  }

  lemma {:induction false} ChunksBounded(n: nat, size: nat)
    requires size >= 1
    ensures Chunks(n, size) <= n
  {
    if n > size {
      ChunksBounded(n - size, size);
    }
  }

  // ---- every verdict has its call -------------------------------------------------------

  /** Some call since position `from` contained the item and said `v` about it. */
  ghost predicate Explains(log: seq<Call>, from: nat, item: Item, v: Verdict) {
    exists k: nat, m: nat :: SaidBy(log, from, item, v, k, m)
  }

  ghost predicate SaidBy(log: seq<Call>, from: nat, item: Item, v: Verdict, k: nat, m: nat) {
    from <= k < |log| && m < |log[k].items| && log[k].items[m] == item && VerdictAt(log[k], m) == v
  }

  lemma {:induction false} ExplainsLater(log: seq<Call>, log': seq<Call>, from: nat, from': nat, item: Item, v: Verdict)
    requires Explains(log, from, item, v) && log <= log' && from' <= from
    ensures Explains(log', from', item, v)
  {
    var k: nat, m: nat :| SaidBy(log, from, item, v, k, m);
    assert log'[k] == log[k];
    assert SaidBy(log', from', item, v, k, m);
  }

  ghost predicate AllExplained(log: seq<Call>, from: nat, items: seq<Item>, vs: seq<Verdict>) {
    |vs| == |items| && forall n | 0 <= n < |items| :: Explains(log, from, items[n], vs[n])
  }

  lemma {:induction false} CallExplains(log: seq<Call>, c: Call)
    ensures AllExplained(log + [c], |log|, c.items, VerdictsOf(c))
  {
    forall n | 0 <= n < |c.items|
      ensures Explains(log + [c], |log|, c.items[n], VerdictsOf(c)[n])
    {
      assert SaidBy(log + [c], |log|, c.items[n], VerdictsOf(c)[n], |log|, n);
    }
  }

  lemma {:induction false} JoinExplained(log: seq<Call>, log': seq<Call>, a: nat, b: nat, c: nat,
                                         items: seq<Item>, cut: nat,
                      xs: seq<Verdict>, ys: seq<Verdict>)
    requires cut <= |items| && log <= log' && a <= b && a <= c
    requires AllExplained(log, b, items[..cut], xs) && AllExplained(log', c, items[cut..], ys)
    ensures AllExplained(log', a, items, xs + ys)
  {
    forall n | 0 <= n < |items|
      ensures Explains(log', a, items[n], (xs + ys)[n])
    {
      if n < cut {
        assert items[..cut][n] == items[n];
        ExplainsLater(log, log', b, a, items[n], xs[n]);
      } else {
        assert items[cut..][n - cut] == items[n];
        ExplainsLater(log', log', c, a, items[n], ys[n - cut]);
      }
    }
  }

  lemma {:induction false} ChunkExplained(o: Oracle, items: seq<Item>, deadline: real, w: World)
    requires items != []
    ensures var r := AskChunk(o, items, deadline, w);
            r.result.Ok? ==> AllExplained(r.world.log, |w.log|, items, r.result.value)
    decreases |items|
  {
    var r := AskChunk(o, items, deadline, w);
    var w' := After(o, items, w);
    if !Splits(o, items, deadline, w) {
      CallExplains(w.log, Call(items, o(w, Hypotheses(items)).reply));
    } else {
      var half := |items| / 2;
      var first := AskChunk(o, items[..half], deadline, w');
      if first.result.Ok? {
        var second := AskChunk(o, items[half..], deadline, first.world);
        if second.result.Ok? {
          ChunkExplained(o, items[..half], deadline, w');
          ChunkExplained(o, items[half..], deadline, first.world);
          ChunkCost(o, items[..half], deadline, w');
          ChunkCost(o, items[half..], deadline, first.world);
          JoinExplained(first.world.log, second.world.log, |w.log|, |w'.log|, |first.world.log|, items, half,
                        first.result.value, second.result.value);
        }
      }
    }
  }

  lemma {:induction false} BatchExplained(o: Oracle, size: nat, items: seq<Item>, deadline: real, w: World)
    requires items != [] && size >= 1
    ensures var r := AskBatch(o, size, items, deadline, w);
            r.result.Ok? ==> AllExplained(r.world.log, |w.log|, items, r.result.value)
    decreases |items|
  {
    if |items| <= size {
      ChunkExplained(o, items, deadline, w);
    } else {
      var first := AskChunk(o, items[..size], deadline, w);
      if first.result.Ok? {
        var second := AskBatch(o, size, items[size..], deadline, first.world);
        if second.result.Ok? {
          ChunkExplained(o, items[..size], deadline, w);
          BatchExplained(o, size, items[size..], deadline, first.world);
          ChunkCost(o, items[..size], deadline, w);
          BatchCost(o, size, items[size..], deadline, first.world);
          JoinExplained(first.world.log, second.world.log, |w.log|, |w.log|, |first.world.log|, items, size,
                        first.result.value, second.result.value);
        }
      }
    }
  }

  // ---- every answer counts -----------------------------------------------------------------------

  /** The calls since position `from` are about these items only. */
  ghost predicate OnlyAbout(log: seq<Call>, from: nat, items: seq<Item>) {
    forall k, m | from <= k < |log| && 0 <= m < |log[k].items| :: log[k].items[m] in items
  }

  /** Whatever answer since position `from` covered an item, the item's verdict is what it said. */
  ghost predicate EveryAnswer(log: seq<Call>, from: nat, items: seq<Item>, vs: seq<Verdict>) {
    |vs| == |items| && forall n | 0 <= n < |items| :: AnswersFor(log, from, items[n], vs[n])
  }

  ghost predicate AnswersFor(log: seq<Call>, from: nat, item: Item, v: Verdict) {
    forall k, m | from <= k < |log| && 0 <= m < |log[k].items| && log[k].reply.Text? && log[k].items[m] == item ::
      VerdictAt(log[k], m) == v
  }

  /** One after the other, two disjoint parts are about the whole and say what the whole gets. */
  lemma {:induction false} JoinAnswers(log: seq<Call>, log': seq<Call>, from: nat, mid: nat, items: seq<Item>, cut: nat,
                                       va: seq<Verdict>, vb: seq<Verdict>)
    requires log <= log' && from <= mid == |log| && Distinct(items) && cut <= |items|
    requires OnlyAbout(log, from, items[..cut]) && EveryAnswer(log, from, items[..cut], va)
    requires OnlyAbout(log', mid, items[cut..]) && EveryAnswer(log', mid, items[cut..], vb)
    ensures EveryAnswer(log', from, items, va + vb)
  {
    forall n | 0 <= n < |items|
      ensures AnswersFor(log', from, items[n], (va + vb)[n])
    {
      if n < cut {
        assert items[..cut][n] == items[n] && AnswersFor(log, from, items[n], va[n]);
        assert items[n] !in items[cut..];
      } else {
        assert items[cut..][n - cut] == items[n] && AnswersFor(log', mid, items[n], vb[n - cut]);
        assert items[n] !in items[..cut];
      }
    }
  }

  lemma {:induction false} OnlyAboutWhole(log: seq<Call>, log': seq<Call>, from: nat, items: seq<Item>, cut: nat)
    requires log <= log' && from <= |log| && cut <= |items|
    requires OnlyAbout(log, from, items[..cut]) && OnlyAbout(log', |log|, items[cut..])
    ensures OnlyAbout(log', from, items)
  {
    forall k, m | from <= k < |log'| && 0 <= m < |log'[k].items|
      ensures log'[k].items[m] in items
    {
      assert log'[k].items[m] in items[..cut] || log'[k].items[m] in items[cut..];
    }
  }

  lemma {:induction false} ChunkIsOnlyAbout(o: Oracle, items: seq<Item>, deadline: real, w: World)
    requires items != []
    ensures w.log <= AskChunk(o, items, deadline, w).world.log
    ensures OnlyAbout(AskChunk(o, items, deadline, w).world.log, |w.log|, items)
    decreases |items|
  {
    if Splits(o, items, deadline, w) {
      var half, w' := |items| / 2, After(o, items, w);
      ChunkIsOnlyAbout(o, items[..half], deadline, w');
      var first := AskChunk(o, items[..half], deadline, w');
      if first.result.Ok? {
        ChunkIsOnlyAbout(o, items[half..], deadline, first.world);
        OnlyAboutWhole(first.world.log, AskChunk(o, items[half..], deadline, first.world).world.log, |w'.log|,
            items, half);
      }
    }
  }

  /** The calls since position `from` are about at most `size` items each. */
  ghost predicate CallsAreSmall(log: seq<Call>, from: nat, size: nat) {
    forall k | from <= k < |log| :: 1 <= |log[k].items| <= size
  }

  lemma {:induction false} ChunkCallsAreSmall(o: Oracle, items: seq<Item>, deadline: real, w: World)
    requires items != []
    ensures w.log <= AskChunk(o, items, deadline, w).world.log
    ensures CallsAreSmall(AskChunk(o, items, deadline, w).world.log, |w.log|, |items|)
    decreases |items|
  {
    if Splits(o, items, deadline, w) {
      var half, w' := |items| / 2, After(o, items, w);
      ChunkCallsAreSmall(o, items[..half], deadline, w');
      var first := AskChunk(o, items[..half], deadline, w');
      if first.result.Ok? {
        ChunkCallsAreSmall(o, items[half..], deadline, first.world);
      }
    }
  }

  /** No call is about more hypotheses than the batch maximum. */
  lemma {:induction false} BatchCallsAreSmall(o: Oracle, size: nat, items: seq<Item>, deadline: real, w: World)
    requires items != [] && size >= 1
    ensures w.log <= AskBatch(o, size, items, deadline, w).world.log
    ensures CallsAreSmall(AskBatch(o, size, items, deadline, w).world.log, |w.log|, size)
    decreases |items|
  {
    if |items| <= size {
      ChunkCallsAreSmall(o, items, deadline, w);
    } else {
      ChunkCallsAreSmall(o, items[..size], deadline, w);
      var first := AskChunk(o, items[..size], deadline, w);
      if first.result.Ok? {
        BatchCallsAreSmall(o, size, items[size..], deadline, first.world);
      }
    }
  }

  lemma {:induction false} FirstCallIsUnanswered(w: World, w': World, log: seq<Call>, c: Call,
                                                 items: seq<Item>, vs: seq<Verdict>)
    requires w'.log == w.log + [c] && w'.log <= log && !c.reply.Text? && EveryAnswer(log, |w'.log|, items, vs)
    ensures EveryAnswer(log, |w.log|, items, vs)
  {
    assert log[|w.log|] == c;
    forall n | 0 <= n < |items|
      ensures AnswersFor(log, |w.log|, items[n], vs[n])
    {
      assert AnswersFor(log, |w'.log|, items[n], vs[n]);
    }
  }

  lemma {:induction false} ChunkHearsEveryAnswer(o: Oracle, items: seq<Item>, deadline: real, w: World)
    requires items != [] && Distinct(items) && AskChunk(o, items, deadline, w).result.Ok?
    ensures EveryAnswer(AskChunk(o, items, deadline, w).world.log, |w.log|, items, AskChunk(o, items, deadline,
            w).result.value)
    decreases |items|
  {
    var w' := After(o, items, w);
    if Splits(o, items, deadline, w) {
      var half := |items| / 2;
      var first := AskChunk(o, items[..half], deadline, w');
      var second := AskChunk(o, items[half..], deadline, first.world);
      ChunkHearsEveryAnswer(o, items[..half], deadline, w');
      ChunkHearsEveryAnswer(o, items[half..], deadline, first.world);
      ChunkIsOnlyAbout(o, items[..half], deadline, w');
      ChunkIsOnlyAbout(o, items[half..], deadline, first.world);
      JoinAnswers(first.world.log, second.world.log, |w'.log|, |first.world.log|, items, half,
                  first.result.value, second.result.value);
      FirstCallIsUnanswered(w, w', second.world.log, Call(items, o(w, Hypotheses(items)).reply), items,
                            first.result.value + second.result.value);
    }
  }

  lemma {:induction false} BatchIsOnlyAbout(o: Oracle, size: nat, items: seq<Item>, deadline: real, w: World)
    requires items != [] && size >= 1
    ensures w.log <= AskBatch(o, size, items, deadline, w).world.log
    ensures OnlyAbout(AskBatch(o, size, items, deadline, w).world.log, |w.log|, items)
    decreases |items|
  {
    if |items| <= size {
      ChunkIsOnlyAbout(o, items, deadline, w);
    } else {
      ChunkIsOnlyAbout(o, items[..size], deadline, w);
      var first := AskChunk(o, items[..size], deadline, w);
      if first.result.Ok? {
        BatchIsOnlyAbout(o, size, items[size..], deadline, first.world);
        OnlyAboutWhole(first.world.log, AskBatch(o, size, items[size..], deadline, first.world).world.log, |w.log|,
            items, size);
      }
    }
  }

  /** No answer of a run is ignored or overruled: each item it covered gets the verdict it gave. */
  lemma {:induction false} BatchHearsEveryAnswer(o: Oracle, size: nat, items: seq<Item>, deadline: real, w: World)
    requires items != [] && size >= 1 && Distinct(items) && AskBatch(o, size, items, deadline, w).result.Ok?
    ensures EveryAnswer(AskBatch(o, size, items, deadline, w).world.log, |w.log|, items,
                        AskBatch(o, size, items, deadline, w).result.value)
    decreases |items|
  {
    if |items| <= size {
      ChunkHearsEveryAnswer(o, items, deadline, w);
    } else {
      var first := AskChunk(o, items[..size], deadline, w);
      var second := AskBatch(o, size, items[size..], deadline, first.world);
      ChunkHearsEveryAnswer(o, items[..size], deadline, w);
      BatchHearsEveryAnswer(o, size, items[size..], deadline, first.world);
      ChunkIsOnlyAbout(o, items[..size], deadline, w);
      BatchIsOnlyAbout(o, size, items[size..], deadline, first.world);
      JoinAnswers(first.world.log, second.world.log, |w.log|, |first.world.log|, items, size,
                  first.result.value, second.result.value);
    }
  }

  // ---- what a verdict means on the raw answer --------------------------------------------------

  /** The call says `v` about its item at position `m`: the cleaned list of the first answer under its
      id; nothing to object if the call for it alone failed; otherwise no verdict. */
  ghost predicate SaysOnRaw(c: Call, m: nat, v: Verdict) {
    if c.reply.Text? && c.reply.entries.Some? && Answered(c.reply.entries.value, Id(m)) then
      v.Some? && forall n | FirstAnswer(c.reply.entries.value, Id(m), n) ::
        Keeps(c.reply.entries.value[n].refutations.value, v.value)
    else if c.reply.Failed? && |c.items| == 1 then v == Some([])
    else v == None
  }

  lemma {:induction false} VerdictOnRaw(c: Call, m: nat)
    ensures SaysOnRaw(c, m, VerdictAt(c, m))
  {
    if c.reply.Text? && c.reply.entries.Some? {
      FirstValidOnRaw(c.reply.entries.value, Id(m));
    }
  }

  /** A chunk asks again iff its call for several items came back unanswered and at least its own
      duration was left before the deadline; without that time it gives up. */
  lemma {:induction false} AsksAgainIff(o: Oracle, items: seq<Item>, deadline: real, w: World)
    requires items != []
    ensures var s, r := o(w, Hypotheses(items)), AskChunk(o, items, deadline, w);
            var unanswered := |items| > 1 && (s.reply.Truncated? || s.reply.Failed?);
            var inTime := deadline - (w.now + s.took) >= s.took;
            && (|r.world.log| > |w.log| + 1 <==> unanswered && inTime)
            && (unanswered && !inTime && s.reply.Truncated? ==> r.result == RaisedTruncated)
            && (unanswered && !inTime && s.reply.Failed? ==>
                  r.result.Ok? && forall n | 0 <= n < |r.result.value| :: r.result.value[n] == None)
  {
    if Splits(o, items, deadline, w) {
      ChunkCost(o, items[..|items| / 2], deadline, After(o, items, w));
      var first := AskChunk(o, items[..|items| / 2], deadline, After(o, items, w));
      if first.result.Ok? {
        ChunkCost(o, items[|items| / 2..], deadline, first.world);
      }
    }
  }

  // ---- an oracle whose opinion of a hypothesis does not depend on its batch ---------------

  /** Refutations, an answer that cannot be parsed, a failing call, or a truncated answer. */
  datatype Opinion = Says(refs: seq<string>) | Garbled | Silent | Cut

  type Opinions = Hypothesis -> Opinion

  function VerdictFrom(p: Opinion): Verdict {
    match p
    case Says(refs) => Some(NonEmpty(refs))
    case Garbled => None
    case _ => Some([])
  }

  /** An answer that gives each hypothesis, under its id, the verdict the oracle holds about it. */
  ghost predicate Speaks(reply: Reply, ops: Opinions, hs: seq<Hypothesis>) {
    reply.Text? &&
    forall n | 0 <= n < |hs| ::
      (ops(hs[n]).Says? || ops(hs[n]).Garbled?) && SaidUnder(reply, Id(n)) == VerdictFrom(ops(hs[n]))
  }

  /** One hypothesis gets its opinion.  Several get theirs, or the call fails or is cut; a hypothesis
      with no opinion to give never sits in an answered batch.  The clock plays no part. */
  ghost predicate Opinionated(o: Oracle, ops: Opinions) {
    forall w: World, hs: seq<Hypothesis> | hs != [] :: GivesOpinion(o(w, hs).reply, ops, hs)
  }

  ghost predicate GivesOpinion(reply: Reply, ops: Opinions, hs: seq<Hypothesis>)
    requires hs != []
  {
    if |hs| > 1 then reply.Failed? || reply.Truncated? || Speaks(reply, ops, hs)
    else
      match ops(hs[0])
      case Silent => reply.Failed?
      case Cut => reply.Truncated?
      case _ => Speaks(reply, ops, hs)
  }

  /** Several items and no answer. */
  predicate Unanswered(o: Oracle, items: seq<Item>, w: World) {
    var reply := o(w, Hypotheses(items)).reply;
    |items| > 1 && (reply.Truncated? || reply.Failed?)
  }

  /** Each unanswered call that `AskChunk` makes leaves time to split it. */
  ghost predicate ChunkInTime(o: Oracle, items: seq<Item>, deadline: real, w: World)
    requires items != []
    decreases |items|
  {
    Unanswered(o, items, w) ==>
      TimeToSplit(o, items, deadline, w) && HalvesInTime(o, items, deadline, After(o, items, w))
  }

  ghost predicate HalvesInTime(o: Oracle, items: seq<Item>, deadline: real, w: World)
    requires |items| > 1
    decreases |items|, 0
  {
    var half := |items| / 2;
    var first := AskChunk(o, items[..half], deadline, w);
    && ChunkInTime(o, items[..half], deadline, w)
    && (first.result.Ok? ==> ChunkInTime(o, items[half..], deadline, first.world))
  }

  /** Each unanswered call of the whole run leaves time to split it. */
  ghost predicate BatchInTime(o: Oracle, size: nat, items: seq<Item>, deadline: real, w: World)
    requires items != [] && size >= 1
    decreases |items|
  {
    if |items| <= size then ChunkInTime(o, items, deadline, w)
    else
      var first := AskChunk(o, items[..size], deadline, w);
      && ChunkInTime(o, items[..size], deadline, w)
      && (first.result.Ok? ==> BatchInTime(o, size, items[size..], deadline, first.world))
  }

  predicate AnyCut(ops: Opinions, items: seq<Item>) {
    exists n :: 0 <= n < |items| && ops(items[n].h).Cut?
  }

  function Expected(ops: Opinions, items: seq<Item>): Result<seq<Verdict>> {
    if AnyCut(ops, items) then RaisedTruncated
    else Ok(seq(|items|, n requires 0 <= n < |items| => VerdictFrom(ops(items[n].h))))
  }

  /** What is expected of the whole is expected of its parts, one after the other. */
  lemma {:induction false} ExpectedSplits(ops: Opinions, items: seq<Item>, cut: nat, w: World)
    requires cut <= |items|
    ensures var first := Expected(ops, items[..cut]);
            Expected(ops, items) ==
            if !first.Ok? then first else Then(first.value, Asked(Expected(ops, items[cut..]), w)).result
  {
    if !AnyCut(ops, items) {
      assert Expected(ops, items).value == Expected(ops, items[..cut]).value + Expected(ops, items[cut..]).value;
    }
  }

  /** A call that is not split gives what is expected. */
  lemma {:induction false} AnsweredChunk(o: Oracle, ops: Opinions, items: seq<Item>, deadline: real, w: World)
    requires items != [] && Opinionated(o, ops) && !Unanswered(o, items, w)
    ensures AskChunk(o, items, deadline, w).result == Expected(ops, items)
  {
    var hs := Hypotheses(items);
    var reply := o(w, hs).reply;
    assert GivesOpinion(reply, ops, hs);
    assert forall n | 0 <= n < |items| :: hs[n] == items[n].h;
    if !(|hs| == 1 && ops(hs[0]).Cut?) {
      assert VerdictsOf(Call(items, reply)) == Expected(ops, items).value;
    }
  }

  lemma {:induction false} SteadyChunk(o: Oracle, ops: Opinions, items: seq<Item>, deadline: real, w: World)
    requires items != [] && Opinionated(o, ops) && ChunkInTime(o, items, deadline, w)
    ensures AskChunk(o, items, deadline, w).result == Expected(ops, items)
    decreases |items|
  {
    if !Unanswered(o, items, w) {
      AnsweredChunk(o, ops, items, deadline, w);
    } else {
      var half := |items| / 2;
      var w' := After(o, items, w);
      SteadyChunk(o, ops, items[..half], deadline, w');
      var first := AskChunk(o, items[..half], deadline, w');
      if first.result.Ok? {
        SteadyChunk(o, ops, items[half..], deadline, first.world);
      }
      ExpectedSplits(ops, items, half, w);
    }
  }

  lemma {:induction false} SteadyBatch(o: Oracle, ops: Opinions, size: nat, items: seq<Item>, deadline: real, w: World)
    requires items != [] && size >= 1 && Opinionated(o, ops) && BatchInTime(o, size, items, deadline, w)
    ensures AskBatch(o, size, items, deadline, w).result == Expected(ops, items)
    decreases |items|
  {
    if |items| <= size {
      SteadyChunk(o, ops, items, deadline, w);
    } else {
      SteadyChunk(o, ops, items[..size], deadline, w);
      var first := AskChunk(o, items[..size], deadline, w);
      if first.result.Ok? {
        SteadyBatch(o, ops, size, items[size..], deadline, first.world);
      }
      ExpectedSplits(ops, items, size, w);
    }
  }

  // ---- a stage timeout that is long enough ---------------------------------------------------

  /** No call takes longer than `longest`, and none less than no time. */
  ghost predicate Prompt(o: Oracle, longest: real) {
    forall w: World, hs: seq<Hypothesis> :: 0.0 <= o(w, hs).took <= longest
  }

  /** `calls` times `longest`. */
  function Lasting(calls: nat, longest: real): real {
    calls as real * longest
  }

  lemma {:induction false} LastingAdds(m: nat, n: nat, longest: real)
    requires longest >= 0.0
    ensures Lasting(m + n, longest) == Lasting(m, longest) + Lasting(n, longest)
    ensures Lasting(n, longest) >= 0.0 && Lasting(1, longest) == longest
  {
    assert (m + n) as real == m as real + n as real;
  }

  /** Twice as many calls as items fit before the deadline, so every split is in time. */
  lemma {:induction false} ChunkHasTime(o: Oracle, longest: real, items: seq<Item>, deadline: real, w: World)
    requires items != [] && Prompt(o, longest) && w.now + Lasting(2 * |items|, longest) <= deadline
    ensures ChunkInTime(o, items, deadline, w)
    ensures AskChunk(o, items, deadline, w).world.now <= w.now + Lasting(2 * |items| - 1, longest)
    decreases |items|
  {
    var took := o(w, Hypotheses(items)).took;
    assert 0.0 <= took <= longest;
    LastingAdds(1, 2 * |items| - 1, longest);
    LastingAdds(1, 2 * |items| - 2, longest);
    if Unanswered(o, items, w) {
      HalvesHaveTime(o, longest, items, deadline, After(o, items, w));
    }
  }

  lemma {:induction false} HalvesHaveTime(o: Oracle, longest: real, items: seq<Item>, deadline: real, w: World)
    requires |items| > 1 && longest >= 0.0 && Prompt(o, longest)
    requires w.now + Lasting(2 * |items| - 1, longest) <= deadline
    ensures HalvesInTime(o, items, deadline, w)
    ensures AskHalves(o, items, deadline, w).world.now <= w.now + Lasting(2 * |items| - 2, longest)
    decreases |items|, 0
  {
    var half := |items| / 2;
    var rest := |items| - half;
    LastingAdds(2 * half, 2 * rest - 1, longest);
    LastingAdds(2 * half - 1, 2 * rest, longest);
    LastingAdds(2 * half - 1, 2 * rest - 1, longest);
    ChunkHasTime(o, longest, items[..half], deadline, w);
    var first := AskChunk(o, items[..half], deadline, w);
    if first.result.Ok? {
      ChunkHasTime(o, longest, items[half..], deadline, first.world);
    }
  }

  /** With time for two calls per item no unanswered call goes unsplit, for every batch maximum. */
  lemma {:induction false} BatchHasTime(o: Oracle, longest: real, size: nat, items: seq<Item>, deadline: real, w: World)
    requires items != [] && size >= 1 && Prompt(o, longest)
    requires w.now + Lasting(2 * |items|, longest) <= deadline
    ensures BatchInTime(o, size, items, deadline, w)
    decreases |items|
  {
    assert 0.0 <= o(w, Hypotheses(items)).took <= longest;
    if |items| <= size {
      ChunkHasTime(o, longest, items, deadline, w);
    } else {
      var rest := |items| - size;
      LastingAdds(2 * size, 2 * rest, longest);
      LastingAdds(1, 2 * size - 1, longest);
      ChunkHasTime(o, longest, items[..size], deadline, w);
      var first := AskChunk(o, items[..size], deadline, w);
      if first.result.Ok? {
        BatchHasTime(o, longest, size, items[size..], deadline, first.world);
      }
    }
  }

  /** The oracle of an unlucky day: every call for several hypotheses fails, a single one gets its opinion. */
  function Unlucky(ops: Opinions, took: real): Oracle {
    (w: World, hs: seq<Hypothesis>) => Spoken(if |hs| != 1 then Failed else Voiced(ops(hs[0])), took)
  }

  function Voiced(p: Opinion): Reply {
    match p
    case Says(refs) => Text(Some([Critique(Id(0), Some(refs))]))
    case Garbled => Text(None)
    case Silent => Failed
    case Cut => Truncated
  }

  /** Every opinion, of every kind, is held by some oracle whose clock does not run backwards. */
  lemma {:induction false} EveryOpinionIsHeld(ops: Opinions, took: real)
    requires took >= 0.0
    ensures Opinionated(Unlucky(ops, took), ops) && Prompt(Unlucky(ops, took), took)
  {
    var o := Unlucky(ops, took);
    forall w: World, hs: seq<Hypothesis> | hs != []
      ensures GivesOpinion(o(w, hs).reply, ops, hs)
    {
      if |hs| == 1 && ops(hs[0]).Says? {
        FirstValidSnoc([], Critique(Id(0), Some(ops(hs[0]).refs)), Id(0));
        assert [] + [Critique(Id(0), Some(ops(hs[0]).refs))] == [Critique(Id(0), Some(ops(hs[0]).refs))];
      }
    }
  }
}
