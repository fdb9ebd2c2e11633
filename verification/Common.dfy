/** Small datatypes shared by the models. */
module Common {

  datatype Option<+T> = None | Some(value: T)

  /** Python's `max(a, b)` on integers. */
  function Max(a: int, b: int): int {
    if a < b then b else a
  }

  /** Python's `min(a, b)` on integers. */
  function Min(a: int, b: int): int {
    if a < b then a else b
  }

  /** The nearest integer, ties to the even one. */
  function RoundHalfEven(y: real): int {
    var f := y.Floor;
    var d := y - f as real;
    if d < 0.5 then f else if d > 0.5 then f + 1 else if f % 2 == 0 then f else f + 1
  }

  /** No integer is nearer, and a tie goes to the even one. */
  lemma {:induction false} RoundIsNearest(y: real)
    ensures y - 0.5 <= RoundHalfEven(y) as real <= y + 0.5
    ensures RoundHalfEven(y) as real == y - 0.5 || RoundHalfEven(y) as real == y + 0.5 ==> RoundHalfEven(y) % 2 == 0
  {
  }

  lemma {:induction false} RoundIsMonotone(x: real, y: real)
    requires x <= y
    ensures RoundHalfEven(x) <= RoundHalfEven(y)
  {
    assert x.Floor <= y.Floor;
  }

  /** `str.isspace` */
  predicate IsSpace(c: char) {
    || '\t' <= c <= '\r'
    || '\U{1C}' <= c <= ' '
    || c in {'\U{85}', '\U{A0}', '\U{1680}', '\U{2028}', '\U{2029}', '\U{202F}', '\U{205F}', '\U{3000}'}
    || '\U{2000}' <= c <= '\U{200A}'
  }

  lemma {:induction false} SamePrefix(p: string, a: string, b: string)
    requires p + a == p + b
    ensures a == b
  {
    assert a == (p + a)[|p|..] == (p + b)[|p|..] == b;
  }

  /** Two sets that differ at most in `k`. */
  lemma {:induction false} OneChanged<T>(a: set<T>, b: set<T>, k: T)
    requires a - {k} == b - {k}
    ensures |b| == |a| - (if k in a then 1 else 0) + (if k in b then 1 else 0)
  {
    assert |a - {k}| == |a| - (if k in a then 1 else 0);
    assert |b - {k}| == |b| - (if k in b then 1 else 0);
  }
}
