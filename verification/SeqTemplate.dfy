/**
  The canonical message template of a Seq event (app/context/seq_client.py): text tokens with
  every brace doubled, placeholders in single braces.

  `Parse` reads the Message Templates syntax back.  Rendering and parsing are inverse to each other
  between normalised piece lists and well-formed templates, so two templates share a
  string iff they are the same template.
*/
module SeqTemplate {
  import opened Common

  /** One element of `MessageTemplateTokens`; "" stands for a missing or falsy field. */
  datatype Token =
    | NotADict
    | Token(text: string, raw: string, prop: string)

  /** `tokens` is None when the field is no list. */
  datatype Event = Event(tokens: Option<seq<Token>>, messageTemplate: string, renderedMessage: string, message: string)

  function DoubledChar(x: char, c: char): string {
    if x == c then [c, c] else [x]
  }

  /** `text.replace(c, cc)`: every `c` doubled. */
  function Doubled(text: string, c: char): string {
    if text == "" then "" else DoubledChar(text[0], c) + Doubled(text[1..], c)
  }

  /** `_escape_literal_braces`: two passes. */
  function EscapeLiteralBraces(text: string): string {
    Doubled(Doubled(text, '{'), '}')
  }

  function RenderToken(t: Token): string {
    match t
    case NotADict => ""
    case Token(text, raw, prop) =>
      if text != "" then EscapeLiteralBraces(text)
      else if raw != "" then raw
      else if prop != "" then "{" + prop + "}"
      else ""
  }

  function RenderTokens(tokens: seq<Token>): string {
    if tokens == [] then "" else RenderToken(tokens[0]) + RenderTokens(tokens[1..])
  }

  /** `not s.strip()` */
  predicate Blank(s: string) {
    forall i | 0 <= i < |s| :: IsSpace(s[i])
  }

  function FallbackText(e: Event): string {
    if e.messageTemplate != "" then e.messageTemplate
    else if e.renderedMessage != "" then e.renderedMessage
    else e.message
  }

  lemma {:induction false} RenderTokensSnoc(tokens: seq<Token>, t: Token)
    ensures RenderTokens(tokens + [t]) == RenderTokens(tokens) + RenderToken(t)
  {
    if tokens == [] {
      assert tokens + [t] == [t] && [t][1..] == [];
    } else {
      var rest := tokens[1..];
      RenderTokensSnoc(rest, t);
      assert (tokens + [t])[1..] == rest + [t];
      Assoc(RenderToken(tokens[0]), RenderTokens(rest), RenderToken(t));
    }
  }

  lemma {:induction false} RenderSnoc(tokens: seq<Token>, n: nat)
    requires n < |tokens|
    ensures RenderTokens(tokens[..n + 1]) == RenderTokens(tokens[..n]) + RenderToken(tokens[n])
  {
    assert tokens[..n + 1] == tokens[..n] + [tokens[n]];
    RenderTokensSnoc(tokens[..n], tokens[n]);
  }

  /** `extract_message_template` */
  method ExtractMessageTemplate(e: Event) returns (r: string)
    ensures r == if e.tokens.Some? && !Blank(RenderTokens(e.tokens.value)) then RenderTokens(e.tokens.value)
            else FallbackText(e)
    ensures var kept := e.tokens.Some? && exists i :: 0 <= i < |RenderTokens(e.tokens.value)|
                                                     && !IsSpace(RenderTokens(e.tokens.value)[i]);
            && (kept ==> r == RenderTokens(e.tokens.value))
            && (!kept && e.messageTemplate != "" ==> r == e.messageTemplate)
            && (!kept && e.messageTemplate == "" && e.renderedMessage != "" ==> r == e.renderedMessage)
            && (!kept && e.messageTemplate == "" && e.renderedMessage == "" ==> r == e.message)
  {
    if e.tokens.Some? && e.tokens.value != [] {
      var tokens := e.tokens.value;
      var template := "";
      for i := 0 to |tokens|
        invariant template == RenderTokens(tokens[..i])
      {
        RenderSnoc(tokens, i);
        if tokens[i].NotADict? {
          continue;
        }
        if tokens[i].text != "" {
          template := template + EscapeLiteralBraces(tokens[i].text);
          continue;
        }
        if tokens[i].raw != "" {
          template := template + tokens[i].raw;
          continue;
        }
        if tokens[i].prop != "" {
          template := template + ("{" + tokens[i].prop + "}");
        }
      }
      assert tokens[..|tokens|] == tokens;
      if !Blank(template) {
        return template;
      }
    }
    for k := 0 to 3
      invariant k > 0 ==> e.messageTemplate == ""
      invariant k > 1 ==> e.renderedMessage == ""
      invariant k > 2 ==> e.message == ""
    {
      var v := if k == 0 then e.messageTemplate else if k == 1 then e.renderedMessage else e.message;
      if v != "" {
        return v;
      }
    }
    return "";
  }

  // ---- the template language -----------------------------------------------------------------

  datatype Piece = Text(text: string) | Hole(body: string)

  function EscapeChar(c: char): string {
    if c == '{' then "{{" else if c == '}' then "}}" else [c]
  }

  /** One pass over the text. */
  function Escape(text: string): string {
    if text == "" then "" else EscapeChar(text[0]) + Escape(text[1..])
  }

  function RenderPiece(p: Piece): string {
    match p
    case Text(t) => Escape(t)
    case Hole(b) => "{" + b + "}"
  }

  function Render(ps: seq<Piece>): string {
    if ps == [] then "" else RenderPiece(ps[0]) + Render(ps[1..])
  }

  /** Put a piece in front of a normalised list: merge texts, drop an empty one. */
  function Cons(p: Piece, ps: seq<Piece>): seq<Piece> {
    if p == Text("") then ps
    else if p.Text? && ps != [] && ps[0].Text? then [Text(p.text + ps[0].text)] + ps[1..]
    else [p] + ps
  }

  function Normalise(ps: seq<Piece>): seq<Piece> {
    if ps == [] then [] else Cons(ps[0], Normalise(ps[1..]))
  }

  ghost predicate Normal(ps: seq<Piece>) {
    && (forall i | 0 <= i < |ps| :: ps[i] != Text(""))
    && (forall i | 0 <= i < |ps| - 1 :: ps[i].Hole? || ps[i + 1].Hole?)
  }

  function IndexOf(s: string, c: char): (i: nat)
    ensures i <= |s| && (i < |s| ==> s[i] == c) && c !in s[..i]
  {
    if s == "" || s[0] == c then 0
    else
      assert s[..1 + IndexOf(s[1..], c)] == [s[0]] + s[1..][..IndexOf(s[1..], c)];
      1 + IndexOf(s[1..], c)
  }

  function Prepend(p: Piece, r: Option<seq<Piece>>): Option<seq<Piece>> {
    if r.Some? then Some(Cons(p, r.value)) else None
  }

  /** Read a template: doubled braces are text, a single brace opens a hole. */
  function Parse(s: string): (r: Option<seq<Piece>>)
    decreases |s|
  {
    if s == "" then Some([])
    else if s[0] == '{' && !(|s| > 1 && s[1] == '{') then
      var i := IndexOf(s[1..], '}');
      if i == |s| - 1 then None else Prepend(Hole(s[1..1 + i]), Parse(s[2 + i..]))
    else if s[0] == '{' || s[0] == '}' then
      if |s| > 1 && s[1] == s[0] then Prepend(Text([s[0]]), Parse(s[2..])) else None
    else Prepend(Text([s[0]]), Parse(s[1..]))
  }

  /** A hole that can be told from text: its body has no closing brace and starts with no opening one. */
  predicate GoodHole(body: string) {
    '}' !in body && (body == "" || body[0] != '{')
  }

  ghost predicate Good(ps: seq<Piece>) {
    forall i | 0 <= i < |ps| && ps[i].Hole? :: GoodHole(ps[i].body)
  }

  // ---- escaping -----------------------------------------------------------------------------------

  lemma {:induction false} Assoc(a: string, b: string, c: string)
    ensures (a + b) + c == a + (b + c)
  {
  }

  lemma {:induction false} DoubledCons(x: char, t: string, c: char)
    ensures Doubled([x] + t, c) == DoubledChar(x, c) + Doubled(t, c)
  {
    assert ([x] + t)[1..] == t;
  }

  /** The second pass over one character that the first pass has treated. */
  lemma {:induction false} SecondPass(x: char, t: string)
    ensures Doubled(DoubledChar(x, '{') + t, '}') == EscapeChar(x) + Doubled(t, '}')
  {
    if x == '{' {
      assert DoubledChar(x, '{') + t == ['{'] + (['{'] + t);
      DoubledCons('{', ['{'] + t, '}');
      DoubledCons('{', t, '}');
    } else {
      DoubledCons(x, t, '}');
    }
  }

  /** The second `replace` sees nothing that the first one wrote. */
  lemma {:induction false} TwoPassesEscape(text: string)
    ensures EscapeLiteralBraces(text) == Escape(text)
  {
    if text != "" {
      TwoPassesEscape(text[1..]);
      SecondPass(text[0], Doubled(text[1..], '{'));
    }
  }

  lemma {:induction false} EscapeCons(c: char, t: string)
    ensures Escape([c] + t) == EscapeChar(c) + Escape(t)
  {
    assert ([c] + t)[1..] == t;
  }

  lemma {:induction false} EscapeConcat(a: string, b: string)
    ensures Escape(a + b) == Escape(a) + Escape(b)
  {
    if a == "" {
      assert a + b == b;
    } else {
      EscapeConcat(a[1..], b);
      assert a + b == [a[0]] + (a[1..] + b);
      EscapeCons(a[0], a[1..] + b);
      Assoc(EscapeChar(a[0]), Escape(a[1..]), Escape(b));
    }
  }

  // ---- parsing undoes rendering --------------------------------------------------------------------

  lemma {:induction false} ConsText(c: char, t: string, ps: seq<Piece>)
    ensures Cons(Text([c]), Cons(Text(t), ps)) == Cons(Text([c] + t), ps)
  {
    if t == "" {
      assert [c] + t == [c];
    } else if ps != [] && ps[0].Text? {
      assert [c] + (t + ps[0].text) == [c] + t + ps[0].text;
    }
  }

  lemma {:induction false} ParseText(t: string, tail: string)
    requires Parse(tail).Some?
    ensures Parse(Escape(t) + tail) == Prepend(Text(t), Parse(tail))
  {
    if t == "" {
      assert Escape(t) + tail == tail;
    } else {
      var c, u := t[0], t[1..];
      ParseText(u, tail);
      Assoc(EscapeChar(c), Escape(u), tail);
      assert t == [c] + u;
      ConsText(c, u, Parse(tail).value);
    }
  }

  lemma {:induction false} IndexOfFirst(b: string, c: char, tail: string)
    requires c !in b
    ensures IndexOf(b + [c] + tail, c) == |b|
  {
    if b != "" {
      IndexOfFirst(b[1..], c, tail);
      assert (b + [c] + tail)[1..] == b[1..] + [c] + tail;
    }
  }

  lemma {:induction false} ParseHole(b: string, tail: string)
    requires GoodHole(b)
    ensures Parse("{" + b + "}" + tail) == Prepend(Hole(b), Parse(tail))
  {
    var s := "{" + b + "}" + tail;
    IndexOfFirst(b, '}', tail);
    assert s[1..] == b + "}" + tail;
    assert s[1..1 + |b|] == b;
    assert s[2 + |b|..] == tail;
    assert s[1] == if b == "" then '}' else b[0];
  }

  lemma {:induction false} ParseOfRender(ps: seq<Piece>)
    requires Good(ps)
    ensures Parse(Render(ps)) == Some(Normalise(ps))
  {
    if ps != [] {
      var tail := Render(ps[1..]);
      ParseOfRender(ps[1..]);
      match ps[0]
      case Text(t) => ParseText(t, tail);
      case Hole(b) => ParseHole(b, tail);
    }
  }

  // ---- rendering undoes parsing ---------------------------------------------------------------------

  lemma {:induction false} RenderCons(p: Piece, ps: seq<Piece>)
    ensures Render(Cons(p, ps)) == RenderPiece(p) + Render(ps)
  {
    if p == Text("") {
      assert RenderPiece(p) + Render(ps) == Render(ps);
    } else if p.Text? && ps != [] && ps[0].Text? {
      EscapeConcat(p.text, ps[0].text);
      Assoc(Escape(p.text), Escape(ps[0].text), Render(ps[1..]));
    }
  }

  /** Normalising changes no character. */
  lemma {:induction false} RenderOfNormalise(ps: seq<Piece>)
    ensures Render(Normalise(ps)) == Render(ps)
  {
    if ps != [] {
      RenderOfNormalise(ps[1..]);
      RenderCons(ps[0], Normalise(ps[1..]));
    }
  }

  /** The normal form merges adjacent texts and holds no empty one. */
  lemma {:induction false} NormaliseIsNormal(ps: seq<Piece>)
    ensures Normal(Normalise(ps))
  {
    if ps != [] {
      NormaliseIsNormal(ps[1..]);
    }
  }

  /** A list in normal form is its own normal form. */
  lemma {:induction false} NormalIsFixed(ps: seq<Piece>)
    requires Normal(ps)
    ensures Normalise(ps) == ps
  {
    if ps != [] {
      var rest := ps[1..];
      forall i | 0 <= i < |rest| - 1
        ensures rest[i].Hole? || rest[i + 1].Hole?
      {
        assert ps[i + 1].Hole? || ps[i + 1 + 1].Hole?;
      }
      NormalIsFixed(rest);
      if rest != [] {
        assert ps[0].Hole? || ps[0 + 1].Hole?;
      }
    }
  }

  lemma {:induction false} ConsKeepsGood(p: Piece, ps: seq<Piece>)
    requires Good(ps) && (p.Hole? ==> GoodHole(p.body))
    ensures Good(Cons(p, ps))
  {
  }

  ghost predicate Canonical(ps: seq<Piece>, s: string) {
    Render(ps) == s && Good(ps) && Normal(ps)
  }

  lemma {:induction false} ConsIsCanonical(p: Piece, ps: seq<Piece>, s: string)
    requires Canonical(ps, s) && (p.Hole? ==> GoodHole(p.body))
    ensures Canonical(Cons(p, ps), RenderPiece(p) + s)
  {
    RenderCons(p, ps);
    ConsKeepsGood(p, ps);
  }

  lemma {:induction false} CharIsCanonical(c: char, ps: seq<Piece>, s: string)
    requires Canonical(ps, s)
    ensures Canonical(Cons(Text([c]), ps), EscapeChar(c) + s)
  {
    ConsIsCanonical(Text([c]), ps, s);
    EscapeCons(c, "");
    assert [c] + "" == [c];
    assert Escape([c]) == EscapeChar(c);
  }

  lemma {:induction false} HoleSplit(s: string, i: nat)
    requires |s| > 1 && s[0] == '{' && s[1] != '{' && i == IndexOf(s[1..], '}') && i < |s| - 1
    ensures s == RenderPiece(Hole(s[1..1 + i])) + s[2 + i..] && GoodHole(s[1..1 + i])
  {
    var body := s[1..1 + i];
    assert body == s[1..][..i];
    assert body != "" ==> body[0] == s[1];
    assert s[1..][i] == s[1 + i];
  }

  lemma {:induction false} CharSplit(s: string, n: nat)
    requires |s| > 0 && n == |EscapeChar(s[0])| && n <= |s| && (n == 2 ==> s[1] == s[0])
    ensures s == EscapeChar(s[0]) + s[n..]
  {
  }

  /** What the parser accepts, it reads as normalised good pieces that render to the same string. */
  lemma {:induction false} RenderOfParse(s: string)
    requires Parse(s).Some?
    ensures Canonical(Parse(s).value, s)
    decreases |s|
  {
    if s == "" {
    } else if s[0] == '{' && !(|s| > 1 && s[1] == '{') {
      var i := IndexOf(s[1..], '}');
      HoleSplit(s, i);
      RenderOfParse(s[2 + i..]);
      ConsIsCanonical(Hole(s[1..1 + i]), Parse(s[2 + i..]).value, s[2 + i..]);
    } else {
      var n := |EscapeChar(s[0])|;
      CharSplit(s, n);
      RenderOfParse(s[n..]);
      CharIsCanonical(s[0], Parse(s[n..]).value, s[n..]);
    }
  }

  // ---- the canonical form -----------------------------------------------------------------------------

  lemma {:induction false} ConsGoodBack(p: Piece, ps: seq<Piece>)
    requires Good(Cons(p, ps))
    ensures Good(ps) && (p.Hole? ==> GoodHole(p.body))
  {
    var r := Cons(p, ps);
    var d := |r| - |ps|;
    forall i | 0 <= i < |ps| && ps[i].Hole?
      ensures GoodHole(ps[i].body)
    {
      assert r[i + d] == ps[i];
    }
    if p.Hole? {
      assert r[0] == p;
    }
  }

  lemma {:induction false} NormaliseGoodBack(ps: seq<Piece>)
    requires Good(Normalise(ps))
    ensures Good(ps)
  {
    if ps != [] {
      ConsGoodBack(ps[0], Normalise(ps[1..]));
      NormaliseGoodBack(ps[1..]);
    }
  }

  /** The parser recovers the normalised pieces iff every hole is good. */
  lemma {:induction false} RecoversIffGood(ps: seq<Piece>)
    ensures Parse(Render(ps)) == Some(Normalise(ps)) <==> Good(ps)
  {
    if Good(ps) {
      ParseOfRender(ps);
    } else if Parse(Render(ps)) == Some(Normalise(ps)) {
      RenderOfParse(Render(ps));
      NormaliseGoodBack(ps);
    }
  }

  /** Two templates render to one string iff they are the same template. */
  lemma {:induction false} CanonIsBijective(ps: seq<Piece>, qs: seq<Piece>)
    requires Good(ps) && Good(qs)
    ensures Render(ps) == Render(qs) <==> Normalise(ps) == Normalise(qs)
  {
    ParseOfRender(ps);
    ParseOfRender(qs);
    RenderOfNormalise(ps);
    RenderOfNormalise(qs);
  }

  // ---- tokens ---------------------------------------------------------------------------------------------

  /** The piece a token stands for; a raw text not in braces stands for none. */
  function PieceOf(t: Token): Option<Piece> {
    match t
    case NotADict => Some(Text(""))
    case Token(text, raw, prop) =>
      if text != "" then Some(Text(text))
      else if raw != "" then
        if |raw| >= 2 && raw[0] == '{' && raw[|raw| - 1] == '}' then Some(Hole(raw[1..|raw| - 1])) else None
      else if prop != "" then Some(Hole(prop))
      else Some(Text(""))
  }

  predicate GoodToken(t: Token) {
    PieceOf(t).Some? && (PieceOf(t).value.Hole? ==> GoodHole(PieceOf(t).value.body))
  }

  /** The good tokens: no dictionary, nothing in it, a text, a raw text of one hole in its braces, or a
      property; holes without a closing brace that do not start with an opening one. */
  lemma {:induction false} GoodTokensAre(t: Token)
    ensures t.NotADict? ==> GoodToken(t)
    ensures t.Token? && (t.text != "" || (t.raw == "" && t.prop == "")) ==> GoodToken(t)
    ensures t.Token? && t.text == "" && t.raw != "" ==>
              (GoodToken(t) <==> exists b :: t.raw == "{" + b + "}" && '}' !in b && (b == "" || b[0] != '{'))
    ensures t.Token? && t.text == "" && t.raw == "" && t.prop != "" ==>
              (GoodToken(t) <==> '}' !in t.prop && t.prop[0] != '{')
  {
    if t.Token? && t.text == "" && t.raw != "" {
      if GoodToken(t) {
        var b := t.raw[1..|t.raw| - 1];
        assert t.raw == "{" + b + "}" && GoodHole(b);
      }
      if b :| t.raw == "{" + b + "}" && '}' !in b && (b == "" || b[0] != '{') {
        assert t.raw[1..|t.raw| - 1] == b;
      }
    }
  }

  /** Where the pieces come from: each token stands for the text or the hole that it holds. */
  lemma {:induction false} PiecesAre(t: Token, b: string)
    ensures t.NotADict? ==> PieceOf(t) == Some(Text(""))
    ensures t.Token? && t.text != "" ==> PieceOf(t) == Some(Text(t.text))
    ensures t.Token? && t.text == "" && t.raw == "{" + b + "}" ==> PieceOf(t) == Some(Hole(b))
    ensures t.Token? && t.text == "" && t.raw == "" && t.prop == b != "" ==> PieceOf(t) == Some(Hole(b))
    ensures t.Token? && t.text == "" && t.raw == "" && t.prop == "" ==> PieceOf(t) == Some(Text(""))
  {
    assert ("{" + b + "}")[1..|"{" + b + "}"| - 1] == b;
  }

  ghost predicate GoodTokens(tokens: seq<Token>) {
    forall i | 0 <= i < |tokens| :: GoodToken(tokens[i])
  }

  ghost function Pieces(tokens: seq<Token>): (ps: seq<Piece>)
    requires GoodTokens(tokens)
    ensures Good(ps)
  {
    if tokens == [] then []
    else
      assert GoodToken(tokens[0]);
      [PieceOf(tokens[0]).value] + Pieces(tokens[1..])
  }

  lemma {:induction false} TokenRendersAsPiece(t: Token)
    requires GoodToken(t)
    ensures RenderToken(t) == RenderPiece(PieceOf(t).value)
  {
    if t.Token? && t.text != "" {
      TwoPassesEscape(t.text);
    } else if t.Token? && t.raw != "" {
      assert t.raw == "{" + t.raw[1..|t.raw| - 1] + "}";
    }
  }

  lemma {:induction false} TokensRenderAsPieces(tokens: seq<Token>)
    requires GoodTokens(tokens)
    ensures RenderTokens(tokens) == Render(Pieces(tokens))
  {
    if tokens != [] {
      assert GoodToken(tokens[0]);
      TokenRendersAsPiece(tokens[0]);
      TokensRenderAsPieces(tokens[1..]);
    }
  }

  /** The parser recovers the normalised template from the token rendering. */
  lemma {:induction false} TokensAreRecovered(tokens: seq<Token>)
    requires GoodTokens(tokens)
    ensures Parse(RenderTokens(tokens)) == Some(Normalise(Pieces(tokens)))
  {
    TokensRenderAsPieces(tokens);
    ParseOfRender(Pieces(tokens));
  }

  /** Different templates never get one string, and equal ones always do. */
  lemma {:induction false} TokensCollideIffSameTemplate(a: seq<Token>, b: seq<Token>)
    requires GoodTokens(a) && GoodTokens(b)
    ensures RenderTokens(a) == RenderTokens(b) <==> Normalise(Pieces(a)) == Normalise(Pieces(b))
  {
    TokensRenderAsPieces(a);
    TokensRenderAsPieces(b);
    CanonIsBijective(Pieces(a), Pieces(b));
  }

  lemma {:induction false} HoleReadsAsGoodRaw(raw: string, b: string)
    requires Parse(raw) == Some([Hole(b)])
    ensures raw == "{" + b + "}" && GoodHole(b)
  {
    RenderOfParse(raw);
    assert Good([Hole(b)]);
    assert [Hole(b)][0] == Hole(b);
    assert Render([Hole(b)]) == RenderPiece(Hole(b)) + Render([Hole(b)][1..]);
  }

  /** A placeholder given as raw text is read back as one hole iff it is good. */
  lemma {:induction false} RawIsRecoveredIffGood(raw: string)
    requires raw != ""
    ensures (exists b :: Parse(raw) == Some([Hole(b)])) <==> GoodToken(Token("", raw, ""))
  {
    if GoodToken(Token("", raw, "")) {
      var b := raw[1..|raw| - 1];
      ParseHole(b, "");
      assert raw == "{" + b + "}" + "";
      assert Parse("") == Some([]) && [Hole(b)] + [] == [Hole(b)];
    }
    if b :| Parse(raw) == Some([Hole(b)]) {
      HoleReadsAsGoodRaw(raw, b);
      assert raw[1..|raw| - 1] == b;
    }
  }

  /** Without that condition the canon is no bijection: the raw `{{a}}` is the text `{a}`, for every text `a`. */
  lemma {:induction false} BracedRawCollides(a: string)
    requires '{' !in a && '}' !in a
    ensures RenderTokens([Token("", "{{" + a + "}}", "")]) == RenderTokens([Token("{" + a + "}", "", "")])
    ensures !GoodToken(Token("", "{{" + a + "}}", "")) && GoodToken(Token("{" + a + "}", "", ""))
  {
    var raw, text := "{{" + a + "}}", "{" + a + "}";
    var s, t := Token("", raw, ""), Token(text, "", "");
    assert raw[1..|raw| - 1][0] == '{';
    assert PieceOf(s) == Some(Hole(raw[1..|raw| - 1]));
    TwoPassesEscape(text);
    EscapeConcat("{" + a, "}");
    EscapeCons('{', a);
    EscapeCons('}', "");
    assert "}" + "" == "}";
    PlainIsFixed(a);
    assert RenderToken(t) == "{{" + a + "}}";
    assert RenderTokens([s]) == raw + RenderTokens([s][1..]);
    assert RenderTokens([t]) == RenderToken(t) + RenderTokens([t][1..]);
  }

  lemma {:induction false} PlainIsFixed(a: string)
    requires '{' !in a && '}' !in a
    ensures Escape(a) == a
  {
    if a != "" {
      PlainIsFixed(a[1..]);
      assert a == [a[0]] + a[1..];
    }
  }
}
