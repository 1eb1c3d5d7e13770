/** `str.format` templates: parsing to literal text and replacement fields, and printing them back. */
module Templates {
  import opened Sequences
  import opened Wrappers

  /** A replacement field. The format spec of a field of the model holds no nested field. */
  datatype Field = Field(name: string, spec: string, conversion: Option<char>)

  datatype Token = Lit(text: string) | Rep(field: Field)

  /** Where the first brace is. */
  function BraceAt(s: string): (k: nat)
    ensures k <= |s| && (k < |s| ==> s[k] == '{' || s[k] == '}')
  {
    if s == "" || s[0] == '{' || s[0] == '}' then 0 else 1 + BraceAt(s[1..])
  }

  predicate EndsName(c: char) {
    c == '}' || c == ':' || c == '!'
  }

  /** How long a field name at the start of `s` is: up to a colon, an exclamation mark or a closing brace
      outside square brackets; `None` where a brace opens in it or the text ends. */
  function NameEnd(s: string, inBracket: bool): (k: Option<nat>)
    ensures k.Some? ==> k.value < |s| && EndsName(s[k.value])
  {
    if s == "" then None
    else if inBracket then Later(NameEnd(s[1..], s[0] != ']'))
    else if EndsName(s[0]) then Some(0)
    else if s[0] == '{' then None
    else Later(NameEnd(s[1..], s[0] == '['))
  }

  function Later(k: Option<nat>): Option<nat> {
    if k.None? then None else Some(k.value + 1)
  }

  /** How long a format spec at the start of `s` is; `None` where it holds a nested field or does not end. */
  function SpecEnd(s: string): (k: Option<nat>)
    ensures k.Some? ==> k.value < |s| && s[k.value] == '}'
  {
    if s == "" || s[0] == '{' then None else if s[0] == '}' then Some(0) else Later(SpecEnd(s[1..]))
  }

  /** A field after its opening brace, with the number of characters read, its closing brace included. */
  function ParseField(s: string): (r: Option<(Field, nat)>)
    ensures r.Some? ==> 0 < r.value.1 <= |s|
  {
    var k := NameEnd(s, false);
    if k.None? then None
    else
      var f := ParseTail(s[..k.value], s[k.value..]);
      if f.None? then None else Some((f.value.0, k.value + f.value.1))
  }

  /** What follows the name of a field. */
  function ParseTail(name: string, u: string): (r: Option<(Field, nat)>)
    requires u != "" && EndsName(u[0])
    ensures r.Some? ==> 0 < r.value.1 <= |u|
  {
    if u[0] == '}' then Some((Field(name, "", None), 1))
    else if u[0] == ':' then ParseSpec(name, None, u[1..], 1)
    else if |u| < 3 then None
    else if u[2] == '}' then Some((Field(name, "", Some(u[1])), 3))
    else if u[2] == ':' then ParseSpec(name, Some(u[1]), u[3..], 3)
    else None
  }

  function ParseSpec(name: string, conversion: Option<char>, v: string, read: nat): (r: Option<(Field, nat)>)
    ensures r.Some? ==> read < r.value.1 <= read + |v|
  {
    var k := SpecEnd(v);
    if k.None? then None else Some((Field(name, v[..k.value], conversion), read + k.value + 1))
  }

  /** One step of the parser: literal text up to an escaped brace or the end, or a field and the literal
      text before it; with the number of characters read. */
  function Next(s: string): (r: Option<(seq<Token>, nat)>)
    requires s != ""
    ensures r.Some? ==> 0 < r.value.1 <= |s|
  {
    var k := BraceAt(s);
    if k == |s| then Some(([Lit(s)], k))
    else if k + 1 < |s| && s[k + 1] == s[k] then Some(([Lit(s[..k + 1])], k + 2))
    else if s[k] == '}' then None
    else
      var f := ParseField(s[k + 1..]);
      if f.None? then None else Some((Head(s[..k], f.value.0), k + 1 + f.value.1))
  }

  /** The tokens of a template; `None` where it is malformed. */
  function Parse(s: string): Option<seq<Token>>
    decreases |s|
  {
    if s == "" then Some([])
    else
      var r := Next(s);
      if r.None? then None else Before(r.value.0, Parse(s[r.value.1..]))
  }

  function Before(tokens: seq<Token>, rest: Option<seq<Token>>): Option<seq<Token>> {
    if rest.None? then None else Some(tokens + rest.value)
  }

  /** A field with the literal text before it, if any. */
  function Head(text: string, f: Field): seq<Token> {
    (if text == "" then [] else [Lit(text)]) + [Rep(f)]
  }

  // ---------------------------------------------------------------- printing

  /** `_field_template` */
  function PrintField(f: Field): string {
    "{" + f.name + (if f.conversion.Some? then ['!', f.conversion.value] else "")
    + (if f.spec != "" then ":" + f.spec else "") + "}"
  }

  function EscapeChar(c: char): string {
    if c == '{' || c == '}' then [c, c] else [c]
  }

  function Escape(s: string): string {
    if s == "" then "" else EscapeChar(s[0]) + Escape(s[1..])
  }

  function Print(tokens: seq<Token>): string {
    if tokens == [] then ""
    else (match tokens[0] case Lit(t) => Escape(t) case Rep(f) => PrintField(f)) + Print(tokens[1..])
  }

  // ---------------------------------------------------------------- pieces

  /** Tokens down to single characters: how literal text is split does not matter. */
  datatype Piece = Char(c: char) | Shown(field: Field)

  function Chars(s: string): (p: seq<Piece>)
    ensures |p| == |s| && forall i :: 0 <= i < |s| ==> p[i] == Char(s[i])
  {
    seq(|s|, i requires 0 <= i < |s| => Char(s[i]))
  }

  function Pieces(tokens: seq<Token>): seq<Piece> {
    if tokens == [] then []
    else PiecesOfToken(tokens[0]) + Pieces(tokens[1..])
  }

  function NextPiece(s: string): (r: Option<(Piece, nat)>)
    requires s != ""
    ensures r.Some? ==> 0 < r.value.1 <= |s|
  {
    if s[0] != '{' && s[0] != '}' then Some((Char(s[0]), 1))
    else if |s| > 1 && s[1] == s[0] then Some((Char(s[0]), 2))
    else if s[0] == '}' then None
    else
      var f := ParseField(s[1..]);
      if f.None? then None else Some((Shown(f.value.0), 1 + f.value.1))
  }

  /** Parsing straight to pieces. */
  function ParsePieces(s: string): Option<seq<Piece>>
    decreases |s|
  {
    if s == "" then Some([])
    else
      var r := NextPiece(s);
      if r.None? then None else Onto([r.value.0], ParsePieces(s[r.value.1..]))
  }

  function Onto(pieces: seq<Piece>, rest: Option<seq<Piece>>): Option<seq<Piece>> {
    if rest.None? then None else Some(pieces + rest.value)
  }

  function PiecesOf(tokens: Option<seq<Token>>): Option<seq<Piece>> {
    if tokens.None? then None else Some(Pieces(tokens.value))
  }

  function PrintPiece(p: Piece): string {
    match p
    case Char(c) => EscapeChar(c)
    case Shown(f) => PrintField(f)
  }

  function PrintPieces(pieces: seq<Piece>): string {
    if pieces == [] then "" else PrintPiece(pieces[0]) + PrintPieces(pieces[1..])
  }

  function PiecesOfToken(t: Token): seq<Piece> {
    match t case Lit(text) => Chars(text) case Rep(f) => [Shown(f)]
  }

  lemma {:induction false} PiecesConcat(a: seq<Token>, b: seq<Token>)
    ensures Pieces(a + b) == Pieces(a) + Pieces(b)
  {
    if a == [] {
      assert a + b == b;
    } else {
      PiecesConcat(a[1..], b);
      assert (a + b)[1..] == a[1..] + b && (a + b)[0] == a[0];
      Regroup(PiecesOfToken(a[0]), Pieces(a[1..]), Pieces(b));
    }
  }

  lemma {:induction false} EscapeIsPieces(s: string, rest: seq<Piece>)
    ensures PrintPieces(Chars(s) + rest) == Escape(s) + PrintPieces(rest)
  {
    hide PrintField, EscapeChar;
    if s == "" {
      assert Chars(s) + rest == rest;
    } else {
      EscapeIsPieces(s[1..], rest);
      assert (Chars(s) + rest)[1..] == Chars(s[1..]) + rest && (Chars(s) + rest)[0] == Char(s[0]);
      Regroup(PrintPiece(Char(s[0])), Escape(s[1..]), PrintPieces(rest));
    }
  }

  lemma {:induction false} PrintIsPieces(tokens: seq<Token>)
    ensures Print(tokens) == PrintPieces(Pieces(tokens))
  {
    hide PrintField, EscapeChar;
    if tokens != [] {
      PrintIsPieces(tokens[1..]);
      var rest := Pieces(tokens[1..]);
      match tokens[0]
      case Lit(t) => EscapeIsPieces(t, rest);
      case Rep(f) => assert ([Shown(f)] + rest)[1..] == rest;
    }
  }

  // ---------------------------------------------------------------- the round trip

  /** A field as parsing gives it: printed, its name and its spec end where they ended. */
  predicate Clean(f: Field) {
    && NameEnd(f.name + "}", false) == Some(|f.name|)
    && SpecEnd(f.spec + "}") == Some(|f.spec|)
  }

  predicate AllClean(pieces: seq<Piece>) {
    forall i :: 0 <= i < |pieces| && pieces[i].Shown? ==> Clean(pieces[i].field)
  }

  /** Where a name ends depends only on the characters up to there. */
  lemma {:induction false} NameEndLocal(s: string, inBracket: bool, c: char, d: char, r: string)
    requires EndsName(c) && EndsName(d)
    requires NameEnd(s + [c], inBracket) == Some(|s|)
    ensures NameEnd(s + [d] + r, inBracket) == Some(|s|)
  {
    var t, u := s + [c], s + [d] + r;
    if s != "" {
      assert t[1..] == s[1..] + [c] && u[1..] == s[1..] + [d] + r;
      assert t[0] == s[0] && u[0] == s[0];
      NameEndLocal(s[1..], if inBracket then s[0] != ']' else s[0] == '[', c, d, r);
    }
  }

  lemma {:induction false} SpecEndLocal(s: string, r: string)
    requires SpecEnd(s + "}") == Some(|s|)
    ensures SpecEnd(s + "}" + r) == Some(|s|)
  {
    var t, u := s + "}", s + "}" + r;
    if s != "" {
      assert t[1..] == s[1..] + "}" && u[1..] == s[1..] + "}" + r;
      assert t[0] == s[0] && u[0] == s[0];
      SpecEndLocal(s[1..], r);
    }
  }

  lemma {:induction false} NameEndCut(s: string, inBracket: bool)
    ensures var k := NameEnd(s, inBracket);
            k.Some? ==> NameEnd(s[..k.value] + "}", inBracket) == Some(k.value)
  {
    var k := NameEnd(s, inBracket);
    if k.Some? && k.value > 0 {
      NameEndCut(s[1..], if inBracket then s[0] != ']' else s[0] == '[');
      assert (s[..k.value] + "}")[1..] == s[1..][..k.value - 1] + "}";
      assert (s[..k.value] + "}")[0] == s[0];
    }
  }

  lemma {:induction false} SpecEndCut(s: string)
    ensures var k := SpecEnd(s); k.Some? ==> SpecEnd(s[..k.value] + "}") == Some(k.value)
  {
    var k := SpecEnd(s);
    if k.Some? && k.value > 0 {
      SpecEndCut(s[1..]);
      assert (s[..k.value] + "}")[1..] == s[1..][..k.value - 1] + "}";
      assert (s[..k.value] + "}")[0] == s[0];
    }
  }

  lemma NoSpecIsClean()
    ensures SpecEnd("" + "}") == Some(0)
  {
  }

  lemma SpecIsClean(name: string, conversion: Option<char>, v: string, read: nat)
    requires NameEnd(name + "}", false) == Some(|name|)
    ensures var r := ParseSpec(name, conversion, v, read); r.Some? ==> Clean(r.value.0)
  {
    hide NameEnd, SpecEnd;
    SpecEndCut(v);
  }

  lemma ParsedTailIsClean(name: string, u: string)
    requires u != "" && EndsName(u[0]) && NameEnd(name + "}", false) == Some(|name|)
    ensures var r := ParseTail(name, u); r.Some? ==> Clean(r.value.0)
  {
    hide NameEnd, SpecEnd, ParseSpec;
    NoSpecIsClean();
    if u[0] == ':' {
      SpecIsClean(name, None, u[1..], 1);
    } else if u[0] == '!' && |u| >= 3 && u[2] == ':' {
      SpecIsClean(name, Some(u[1]), u[3..], 3);
    }
  }

  lemma ParsedFieldIsClean(s: string)
    ensures var r := ParseField(s); r.Some? ==> Clean(r.value.0)
  {
    hide NameEnd, ParseTail, Clean;
    var k := NameEnd(s, false);
    if k.Some? {
      NameEndCut(s, false);
      ParsedTailIsClean(s[..k.value], s[k.value..]);
    }
  }

  lemma CleanConcat(a: seq<Piece>, b: seq<Piece>)
    requires AllClean(a) && AllClean(b)
    ensures AllClean(a + b)
  {
  }

  lemma LitPieces(text: string)
    ensures Pieces([Lit(text)]) == Chars(text) && AllClean(Chars(text))
  {
    assert [Lit(text)][1..] == [];
  }

  lemma {:induction false} ParsedIsClean(s: string)
    ensures ParsePieces(s).Some? ==> AllClean(ParsePieces(s).value)
    decreases |s|
  {
    hide ParseField, Clean;
    if s != "" && NextPiece(s).Some? {
      ParsedIsClean(s[NextPiece(s).value.1..]);
      if NextPiece(s).value.0.Shown? {
        ParsedFieldIsClean(s[1..]);
      }
    }
  }

  /** Literal text up to a brace parses to its characters. */
  lemma {:induction false} LiteralPieces(s: string)
    ensures ParsePieces(s) == Onto(Chars(s[..BraceAt(s)]), ParsePieces(s[BraceAt(s)..]))
    decreases |s|
  {
    hide ParseField;
    var k := BraceAt(s);
    if k == 0 {
      assert s[..0] == "" && s[0..] == s;
      OntoNothing(ParsePieces(s));
    } else {
      LiteralPieces(s[1..]);
      assert s[1..][k - 1..] == s[k..] && s[1..][..k - 1] == s[1..k];
      OntoTwice([Char(s[0])], Chars(s[1..k]), ParsePieces(s[k..]));
      assert [Char(s[0])] + Chars(s[1..k]) == Chars(s[..k]);
    }
  }

  lemma OntoNothing(rest: Option<seq<Piece>>)
    ensures Onto([], rest) == rest
  {
    if rest.Some? {
      assert [] + rest.value == rest.value;
    }
  }

  lemma OntoTwice(a: seq<Piece>, b: seq<Piece>, rest: Option<seq<Piece>>)
    ensures Onto(a, Onto(b, rest)) == Onto(a + b, rest)
  {
    if rest.Some? {
      assert a + (b + rest.value) == a + b + rest.value;
    }
  }

  lemma TokensOnto(tokens: seq<Token>, rest: Option<seq<Token>>)
    ensures PiecesOf(Before(tokens, rest)) == Onto(Pieces(tokens), PiecesOf(rest))
  {
    if rest.Some? {
      PiecesConcat(tokens, rest.value);
    }
  }

  lemma CharsSnoc(s: string, k: nat)
    requires k < |s|
    ensures Chars(s[..k + 1]) == Chars(s[..k]) + [Char(s[k])]
  {
  }

  lemma SuffixAt(s: string, k: nat)
    requires k < |s|
    ensures s[k..][0] == s[k] && (k + 1 < |s| ==> s[k..][1] == s[k + 1]) && s[k..][1..] == s[k + 1..]
  {
  }

  lemma NextAtBrace(s: string, k: nat)
    requires k == BraceAt(s) && k < |s|
    ensures Next(s).None? <==> NextPiece(s[k..]).None?
    ensures Next(s).Some? ==> Next(s).value.1 == k + NextPiece(s[k..]).value.1
  {
    hide ParseField, BraceAt, Head;
    SuffixAt(s, k);
  }

  lemma NextPiecesAtBrace(s: string, k: nat)
    requires k == BraceAt(s) && k < |s| && Next(s).Some? && NextPiece(s[k..]).Some?
    ensures Pieces(Next(s).value.0) == Chars(s[..k]) + [NextPiece(s[k..]).value.0]
  {
    hide ParseField, BraceAt;
    SuffixAt(s, k);
    if k + 1 < |s| && s[k + 1] == s[k] {
      LitPieces(s[..k + 1]);
      CharsSnoc(s, k);
    } else {
      HeadPieces(s[..k], ParseField(s[k + 1..]).value.0);
    }
  }

  lemma OnlyText(s: string)
    requires s != "" && BraceAt(s) == |s|
    ensures ParsePieces(s) == Some(Chars(s)) && Next(s) == Some(([Lit(s)], |s|)) && Pieces([Lit(s)]) == Chars(s)
  {
    hide NextPiece, BraceAt;
    LiteralPieces(s);
    assert s[..|s|] == s && s[|s|..] == "";
    LitPieces(s);
    assert Chars(s) + [] == Chars(s);
  }

  lemma TextThenPiece(s: string, k: nat)
    requires k == BraceAt(s) && k < |s|
    ensures var p := NextPiece(s[k..]);
            ParsePieces(s) == if p.None? then None
                              else Onto(Chars(s[..k]) + [p.value.0], ParsePieces(s[k + p.value.1..]))
  {
    hide NextPiece, BraceAt;
    LiteralPieces(s);
    var p := NextPiece(s[k..]);
    if p.Some? {
      assert s[k..][p.value.1..] == s[k + p.value.1..];
      OntoTwice(Chars(s[..k]), [p.value.0], ParsePieces(s[k + p.value.1..]));
    }
  }

  /** One step of the parser gives the pieces that parsing to pieces gives up to there. */
  lemma NextIsPieces(s: string)
    requires s != ""
    ensures var r := Next(s);
            ParsePieces(s) == if r.None? then None else Onto(Pieces(r.value.0), ParsePieces(s[r.value.1..]))
  {
    hide Next, NextPiece, BraceAt;
    var k := BraceAt(s);
    if k == |s| {
      OnlyText(s);
      assert s[k..] == "";
      assert Chars(s) + [] == Chars(s);
    } else {
      TextThenPiece(s, k);
      NextAtBrace(s, k);
      if Next(s).Some? {
        NextPiecesAtBrace(s, k);
      }
    }
  }

  /** The tokens of a template are its pieces. */
  lemma {:induction false} ParseIsPieces(s: string)
    ensures PiecesOf(Parse(s)) == ParsePieces(s)
    decreases |s|
  {
    if s != "" {
      NextIsPieces(s);
      var r := Next(s);
      if r.Some? {
        ParseIsPieces(s[r.value.1..]);
        TokensOnto(r.value.0, Parse(s[r.value.1..]));
      }
    }
  }

  lemma HeadPieces(text: string, f: Field)
    ensures Pieces(Head(text, f)) == Chars(text) + [Shown(f)]
  {
    PiecesConcat(if text == "" then [] else [Lit(text)], [Rep(f)]);
    assert [Rep(f)][1..] == [] && [Lit(text)][1..] == [];
  }

  /** What is printed after a name. */
  function PrintTail(f: Field): string {
    (if f.conversion.Some? then ['!', f.conversion.value] else "") + (if f.spec != "" then ":" + f.spec else "") + "}"
  }

  lemma PrintedTailParses(f: Field, r: string)
    requires Clean(f)
    ensures var u := PrintTail(f) + r;
            EndsName(u[0]) && ParseTail(f.name, u) == Some((f, |PrintTail(f)|))
  {
    hide SpecEnd;
    var u := PrintTail(f) + r;
    var spec := f.spec + "}" + r;
    SpecEndLocal(f.spec, r);
    assert spec[..|f.spec|] == f.spec;
    if f.spec != "" && f.conversion.Some? {
      assert u == ['!', f.conversion.value, ':'] + spec;
      assert u[3..] == spec;
    } else if f.spec != "" {
      assert u == [':'] + spec;
      assert u[1..] == spec;
    } else if f.conversion.Some? {
      assert u == ['!', f.conversion.value, '}'] + r;
    } else {
      assert u == ['}'] + r;
    }
  }

  lemma SplitAt(a: string, u: string)
    requires u != ""
    ensures a + u == a + [u[0]] + u[1..]
    ensures (a + u)[..|a|] == a && (a + u)[|a|..] == u && (a + u)[0] == if a == "" then u[0] else a[0]
  {
  }

  /** A name and what follows it, taken apart. */
  lemma NameParses(name: string, u: string)
    requires NameEnd(name + "}", false) == Some(|name|) && u != "" && EndsName(u[0])
    ensures NameEnd(name + u, false) == Some(|name|)
    ensures (name + u)[..|name|] == name && (name + u)[|name|..] == u
    ensures (name + u)[0] != '{'
  {
    hide NameEnd;
    SplitAt(name, u);
    NameEndLocal(name, false, '}', u[0], u[1..]);
    NameStart(name);
  }

  /** A printed field parses back, whatever follows. */
  lemma PrintedFieldParses(f: Field, r: string)
    requires Clean(f)
    ensures var s := f.name + (PrintTail(f) + r);
            s != "" && s[0] != '{' && ParseField(s) == Some((f, |f.name| + |PrintTail(f)|))
  {
    hide NameEnd, ParseTail, PrintTail;
    PrintedTailParses(f, r);
    NameParses(f.name, PrintTail(f) + r);
  }

  lemma PrintFieldShape(f: Field, r: string)
    ensures PrintField(f) + r == "{" + (f.name + (PrintTail(f) + r))
    ensures (f.name + (PrintTail(f) + r))[|f.name| + |PrintTail(f)|..] == r
  {
    var conv := if f.conversion.Some? then ['!', f.conversion.value] else "";
    var spec := if f.spec != "" then ":" + f.spec else "";
    assert PrintField(f) == "{" + f.name + conv + spec + "}";
    assert PrintTail(f) == conv + spec + "}";
  }

  lemma NameStart(name: string)
    requires NameEnd(name + "}", false) == Some(|name|)
    ensures name != "" ==> name[0] != '{'
  {
    if name != "" {
      assert (name + "}")[0] == name[0];
    }
  }

  lemma ParseAfterField(f: Field, s: string)
    requires Clean(f)
    ensures ParsePieces(PrintField(f) + s) == Onto([Shown(f)], ParsePieces(s))
  {
    hide ParseField, PrintField, PrintTail;
    var u := f.name + (PrintTail(f) + s);
    PrintedFieldParses(f, s);
    PrintFieldShape(f, s);
    var t := "{" + u;
    assert t[1..] == u && t[1] == u[0];
    assert t[1 + (|f.name| + |PrintTail(f)|)..] == u[|f.name| + |PrintTail(f)|..];
  }

  lemma ParseAfterChar(c: char, s: string)
    ensures ParsePieces(PrintPiece(Char(c)) + s) == Onto([Char(c)], ParsePieces(s))
  {
    var t := PrintPiece(Char(c)) + s;
    assert t[|PrintPiece(Char(c))|..] == s;
  }

  /** What is printed parses back to the same text and fields. */
  lemma {:induction false} PrintedPiecesParse(pieces: seq<Piece>)
    requires AllClean(pieces)
    ensures ParsePieces(PrintPieces(pieces)) == Some(pieces)
  {
    hide NextPiece, PrintField, EscapeChar, Clean;
    if pieces != [] {
      PrintedPiecesParse(pieces[1..]);
      assert [pieces[0]] + pieces[1..] == pieces;
      match pieces[0]
      case Char(c) => ParseAfterChar(c, PrintPieces(pieces[1..]));
      case Shown(f) => ParseAfterField(f, PrintPieces(pieces[1..]));
    }
  }

  /** Printing tokens and parsing the template gives the same literal text and fields. */
  lemma PrintedParses(tokens: seq<Token>)
    requires AllClean(Pieces(tokens))
    ensures Parse(Print(tokens)).Some? && Pieces(Parse(Print(tokens)).value) == Pieces(tokens)
  {
    PrintIsPieces(tokens);
    PrintedPiecesParse(Pieces(tokens));
    ParseIsPieces(Print(tokens));
  }

  /** The fields of a parsed template print back as they were. */
  lemma ParsedTokensAreClean(s: string)
    requires Parse(s).Some?
    ensures AllClean(Pieces(Parse(s).value))
  {
    ParseIsPieces(s);
    ParsedIsClean(s);
  }
}
