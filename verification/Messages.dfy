/** Messages with typed parts, and trimming the full stops and spaces at their end. */
module Messages {
  import opened Wrappers
  import opened Sequences
  import opened Templates

  /** A `Param`, `PluginOption`, `Operation` or `CommandName`: the library text, and the operation if it
      is one. What a command line prints for it is up to the rendering. */
  datatype TypedPart = TypedPart(library: string, operation: Option<string>)

  /** `Text` is a plain string or a placeholder; `Opaque` any other plain value. */
  datatype Part = Text(text: string) | Opaque(id: int) | Typed(typed: TypedPart) | Nested(message: Message)

  datatype Message = Message(template: string, parts: map<string, Part>)

  /** How a text and how another plain value format in a field. */
  datatype Format = Format(text: (string, Field) -> string, plain: (int, Field) -> string)

  function Library(): TypedPart -> string {
    (t: TypedPart) => t.library
  }

  /** The part a field name starts with: up to the first attribute or index access. */
  function Root(name: string): string {
    if name == "" || name[0] == '.' || name[0] == '[' then "" else [name[0]] + Root(name[1..])
  }

  predicate AsItself(f: Field) {
    Root(f.name) == f.name && f.spec == "" && (f.conversion.None? || f.conversion == Some('s'))
  }

  lemma {:induction false} RootMeaning(name: string)
    ensures Root(name) <= name && '.' !in Root(name) && '[' !in Root(name)
    ensures Root(name) != name ==> name[|Root(name)|] == '.' || name[|Root(name)|] == '['
  {
    if name != "" && name[0] != '.' && name[0] != '[' {
      RootMeaning(name[1..]);
      assert name == [name[0]] + name[1..];
    }
  }

  /** A field shows its part as itself without an access, a spec, or a conversion other than `s`. */
  lemma AsItselfMeaning(f: Field)
    ensures AsItself(f) <==>
              '.' !in f.name && '[' !in f.name && f.spec == "" && (f.conversion == None || f.conversion == Some('s'))
  {
    RootMeaning(f.name);
  }

  /** A text shows as it is without a spec, an access, or a conversion other than `s`. */
  ghost predicate ShowsText(fmt: Format) {
    forall s, f :: AsItself(f) ==> fmt.text(s, f) == s
  }

  function TokensOf(m: Message): seq<Token> {
    if Parse(m.template).Some? then Parse(m.template).value else []
  }

  /** The text of a message with typed parts rendered by `r`. */
  function Render(fmt: Format, r: TypedPart -> string, m: Message): string
    decreases m, 1, 0
  {
    Show(fmt, r, m, Pieces(TokensOf(m)))
  }

  function Show(fmt: Format, r: TypedPart -> string, m: Message, pieces: seq<Piece>): string
    decreases m, 0, |pieces|
  {
    if pieces == [] then ""
    else
      var last := pieces[|pieces| - 1];
      Show(fmt, r, m, pieces[..|pieces| - 1]) +
      (match last
       case Char(c) => [c]
       case Shown(f) =>
         if Root(f.name) in m.parts then PartText(fmt, r, m.parts[Root(f.name)], f) else fmt.text("", f))
  }

  function PartText(fmt: Format, r: TypedPart -> string, p: Part, f: Field): string
    decreases p, 2, 0
  {
    match p
    case Text(t) => fmt.text(t, f)
    case Opaque(id) => fmt.plain(id, f)
    case Typed(t) => fmt.text(r(t), f)
    case Nested(n) => fmt.text(Render(fmt, r, n), f)
  }

  // ---------------------------------------------------------------- trimming

  predicate IsStop(c: char) {
    c == '.' || c == ' '
  }

  predicate AllStops(s: string) {
    forall i :: 0 <= i < |s| ==> IsStop(s[i])
  }

  ghost predicate OnlyStops(s: string) {
    forall c :: c in s ==> c == '.' || c == ' '
  }

  function RStrip(s: string): (t: string)
    ensures |t| <= |s| && t == s[..|t|] && AllStops(s[|t|..])
    ensures t != "" ==> !IsStop(t[|t| - 1])
  {
    if s != "" && IsStop(s[|s| - 1]) then RStrip(s[..|s| - 1]) else s
  }

  /** A name of no part, for the trimmed one. */
  function NewName(parts: map<string, Part>, name: string): (n: string)
    ensures AllPlain(name) ==> AllPlain(n)
    ensures n !in parts
    decreases |Longer(parts.Keys, |name|)|
  {
    if name !in parts then name
    else
      assert name in Longer(parts.Keys, |name|) && name !in Longer(parts.Keys, |name| + 1);
      assert Longer(parts.Keys, |name| + 1) < Longer(parts.Keys, |name|);
      SmallerSet(Longer(parts.Keys, |name| + 1), Longer(parts.Keys, |name|));
      NewName(parts, name + "_")
  }

  function Longer(keys: set<string>, n: nat): set<string> {
    set k | k in keys && |k| >= n
  }

  lemma SmallerSet(a: set<string>, b: set<string>)
    requires a < b
    ensures |a| < |b|
  {
    var x :| x in b && x !in a;
    assert a <= b - {x};
    SubsetSize(a, b - {x});
  }

  lemma SubsetSize(a: set<string>, b: set<string>)
    requires a <= b
    ensures |a| <= |b|
  {
    if a != {} {
      var x :| x in a;
      SubsetSize(a - {x}, b - {x});
    }
  }

  /** Letters and underscores: a name that parses and prints as it is. */
  predicate AllPlain(name: string) {
    forall i :: 0 <= i < |name| ==> name[i] == '_' || 'a' <= name[i] <= 'z'
  }

  function TrimmedField(parts: map<string, Part>): Field {
    Field(NewName(parts, "_stop_trimmed"), "", None)
  }

  /** What trimming makes of a template's tokens: the new tokens, the part the last one shows if it is
      new, and the name of the message that part replaces. */
  datatype Trimmed = Trimmed(tokens: seq<Token>, added: Option<Part>, replaced: Option<string>)

  function TrimTokens(fmt: Format, m: Message, tokens: seq<Token>): Trimmed
    decreases m, 0, |tokens|
  {
    if tokens == [] then Trimmed([], None, None)
    else
      var before := tokens[..|tokens| - 1];
      match tokens[|tokens| - 1]
      case Lit(t) =>
        if RStrip(t) != "" then Trimmed(before + [Lit(RStrip(t))], None, None) else TrimTokens(fmt, m, before)
      case Rep(f) =>
        var p := if Root(f.name) in m.parts then m.parts[Root(f.name)] else Text("");
        if p.Nested? && AsItself(f) then
          var n := Trim(fmt, p.message);
          if Render(fmt, Library(), n) != "" then
            Trimmed(before + [Rep(TrimmedField(m.parts))], Some(Nested(n)), Some(Root(f.name)))
          else TrimTokens(fmt, m, before)
        else if p.Nested? || p.Typed? then Trimmed(tokens, None, None)
        else
          var t := RStrip(PartText(fmt, Library(), p, f));
          if t != "" then Trimmed(before + [Rep(TrimmedField(m.parts))], Some(Text(t)), None)
          else TrimTokens(fmt, m, before)
  }

  function Roots(tokens: seq<Token>): set<string> {
    set i | 0 <= i < |tokens| && tokens[i].Rep? :: Root(tokens[i].field.name)
  }

  function TrimmedParts(parts: map<string, Part>, t: Trimmed): map<string, Part> {
    var with := if t.added.Some? then parts[TrimmedField(parts).name := t.added.value] else parts;
    if t.replaced.Some? && t.replaced.value !in Roots(t.tokens) then with - {t.replaced.value} else with
  }

  /** The message without the full stops and spaces at its end. */
  function Trim(fmt: Format, m: Message): Message
    decreases m, 1, 0
  {
    var t := TrimTokens(fmt, m, TokensOf(m));
    Message(Print(t.tokens), TrimmedParts(m.parts, t))
  }

  // ---------------------------------------------------------------- what trimming takes away

  /** What the end of a message loses: the same text in every rendering. */
  ghost function Lost(fmt: Format, m: Message): string
    decreases m, 1, 0
  {
    LostTokens(fmt, m, TokensOf(m))
  }

  ghost function LostTokens(fmt: Format, m: Message, tokens: seq<Token>): string
    decreases m, 0, |tokens|
  {
    if tokens == [] then ""
    else
      var before := tokens[..|tokens| - 1];
      match tokens[|tokens| - 1]
      case Lit(t) => if RStrip(t) != "" then t[|RStrip(t)|..] else LostTokens(fmt, m, before) + t
      case Rep(f) =>
        var p := if Root(f.name) in m.parts then m.parts[Root(f.name)] else Text("");
        if p.Nested? && AsItself(f) then
          (if Render(fmt, Library(), Trim(fmt, p.message)) != "" then "" else LostTokens(fmt, m, before))
          + Lost(fmt, p.message)
        else if p.Nested? || p.Typed? then ""
        else
          var t := PartText(fmt, Library(), p, f);
          if RStrip(t) != "" then t[|RStrip(t)|..] else LostTokens(fmt, m, before) + t
  }

  /** A field that trimming leaves as it is: a typed part, or a message not shown as itself. */
  predicate Kept(p: Part, f: Field) {
    p.Typed? || (p.Nested? && !AsItself(f))
  }

  /** Every field names a part, in the messages it shows as well: nothing else can be built. */
  ghost predicate Filled(m: Message)
    decreases m, 1
  {
    forall i :: 0 <= i < |TokensOf(m)| ==> FilledToken(m, TokensOf(m)[i])
  }

  ghost predicate FilledToken(m: Message, t: Token)
    decreases m, 0
  {
    t.Rep? ==>
      && Root(t.field.name) in m.parts
      && (m.parts[Root(t.field.name)].Nested? ==> Filled(m.parts[Root(t.field.name)].message))
  }

  ghost predicate FilledTokens(m: Message, tokens: seq<Token>) {
    forall i :: 0 <= i < |tokens| ==> FilledToken(m, tokens[i])
  }

  /** Trimming reaches a message shown as itself and drops it, because what its own trimming leaves is
      empty in the library text, although that shows something in the rendering `r`. */
  ghost predicate Drops(fmt: Format, r: TypedPart -> string, m: Message)
    decreases m, 1, 0
  {
    DropsIn(fmt, r, m, TokensOf(m))
  }

  ghost predicate DropsIn(fmt: Format, r: TypedPart -> string, m: Message, tokens: seq<Token>)
    decreases m, 0, |tokens|
  {
    if tokens == [] then false
    else
      var before := tokens[..|tokens| - 1];
      match tokens[|tokens| - 1]
      case Lit(t) => RStrip(t) == "" && DropsIn(fmt, r, m, before)
      case Rep(f) =>
        var p := if Root(f.name) in m.parts then m.parts[Root(f.name)] else Text("");
        if p.Nested? && AsItself(f) then
          var n := Trim(fmt, p.message);
          || Drops(fmt, r, p.message)
          || (Render(fmt, Library(), n) == "" && (Render(fmt, r, n) != "" || DropsIn(fmt, r, m, before)))
        else if p.Nested? || p.Typed? then false
        else RStrip(PartText(fmt, Library(), p, f)) == "" && DropsIn(fmt, r, m, before)
  }

  /** The text of the new part, which shows as itself. */
  function AddedText(fmt: Format, r: TypedPart -> string, p: Part): string {
    match p case Text(t) => t case Nested(n) => Render(fmt, r, n) case _ => ""
  }

  /** The text of trimmed tokens. */
  function ShowTrimmed(fmt: Format, r: TypedPart -> string, m: Message, t: Trimmed): string {
    if t.added.Some? && t.tokens != [] then
      Show(fmt, r, m, Pieces(t.tokens[..|t.tokens| - 1])) + AddedText(fmt, r, t.added.value)
    else Show(fmt, r, m, Pieces(t.tokens))
  }

  lemma {:induction false} ShowText(fmt: Format, r: TypedPart -> string, m: Message, a: seq<Piece>, t: string)
    ensures Show(fmt, r, m, a + Chars(t)) == Show(fmt, r, m, a) + t
  {
    if t == "" {
      assert a + Chars(t) == a;
    } else {
      var n := |t| - 1;
      ShowText(fmt, r, m, a, t[..n]);
      assert (a + Chars(t))[..|a + Chars(t)| - 1] == a + Chars(t[..n]);
      assert t == t[..n] + [t[n]];
    }
  }

  function PieceText(fmt: Format, r: TypedPart -> string, m: Message, f: Field): string {
    if Root(f.name) in m.parts then PartText(fmt, r, m.parts[Root(f.name)], f) else fmt.text("", f)
  }

  function TokenText(fmt: Format, r: TypedPart -> string, m: Message, t: Token): string {
    if t.Lit? then t.text else PieceText(fmt, r, m, t.field)
  }

  lemma PiecesLast(before: seq<Token>, last: Token)
    ensures Pieces(before + [last]) == Pieces(before) + PiecesOfToken(last)
  {
    PiecesConcat(before, [last]);
    assert [last][1..] == [] && Pieces([last]) == PiecesOfToken(last);
  }

  lemma ShowField(fmt: Format, r: TypedPart -> string, m: Message, a: seq<Piece>, f: Field)
    ensures Show(fmt, r, m, a + [Shown(f)]) == Show(fmt, r, m, a) + PieceText(fmt, r, m, f)
  {
    hide PartText, Root;
    assert (a + [Shown(f)])[..|a|] == a;
  }

  /** The text of tokens with one more at the end. */
  lemma ShowLast(fmt: Format, r: TypedPart -> string, m: Message, before: seq<Token>, last: Token)
    ensures Show(fmt, r, m, Pieces(before + [last])) ==
            Show(fmt, r, m, Pieces(before)) + TokenText(fmt, r, m, last)
  {
    hide Show, Pieces, PieceText;
    PiecesLast(before, last);
    match last
    case Lit(t) => ShowText(fmt, r, m, Pieces(before), t);
    case Rep(f) => ShowField(fmt, r, m, Pieces(before), f);
  }

  lemma LastToken(tokens: seq<Token>)
    requires tokens != []
    ensures tokens == tokens[..|tokens| - 1] + [tokens[|tokens| - 1]]
  {
  }

  lemma StopsConcat(a: string, b: string)
    requires AllStops(a) && AllStops(b)
    ensures AllStops(a + b)
  {
  }

  /** The text of tokens against the text of the trimmed tokens and what is lost: the same when
      nothing is dropped, else longer. */
  ghost predicate TokensMeasured(fmt: Format, r: TypedPart -> string, m: Message, tokens: seq<Token>) {
    && AllStops(LostTokens(fmt, m, tokens))
    && Measured(Show(fmt, r, m, Pieces(tokens)), ShowTrimmed(fmt, r, m, TrimTokens(fmt, m, tokens)),
                LostTokens(fmt, m, tokens), DropsIn(fmt, r, m, tokens))
  }

  ghost predicate Measured(text: string, rest: string, lost: string, drops: bool) {
    if drops then |text| > |rest| + |lost| else text == rest + lost
  }

  /** The same for a whole message. */
  ghost predicate MessageMeasured(fmt: Format, r: TypedPart -> string, m: Message) {
    && AllStops(Lost(fmt, m))
    && Measured(Render(fmt, r, m), Render(fmt, r, Trim(fmt, m)), Lost(fmt, m), Drops(fmt, r, m))
  }

  lemma MeasuredEnd(text: string, rest: string, lost: string, drops: bool, end: string)
    requires Measured(text, rest, lost, drops)
    ensures Measured(text + end, rest, lost + end, drops)
  {
    if !drops {
      Regroup(rest, lost, end);
    }
  }

  lemma MeasuredStart(text: string, rest: string, lost: string, drops: bool, start: string)
    requires Measured(text, rest, lost, drops)
    ensures Measured(start + text, start + rest, lost, drops)
  {
    if !drops {
      Regroup(start, rest, lost);
    }
  }

  lemma TextMeasured(fmt: Format, r: TypedPart -> string, m: Message, before: seq<Token>, t: string)
    requires TokensMeasured(fmt, r, m, before)
    ensures TokensMeasured(fmt, r, m, before + [Lit(t)])
  {
    hide Render, Trim, Pieces, Root, NewName, PartText, Measured;
    var tokens := before + [Lit(t)];
    assert tokens[..|tokens| - 1] == before;
    ShowLast(fmt, r, m, before, Lit(t));
    var s := RStrip(t);
    if s != "" {
      ShowLast(fmt, r, m, before, Lit(s));
      assert t == s + t[|s|..];
      SplitMeasured(s, t[|s|..]);
      MeasuredStart(t, s, t[|s|..], false, Show(fmt, r, m, Pieces(before)));
    } else {
      MeasuredEnd(Show(fmt, r, m, Pieces(before)), ShowTrimmed(fmt, r, m, TrimTokens(fmt, m, before)),
                  LostTokens(fmt, m, before), DropsIn(fmt, r, m, before), t);
      StopsConcat(LostTokens(fmt, m, before), t);
    }
  }

  lemma NestedStep(fmt: Format, r: TypedPart -> string, m: Message, before: seq<Token>, f: Field)
    requires Root(f.name) in m.parts && m.parts[Root(f.name)].Nested? && AsItself(f)
    ensures var n := m.parts[Root(f.name)].message; var tokens := before + [Rep(f)];
            if Render(fmt, Library(), Trim(fmt, n)) != "" then
              && TrimTokens(fmt, m, tokens) ==
                 Trimmed(before + [Rep(TrimmedField(m.parts))], Some(Nested(Trim(fmt, n))), Some(Root(f.name)))
              && LostTokens(fmt, m, tokens) == Lost(fmt, n)
              && DropsIn(fmt, r, m, tokens) == Drops(fmt, r, n)
            else
              && TrimTokens(fmt, m, tokens) == TrimTokens(fmt, m, before)
              && LostTokens(fmt, m, tokens) == LostTokens(fmt, m, before) + Lost(fmt, n)
              && DropsIn(fmt, r, m, tokens) ==
                 (Drops(fmt, r, n) || Render(fmt, r, Trim(fmt, n)) != "" || DropsIn(fmt, r, m, before))
  {
    hide Render, Trim, Lost, NewName, Root, Drops;
    var n, tokens := m.parts[Root(f.name)].message, before + [Rep(f)];
    assert tokens[..|tokens| - 1] == before;
    assert "" + Lost(fmt, n) == Lost(fmt, n);
  }

  /** Two measured texts, one after the other, the second of which leaves nothing unless it drops. */
  lemma MeasuredBoth(text: string, rest: string, lost: string, drops: bool,
                     text2: string, rest2: string, lost2: string, drops2: bool)
    requires Measured(text, rest, lost, drops) && Measured(text2, rest2, lost2, drops2)
    ensures Measured(text + text2, rest, lost + lost2, drops2 || rest2 != "" || drops)
  {
    if !drops && !drops2 && rest2 == "" {
      assert text2 == lost2;
      Regroup(rest, lost, lost2);
    }
  }

  /** The last field shows a message as itself. */
  lemma NestedMeasured(fmt: Format, r: TypedPart -> string, m: Message, before: seq<Token>, f: Field)
    requires ShowsText(fmt) && TokensMeasured(fmt, r, m, before)
    requires Root(f.name) in m.parts && m.parts[Root(f.name)].Nested? && AsItself(f)
    requires MessageMeasured(fmt, r, m.parts[Root(f.name)].message)
    ensures TokensMeasured(fmt, r, m, before + [Rep(f)])
  {
    hide Render, Trim, TrimTokens, Lost, LostTokens, NewName, Pieces, Show, Root, Measured, Drops, DropsIn;
    var n, tokens := m.parts[Root(f.name)].message, before + [Rep(f)];
    var after := Trim(fmt, n);
    NestedStep(fmt, r, m, before, f);
    ShowLast(fmt, r, m, before, Rep(f));
    assert PieceText(fmt, r, m, f) == Render(fmt, r, n);
    if Render(fmt, Library(), after) != "" {
      assert (before + [Rep(TrimmedField(m.parts))])[..|before|] == before;
      MeasuredStart(Render(fmt, r, n), Render(fmt, r, after), Lost(fmt, n), Drops(fmt, r, n),
                    Show(fmt, r, m, Pieces(before)));
    } else {
      MeasuredBoth(Show(fmt, r, m, Pieces(before)), ShowTrimmed(fmt, r, m, TrimTokens(fmt, m, before)),
                   LostTokens(fmt, m, before), DropsIn(fmt, r, m, before),
                   Render(fmt, r, n), Render(fmt, r, after), Lost(fmt, n), Drops(fmt, r, n));
      StopsConcat(LostTokens(fmt, m, before), Lost(fmt, n));
    }
  }

  /** The last field shows a typed part, or a message not as itself. */
  lemma KeptMeasured(fmt: Format, r: TypedPart -> string, m: Message, before: seq<Token>, f: Field)
    requires Root(f.name) in m.parts && Kept(m.parts[Root(f.name)], f)
    ensures TokensMeasured(fmt, r, m, before + [Rep(f)])
  {
    hide Pieces, RStrip, Render, PartText;
    var tokens := before + [Rep(f)];
    assert tokens[|tokens| - 1] == Rep(f);
    assert TrimTokens(fmt, m, tokens) == Trimmed(tokens, None, None) && LostTokens(fmt, m, tokens) == "";
    var text := Show(fmt, r, m, Pieces(tokens));
    assert text + "" == text;
  }

  lemma PlainStep(fmt: Format, r: TypedPart -> string, m: Message, before: seq<Token>, f: Field, text: string)
    requires Root(f.name) in m.parts && text == PartText(fmt, Library(), m.parts[Root(f.name)], f)
    requires m.parts[Root(f.name)].Text? || m.parts[Root(f.name)].Opaque?
    ensures var s := RStrip(text); var tokens := before + [Rep(f)];
            if s != "" then
              && TrimTokens(fmt, m, tokens) == Trimmed(before + [Rep(TrimmedField(m.parts))], Some(Text(s)), None)
              && LostTokens(fmt, m, tokens) == text[|s|..]
              && !DropsIn(fmt, r, m, tokens)
            else
              && TrimTokens(fmt, m, tokens) == TrimTokens(fmt, m, before)
              && LostTokens(fmt, m, tokens) == LostTokens(fmt, m, before) + text
              && DropsIn(fmt, r, m, tokens) == DropsIn(fmt, r, m, before)
  {
    hide PartText, Trim, Lost, NewName, Root, RStrip, Drops, Render;
    var tokens := before + [Rep(f)];
    assert tokens[..|tokens| - 1] == before;
  }

  /** The last field shows a plain value. */
  lemma PlainMeasured(fmt: Format, r: TypedPart -> string, m: Message, before: seq<Token>, f: Field)
    requires TokensMeasured(fmt, r, m, before) && Root(f.name) in m.parts
    requires m.parts[Root(f.name)].Text? || m.parts[Root(f.name)].Opaque?
    ensures TokensMeasured(fmt, r, m, before + [Rep(f)])
  {
    hide Render, Trim, TrimTokens, Lost, LostTokens, NewName, Pieces, Show, Root, RStrip, Measured, DropsIn;
    var text := PieceText(fmt, r, m, f);
    PlainStep(fmt, r, m, before, f, text);
    ShowLast(fmt, r, m, before, Rep(f));
    var s := RStrip(text);
    if s != "" {
      assert (before + [Rep(TrimmedField(m.parts))])[..|before|] == before;
      assert text == s + text[|s|..];
      SplitMeasured(s, text[|s|..]);
      MeasuredStart(text, s, text[|s|..], false, Show(fmt, r, m, Pieces(before)));
    } else {
      assert text[0..] == text;
      MeasuredEnd(Show(fmt, r, m, Pieces(before)), ShowTrimmed(fmt, r, m, TrimTokens(fmt, m, before)),
                  LostTokens(fmt, m, before), DropsIn(fmt, r, m, before), text);
      StopsConcat(LostTokens(fmt, m, before), text);
    }
  }

  lemma SplitMeasured(rest: string, lost: string)
    ensures Measured(rest + lost, rest, lost, false)
  {
  }

  lemma {:induction false} MeasureTokens(fmt: Format, r: TypedPart -> string, m: Message, tokens: seq<Token>)
    requires ShowsText(fmt) && FilledTokens(m, tokens)
    ensures TokensMeasured(fmt, r, m, tokens)
    decreases m, 0, |tokens|
  {
    if tokens != [] {
      var before, last := tokens[..|tokens| - 1], tokens[|tokens| - 1];
      LastToken(tokens);
      MeasureTokens(fmt, r, m, before);
      assert FilledToken(m, last);
      match last
      case Lit(t) => TextMeasured(fmt, r, m, before, t);
      case Rep(f) =>
        var p := m.parts[Root(f.name)];
        if p.Nested? && AsItself(f) {
          Measure(fmt, r, p.message);
          NestedMeasured(fmt, r, m, before, f);
        } else if p.Nested? || p.Typed? {
          KeptMeasured(fmt, r, m, before, f);
        } else {
          PlainMeasured(fmt, r, m, before, f);
        }
    }
  }

  // ---------------------------------------------------------------- the trimmed message

  lemma {:induction false} PlainName(name: string)
    requires AllPlain(name)
    ensures Root(name) == name && NameEnd(name + "}", false) == Some(|name|)
  {
    if name != "" {
      PlainName(name[1..]);
      assert (name + "}")[1..] == name[1..] + "}" && (name + "}")[0] == name[0];
    }
  }

  /** What trimmed tokens look like beside the tokens they come from. */
  ghost predicate TrimShape(fmt: Format, m: Message, tokens: seq<Token>, t: Trimmed) {
    var n := |t.tokens| - 1;
    && n < |tokens|
    && (forall i :: 0 <= i < n ==> t.tokens[i] == tokens[i])
    && (t.added.None? ==> t.replaced.None?)
    && (t.added.None? && 0 <= n ==> EndsKept(m, tokens[n], t.tokens[n]))
    && (t.added.Some? ==> 0 <= n && t.tokens[n] == Rep(TrimmedField(m.parts)) && EndsNew(fmt, m, t))
  }

  ghost predicate EndsKept(m: Message, token: Token, last: Token) {
    if token.Rep? then
      last == token && (Root(token.field.name) in m.parts ==> Kept(m.parts[Root(token.field.name)], token.field))
    else last.Lit? && last.text != "" && !IsStop(last.text[|last.text| - 1])
  }

  ghost predicate EndsNew(fmt: Format, m: Message, t: Trimmed)
    requires t.added.Some?
  {
    if t.replaced.Some? then
      && t.replaced.value in m.parts && m.parts[t.replaced.value].Nested?
      && t.added.value == Nested(Trim(fmt, m.parts[t.replaced.value].message))
      && Render(fmt, Library(), t.added.value.message) != ""
    else
      && t.added.value.Text? && t.added.value.text != ""
      && !IsStop(t.added.value.text[|t.added.value.text| - 1])
  }

  lemma ShapeGrows(fmt: Format, m: Message, before: seq<Token>, last: Token, t: Trimmed)
    requires TrimShape(fmt, m, before, t)
    ensures TrimShape(fmt, m, before + [last], t)
  {
    hide EndsKept, EndsNew, Trim, Render;
  }

  lemma ShapeOfText(fmt: Format, m: Message, before: seq<Token>, text: string)
    requires RStrip(text) != ""
    ensures TrimShape(fmt, m, before + [Lit(text)], Trimmed(before + [Lit(RStrip(text))], None, None))
  {
    hide EndsNew, Trim, Render;
  }

  lemma ShapeOfKept(fmt: Format, m: Message, before: seq<Token>, f: Field)
    requires Root(f.name) in m.parts && Kept(m.parts[Root(f.name)], f)
    ensures TrimShape(fmt, m, before + [Rep(f)], Trimmed(before + [Rep(f)], None, None))
  {
    hide EndsNew, Trim, Render, Root;
  }

  lemma ShapeOfNew(fmt: Format, m: Message, before: seq<Token>, last: Token, t: Trimmed)
    requires t.tokens == before + [Rep(TrimmedField(m.parts))] && t.added.Some? && EndsNew(fmt, m, t)
    ensures TrimShape(fmt, m, before + [last], t)
  {
    hide EndsNew, EndsKept, Trim, Render, NewName;
  }

  lemma {:induction false} TrimTokensShape(fmt: Format, m: Message, tokens: seq<Token>)
    requires FilledTokens(m, tokens)
    ensures TrimShape(fmt, m, tokens, TrimTokens(fmt, m, tokens))
  {
    hide TrimShape, NewName, Render, PartText, Trim, Root, RStrip;
    if tokens == [] {
      EmptyShape(fmt, m);
    } else {
      var before, last := tokens[..|tokens| - 1], tokens[|tokens| - 1];
      LastToken(tokens);
      assert FilledToken(m, last);
      TrimTokensShape(fmt, m, before);
      var t := TrimTokens(fmt, m, tokens);
      ShapeGrows(fmt, m, before, last, TrimTokens(fmt, m, before));
      if last.Lit? {
        if RStrip(last.text) != "" {
          ShapeOfText(fmt, m, before, last.text);
        }
      } else if Kept(m.parts[Root(last.field.name)], last.field) {
        ShapeOfKept(fmt, m, before, last.field);
      } else if t.added.Some? && t != TrimTokens(fmt, m, before) {
        ShapeOfNew(fmt, m, before, last, t);
      }
    }
  }

  lemma EmptyShape(fmt: Format, m: Message)
    ensures TrimShape(fmt, m, [], Trimmed([], None, None))
  {
  }

  lemma {:induction false} PieceOfToken(tokens: seq<Token>, f: Field)
    ensures Shown(f) in Pieces(tokens) <==> Rep(f) in tokens
  {
    if tokens != [] {
      PieceOfToken(tokens[1..], f);
      assert tokens == [tokens[0]] + tokens[1..];
    }
  }

  lemma CleanTokens(tokens: seq<Token>)
    requires forall i :: 0 <= i < |tokens| && tokens[i].Rep? ==> Clean(tokens[i].field)
    ensures AllClean(Pieces(tokens))
  {
    forall i | 0 <= i < |Pieces(tokens)| && Pieces(tokens)[i].Shown? ensures Clean(Pieces(tokens)[i].field) {
      PieceOfToken(tokens, Pieces(tokens)[i].field);
    }
  }

  lemma TokensAreClean(tokens: seq<Token>, i: nat)
    requires AllClean(Pieces(tokens)) && i < |tokens| && tokens[i].Rep?
    ensures Clean(tokens[i].field)
  {
    PieceOfToken(tokens, tokens[i].field);
  }

  /** The trimmed template parses back to the trimmed tokens, up to how literal text is split. */
  lemma TrimReparses(fmt: Format, m: Message)
    requires Filled(m)
    ensures var t := TrimTokens(fmt, m, TokensOf(m));
            Parse(Trim(fmt, m).template).Some? && Pieces(TokensOf(Trim(fmt, m))) == Pieces(t.tokens)
  {
    hide Render, PartText, TrimTokens, NameEnd, SpecEnd, Parse, Pieces, Print, Root, EndsNew;
    var tokens := TokensOf(m);
    var t := TrimTokens(fmt, m, tokens);
    TrimTokensShape(fmt, m, tokens);
    if Parse(m.template).Some? {
      ParsedTokensAreClean(m.template);
    }
    forall i | 0 <= i < |t.tokens| && t.tokens[i].Rep? ensures Clean(t.tokens[i].field) {
      if t.added.Some? && i == |t.tokens| - 1 {
        PlainName(TrimmedField(m.parts).name);
        NoSpecIsClean();
      } else {
        TokensAreClean(tokens, i);
      }
    }
    CleanTokens(t.tokens);
    PrintedParses(t.tokens);
  }

  /** Two messages show tokens alike where they have the same parts for them. */
  ghost predicate SameFor(a: map<string, Part>, b: map<string, Part>, tokens: seq<Token>) {
    forall i :: 0 <= i < |tokens| && tokens[i].Rep? ==>
      var root := Root(tokens[i].field.name); root in a && root in b && a[root] == b[root]
  }

  lemma {:induction false} SameShow(fmt: Format, r: TypedPart -> string, m: Message, m2: Message, tokens: seq<Token>)
    requires SameFor(m.parts, m2.parts, tokens)
    ensures Show(fmt, r, m, Pieces(tokens)) == Show(fmt, r, m2, Pieces(tokens))
    decreases |tokens|
  {
    hide Render;
    if tokens != [] {
      var before, last := tokens[..|tokens| - 1], tokens[|tokens| - 1];
      SameShow(fmt, r, m, m2, before);
      LastToken(tokens);
      ShowLast(fmt, r, m, before, last);
      ShowLast(fmt, r, m2, before, last);
    }
  }

  lemma TrimKeepsParts(fmt: Format, m: Message)
    requires Filled(m)
    ensures var t := TrimTokens(fmt, m, TokensOf(m)); var n := |t.tokens|;
            && (t.added.None? ==> SameFor(m.parts, Trim(fmt, m).parts, t.tokens))
            && (t.added.Some? ==> n > 0 && SameFor(m.parts, Trim(fmt, m).parts, t.tokens[..n - 1]))
  {
    hide Render, PartText, TrimTokens, NewName, Root, Parse, Print;
    var tokens := TokensOf(m);
    var t := TrimTokens(fmt, m, tokens);
    TrimTokensShape(fmt, m, tokens);
    var m2 := Trim(fmt, m);
    forall i | 0 <= i < |t.tokens| && t.tokens[i].Rep? && (t.added.Some? ==> i < |t.tokens| - 1)
      ensures var root := Root(t.tokens[i].field.name);
              root in m.parts && root in m2.parts && m.parts[root] == m2.parts[root]
    {
      assert FilledToken(m, tokens[i]);
      assert Root(t.tokens[i].field.name) in Roots(t.tokens);
    }
  }

  /** The new part, under its name. */
  lemma TrimAdds(fmt: Format, m: Message)
    requires Filled(m) && TrimTokens(fmt, m, TokensOf(m)).added.Some?
    ensures var f := TrimmedField(m.parts); var parts := Trim(fmt, m).parts;
            AsItself(f) && f.name in parts && parts[f.name] == TrimTokens(fmt, m, TokensOf(m)).added.value
  {
    hide Render, PartText, TrimTokens, Root, Parse, Print, Roots;
    TrimTokensShape(fmt, m, TokensOf(m));
    PlainName(TrimmedField(m.parts).name);
  }

  lemma RenderTrim(fmt: Format, r: TypedPart -> string, m: Message)
    requires ShowsText(fmt) && Filled(m)
    ensures Render(fmt, r, Trim(fmt, m)) == ShowTrimmed(fmt, r, m, TrimTokens(fmt, m, TokensOf(m)))
  {
    hide TrimTokens, Root, Parse, Print, RStrip, Pieces;
    var t, m2 := TrimTokens(fmt, m, TokensOf(m)), Trim(fmt, m);
    TrimReparses(fmt, m);
    TrimKeepsParts(fmt, m);
    if t.added.Some? {
      var before := t.tokens[..|t.tokens| - 1];
      TrimTokensShape(fmt, m, TokensOf(m));
      TrimAdds(fmt, m);
      LastToken(t.tokens);
      SameShow(fmt, r, m, m2, before);
      ShowLast(fmt, r, m2, before, t.tokens[|t.tokens| - 1]);
    } else {
      SameShow(fmt, r, m, m2, t.tokens);
    }
  }

  lemma Measure(fmt: Format, r: TypedPart -> string, m: Message)
    requires ShowsText(fmt) && Filled(m)
    ensures MessageMeasured(fmt, r, m)
    decreases m, 1, 0
  {
    hide Measured, TrimTokens, LostTokens, DropsIn;
    MeasureTokens(fmt, r, m, TokensOf(m));
    RenderTrim(fmt, r, m);
  }

  /** Trimming takes the same end from this rendering as from the library text. */
  ghost predicate LosesAlike(fmt: Format, r: TypedPart -> string, m: Message) {
    Render(fmt, r, m) == Render(fmt, r, Trim(fmt, m)) + Lost(fmt, m)
  }

  lemma {:induction false} LibraryDropsNothing(fmt: Format, m: Message, tokens: seq<Token>)
    ensures !DropsIn(fmt, Library(), m, tokens)
    decreases m, 0, |tokens|
  {
    hide Render, PartText, Trim, Root, RStrip;
    if tokens != [] {
      LibraryDropsNothing(fmt, m, tokens[..|tokens| - 1]);
      var last := tokens[|tokens| - 1];
      if last.Rep? && Root(last.field.name) in m.parts && m.parts[Root(last.field.name)].Nested? {
        var n := m.parts[Root(last.field.name)].message;
        LibraryDropsNothing(fmt, n, TokensOf(n));
      }
    }
  }

  /** Trimming takes an end of full stops and spaces from the library text, and the same end from
      another rendering exactly when it drops no message that shows something there. */
  lemma InStep(fmt: Format, r: TypedPart -> string, m: Message)
    requires ShowsText(fmt) && Filled(m)
    ensures OnlyStops(Lost(fmt, m)) && LosesAlike(fmt, Library(), m)
    ensures LosesAlike(fmt, r, m) <==> !Drops(fmt, r, m)
  {
    hide Render, Trim, Lost, DropsIn;
    Measure(fmt, r, m);
    Measure(fmt, Library(), m);
    LibraryDropsNothing(fmt, m, TokensOf(m));
  }

  // ---------------------------------------------------------------- trimming again

  /** No literal token is empty. */
  predicate TextTokens(tokens: seq<Token>) {
    forall i :: 0 <= i < |tokens| && tokens[i].Lit? ==> tokens[i].text != ""
  }

  lemma {:induction false} ParsedTextTokens(s: string)
    ensures Parse(s).Some? ==> TextTokens(Parse(s).value)
    decreases |s|
  {
    hide ParseField, BraceAt;
    if s != "" && Next(s).Some? {
      ParsedTextTokens(s[Next(s).value.1..]);
    }
  }

  /** The last token decides the last piece. */
  lemma LastPiece(tokens: seq<Token>)
    requires tokens != [] && TextTokens(tokens)
    ensures Pieces(tokens) != []
    ensures var last := tokens[|tokens| - 1];
            Pieces(tokens)[|Pieces(tokens)| - 1] ==
            if last.Rep? then Shown(last.field) else Char(last.text[|last.text| - 1])
  {
    var last := tokens[|tokens| - 1];
    LastToken(tokens);
    PiecesConcat(tokens[..|tokens| - 1], [last]);
    assert [last][1..] == [] && Pieces([last]) == PiecesOfToken(last);
  }

  lemma RStripOfEnd(s: string)
    requires s != "" && !IsStop(s[|s| - 1])
    ensures RStrip(s) == s && s[|s|..] == ""
  {
  }

  /** The last token of the trimmed message after parsing: what the last trimmed token was. */
  lemma TrimmedLast(fmt: Format, m: Message)
    requires Filled(m)
    ensures var t := TrimTokens(fmt, m, TokensOf(m)).tokens; var u := TokensOf(Trim(fmt, m));
            && (t == [] <==> u == [])
            && (t != [] ==> var a := t[|t| - 1]; var b := u[|u| - 1];
                            if a.Rep? then b == a else b.Lit? && b.text != "" && !IsStop(b.text[|b.text| - 1]))
  {
    hide TrimTokens, Parse, Render, PartText, Root, Trim, EndsNew, Pieces, NewName, FilledToken, RStrip;
    var t, u := TrimTokens(fmt, m, TokensOf(m)), TokensOf(Trim(fmt, m));
    TrimReparses(fmt, m);
    TrimTokensShape(fmt, m, TokensOf(m));
    ParsedTextTokens(m.template);
    ParsedTextTokens(Trim(fmt, m).template);
    TrimmedTextTokens(fmt, m, TokensOf(m), t);
    SameEnds(t.tokens, u);
  }

  /** Tokens that show the same pieces end alike. */
  lemma SameEnds(a: seq<Token>, b: seq<Token>)
    requires Pieces(a) == Pieces(b) && TextTokens(a) && TextTokens(b)
    ensures a == [] <==> b == []
    ensures a != [] ==>
              var x, y := a[|a| - 1], b[|b| - 1];
              if x.Rep? then y == x else y.Lit? && y.text != "" && y.text[|y.text| - 1] == x.text[|x.text| - 1]
  {
    hide Pieces;
    NoPieces();
    if a != [] { LastPiece(a); }
    if b != [] { LastPiece(b); }
  }

  lemma NoPieces()
    ensures Pieces([]) == []
  {
  }

  lemma TrimmedTextTokens(fmt: Format, m: Message, tokens: seq<Token>, t: Trimmed)
    requires TrimShape(fmt, m, tokens, t) && TextTokens(tokens)
    ensures TextTokens(t.tokens)
  {
    hide EndsNew, Trim, Render;
  }

  /** A field of the trimmed message comes from the trimmed tokens. */
  lemma FieldOrigin(fmt: Format, m: Message, i: nat) returns (j: nat)
    requires Filled(m) && i < |TokensOf(Trim(fmt, m))| && TokensOf(Trim(fmt, m))[i].Rep?
    ensures var t := TrimTokens(fmt, m, TokensOf(m)).tokens; j < |t| && t[j] == TokensOf(Trim(fmt, m))[i]
  {
    hide TrimTokens, Parse, Render, PartText, Root, Trim, Filled;
    var t, u := TrimTokens(fmt, m, TokensOf(m)).tokens, TokensOf(Trim(fmt, m));
    TrimReparses(fmt, m);
    PieceOfToken(t, u[i].field);
    PieceOfToken(u, u[i].field);
    assert u[i] in u;
    j :| 0 <= j < |t| && t[j] == u[i];
  }

  lemma {:induction false} TrimKeepsFilled(fmt: Format, m: Message)
    requires ShowsText(fmt) && Filled(m)
    ensures Filled(Trim(fmt, m))
    decreases m
  {
    hide Parse, Root, NewName;
    var t, m2 := TrimTokens(fmt, m, TokensOf(m)), Trim(fmt, m);
    TrimReparses(fmt, m);
    TrimTokensShape(fmt, m, TokensOf(m));
    TrimKeepsParts(fmt, m);
    if t.added.Some? {
      TrimAdds(fmt, m);
      if t.replaced.Some? {
        ReplacedIsFilled(fmt, m);
        TrimKeepsFilled(fmt, m.parts[t.replaced.value].message);
      }
    }
    forall i | 0 <= i < |TokensOf(m2)| ensures FilledToken(m2, TokensOf(m2)[i]) {
      if TokensOf(m2)[i].Rep? {
        var j := FieldOrigin(fmt, m, i);
        FilledTrimmedToken(fmt, m, j);
      }
    }
  }

  lemma ReplacedIsFilled(fmt: Format, m: Message)
    requires Filled(m) && TrimTokens(fmt, m, TokensOf(m)).replaced.Some?
    ensures var t := TrimTokens(fmt, m, TokensOf(m));
            t.replaced.value in m.parts && m.parts[t.replaced.value].Nested?
            && Filled(m.parts[t.replaced.value].message)
  {
    ReplacedIsShown(fmt, m, TokensOf(m));
  }

  lemma {:induction false} ReplacedIsShown(fmt: Format, m: Message, tokens: seq<Token>)
    requires FilledTokens(m, tokens)
    ensures var t := TrimTokens(fmt, m, tokens);
            t.replaced.Some? ==> t.replaced.value in m.parts && m.parts[t.replaced.value].Nested?
                                 && Filled(m.parts[t.replaced.value].message)
  {
    hide NewName, Render, PartText, Trim, Root, RStrip;
    if tokens != [] {
      assert FilledToken(m, tokens[|tokens| - 1]);
      ReplacedIsShown(fmt, m, tokens[..|tokens| - 1]);
    }
  }

  /** The trimmed tokens are filled in the trimmed message. */
  lemma FilledTrimmedToken(fmt: Format, m: Message, j: nat)
    requires Filled(m) && j < |TrimTokens(fmt, m, TokensOf(m)).tokens|
    requires TrimTokens(fmt, m, TokensOf(m)).tokens[j].Rep?
    requires var t := TrimTokens(fmt, m, TokensOf(m));
             t.added.Some? && t.added.value.Nested? ==> Filled(t.added.value.message)
    ensures FilledToken(Trim(fmt, m), TrimTokens(fmt, m, TokensOf(m)).tokens[j])
  {
    hide TrimTokens, Parse, Render, Root, NewName, RStrip;
    var t := TrimTokens(fmt, m, TokensOf(m));
    TrimTokensShape(fmt, m, TokensOf(m));
    TrimKeepsParts(fmt, m);
    if t.added.Some? && j == |t.tokens| - 1 {
      TrimAdds(fmt, m);
      assert Root(t.tokens[j].field.name) == t.tokens[j].field.name;
    } else {
      assert t.tokens[j] == TokensOf(m)[j];
      assert FilledToken(m, TokensOf(m)[j]);
    }
  }

  /** Tokens whose last one shows the end of a trimmed text lose nothing, in any rendering. */
  lemma NothingLost(fmt: Format, r: TypedPart -> string, m: Message, tokens: seq<Token>)
    requires ShowsText(fmt) && tokens != []
    requires var last := tokens[|tokens| - 1];
             if last.Lit? then last.text != "" && !IsStop(last.text[|last.text| - 1])
             else Root(last.field.name) in m.parts && ShowsTrimmed(fmt, r, m.parts[Root(last.field.name)], last.field)
    ensures LostTokens(fmt, m, tokens) == "" && !DropsIn(fmt, r, m, tokens)
  {
    hide Root, Pieces, Show, RStrip, Trim, Lost, Drops;
    var last := tokens[|tokens| - 1];
    if last.Lit? {
      RStripOfEnd(last.text);
    } else if m.parts[Root(last.field.name)].Text? {
      RStripOfEnd(m.parts[Root(last.field.name)].text);
    }
  }

  ghost predicate ShowsTrimmed(fmt: Format, r: TypedPart -> string, p: Part, f: Field) {
    || Kept(p, f)
    || (AsItself(f) && p.Text? && p.text != "" && !IsStop(p.text[|p.text| - 1]))
    || (AsItself(f) && p.Nested? && Render(fmt, Library(), Trim(fmt, p.message)) != "" && Lost(fmt, p.message) == ""
        && !Drops(fmt, r, p.message))
  }

  /** A trimmed message has nothing left to lose or to drop. */
  lemma {:induction false} TrimIsDone(fmt: Format, r: TypedPart -> string, m: Message)
    requires ShowsText(fmt) && Filled(m)
    ensures Lost(fmt, Trim(fmt, m)) == "" && !Drops(fmt, r, Trim(fmt, m))
    decreases m
  {
    hide Parse, NewName, RStrip, Show, Pieces, TrimTokens, LostTokens, DropsIn, Root, Trim, Render;
    var t, m2 := TrimTokens(fmt, m, TokensOf(m)), Trim(fmt, m);
    var u := TokensOf(m2);
    TrimmedLast(fmt, m);
    TrimTokensShape(fmt, m, TokensOf(m));
    TrimKeepsParts(fmt, m);
    if u == [] {
      EmptyLoses(fmt, r, m2, u);
    } else {
      if t.added.None? {
        assert FilledToken(m, TokensOf(m)[|t.tokens| - 1]);
      } else {
        TrimAdds(fmt, m);
        if t.replaced.Some? {
          ReplacedIsFilled(fmt, m);
          var n := m.parts[t.replaced.value].message;
          TrimIsDone(fmt, r, n);
          DoneKeepsLibrary(fmt, n);
        }
      }
      NothingLost(fmt, r, m2, u);
    }
  }

  lemma DoneKeepsLibrary(fmt: Format, m: Message)
    requires ShowsText(fmt) && Filled(m) && Lost(fmt, Trim(fmt, m)) == ""
    ensures Render(fmt, Library(), Trim(fmt, Trim(fmt, m))) == Render(fmt, Library(), Trim(fmt, m))
  {
    hide Render, Trim, Lost;
    TrimKeepsFilled(fmt, m);
    InStep(fmt, Library(), Trim(fmt, m));
  }

  lemma EmptyLoses(fmt: Format, r: TypedPart -> string, m: Message, tokens: seq<Token>)
    requires tokens == []
    ensures LostTokens(fmt, m, tokens) == "" && !DropsIn(fmt, r, m, tokens)
  {
  }

  /** Trimming twice shows what trimming once shows, in every rendering. */
  lemma TrimTwice(fmt: Format, r: TypedPart -> string, m: Message)
    requires ShowsText(fmt) && Filled(m)
    ensures Render(fmt, r, Trim(fmt, Trim(fmt, m))) == Render(fmt, r, Trim(fmt, m))
  {
    hide Render, Trim, Lost, Drops;
    TrimIsDone(fmt, r, m);
    TrimKeepsFilled(fmt, m);
    InStep(fmt, r, Trim(fmt, m));
  }

  // ---------------------------------------------------------------- operations

  /** `operation` is among the recovery operations of the message, nested messages included. */
  ghost predicate HasOperation(m: Message, operation: string)
    decreases m
  {
    exists k :: k in m.parts && PartHasOperation(m.parts[k], operation)
  }

  ghost predicate PartHasOperation(p: Part, operation: string)
    decreases p
  {
    match p
    case Typed(t) => t.operation == Some(operation)
    case Nested(n) => HasOperation(n, operation)
    case _ => false
  }

  /** Trimming keeps the recovery operations. */
  lemma {:induction false} TrimKeepsOperations(fmt: Format, m: Message, operation: string)
    requires Filled(m)
    ensures HasOperation(Trim(fmt, m), operation) <==> HasOperation(m, operation)
    decreases m
  {
    hide TrimTokens, Parse, Render, PartText, Root, NewName, RStrip;
    var t, m2 := TrimTokens(fmt, m, TokensOf(m)), Trim(fmt, m);
    TrimTokensShape(fmt, m, TokensOf(m));
    var f := TrimmedField(m.parts).name;
    if t.added.Some? {
      TrimAdds(fmt, m);
      if t.replaced.Some? {
        ReplacedIsFilled(fmt, m);
        TrimKeepsOperations(fmt, m.parts[t.replaced.value].message, operation);
      }
    }
    if HasOperation(m, operation) {
      var k :| k in m.parts && PartHasOperation(m.parts[k], operation);
      if k in m2.parts {
        assert m2.parts[k] == m.parts[k];
      } else {
        assert t.replaced == Some(k) && m2.parts[f] == t.added.value;
        assert PartHasOperation(m2.parts[f], operation);
      }
    }
    if HasOperation(m2, operation) {
      var k :| k in m2.parts && PartHasOperation(m2.parts[k], operation);
      if k in m.parts {
        assert m2.parts[k] == m.parts[k];
      } else if t.replaced.Some? {
        assert k == f && m2.parts[f] == t.added.value;
        assert PartHasOperation(m.parts[t.replaced.value], operation);
      }
    }
  }

  /** Trimming keeps every part under its name, or trimmed under the new name where it was the message
      at the end and is shown nowhere else; and it adds no other part. */
  lemma TrimKeepsEveryPart(fmt: Format, m: Message)
    requires Filled(m)
    ensures var before, now := m.parts, Trim(fmt, m).parts;
            && (forall k :: k in before ==>
                  (k in now && now[k] == before[k])
                  || (k !in now && before[k].Nested? && TrimmedField(before).name in now
                      && now[TrimmedField(before).name] == Nested(Trim(fmt, before[k].message))))
            && (forall k :: k in now && k !in before ==> k == TrimmedField(before).name)
  {
    hide TrimTokens, Parse, Render, PartText, Root, NewName, RStrip, EndsKept;
    TrimTokensShape(fmt, m, TokensOf(m));
    if TrimTokens(fmt, m, TokensOf(m)).added.Some? {
      TrimAdds(fmt, m);
    }
  }

  /** The text of the field that trimming keeps at the end of a message, found through messages shown
      as themselves. */
  ghost function KeptEnd(fmt: Format, r: TypedPart -> string, m: Message): Option<string>
    decreases m
  {
    if TokensOf(m) == [] || TokensOf(m)[|TokensOf(m)| - 1].Lit? then None
    else
      var f := TokensOf(m)[|TokensOf(m)| - 1].field;
      if Root(f.name) !in m.parts then None
      else
        var p := m.parts[Root(f.name)];
        if Kept(p, f) then Some(PartText(fmt, r, p, f)) else if p.Nested? then KeptEnd(fmt, r, p.message) else None
  }

  ghost predicate EndsWith(text: string, end: string) {
    |end| <= |text| && text[|text| - |end|..] == end
  }

  /** The text ends with what a field that trimming keeps shows, or in a character that is no stop, or
      there is nothing. */
  ghost predicate EndsTrimmed(fmt: Format, r: TypedPart -> string, m: Message) {
    var text, kept := Render(fmt, r, m), KeptEnd(fmt, r, m);
    if kept.Some? then EndsWith(text, kept.value)
    else if TokensOf(m) == [] then text == ""
    else text != "" && text[|text| - 1] != '.' && text[|text| - 1] != ' '
  }

  lemma EndsInText(fmt: Format, r: TypedPart -> string, m: Message, before: seq<Token>, t: string)
    requires TokensOf(m) == before + [Lit(t)] && t != "" && !IsStop(t[|t| - 1])
    ensures EndsTrimmed(fmt, r, m)
  {
    hide Show, Pieces, PartText, Parse;
    ShowLast(fmt, r, m, before, Lit(t));
  }

  lemma EndsInKept(fmt: Format, r: TypedPart -> string, m: Message, before: seq<Token>, f: Field)
    requires TokensOf(m) == before + [Rep(f)] && Root(f.name) in m.parts && Kept(m.parts[Root(f.name)], f)
    ensures EndsTrimmed(fmt, r, m)
  {
    hide Show, Pieces, PartText, Parse, Root;
    ShowLast(fmt, r, m, before, Rep(f));
  }

  lemma EndsInNew(fmt: Format, r: TypedPart -> string, m: Message, before: seq<Token>, f: Field, p: Part)
    requires ShowsText(fmt) && TokensOf(m) == before + [Rep(f)]
    requires AsItself(f) && f.name in m.parts && m.parts[f.name] == p
    requires (p.Text? && p.text != "" && !IsStop(p.text[|p.text| - 1]))
             || (p.Nested? && TokensOf(p.message) != [] && EndsTrimmed(fmt, r, p.message))
    ensures EndsTrimmed(fmt, r, m)
  {
    hide Show, Pieces, PartText, Parse, Root, Render;
    RenderLast(fmt, r, m, before, Rep(f));
    NewPartText(fmt, r, m, p, f);
  }

  lemma RenderLast(fmt: Format, r: TypedPart -> string, m: Message, before: seq<Token>, last: Token)
    requires TokensOf(m) == before + [last]
    ensures Render(fmt, r, m) == Show(fmt, r, m, Pieces(before)) + TokenText(fmt, r, m, last)
  {
    hide Show, Pieces, PartText, Parse;
    ShowLast(fmt, r, m, before, last);
  }

  /** Where trimming stops, in any rendering. */
  lemma {:induction false} TrimEnds(fmt: Format, r: TypedPart -> string, m: Message)
    requires ShowsText(fmt) && Filled(m)
    ensures EndsTrimmed(fmt, r, Trim(fmt, m))
    decreases m
  {
    hide TrimTokens, Trim, Parse, PartText, Root, NewName, Render, EndsTrimmed;
    var t, m2 := TrimTokens(fmt, m, TokensOf(m)), Trim(fmt, m);
    var tokens := TokensOf(m2);
    TrimmedLast(fmt, m);
    TrimTokensShape(fmt, m, TokensOf(m));
    TrimKeepsParts(fmt, m);
    if tokens == [] {
      EndsInNothing(fmt, r, m2);
    } else {
      LastToken(tokens);
      var before, last := tokens[..|tokens| - 1], tokens[|tokens| - 1];
      if last.Lit? {
        EndsInText(fmt, r, m2, before, last.text);
      } else if t.added.None? {
        assert FilledToken(m, TokensOf(m)[|t.tokens| - 1]);
        EndsInKept(fmt, r, m2, before, last.field);
      } else {
        TrimAdds(fmt, m);
        if t.replaced.Some? {
          ReplacedIsFilled(fmt, m);
          TrimEnds(fmt, r, m.parts[t.replaced.value].message);
          NoText(fmt, Library(), t.added.value.message);
        }
        EndsInNew(fmt, r, m2, before, last.field, t.added.value);
      }
    }
  }

  lemma EndsInNothing(fmt: Format, r: TypedPart -> string, m: Message)
    requires TokensOf(m) == []
    ensures EndsTrimmed(fmt, r, m)
  {
    NoText(fmt, r, m);
  }

  /** What a text or a message shows that is shown as itself. */
  lemma NewPartText(fmt: Format, r: TypedPart -> string, m: Message, p: Part, f: Field)
    requires ShowsText(fmt) && AsItself(f) && f.name in m.parts && m.parts[f.name] == p && (p.Text? || p.Nested?)
    ensures PieceText(fmt, r, m, f) == AddedText(fmt, r, p)
  {
  }

  lemma NoText(fmt: Format, r: TypedPart -> string, m: Message)
    ensures TokensOf(m) == [] ==> Render(fmt, r, m) == ""
  {
  }

  // ---------------------------------------------------------------- the loop of the source

  lemma NextName(parts: map<string, Part>, name: string)
    requires name in parts
    ensures NewName(parts, name) == NewName(parts, name + "_")
    ensures |Longer(parts.Keys, |name + "_"|)| < |Longer(parts.Keys, |name|)|
  {
    assert name in Longer(parts.Keys, |name|) && name !in Longer(parts.Keys, |name| + 1);
    SmallerSet(Longer(parts.Keys, |name| + 1), Longer(parts.Keys, |name|));
  }

  method FreeName(parts: map<string, Part>) returns (name: string)
    ensures name == TrimmedField(parts).name
  {
    name := "_stop_trimmed";
    while name in parts
      invariant NewName(parts, name) == NewName(parts, "_stop_trimmed")
      decreases |Longer(parts.Keys, |name|)|
    {
      NextName(parts, name);
      name := name + "_";
    }
  }

  /** The tokens as they stand in the loop: still to trim, or trimmed. */
  ghost predicate LoopState(fmt: Format, m: Message, tokens: seq<Token>, trimmed: bool, added: Option<Part>,
                            replaced: Option<string>) {
    if trimmed then TrimTokens(fmt, m, TokensOf(m)) == Trimmed(tokens, added, replaced)
    else TrimTokens(fmt, m, TokensOf(m)) == TrimTokens(fmt, m, tokens) && added.None? && replaced.None?
  }

  /** What one pass of the loop makes of the popped token: the tokens to put back and whether that ends
      the loop. */
  method TrimToken(fmt: Format, m: Message, before: seq<Token>, token: Token)
    returns (tokens: seq<Token>, trimmed: bool, added: Option<Part>, replaced: Option<string>)
    requires FilledToken(m, token)
    ensures !trimmed ==> tokens == before && added.None? && replaced.None?
                         && TrimTokens(fmt, m, before + [token]) == TrimTokens(fmt, m, before)
    ensures trimmed ==> TrimTokens(fmt, m, before + [token]) == Trimmed(tokens, added, replaced)
    decreases m, 0
  {
    hide Render, PartText, NewName, RStrip, Root, Trim;
    assert (before + [token])[..|before|] == before;
    tokens, trimmed, added, replaced := before, true, None, None;
    match token {
      case Lit(t) =>
        if RStrip(t) != "" {
          return before + [Lit(RStrip(t))], true, None, None;
        }
      case Rep(f) =>
        var root := Root(f.name);
        var value := m.parts[root];
        if value.Nested? && AsItself(f) {
          var n := WithoutTrailingStop(fmt, value.message);
          if Render(fmt, Library(), n) != "" {
            var name := FreeName(m.parts);
            return before + [Rep(Field(name, "", None))], true, Some(Nested(n)), Some(root);
          }
        } else if value.Nested? || value.Typed? {
          return before + [token], true, None, None;
        } else {
          var t := RStrip(PartText(fmt, Library(), value, f));
          if t != "" {
            var name := FreeName(m.parts);
            return before + [Rep(Field(name, "", None))], true, Some(Text(t)), None;
          }
        }
    }
    trimmed := false;
  }

  /** Return a copy of the message that ends without full stops and spaces. */
  method WithoutTrailingStop(fmt: Format, m: Message) returns (m2: Message)
    requires Filled(m)
    ensures m2 == Trim(fmt, m)
    decreases m, 1
  {
    hide TrimTokens, Parse, NewName, Root, Print;
    var tokens := TokensOf(m);
    var trimmed := false;
    var added: Option<Part> := None;
    var replaced: Option<string> := None;
    while tokens != [] && !trimmed
      invariant LoopState(fmt, m, tokens, trimmed, added, replaced)
      invariant !trimmed ==> tokens <= TokensOf(m)
      decreases !trimmed, |tokens|
    {
      var before, token := tokens[..|tokens| - 1], tokens[|tokens| - 1];
      LastToken(tokens);
      assert token == TokensOf(m)[|tokens| - 1] && FilledToken(m, token);
      tokens, trimmed, added, replaced := TrimToken(fmt, m, before, token);
    }
    if !trimmed {
      NoTokens(fmt, m, tokens);
    }
    var t := Trimmed(tokens, added, replaced);
    m2 := Message(Print(tokens), TrimmedParts(m.parts, t));
  }

  lemma NoTokens(fmt: Format, m: Message, tokens: seq<Token>)
    requires tokens == []
    ensures TrimTokens(fmt, m, tokens) == Trimmed([], None, None)
  {
  }

  // ---------------------------------------------------------------- what must not be silent

  /** Trimming reaches a message shown as itself and drops it, because what its own trimming leaves is
      empty in the library text, although tokens are left. */
  ghost predicate DropsSilent(fmt: Format, m: Message)
    decreases m, 1, 0
  {
    DropsSilentIn(fmt, m, TokensOf(m))
  }

  ghost predicate DropsSilentIn(fmt: Format, m: Message, tokens: seq<Token>)
    decreases m, 0, |tokens|
  {
    if tokens == [] then false
    else
      var before := tokens[..|tokens| - 1];
      match tokens[|tokens| - 1]
      case Lit(t) => RStrip(t) == "" && DropsSilentIn(fmt, m, before)
      case Rep(f) =>
        var p := if Root(f.name) in m.parts then m.parts[Root(f.name)] else Text("");
        if p.Nested? && AsItself(f) then
          var n := Trim(fmt, p.message);
          || DropsSilent(fmt, p.message)
          || (Render(fmt, Library(), n) == "" && (TokensOf(n) != [] || DropsSilentIn(fmt, m, before)))
        else if p.Nested? || p.Typed? then false
        else RStrip(PartText(fmt, Library(), p, f)) == "" && DropsSilentIn(fmt, m, before)
  }

  /** What is dropped in some rendering is dropped silently. */
  lemma {:induction false} DroppedIsSilent(fmt: Format, r: TypedPart -> string, m: Message, tokens: seq<Token>)
    requires DropsIn(fmt, r, m, tokens)
    ensures DropsSilentIn(fmt, m, tokens)
    decreases m, 0, |tokens|
  {
    hide Render, PartText, Trim, Root, RStrip, Parse;
    var before, last := tokens[..|tokens| - 1], tokens[|tokens| - 1];
    if DropsIn(fmt, r, m, before) {
      DroppedIsSilent(fmt, r, m, before);
    }
    if last.Rep? && Root(last.field.name) in m.parts && m.parts[Root(last.field.name)].Nested? {
      var n := m.parts[Root(last.field.name)].message;
      if Drops(fmt, r, n) {
        DroppedIsSilent(fmt, r, n, TokensOf(n));
      }
      NoText(fmt, r, Trim(fmt, n));
    }
  }

  /** Typed parts and messages are shown as themselves throughout. */
  ghost predicate AllAsThemselves(m: Message)
    decreases m, 1
  {
    forall i :: 0 <= i < |TokensOf(m)| ==> TokenAsItself(m, TokensOf(m)[i])
  }

  ghost predicate TokenAsItself(m: Message, t: Token)
    decreases m, 0
  {
    t.Rep? && Root(t.field.name) in m.parts ==>
      var p := m.parts[Root(t.field.name)];
      && (p.Typed? || p.Nested? ==> AsItself(t.field))
      && (p.Nested? ==> AllAsThemselves(p.message))
  }

  /** A rendering in which every typed part shows something. */
  function Loud(): TypedPart -> string {
    (t: TypedPart) => "x"
  }

  /** A trimmed message with tokens left shows something in that rendering. */
  lemma {:induction false} LoudShows(fmt: Format, m: Message)
    requires ShowsText(fmt) && Filled(m) && AllAsThemselves(m) && TokensOf(Trim(fmt, m)) != []
    ensures Render(fmt, Loud(), Trim(fmt, m)) != ""
    decreases m
  {
    hide TrimTokens, Trim, Parse, Root, NewName, Pieces, Show;
    var t, m2 := TrimTokens(fmt, m, TokensOf(m)), Trim(fmt, m);
    var tokens := TokensOf(m2);
    TrimmedLast(fmt, m);
    TrimTokensShape(fmt, m, TokensOf(m));
    TrimKeepsParts(fmt, m);
    LastToken(tokens);
    ShowLast(fmt, Loud(), m2, tokens[..|tokens| - 1], tokens[|tokens| - 1]);
    if t.added.None? {
      assert FilledToken(m, TokensOf(m)[|t.tokens| - 1]) && TokenAsItself(m, TokensOf(m)[|t.tokens| - 1]);
    } else {
      TrimAdds(fmt, m);
      NewPartText(fmt, Loud(), m2, t.added.value, TrimmedField(m.parts));
      if t.replaced.Some? {
        ReplacedIsFilled(fmt, m);
        ReplacedAsItself(fmt, m, TokensOf(m));
        NoText(fmt, Library(), t.added.value.message);
        LoudShows(fmt, m.parts[t.replaced.value].message);
      }
    }
  }

  lemma {:induction false} ReplacedAsItself(fmt: Format, m: Message, tokens: seq<Token>)
    requires forall i :: 0 <= i < |tokens| ==> FilledToken(m, tokens[i]) && TokenAsItself(m, tokens[i])
    ensures var t := TrimTokens(fmt, m, tokens);
            t.replaced.Some? ==> t.replaced.value in m.parts && m.parts[t.replaced.value].Nested?
                                 && AllAsThemselves(m.parts[t.replaced.value].message)
  {
    hide NewName, Render, PartText, Trim, Root, RStrip;
    if tokens != [] {
      assert TokenAsItself(m, tokens[|tokens| - 1]) && FilledToken(m, tokens[|tokens| - 1]);
      ReplacedAsItself(fmt, m, tokens[..|tokens| - 1]);
    }
  }

  lemma {:induction false} SilentIsDroppedLoud(fmt: Format, m: Message, tokens: seq<Token>)
    requires ShowsText(fmt) && DropsSilentIn(fmt, m, tokens)
    requires forall i :: 0 <= i < |tokens| ==> FilledToken(m, tokens[i]) && TokenAsItself(m, tokens[i])
    ensures DropsIn(fmt, Loud(), m, tokens)
    decreases m, 0, |tokens|
  {
    hide Render, PartText, Trim, Root, RStrip, Parse;
    var before, last := tokens[..|tokens| - 1], tokens[|tokens| - 1];
    assert FilledToken(m, last) && TokenAsItself(m, last);
    if DropsSilentIn(fmt, m, before) {
      SilentIsDroppedLoud(fmt, m, before);
    }
    if last.Rep? && m.parts[Root(last.field.name)].Nested? {
      var n := m.parts[Root(last.field.name)].message;
      if DropsSilent(fmt, n) {
        assert Filled(n) && AllAsThemselves(n);
        SilentIsDroppedLoud(fmt, n, TokensOf(n));
      }
      if TokensOf(Trim(fmt, n)) != [] {
        LoudShows(fmt, n);
      }
    }
  }

  /** Trimming takes the same end from every rendering if it drops nothing silently; and, where typed
      parts and messages are shown as themselves, only if. */
  lemma InStepForAll(fmt: Format, m: Message)
    requires ShowsText(fmt) && Filled(m)
    ensures !DropsSilent(fmt, m) ==> forall r :: LosesAlike(fmt, r, m)
    ensures AllAsThemselves(m) && DropsSilent(fmt, m) ==> !LosesAlike(fmt, Loud(), m)
  {
    hide DropsIn, DropsSilentIn, LosesAlike, Lost;
    forall r | !DropsSilent(fmt, m) ensures LosesAlike(fmt, r, m) {
      InStep(fmt, r, m);
      if Drops(fmt, r, m) {
        DroppedIsSilent(fmt, r, m, TokensOf(m));
      }
    }
    if AllAsThemselves(m) && DropsSilent(fmt, m) {
      SilentIsDroppedLoud(fmt, m, TokensOf(m));
      InStep(fmt, Loud(), m);
    }
  }

  /** A message that shows one part as itself. */
  function Showing(p: Part): Message {
    Message("{x}", map["x" := p])
  }

  lemma ShowingTokens(p: Part)
    ensures TokensOf(Showing(p)) == [Rep(Field("x", "", None))]
  {
    var s := Showing(p).template;
    var t := s[1..];
    assert t[0] == 'x' && t[1] == '}' && |t| == 2;
    assert NameEnd(t[1..], false) == Some(0);
    assert NameEnd(t, false) == Some(1);
    assert t[..1] == "x" && t[1..][0] == '}';
    assert ParseField(t) == Some((Field("x", "", None), 2));
    assert BraceAt(s) == 0 && s[..0] == "";
    assert Next(s) == Some(([] + [Rep(Field("x", "", None))], 3));
    assert s[3..] == "" && Parse(s[3..]) == Some([]);
  }

  lemma RootOfX()
    ensures Root("x") == "x"
  {
    assert "x"[1..] == "" && Root("") == "";
  }

  lemma RenderShowing(fmt: Format, r: TypedPart -> string, p: Part)
    requires ShowsText(fmt)
    ensures Render(fmt, r, Showing(p)) == PartText(fmt, r, p, Field("x", "", None))
  {
    hide Parse, PartText;
    var f := Field("x", "", None);
    ShowingTokens(p);
    RootOfX();
    assert [] + [Rep(f)] == [Rep(f)];
    ShowLast(fmt, r, Showing(p), [], Rep(f));
    assert Pieces([]) == [] && Show(fmt, r, Showing(p), []) == "";
  }

  /** A typed part whose library text is empty, alone in a nested message: trimming the outer message
      takes it away from every rendering that shows it. */
  lemma SilentPartIsLost(fmt: Format, r: TypedPart -> string, silent: TypedPart)
    requires ShowsText(fmt) && silent.library == ""
    ensures var outer := Showing(Nested(Showing(Typed(silent))));
            Render(fmt, r, outer) == r(silent) && Render(fmt, r, Trim(fmt, outer)) == ""
  {
    hide Parse, Show, NewName;
    var f := Field("x", "", None);
    var inner := Showing(Typed(silent));
    var outer := Showing(Nested(inner));
    RootOfX();
    RenderShowing(fmt, r, Typed(silent));
    RenderShowing(fmt, r, Nested(inner));
    SilentIsKept(fmt, silent);
    ShowingTokens(Nested(inner));
    assert [Rep(f)][..0] == [];
    assert TrimTokens(fmt, outer, [Rep(f)]) == TrimTokens(fmt, outer, []) == Trimmed([], None, None);
    EmptyTemplate(fmt, r, Trim(fmt, outer));
  }

  lemma SilentIsKept(fmt: Format, silent: TypedPart)
    requires ShowsText(fmt) && silent.library == ""
    ensures Render(fmt, Library(), Trim(fmt, Showing(Typed(silent)))) == ""
  {
    hide Parse, Show, NewName;
    var f := Field("x", "", None);
    var inner := Showing(Typed(silent));
    RootOfX();
    ShowingTokens(Typed(silent));
    var tokens := [Rep(f)];
    assert Root(f.name) in inner.parts && inner.parts[Root(f.name)] == Typed(silent);
    assert tokens[|tokens| - 1] == Rep(f);
    assert TrimTokens(fmt, inner, tokens) == Trimmed(tokens, None, None);
    PrintOfX();
    assert Trim(fmt, inner) == inner;
    RenderShowing(fmt, Library(), Typed(silent));
  }

  lemma PrintOfX()
    ensures Print([Rep(Field("x", "", None))]) == "{x}"
  {
    var f := Field("x", "", None);
    assert [Rep(f)][1..] == [] && Print([]) == "";
    assert Print([Rep(f)]) == PrintField(f) + Print([]);
    assert PrintField(f) == "{" + "x" + "" + "" + "}" == "{x}";
  }

  lemma EmptyTemplate(fmt: Format, r: TypedPart -> string, m: Message)
    requires m.template == ""
    ensures Render(fmt, r, m) == ""
  {
  }
}
