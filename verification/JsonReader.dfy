/** A reader of JSON text (section 2 of RFC 8259), and what it makes of printed text. Numbers are
    integers here, and a number with leading zeros reads as the number. */
module JsonReader {
  import opened JsonText
  import opened SegmentNames
  import opened Sequences
  import opened Wrappers

  datatype Got<T> = Got(value: T, rest: string) | Bad

  predicate IsWhite(c: char) {
    c == ' ' || c == '\n' || c == '\r' || c == '\t'
  }

  function AfterWhite(s: string): (t: string)
    ensures |t| <= |s|
  {
    if s != "" && IsWhite(s[0]) then AfterWhite(s[1..]) else s
  }

  // ---------------------------------------------------------------- numbers

  function ReadDigits(s: string, before: nat): (nat, string) {
    if s != "" && '0' <= s[0] <= '9' then ReadDigits(s[1..], 10 * before + (s[0] as int - '0' as int)) else (before, s)
  }

  function ReadNumber(s: string): (g: Got<Json>)
    ensures g.Got? ==> |g.rest| < |s|
  {
    if s != "" && s[0] == '-' && |s| > 1 && '0' <= s[1] <= '9' then
      DigitsShorten(s[1..], 0);
      var n: int := ReadDigits(s[1..], 0).0;
      Got(Int(-n), ReadDigits(s[1..], 0).1)
    else if s != "" && '0' <= s[0] <= '9' then
      DigitsShorten(s, 0);
      Got(Int(ReadDigits(s, 0).0), ReadDigits(s, 0).1)
    else Bad
  }

  lemma {:induction false} DigitsShorten(s: string, before: nat)
    requires s != "" && '0' <= s[0] <= '9'
    ensures |ReadDigits(s, before).1| < |s|
  {
    var next := 10 * before + (s[0] as int - '0' as int);
    if |s| > 1 && '0' <= s[1] <= '9' {
      DigitsShorten(s[1..], next);
    }
  }

  // ---------------------------------------------------------------- strings

  function HexValue(c: char): Option<nat> {
    if '0' <= c <= '9' then Some(c as int - '0' as int)
    else if 'a' <= c <= 'f' then Some(c as int - 'a' as int + 10)
    else if 'A' <= c <= 'F' then Some(c as int - 'A' as int + 10)
    else None
  }

  /** Four hexadecimal digits after `\u`. */
  function CodeUnit(s: string): Option<nat> {
    if |s| < 6 || s[0] != '\\' || s[1] != 'u' then None
    else
      var a, b, c, d := HexValue(s[2]), HexValue(s[3]), HexValue(s[4]), HexValue(s[5]);
      if a == None || b == None || c == None || d == None then None
      else Some(((a.value * 16 + b.value) * 16 + c.value) * 16 + d.value)
  }

  function ShortEscape(c: char): Option<char> {
    if c == '"' || c == '\\' || c == '/' then Some(c)
    else if c == 'n' then Some(10 as char)
    else if c == 'r' then Some(13 as char)
    else if c == 't' then Some(9 as char)
    else if c == 'f' then Some(12 as char)
    else if c == 'b' then Some(8 as char)
    else None
  }

  /** The first character that string text stands for, and how long its text is. */
  function OneChar(s: string): (r: Option<(char, nat)>)
    ensures r.Some? ==> 0 < r.value.1 <= |s|
  {
    if s == "" || s[0] as int < 0x20 then None
    else if s[0] != '\\' then Some((s[0], 1))
    else if |s| < 2 then None
    else if s[1] != 'u' then (var c := ShortEscape(s[1]); if c.Some? then Some((c.value, 2)) else None)
    else
      var n := CodeUnit(s);
      if n.None? then None
      else if n.value < 0xd800 || 0xe000 <= n.value < 0x10000 then Some((n.value as char, 6))
      else if n.value >= 0xdc00 then None
      else
        var low := CodeUnit(s[6..]);
        if low.Some? && 0xdc00 <= low.value < 0xe000 then
          Some(((0x10000 + (n.value - 0xd800) * 1024 + (low.value - 0xdc00)) as char, 12))
        else None
  }

  /** The string whose text starts after its opening quote. */
  function ReadString(s: string): (g: Got<string>)
    ensures g.Got? ==> |g.rest| < |s|
    decreases |s|
  {
    if s != "" && s[0] == '"' then Got("", s[1..])
    else
      var one := OneChar(s);
      if one.None? then Bad
      else
        var g := ReadString(s[one.value.1..]);
        if g.Bad? then Bad else Got([one.value.0] + g.value, g.rest)
  }

  // ---------------------------------------------------------------- values

  function ReadValue(s: string): (g: Got<Json>)
    ensures g.Got? ==> |g.rest| < |s|
    decreases |s|, 1
  {
    ReadBare(AfterWhite(s))
  }

  function ReadBare(t: string): (g: Got<Json>)
    ensures g.Got? ==> |g.rest| < |t|
    decreases |t|, 0
  {
    if "null" <= t then Got(Null, t[4..])
    else if "true" <= t then Got(Bool(true), t[4..])
    else if "false" <= t then Got(Bool(false), t[5..])
    else if t != "" && t[0] == '"' then
      (var g := ReadString(t[1..]); if g.Bad? then Bad else Got(Str(g.value), g.rest))
    else if t != "" && t[0] == '[' then
      var u := AfterWhite(t[1..]);
      if u != "" && u[0] == ']' then Got(Arr([]), u[1..])
      else (var g := ReadItems(t[1..]); if g.Bad? then Bad else Got(Arr(g.value), g.rest))
    else if t != "" && t[0] == '{' then
      var u := AfterWhite(t[1..]);
      if u != "" && u[0] == '}' then Got(Obj([]), u[1..])
      else (var g := ReadMembers(t[1..]); if g.Bad? then Bad else Got(Obj(g.value), g.rest))
    else ReadNumber(t)
  }

  /** One or more values with commas between them, and the closing bracket. */
  function ReadItems(s: string): (g: Got<seq<Json>>)
    ensures g.Got? ==> |g.rest| < |s|
    decreases |s|, 2
  {
    var v := ReadValue(s);
    if v.Bad? then Bad
    else
      var u := AfterWhite(v.rest);
      if u != "" && u[0] == ']' then Got([v.value], u[1..])
      else if u != "" && u[0] == ',' then
        (var g := ReadItems(u[1..]); if g.Bad? then Bad else Got([v.value] + g.value, g.rest))
      else Bad
  }

  function ReadMember(s: string): (g: Got<Member>)
    ensures g.Got? ==> |g.rest| < |s|
    decreases |s|, 2
  {
    var t := AfterWhite(s);
    if t == "" || t[0] != '"' then Bad
    else
      var key := ReadString(t[1..]);
      if key.Bad? then Bad
      else
        var u := AfterWhite(key.rest);
        if u == "" || u[0] != ':' then Bad
        else (var v := ReadValue(u[1..]); if v.Bad? then Bad else Got(Member(key.value, v.value), v.rest))
  }

  /** One or more members with commas between them, and the closing brace. */
  function ReadMembers(s: string): (g: Got<seq<Member>>)
    ensures g.Got? ==> |g.rest| < |s|
    decreases |s|, 3
  {
    var m := ReadMember(s);
    if m.Bad? then Bad
    else
      var u := AfterWhite(m.rest);
      if u != "" && u[0] == '}' then Got([m.value], u[1..])
      else if u != "" && u[0] == ',' then
        (var g := ReadMembers(u[1..]); if g.Bad? then Bad else Got([m.value] + g.value, g.rest))
      else Bad
  }

  /** The value a whole text stands for. */
  function ReadJson(text: string): Option<Json> {
    var g := ReadValue(text);
    if g.Got? && AfterWhite(g.rest) == "" then Some(g.value) else None
  }

  // ---------------------------------------------------------------- what printed numbers mean

  function Digits(s: string, before: nat): nat
    requires AllDigits(s)
  {
    if s == "" then before else Digits(s[1..], 10 * before + (s[0] as int - '0' as int))
  }

  lemma {:induction false} DigitsLast(s: string, c: char, before: nat)
    requires AllDigits(s) && IsDigit(c)
    ensures Digits(s + [c], before) == 10 * Digits(s, before) + (c as int - '0' as int)
    decreases |s|
  {
    if s == "" {
      assert (s + [c])[1..] == "";
    } else {
      assert (s + [c])[1..] == s[1..] + [c];
      DigitsLast(s[1..], c, 10 * before + (s[0] as int - '0' as int));
    }
  }

  lemma {:induction false} DigitsAreValue(s: string)
    requires AllDigits(s)
    ensures Digits(s, 0) == Value(s)
  {
    if s != "" {
      var n := |s| - 1;
      DigitsAreValue(s[..n]);
      DigitsLast(s[..n], s[n], 0);
      assert s == s[..n] + [s[n]];
    }
  }

  predicate EndsNumber(rest: string) {
    rest == "" || !('0' <= rest[0] <= '9')
  }

  lemma {:induction false} ReadsDigits(s: string, rest: string, before: nat)
    requires AllDigits(s) && EndsNumber(rest)
    ensures ReadDigits(s + rest, before) == (Digits(s, before), rest)
  {
    if s == "" {
      assert s + rest == rest;
    } else {
      assert (s + rest)[1..] == s[1..] + rest;
      ReadsDigits(s[1..], rest, 10 * before + (s[0] as int - '0' as int));
    }
  }

  /** Printed digits stand for the number, a minus sign before them for its negative. */
  lemma IntTextMeaning(n: int)
    ensures n >= 0 ==> IntText(n) != "" && AllDigits(IntText(n)) && Value(IntText(n)) == n
    ensures n < 0 ==> IntText(n) != "" && IntText(n)[0] == '-' && IntText(n)[1..] == IntText(-n)
  {
    PaddedMeaning(if n < 0 then -n else n, 1);
  }

  lemma IntReadsBack(n: int, rest: string)
    requires EndsNumber(rest)
    ensures ReadBare(IntText(n) + rest) == Got(Int(n), rest)
  {
    hide IntText;
    IntTextMeaning(n);
    IntTextMeaning(-n);
    var digits := if n < 0 then IntText(-n) else IntText(n);
    DigitsAreValue(digits);
    ReadsDigits(digits, rest, 0);
    var text := IntText(n) + rest;
    assert digits[0] == (digits + rest)[0];
    if n < 0 {
      assert text[1..] == digits + rest && text[0] == '-';
    } else {
      assert text == digits + rest;
    }
    NumberStarts(text);
  }

  lemma NumberStarts(t: string)
    requires t != "" && (t[0] == '-' || '0' <= t[0] <= '9')
    ensures ReadBare(t) == ReadNumber(t)
  {
    assert "null"[0] == 'n' && "true"[0] == 't' && "false"[0] == 'f';
  }

  // ---------------------------------------------------------------- what printed strings mean

  lemma HexBack(n: nat)
    requires n < 16
    ensures HexValue(HexDigit(n)) == Some(n)
  {
  }

  lemma Hex4Back(n: nat, rest: string)
    requires n < 0x10000
    ensures CodeUnit("\\u" + Hex4(n) + rest) == Some(n)
  {
    hide HexDigit, HexValue;
    var s := "\\u" + Hex4(n) + rest;
    assert s[0] == '\\' && s[1] == 'u';
    assert s[2] == HexDigit(n / 4096 % 16) && s[3] == HexDigit(n / 256 % 16);
    assert s[4] == HexDigit(n / 16 % 16) && s[5] == HexDigit(n % 16);
    HexBack(n / 4096 % 16);
    HexBack(n / 256 % 16);
    HexBack(n / 16 % 16);
    HexBack(n % 16);
    HexSum(n);
  }

  lemma HexSum(n: nat)
    requires n < 0x10000
    ensures ((n / 4096 % 16 * 16 + n / 256 % 16) * 16 + n / 16 % 16) * 16 + n % 16 == n
  {
    var a, b, c := n / 16, n / 256, n / 4096;
    assert n == 16 * a + n % 16 && a == 16 * b + a % 16 && b == 16 * c + b % 16 && c < 16;
  }

  /** A character's text stands for it, whatever follows. */
  lemma CharReadsBack(c: char, rest: string)
    ensures Escaped(c) != "" && Escaped(c)[0] != '"'
    ensures OneChar(Escaped(c) + rest) == Some((c, |Escaped(c)|))
  {
    hide Hex4, CodeUnit;
    var n := c as int;
    if !IsPlain(c) && c != '"' && c != '\\' && n != 10 && n != 13 && n != 9 && n != 12 && n != 8 {
      if n < 0x10000 {
        HexLength(n);
        Hex4Back(n, rest);
      } else {
        PairReadsBack(c, rest);
      }
    }
  }

  lemma HexLength(n: nat)
    ensures |Hex4(n)| == 4
  {
  }

  lemma PairReadsBack(c: char, rest: string)
    requires c as int >= 0x10000
    ensures OneChar(Escaped(c) + rest) == Some((c, |Escaped(c)|)) && Escaped(c)[0] == '\\'
  {
    hide Hex4, CodeUnit;
    var m := c as int - 0x10000;
    var high, low := 0xd800 + m / 1024, 0xdc00 + m % 1024;
    var second := "\\u" + Hex4(low);
    HexLength(high);
    HexLength(low);
    var s := Escaped(c) + rest;
    assert s == "\\u" + Hex4(high) + (second + rest);
    Hex4Back(high, second + rest);
    assert s[6..] == second + rest;
    Hex4Back(low, rest);
  }

  /** Quoting loses nothing: the text of a string reads as that string. */
  lemma {:induction false} QuoteReadsBack(s: string, rest: string)
    ensures ReadString(EscapedAll(s) + "\"" + rest) == Got(s, rest)
  {
    hide Escaped, OneChar;
    var text := EscapedAll(s) + "\"" + rest;
    if s == "" {
      assert text == "\"" + rest;
      assert text[1..] == rest;
    } else {
      var e := Escaped(s[0]);
      var after := EscapedAll(s[1..]) + "\"" + rest;
      Regroup(e, EscapedAll(s[1..]), "\"");
      Regroup(e, EscapedAll(s[1..]) + "\"", rest);
      assert text == e + after;
      CharReadsBack(s[0], after);
      assert text[|e|..] == after;
      QuoteReadsBack(s[1..], rest);
      assert s == [s[0]] + s[1..];
    }
  }

  /** After its opening quote, a quoted string reads as that string. */
  lemma QuotedReadsBack(s: string, rest: string)
    ensures Quote(s) != "" && Quote(s)[0] == '"' && ReadString((Quote(s) + rest)[1..]) == Got(s, rest)
  {
    hide ReadString, EscapedAll;
    QuoteReadsBack(s, rest);
    Opened("\"", EscapedAll(s), "\"", rest);
  }

  lemma Opened(open: string, text: string, close: string, rest: string)
    requires |open| == 1
    ensures open + text + close + rest == open + (text + close + rest)
    ensures (open + text + close + rest)[1..] == text + close + rest
  {
  }

  /** Quoted text is printable ASCII, and plain characters stay as they are. */
  lemma {:induction false} QuotedIsAscii(s: string)
    ensures forall i :: 0 <= i < |EscapedAll(s)| ==> ' ' <= EscapedAll(s)[i] <= '~'
    ensures (forall i :: 0 <= i < |s| ==> ' ' <= s[i] <= '~' && s[i] != '"' && s[i] != '\\') ==> EscapedAll(s) == s
  {
    if s != "" {
      QuotedIsAscii(s[1..]);
      CharIsAscii(s[0]);
      assert s == [s[0]] + s[1..];
    }
  }

  lemma CharIsAscii(c: char)
    ensures forall i :: 0 <= i < |Escaped(c)| ==> ' ' <= Escaped(c)[i] <= '~'
    ensures ' ' <= c <= '~' && c != '"' && c != '\\' ==> Escaped(c) == [c]
  {
    forall n ensures forall i :: 0 <= i < |Hex4(n)| ==> '0' <= Hex4(n)[i] <= '9' || 'a' <= Hex4(n)[i] <= 'f' {
    }
  }

  /** The five control characters with a short escape are written with it. */
  lemma ShortEscapes(s: string)
    requires s != "" && s[0] as int in {8, 9, 10, 12, 13}
    ensures var short := map[8 := 'b', 9 := 't', 10 := 'n', 12 := 'f', 13 := 'r'];
            EscapedAll(s) == ['\\', short[s[0] as int]] + EscapedAll(s[1..])
  {
  }

  // ---------------------------------------------------------------- what the pretty printer's text means

  /** The text of a value whose first line is at this level. */
  function TextOf(v: Json, level: nat): string
    decreases v, 0
  {
    match v
    case Null => "null"
    case Bool(b) => if b then "true" else "false"
    case Int(n) => IntText(n)
    case Str(s) => Quote(s)
    case Arr(items) => if items == [] then "[]" else "[" + ItemsText(items, level + 1) + "\n" + Indent(level) + "]"
    case Obj(members) =>
      if members == [] then "{}" else "{" + MembersText(members, level + 1) + "\n" + Indent(level) + "}"
  }

  function ItemsText(items: seq<Json>, level: nat): string
    decreases items, 1
  {
    if items == [] then ""
    else "\n" + Indent(level) + TextOf(items[0], level) + Comma(items) + ItemsText(items[1..], level)
  }

  function MembersText(members: seq<Member>, level: nat): string
    decreases members, 1
  {
    if members == [] then ""
    else
      "\n" + Indent(level) + Quote(members[0].key) + ": " + TextOf(members[0].value, level) + Comma(members)
      + MembersText(members[1..], level)
  }

  lemma {:induction false} LinesAreText(v: Json, level: nat, lead: string, tail: string)
    ensures Join(Lines(v, level, lead, tail)) == lead + TextOf(v, level) + tail
    decreases v, 0
  {
    hide Join, ItemLines, MemberLines, ItemsText, MembersText, Indent, Quote, IntText;
    match v
    case Arr(items) =>
      if items == [] {
        OneLine(v, level, lead, tail);
      } else {
        ItemLinesAreText(items, level + 1);
        Frame(lead + "[", ItemLines(items, level + 1), Indent(level) + "]" + tail);
        Framed(lead, "[", ItemsText(items, level + 1), Indent(level), "]", tail);
      }
    case Obj(members) =>
      if members == [] {
        OneLine(v, level, lead, tail);
      } else {
        MemberLinesAreText(members, level + 1);
        Frame(lead + "{", MemberLines(members, level + 1), Indent(level) + "}" + tail);
        Framed(lead, "{", MembersText(members, level + 1), Indent(level), "}", tail);
      }
    case _ => OneLine(v, level, lead, tail);
  }

  lemma OneLine(v: Json, level: nat, lead: string, tail: string)
    requires !(v.Arr? && v.items != []) && !(v.Obj? && v.members != [])
    ensures Join(Lines(v, level, lead, tail)) == lead + TextOf(v, level) + tail
  {
    hide IntText, Quote;
  }

  lemma Framed(lead: string, open: string, text: string, indent: string, close: string, tail: string)
    ensures lead + open + text + "\n" + (indent + close + tail) == lead + (open + text + "\n" + indent + close) + tail
  {
  }

  lemma Frame(open: string, lines: seq<string>, close: string)
    requires lines != []
    ensures Join([open] + lines + [close]) == open + ("\n" + Join(lines)) + "\n" + close
  {
    JoinConcat([open] + lines, [close]);
    JoinConcat([open], lines);
  }

  lemma {:induction false} ItemLinesAreText(items: seq<Json>, level: nat)
    requires items != []
    ensures ItemLines(items, level) != [] && "\n" + Join(ItemLines(items, level)) == ItemsText(items, level)
    decreases items, 1
  {
    hide Lines, TextOf, Indent, Join;
    var first := Lines(items[0], level, Indent(level), Comma(items));
    LinesAreText(items[0], level, Indent(level), Comma(items));
    if |items| == 1 {
      assert items[1..] == [];
      assert first + [] == first;
      Spread(Indent(level), TextOf(items[0], level), "", "");
    } else {
      ItemLinesAreText(items[1..], level);
      JoinConcat(first, ItemLines(items[1..], level));
      Spread(Indent(level), TextOf(items[0], level), ",", "\n" + Join(ItemLines(items[1..], level)));
      Regroup(Indent(level) + TextOf(items[0], level) + ",", "\n", Join(ItemLines(items[1..], level)));
    }
  }

  lemma Spread(lead: string, text: string, comma: string, more: string)
    ensures "\n" + (lead + text + comma + more) == "\n" + lead + text + comma + more
  {
  }

  lemma SpreadKey(indent: string, key: string, text: string, comma: string, more: string)
    ensures "\n" + (indent + key + ": " + text + comma + more) == "\n" + indent + key + ": " + text + comma + more
  {
  }

  lemma {:induction false} MemberLinesAreText(members: seq<Member>, level: nat)
    requires members != []
    ensures MemberLines(members, level) != [] && "\n" + Join(MemberLines(members, level)) == MembersText(members, level)
    decreases members, 1
  {
    hide Lines, TextOf, Quote, Indent, Join;
    var lead := Indent(level) + Quote(members[0].key) + ": ";
    var first := Lines(members[0].value, level, lead, Comma(members));
    LinesAreText(members[0].value, level, lead, Comma(members));
    if |members| == 1 {
      assert members[1..] == [];
      assert first + [] == first;
      SpreadKey(Indent(level), Quote(members[0].key), TextOf(members[0].value, level), "", "");
    } else {
      MemberLinesAreText(members[1..], level);
      var more := Join(MemberLines(members[1..], level));
      JoinConcat(first, MemberLines(members[1..], level));
      SpreadKey(Indent(level), Quote(members[0].key), TextOf(members[0].value, level), ",", "\n" + more);
      Regroup(lead + TextOf(members[0].value, level) + ",", "\n", more);
    }
  }

  // ---------------------------------------------------------------- reading it back

  predicate AllWhite(s: string) {
    forall i :: 0 <= i < |s| ==> IsWhite(s[i])
  }

  lemma {:induction false} AfterWhites(w: string, s: string)
    requires AllWhite(w) && (s == "" || !IsWhite(s[0]))
    ensures AfterWhite(w + s) == s
  {
    if w == "" {
      assert w + s == s;
    } else {
      assert (w + s)[1..] == w[1..] + s;
      AfterWhites(w[1..], s);
    }
  }

  lemma {:induction false} IndentIsWhite(level: nat)
    ensures AllWhite(Indent(level)) && AllWhite("\n" + Indent(level))
  {
    if level > 0 {
      IndentIsWhite(level - 1);
      assert Indent(level) == "  " + Indent(level - 1);
    }
  }

  /** A value's text starts with a character that is no white space and closes nothing. */
  predicate Starts(s: string) {
    s != "" && !IsWhite(s[0]) && s[0] != ']' && s[0] != '}'
  }

  lemma TextStarts(v: Json, level: nat)
    ensures Starts(TextOf(v, level))
  {
    hide IntText, EscapedAll, Indent, ItemsText, MembersText;
    if v.Int? {
      IntTextMeaning(v.n);
      IntTextMeaning(-v.n);
    }
  }

  /** The printed text of a value reads as that value, whatever follows. */
  lemma {:induction false} TextReadsBack(v: Json, level: nat, rest: string)
    requires EndsNumber(rest)
    ensures ReadBare(TextOf(v, level) + rest) == Got(v, rest)
    decreases v, 0
  {
    hide ReadItems, ReadMembers, ReadString, ReadNumber, Quote, IntText, ItemsText, MembersText;
    var t := TextOf(v, level) + rest;
    match v
    case Null => assert t[4..] == rest && "null" <= t;
    case Bool(b) => BoolReadsBack(b, rest);
    case Int(n) => IntReadsBack(n, rest);
    case Str(s) =>
      QuotedReadsBack(s, rest);
      StringStarts(t);
    case Arr(items) =>
      if items == [] {
        assert t[1..] == "]" + rest;
        AfterWhites("", "]" + rest);
        EmptyArr(t, rest);
      } else {
        ItemsReadBack(items, level + 1, level, rest);
        ArrReadsBack(items, level, rest);
      }
    case Obj(members) =>
      if members == [] {
        assert t[1..] == "}" + rest;
        AfterWhites("", "}" + rest);
        EmptyObj(t, rest);
      } else {
        MembersReadBack(members, level + 1, level, rest);
        ObjReadsBack(members, level, rest);
      }
  }

  lemma BoolReadsBack(b: bool, rest: string)
    ensures ReadBare((if b then "true" else "false") + rest) == Got(Bool(b), rest)
  {
    hide ReadItems, ReadMembers, ReadString, ReadNumber;
    var t := (if b then "true" else "false") + rest;
    assert t[0] == (if b then "true" else "false")[0];
    assert "null"[0] == 'n' && "true"[0] == 't';
    if b {
      assert t[4..] == rest && "true" <= t;
    } else {
      assert t[5..] == rest && "false" <= t;
    }
  }

  lemma StringStarts(t: string)
    requires t != "" && t[0] == '"'
    ensures ReadBare(t) == var g := ReadString(t[1..]); if g.Bad? then Bad else Got(Str(g.value), g.rest)
  {
    assert "null"[0] == 'n' && "true"[0] == 't' && "false"[0] == 'f';
  }

  lemma ArrStarts(t: string)
    requires t != "" && t[0] == '['
    ensures ReadBare(t) ==
            var u := AfterWhite(t[1..]);
            if u != "" && u[0] == ']' then Got(Arr([]), u[1..])
            else var g := ReadItems(t[1..]); if g.Bad? then Bad else Got(Arr(g.value), g.rest)
  {
    assert "null"[0] == 'n' && "true"[0] == 't' && "false"[0] == 'f';
  }

  lemma ObjStarts(t: string)
    requires t != "" && t[0] == '{'
    ensures ReadBare(t) ==
            var u := AfterWhite(t[1..]);
            if u != "" && u[0] == '}' then Got(Obj([]), u[1..])
            else var g := ReadMembers(t[1..]); if g.Bad? then Bad else Got(Obj(g.value), g.rest)
  {
    assert "null"[0] == 'n' && "true"[0] == 't' && "false"[0] == 'f';
  }

  lemma EmptyArr(t: string, rest: string)
    requires t != "" && t[0] == '[' && AfterWhite(t[1..]) == "]" + rest
    ensures ReadBare(t) == Got(Arr([]), rest)
  {
    ArrStarts(t);
  }

  lemma EmptyObj(t: string, rest: string)
    requires t != "" && t[0] == '{' && AfterWhite(t[1..]) == "}" + rest
    ensures ReadBare(t) == Got(Obj([]), rest)
  {
    ObjStarts(t);
  }

  function Closing(level: nat, bracket: string, rest: string): string {
    "\n" + Indent(level) + bracket + rest
  }

  lemma Enclosed(open: string, text: string, indent: string, close: string, rest: string)
    requires |open| == 1
    ensures (open + text + "\n" + indent + close + rest)[0] == open[0]
    ensures (open + text + "\n" + indent + close + rest)[1..] == text + ("\n" + indent + close + rest)
  {
    assert open + text + "\n" + indent + close + rest == open + (text + ("\n" + indent + close + rest));
  }

  lemma ArrReadsBack(items: seq<Json>, level: nat, rest: string)
    requires items != []
    requires ReadItems(ItemsText(items, level + 1) + Closing(level, "]", rest)) == Got(items, rest)
    ensures ReadBare(TextOf(Arr(items), level) + rest) == Got(Arr(items), rest)
  {
    hide ReadItems, Indent, ItemsText, ReadBare, AfterWhite;
    var t := TextOf(Arr(items), level) + rest;
    var inner := ItemsText(items, level + 1) + Closing(level, "]", rest);
    Enclosed("[", ItemsText(items, level + 1), Indent(level), "]", rest);
    FirstItem(items, level + 1, Closing(level, "]", rest));
    ArrStarts(t);
  }

  lemma FirstItem(items: seq<Json>, level: nat, close: string)
    requires items != []
    ensures Starts(AfterWhite(ItemsText(items, level) + close))
  {
    hide Indent, TextOf;
    var more := Comma(items) + ItemsText(items[1..], level);
    AfterFirst(items[0], level, "\n" + Indent(level), more + close);
    Regroup("\n" + Indent(level) + TextOf(items[0], level), Comma(items), ItemsText(items[1..], level));
    Regroup("\n" + Indent(level) + TextOf(items[0], level), more, close);
  }

  /** After the white space before a value comes the text of the value. */
  lemma AfterFirst(v: Json, level: nat, white: string, more: string)
    requires white == "\n" + Indent(level)
    ensures AfterWhite(white + TextOf(v, level) + more) == TextOf(v, level) + more && Starts(TextOf(v, level) + more)
  {
    hide Indent, TextOf;
    TextStarts(v, level);
    IndentIsWhite(level);
    AfterWhites(white, TextOf(v, level) + more);
    Regroup(white, TextOf(v, level), more);
  }

  lemma {:induction false} ItemsReadBack(items: seq<Json>, level: nat, outer: nat, rest: string)
    requires items != []
    ensures ReadItems(ItemsText(items, level) + Closing(outer, "]", rest)) == Got(items, rest)
    decreases items, 1
  {
    hide TextOf, Indent, ReadBare, Closing, AfterWhite;
    var v, text := items[0], TextOf(items[0], level);
    var white := "\n" + Indent(level);
    var close := Closing(outer, "]", rest);
    var more := Comma(items) + ItemsText(items[1..], level) + close;
    AfterFirst(v, level, white, more);
    if |items| == 1 {
      assert items == [v] && items[1..] == [];
      assert more == close && ItemsText(items, level) + close == white + text + more;
      AfterClosing(outer, "]", rest);
      TextReadsBack(v, level, close);
    } else {
      var after := ItemsText(items[1..], level) + close;
      assert more == "," + after && ItemsText(items, level) + close == white + text + more;
      ItemsReadBack(items[1..], level, outer, rest);
      TextReadsBack(v, level, more);
      AfterWhites("", more);
      assert "" + more == more && more[1..] == after;
      assert items == [v] + items[1..];
    }
  }

  lemma AfterClosing(level: nat, bracket: string, rest: string)
    requires bracket == "]" || bracket == "}"
    ensures EndsNumber(Closing(level, bracket, rest))
    ensures AfterWhite(Closing(level, bracket, rest)) == bracket + rest
    ensures (bracket + rest)[0] == bracket[0] && (bracket + rest)[1..] == rest
  {
    hide Indent;
    IndentIsWhite(level);
    AfterWhites("\n" + Indent(level), bracket + rest);
    Regroup("\n" + Indent(level), bracket, rest);
  }

  lemma ObjReadsBack(members: seq<Member>, level: nat, rest: string)
    requires members != []
    requires ReadMembers(MembersText(members, level + 1) + Closing(level, "}", rest)) == Got(members, rest)
    ensures ReadBare(TextOf(Obj(members), level) + rest) == Got(Obj(members), rest)
  {
    hide ReadMembers, Indent, MembersText, ReadBare, AfterWhite;
    var t := TextOf(Obj(members), level) + rest;
    var inner := MembersText(members, level + 1) + Closing(level, "}", rest);
    Enclosed("{", MembersText(members, level + 1), Indent(level), "}", rest);
    FirstKey(members, level + 1, Closing(level, "}", rest));
    ObjStarts(t);
  }

  lemma FirstKey(members: seq<Member>, level: nat, close: string)
    requires members != []
    ensures var u := AfterWhite(MembersText(members, level) + close); u != "" && u[0] == '"'
  {
    hide Indent, TextOf, Quote;
    var key, text, comma := Quote(members[0].key), TextOf(members[0].value, level), Comma(members);
    var after := MembersText(members[1..], level);
    KeyComesFirst(members[0].key, level, ": " + text + comma + after + close);
    KeyApart("\n" + Indent(level), key, text, comma, after, close);
  }

  lemma KeyApart(white: string, key: string, text: string, comma: string, after: string, close: string)
    ensures white + key + ": " + text + comma + after + close == white + (key + (": " + text + comma + after + close))
  {
  }

  lemma KeyComesFirst(key: string, level: nat, more: string)
    ensures AfterWhite("\n" + Indent(level) + (Quote(key) + more)) == Quote(key) + more
    ensures Quote(key) + more != "" && (Quote(key) + more)[0] == '"'
    ensures ReadString((Quote(key) + more)[1..]) == Got(key, more)
  {
    hide Indent;
    IndentIsWhite(level);
    QuotedReadsBack(key, more);
    AfterWhites("\n" + Indent(level), Quote(key) + more);
  }

  /** One member reads back. */
  lemma MemberReadsBack(m: Member, level: nat, rest: string)
    requires EndsNumber(rest)
    requires ReadBare(TextOf(m.value, level) + rest) == Got(m.value, rest)
    ensures ReadMember("\n" + Indent(level) + Quote(m.key) + ": " + TextOf(m.value, level) + rest) == Got(m, rest)
  {
    hide Indent, Quote, TextOf, ReadBare, ReadString, AfterWhite;
    var text := TextOf(m.value, level) + rest;
    var more := ": " + text;
    KeyComesFirst(m.key, level, more);
    assert "\n" + Indent(level) + Quote(m.key) + ": " + TextOf(m.value, level) + rest
        == "\n" + Indent(level) + (Quote(m.key) + more);
    AfterWhites("", more);
    assert "" + more == more && more[0] == ':' && more[1..] == " " + text;
    TextStarts(m.value, level);
    AfterWhites(" ", text);
  }

  lemma {:induction false} MembersReadBack(members: seq<Member>, level: nat, outer: nat, rest: string)
    requires members != []
    ensures ReadMembers(MembersText(members, level) + Closing(outer, "}", rest)) == Got(members, rest)
    decreases members, 1
  {
    hide TextOf, Indent, ReadMember, Closing, AfterWhite, Quote;
    var m := members[0];
    var text := "\n" + Indent(level) + Quote(m.key) + ": " + TextOf(m.value, level);
    var close := Closing(outer, "}", rest);
    if |members| == 1 {
      assert members == [m] && members[1..] == [];
      assert MembersText(members, level) + close == text + close;
      AfterClosing(outer, "}", rest);
      TextReadsBack(m.value, level, close);
      MemberReadsBack(m, level, close);
    } else {
      var after := MembersText(members[1..], level) + close;
      var more := "," + after;
      assert MembersText(members, level) + close == text + more;
      MembersReadBack(members[1..], level, outer, rest);
      TextReadsBack(m.value, level, more);
      MemberReadsBack(m, level, more);
      AfterWhites("", more);
      assert "" + more == more && more[1..] == after;
      assert members == [m] + members[1..];
    }
  }

  /** The pretty printer loses nothing: its text, and a line feed after it, reads as the value. */
  lemma DumpsReadsBack(v: Json)
    ensures ReadJson(Dumps(v)) == Some(v) && ReadJson(Dumps(v) + "\n") == Some(v)
  {
    hide Lines, Join, TextOf, ReadBare;
    LinesAreText(v, 0, "", "");
    var text := TextOf(v, 0);
    assert "" + text + "" == text;
    TextStarts(v, 0);
    TextReadsBack(v, 0, "");
    TextReadsBack(v, 0, "\n");
    AfterWhites("", text);
    AfterWhites("", text + "\n");
    assert text + "" == text && "" + text == text && "" + (text + "\n") == text + "\n";
    AfterWhites("\n", "");
  }
}
