/** JSON values and the indented text of the pretty printer, line by line. */
module JsonText {
  import opened SegmentNames
  import opened Sequences

  datatype Json =
    | Null
    | Bool(b: bool)
    | Int(n: int)
    | Str(s: string)
    | Arr(items: seq<Json>)
    | Obj(members: seq<Member>)

  datatype Member = Member(key: string, value: Json)

  function IntText(n: int): string {
    if n < 0 then "-" + Padded(-n, 1) else Padded(n, 1)
  }

  function HexDigit(n: nat): char
    requires n < 16
  {
    if n < 10 then '0' + n as char else 'a' + (n - 10) as char
  }

  function Hex4(n: nat): string {
    [HexDigit(n / 4096 % 16), HexDigit(n / 256 % 16), HexDigit(n / 16 % 16), HexDigit(n % 16)]
  }

  predicate IsPlain(c: char) {
    0x20 <= c as int < 0x7f && c != '"' && c != '\\'
  }

  /** One character inside a JSON string, in ASCII. */
  function Escaped(c: char): string {
    var n := c as int;
    if IsPlain(c) then [c]
    else if c == '"' || c == '\\' then ['\\', c]
    else if n == 10 then "\\n"
    else if n == 13 then "\\r"
    else if n == 9 then "\\t"
    else if n == 12 then "\\f"
    else if n == 8 then "\\b"
    else if n < 0x10000 then "\\u" + Hex4(n)
    else "\\u" + Hex4(0xd800 + (n - 0x10000) / 1024) + "\\u" + Hex4(0xdc00 + (n - 0x10000) % 1024)
  }

  function EscapedAll(s: string): string {
    if s == "" then "" else Escaped(s[0]) + EscapedAll(s[1..])
  }

  function Quote(s: string): string {
    "\"" + EscapedAll(s) + "\""
  }

  function Indent(level: nat): string {
    if level == 0 then "" else "  " + Indent(level - 1)
  }

  /** The lines of a value: the first starts with `lead`, the last ends with `tail`. */
  function Lines(v: Json, level: nat, lead: string, tail: string): (lines: seq<string>)
    ensures lines != []
    decreases v, 0
  {
    match v
    case Null => [lead + "null" + tail]
    case Bool(b) => [lead + (if b then "true" else "false") + tail]
    case Int(n) => [lead + IntText(n) + tail]
    case Str(s) => [lead + Quote(s) + tail]
    case Arr(items) =>
      if items == [] then [lead + "[]" + tail]
      else [lead + "["] + ItemLines(items, level + 1) + [Indent(level) + "]" + tail]
    case Obj(members) =>
      if members == [] then [lead + "{}" + tail]
      else [lead + "{"] + MemberLines(members, level + 1) + [Indent(level) + "}" + tail]
  }

  function Comma<T>(s: seq<T>): string {
    if |s| == 1 then "" else ","
  }

  function ItemLines(items: seq<Json>, level: nat): seq<string>
    decreases items, 1
  {
    if items == [] then []
    else Lines(items[0], level, Indent(level), Comma(items)) + ItemLines(items[1..], level)
  }

  function MemberLines(members: seq<Member>, level: nat): seq<string>
    decreases members, 1
  {
    if members == [] then []
    else
      Lines(members[0].value, level, Indent(level) + Quote(members[0].key) + ": ", Comma(members))
      + MemberLines(members[1..], level)
  }

  /** Lines joined with line feeds. */
  function Join(lines: seq<string>): string
    requires lines != []
  {
    if |lines| == 1 then lines[0] else lines[0] + "\n" + Join(lines[1..])
  }

  /** `json.dumps(v, indent=2)` */
  function Dumps(v: Json): string {
    Join(Lines(v, 0, "", ""))
  }

  // ---------------------------------------------------------------- laws

  lemma {:induction false} JoinConcat(a: seq<string>, b: seq<string>)
    requires a != [] && b != []
    ensures Join(a + b) == Join(a) + "\n" + Join(b)
  {
    assert (a + b)[0] == a[0] && (a + b)[1..] == a[1..] + b;
    if |a| == 1 {
      assert a[1..] + b == b;
    } else {
      JoinConcat(a[1..], b);
      Regroup(a[0] + "\n", Join(a[1..]), "\n" + Join(b));
      Regroup(Join(a[1..]), "\n", Join(b));
      Regroup(a[0] + "\n" + Join(a[1..]), "\n", Join(b));
    }
  }

  /** Put `tail` at the end of the last line. */
  function WithTail(lines: seq<string>, tail: string): seq<string>
    requires lines != []
  {
    lines[..|lines| - 1] + [lines[|lines| - 1] + tail]
  }

  lemma LinesTail(v: Json, level: nat, lead: string, tail: string)
    ensures Lines(v, level, lead, tail) == WithTail(Lines(v, level, lead, ""), tail)
  {
    var lines := Lines(v, level, lead, "");
    if v.Arr? && v.items != [] {
      var front := [lead + "["] + ItemLines(v.items, level + 1);
      assert lines == front + [Indent(level) + "]" + ""];
      assert Indent(level) + "]" + "" + tail == Indent(level) + "]" + tail;
    } else if v.Obj? && v.members != [] {
      var front := [lead + "{"] + MemberLines(v.members, level + 1);
      assert lines == front + [Indent(level) + "}" + ""];
      assert Indent(level) + "}" + "" + tail == Indent(level) + "}" + tail;
    } else {
      assert |lines| == 1 && lines[0] + tail == Lines(v, level, lead, tail)[0] by {
        OneLineTail(v, level, lead, tail);
      }
    }
  }

  lemma OneLineTail(v: Json, level: nat, lead: string, tail: string)
    requires !(v.Arr? && v.items != []) && !(v.Obj? && v.members != [])
    ensures |Lines(v, level, lead, "")| == 1
    ensures Lines(v, level, lead, tail) == [Lines(v, level, lead, "")[0] + tail]
  {
    var text := match v
      case Null => "null"
      case Bool(b) => if b then "true" else "false"
      case Int(n) => IntText(n)
      case Str(s) => Quote(s)
      case Arr(_) => "[]"
      case Obj(_) => "{}";
    assert lead + text + "" + tail == lead + text + tail;
  }

  lemma {:induction false} JoinTail(lines: seq<string>, tail: string)
    requires lines != []
    ensures Join(WithTail(lines, tail)) == Join(lines) + tail
  {
    var w := WithTail(lines, tail);
    if |lines| > 1 {
      assert w[1..] == WithTail(lines[1..], tail) && w[0] == lines[0];
      JoinTail(lines[1..], tail);
      Regroup(lines[0] + "\n", Join(lines[1..]), tail);
    }
  }

  lemma {:induction false} MemberLinesConcat(a: seq<Member>, b: seq<Member>, level: nat)
    requires b != []
    ensures MemberLines(a + b, level) == CommaLines(a, level) + MemberLines(b, level)
    decreases |a|
  {
    hide Lines, Indent, Quote;
    if a == [] {
      assert a + b == b;
    } else {
      MemberLinesConcat(a[1..], b, level);
      assert (a + b)[0] == a[0] && (a + b)[1..] == a[1..] + b && |a + b| > 1;
    }
  }

  /** The lines of members that others follow. */
  function CommaLines(members: seq<Member>, level: nat): seq<string> {
    if members == [] then []
    else
      Lines(members[0].value, level, Indent(level) + Quote(members[0].key) + ": ", ",") + CommaLines(members[1..], level)
  }

  predicate Plain(s: string) {
    forall i :: 0 <= i < |s| ==> IsPlain(s[i])
  }

  lemma {:induction false} PlainQuote(s: string)
    requires Plain(s)
    ensures EscapedAll(s) == s && Quote(s) == "\"" + s + "\""
  {
    if s != "" {
      PlainQuote(s[1..]);
      assert s == [s[0]] + s[1..];
    }
  }

  lemma IntTextIsPlain(n: int)
    ensures Plain(IntText(n))
  {
    var digits := Padded(if n < 0 then -n else n, 1);
    PaddedMeaning(if n < 0 then -n else n, 1);
    assert forall i :: 0 <= i < |digits| ==> IsDigit(digits[i]);
  }
}
