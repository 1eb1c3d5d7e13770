/** The streaming printer of a slot plan, against the pretty printer. */
module SlotPlan {
  import opened JsonText
  import opened JsonReader
  import opened Wrappers
  import opened Sequences

  /** A group's plan: its name and the ranges it yields. */
  datatype Plan = Plan(name: string, ranges: seq<(int, int)>)

  /** The member of the plan's `ranges` list for one range. */
  function RangeItem(name: string, start: int, end: int): Json {
    Obj([Member("group", Str(name)),
         Member("slot_start", Int(start)),
         Member("slot_end", Int(end)),
         Member("env", Env(name, IntText(start), IntText(end))),
         Member("cli_args", CliArgs(name, IntText(start), IntText(end)))])
  }

  function Env(name: string, start: string, end: string): Json {
    Obj([Member("FIRECUBE_SLOT_START", Str(start)),
         Member("FIRECUBE_SLOT_END", Str(end)),
         Member("FIRECUBE_SLOT_GROUP", Str(name))])
  }

  function CliArgs(name: string, start: string, end: string): Json {
    Arr([Str("--slot-start"), Str(start), Str("--slot-end"), Str(end), Str("--slot-group"), Str(name)])
  }

  function RangeItems(name: string, ranges: seq<(int, int)>): seq<Json> {
    if ranges == [] then []
    else RangeItems(name, ranges[..|ranges| - 1]) + [RangeItem(name, ranges[|ranges| - 1].0, ranges[|ranges| - 1].1)]
  }

  function Items(plans: seq<Plan>): seq<Json> {
    if plans == [] then []
    else Items(plans[..|plans| - 1]) + RangeItems(plans[|plans| - 1].name, plans[|plans| - 1].ranges)
  }

  /** `{**header, "ranges": v}` */
  function WithRanges(header: seq<Member>, v: Json): seq<Member> {
    if header == [] then [Member("ranges", v)]
    else if header[0].key == "ranges" then [Member("ranges", v)] + header[1..]
    else [header[0]] + WithRanges(header[1..], v)
  }

  /** The first member named `ranges`, or the end. */
  function RangesAt(header: seq<Member>): (n: nat)
    ensures n <= |header|
  {
    if header == [] || header[0].key == "ranges" then 0 else 1 + RangesAt(header[1..])
  }

  function Earlier(header: seq<Member>): seq<Member> {
    header[..RangesAt(header)]
  }

  function Later(header: seq<Member>): seq<Member> {
    if RangesAt(header) < |header| then header[RangesAt(header) + 1..] else []
  }

  lemma {:induction false} RangesBetween(header: seq<Member>, v: Json)
    ensures WithRanges(header, v) == Earlier(header) + [Member("ranges", v)] + Later(header)
  {
    if header == [] || header[0].key == "ranges" {
      assert Earlier(header) == [];
      assert header != [] ==> Later(header) == header[1..];
    } else {
      RangesBetween(header[1..], v);
      assert Earlier(header) == [header[0]] + Earlier(header[1..]);
      assert Later(header) == Later(header[1..]);
    }
  }

  /** No member of the header comes after one named `ranges`. */
  predicate RangesLast(header: seq<Member>) {
    forall i :: 0 <= i < |header| - 1 ==> header[i].key != "ranges"
  }

  lemma {:induction false} NothingLater(header: seq<Member>)
    ensures RangesLast(header) <==> Later(header) == []
  {
    if header != [] && header[0].key != "ranges" {
      NothingLater(header[1..]);
      if RangesLast(header[1..]) {
        forall i | 0 <= i < |header| - 1 ensures header[i].key != "ranges" {
          assert i > 0 ==> header[i] == header[1..][i - 1];
        }
      }
      if RangesLast(header) {
        assert forall i :: 0 <= i < |header[1..]| - 1 ==> header[1..][i] == header[i + 1];
      }
    }
  }

  /** The whole plan. */
  function PlanJson(header: seq<Member>, plans: seq<Plan>): Json {
    Obj(WithRanges(header, Arr(Items(plans))))
  }

  /** The text of one range as the source spells it, from its opening brace to its closing one. */
  function RangeText(group: string, start: string, end: string): string {
    Join(RangeTextLines(group, start, end))
  }

  function RangeTextLines(group: string, start: string, end: string): seq<string> {
    ["    {",
     "      \"group\": " + group + ",",
     "      \"slot_start\": " + start + ",",
     "      \"slot_end\": " + end + ",",
     "      \"env\": {",
     "        \"FIRECUBE_SLOT_START\": \"" + start + "\",",
     "        \"FIRECUBE_SLOT_END\": \"" + end + "\",",
     "        \"FIRECUBE_SLOT_GROUP\": " + group,
     "      },",
     "      \"cli_args\": [",
     "        \"--slot-start\",",
     "        \"" + start + "\",",
     "        \"--slot-end\",",
     "        \"" + end + "\",",
     "        \"--slot-group\",",
     "        " + group,
     "      ]",
     "    }"]
  }

  function ItemText(item: Json): string {
    Join(Lines(item, 2, Indent(2), ""))
  }

  // ---------------------------------------------------------------- one range

  lemma Indents()
    ensures Indent(0) == "" && Indent(1) == "  " && Indent(2) == "    " && Indent(3) == "      " && Indent(4) == "        "
  {
    assert Indent(1) == "  " + Indent(0);
    assert Indent(2) == "  " + Indent(1);
    assert Indent(3) == "  " + Indent(2);
    assert Indent(4) == "  " + Indent(3);
  }

  lemma KeyQuote(key: string)
    requires Plain(key)
    ensures Quote(key) == "\"" + key + "\""
  {
    PlainQuote(key);
  }

  /** A line that ends in a quoted text. */
  lemma QuotedLine(lead: string, s: string, tail: string)
    requires Plain(s)
    ensures lead + Quote(s) + tail == lead + "\"" + s + ("\"" + tail)
  {
    KeyQuote(s);
  }

  lemma KeyLead(level: nat, key: string)
    requires Plain(key)
    ensures Indent(level) + Quote(key) + ": " == Indent(level) + ("\"" + key + "\": ")
  {
    KeyQuote(key);
  }

  lemma EnvStartLead()
    ensures Indent(4) + Quote("FIRECUBE_SLOT_START") + ": " == "        \"FIRECUBE_SLOT_START\": "
  {
    hide Quote, Indent;
    Indents();
    KeyLead(4, "FIRECUBE_SLOT_START");
  }

  lemma EnvEndLead()
    ensures Indent(4) + Quote("FIRECUBE_SLOT_END") + ": " == "        \"FIRECUBE_SLOT_END\": "
  {
    hide Quote, Indent;
    Indents();
    KeyLead(4, "FIRECUBE_SLOT_END");
  }

  lemma EnvGroupLead()
    ensures Indent(4) + Quote("FIRECUBE_SLOT_GROUP") + ": " == "        \"FIRECUBE_SLOT_GROUP\": "
  {
    hide Quote, Indent;
    Indents();
    KeyLead(4, "FIRECUBE_SLOT_GROUP");
  }

  lemma GroupLead()
    ensures Indent(3) + Quote("group") + ": " == "      \"group\": "
  {
    hide Quote, Indent;
    Indents();
    KeyLead(3, "group");
  }

  lemma SlotStartLead()
    ensures Indent(3) + Quote("slot_start") + ": " == "      \"slot_start\": "
  {
    hide Quote, Indent;
    Indents();
    KeyLead(3, "slot_start");
  }

  lemma SlotEndLead()
    ensures Indent(3) + Quote("slot_end") + ": " == "      \"slot_end\": "
  {
    hide Quote, Indent;
    Indents();
    KeyLead(3, "slot_end");
  }

  lemma EnvLead()
    ensures Indent(3) + Quote("env") + ": " == "      \"env\": "
  {
    hide Quote, Indent;
    Indents();
    KeyLead(3, "env");
  }

  lemma CliArgsLead()
    ensures Indent(3) + Quote("cli_args") + ": " == "      \"cli_args\": "
  {
    hide Quote, Indent;
    Indents();
    KeyLead(3, "cli_args");
  }

  /** The three members of `env`, as lines. */
  lemma EnvMembers(name: string, start: string, end: string)
    requires Plain(start) && Plain(end)
    ensures MemberLines(Env(name, start, end).members, 4) ==
            ["        \"FIRECUBE_SLOT_START\": \"" + start + "\",",
             "        \"FIRECUBE_SLOT_END\": \"" + end + "\",",
             "        \"FIRECUBE_SLOT_GROUP\": " + Quote(name)]
  {
    hide Quote, EscapedAll, Indent;
    EnvStartLead();
    EnvEndLead();
    EnvGroupLead();
    QuotedLine("        \"FIRECUBE_SLOT_START\": ", start, ",");
    QuotedLine("        \"FIRECUBE_SLOT_END\": ", end, ",");
    assert "        \"FIRECUBE_SLOT_START\": " + "\"" == "        \"FIRECUBE_SLOT_START\": \"";
    assert "        \"FIRECUBE_SLOT_END\": " + "\"" == "        \"FIRECUBE_SLOT_END\": \"";
    assert "\"" + "," == "\",";
    var last := "        \"FIRECUBE_SLOT_GROUP\": " + Quote(name);
    assert last + "" == last;
    ThreeMembers(Env(name, start, end).members, 4);
  }

  lemma ThreeMembers(ms: seq<Member>, level: nat)
    requires |ms| == 3
    ensures MemberLines(ms, level) ==
            MemberLine(ms[0], level, ",") + MemberLine(ms[1], level, ",") + MemberLine(ms[2], level, "")
  {
    hide Lines, Indent, Quote;
    assert ms[1..][1..] == [ms[2]] && [ms[2]][1..] == [];
    assert MemberLines(ms[1..], level) == MemberLine(ms[1], level, ",") + MemberLines(ms[1..][1..], level);
    assert MemberLines([ms[2]], level) == MemberLine(ms[2], level, "") + [];
  }

  function MemberLine(m: Member, level: nat, tail: string): seq<string> {
    Lines(m.value, level, Indent(level) + Quote(m.key) + ": ", tail)
  }

  lemma FiveMembers(ms: seq<Member>, level: nat)
    requires |ms| == 5
    ensures MemberLines(ms, level) ==
            MemberLine(ms[0], level, ",") + MemberLine(ms[1], level, ",") + (MemberLine(ms[2], level, ",")
            + MemberLine(ms[3], level, ",") + MemberLine(ms[4], level, ""))
  {
    hide Lines, Indent, Quote;
    var rest := ms[2..];
    assert ms[1..][1..] == rest && rest[0] == ms[2] && rest[1] == ms[3] && rest[2] == ms[4];
    ThreeMembers(rest, level);
    assert MemberLines(ms[1..], level) == MemberLine(ms[1], level, ",") + MemberLines(ms[1..][1..], level);
  }

  lemma ThreeItems(items: seq<Json>, level: nat, last: string)
    requires |items| >= 3 && last == (if |items| == 3 then "" else ",")
    ensures ItemLines(items, level) ==
            Lines(items[0], level, Indent(level), ",") + Lines(items[1], level, Indent(level), ",")
            + Lines(items[2], level, Indent(level), last) + ItemLines(items[3..], level)
  {
    hide Lines, Indent;
    assert items[1..][1..] == items[2..] && items[2..][1..] == items[3..];
    assert ItemLines(items[1..], level) == Lines(items[1], level, Indent(level), ",") + ItemLines(items[2..], level);
    assert ItemLines(items[2..], level) == Lines(items[2], level, Indent(level), last) + ItemLines(items[3..], level);
  }

  /** The six items of `cli_args`, as lines. */
  lemma CliItems(name: string, start: string, end: string)
    requires Plain(start) && Plain(end)
    ensures ItemLines(CliArgs(name, start, end).items, 4) ==
            ["        \"--slot-start\",",
             "        \"" + start + "\",",
             "        \"--slot-end\",",
             "        \"" + end + "\",",
             "        \"--slot-group\",",
             "        " + Quote(name)]
  {
    hide Quote, EscapedAll, Indent;
    Indents();
    var items := CliArgs(name, start, end).items;
    ThreeItems(items, 4, ",");
    ThreeItems(items[3..], 4, "");
    assert items[3..][3..] == [];
    StartFlag();
    EndFlag();
    GroupFlag();
    QuotedLine("        ", start, ",");
    QuotedLine("        ", end, ",");
    assert "        " + "\"" == "        \"";
    assert "\"" + "," == "\",";
    assert "        " + Quote(name) + "" == "        " + Quote(name);
  }

  lemma StartFlag()
    ensures "        " + Quote("--slot-start") + "," == "        \"--slot-start\","
  {
    hide Quote;
    KeyQuote("--slot-start");
    assert "\"" + "--slot-start" + "\"" == "\"--slot-start\"";
    assert "        " + "\"--slot-start\"" == "        \"--slot-start\"";
  }

  lemma EndFlag()
    ensures "        " + Quote("--slot-end") + "," == "        \"--slot-end\","
  {
    hide Quote;
    KeyQuote("--slot-end");
    assert "\"" + "--slot-end" + "\"" == "\"--slot-end\"";
    assert "        " + "\"--slot-end\"" == "        \"--slot-end\"";
  }

  lemma GroupFlag()
    ensures "        " + Quote("--slot-group") + "," == "        \"--slot-group\","
  {
    hide Quote;
    KeyQuote("--slot-group");
    assert "\"" + "--slot-group" + "\"" == "\"--slot-group\"";
    assert "        " + "\"--slot-group\"" == "        \"--slot-group\"";
  }

  lemma Brackets()
    ensures "    " + "{" == "    {" && "    " + "}" + "" == "    }"
    ensures "      " + "}" + "," == "      }," && "      " + "]" + "" == "      ]"
    ensures "      \"env\": " + "{" == "      \"env\": {" && "      \"cli_args\": " + "[" == "      \"cli_args\": ["
  {
  }

  lemma EnvLines(name: string, start: string, end: string)
    requires Plain(start) && Plain(end)
    ensures MemberLine(Member("env", Env(name, start, end)), 3, ",") ==
            ["      \"env\": {"]
            + ["        \"FIRECUBE_SLOT_START\": \"" + start + "\",",
               "        \"FIRECUBE_SLOT_END\": \"" + end + "\",",
               "        \"FIRECUBE_SLOT_GROUP\": " + Quote(name)]
            + ["      },"]
  {
    hide Quote, EscapedAll, Indent, MemberLines;
    Indents();
    EnvLead();
    EnvMembers(name, start, end);
    Brackets();
  }

  lemma CliLines(name: string, start: string, end: string)
    requires Plain(start) && Plain(end)
    ensures MemberLine(Member("cli_args", CliArgs(name, start, end)), 3, "") ==
            ["      \"cli_args\": ["]
            + ["        \"--slot-start\",",
               "        \"" + start + "\",",
               "        \"--slot-end\",",
               "        \"" + end + "\",",
               "        \"--slot-group\",",
               "        " + Quote(name)]
            + ["      ]"]
  {
    hide Quote, EscapedAll, Indent, ItemLines;
    Indents();
    CliArgsLead();
    CliItems(name, start, end);
    Brackets();
  }

  /** The pretty printer's lines for one range are the lines the source spells. */
  lemma RangeLines(name: string, start: int, end: int)
    ensures Lines(RangeItem(name, start, end), 2, Indent(2), "") ==
            RangeTextLines(Quote(name), IntText(start), IntText(end))
  {
    hide Quote, EscapedAll, Indent, IntText, MemberLines;
    Indents();
    IntTextIsPlain(start);
    IntTextIsPlain(end);
    GroupLead();
    SlotStartLead();
    SlotEndLead();
    FiveMembers(RangeItem(name, start, end).members, 3);
    EnvLines(name, IntText(start), IntText(end));
    CliLines(name, IntText(start), IntText(end));
    Brackets();
  }

  // ---------------------------------------------------------------- the list of ranges

  /** What has been written of the list once these items are out: each after its opener. */
  function Emitted(items: seq<Json>): string {
    if items == [] then ""
    else
      Emitted(items[..|items| - 1]) + (if |items| == 1 then "[" else ",") + "\n" + ItemText(items[|items| - 1])
  }

  /** Items that others follow. */
  function CommaItems(items: seq<Json>, level: nat): seq<string> {
    if items == [] then [] else Lines(items[0], level, Indent(level), ",") + CommaItems(items[1..], level)
  }

  lemma {:induction false} ItemsSnoc(items: seq<Json>, last: Json, level: nat)
    ensures ItemLines(items + [last], level) == CommaItems(items, level) + Lines(last, level, Indent(level), "")
    decreases |items|
  {
    hide Lines, Indent;
    if items == [] {
      assert items + [last] == [last] && [last][1..] == [];
    } else {
      ItemsSnoc(items[1..], last, level);
      assert (items + [last])[0] == items[0] && (items + [last])[1..] == items[1..] + [last];
    }
  }

  lemma {:induction false} CommaItemsSnoc(items: seq<Json>, last: Json, level: nat)
    ensures CommaItems(items + [last], level) == CommaItems(items, level) + Lines(last, level, Indent(level), ",")
    decreases |items|
  {
    hide Lines, Indent;
    if items == [] {
      assert items + [last] == [last] && [last][1..] == [];
    } else {
      CommaItemsSnoc(items[1..], last, level);
      assert (items + [last])[0] == items[0] && (items + [last])[1..] == items[1..] + [last];
    }
  }

  /** With a comma after every item, the joined lines are what has been written and a comma. */
  lemma {:induction false} EmittedCommas(items: seq<Json>)
    requires items != []
    ensures CommaItems(items, 2) != [] && "[" + "\n" + Join(CommaItems(items, 2)) == Emitted(items) + ","
    decreases |items|
  {
    hide Lines, Indent;
    var front, last := items[..|items| - 1], items[|items| - 1];
    var lines, comma := Lines(last, 2, Indent(2), ""), Lines(last, 2, Indent(2), ",");
    assert items == front + [last];
    CommaItemsSnoc(front, last, 2);
    LinesTail(last, 2, Indent(2), ",");
    JoinTail(lines, ",");
    if front == [] {
      assert CommaItems(items, 2) == comma;
      Regroup("[" + "\n", ItemText(last), ",");
      assert Emitted(items) == "" + "[" + "\n" + ItemText(last);
    } else {
      EmittedCommas(front);
      JoinConcat(CommaItems(front, 2), comma);
      JoinedAfter("[" + "\n", Join(CommaItems(front, 2)), Emitted(front), ItemText(last), ",");
    }
  }

  lemma JoinedAfter(open: string, joined: string, emitted: string, text: string, tail: string)
    requires open + joined == emitted + ","
    ensures open + (joined + "\n" + (text + tail)) == emitted + "," + "\n" + text + tail
  {
    assert open + (joined + "\n" + (text + tail)) == (open + joined) + ("\n" + (text + tail));
  }

  lemma EmittedItems(items: seq<Json>)
    requires items != []
    ensures ItemLines(items, 2) != [] && "[" + "\n" + Join(ItemLines(items, 2)) == Emitted(items)
  {
    hide Lines, Indent;
    var front, last := items[..|items| - 1], items[|items| - 1];
    var lines := Lines(last, 2, Indent(2), "");
    assert items == front + [last];
    ItemsSnoc(front, last, 2);
    if front == [] {
      assert ItemLines(items, 2) == lines;
      assert Emitted(items) == "" + "[" + "\n" + ItemText(last);
    } else {
      EmittedCommas(front);
      JoinConcat(CommaItems(front, 2), lines);
      JoinedAfter("[" + "\n", Join(CommaItems(front, 2)), Emitted(front), ItemText(last), "");
      assert ItemText(last) + "" == ItemText(last);
    }
  }

  // ---------------------------------------------------------------- the whole plan

  /** The text of a plan up to its list of ranges. */
  function Before(header: seq<Member>): string {
    Join(["{"] + CommaLines(header, 1)) + "\n" + Lead()
  }

  function Lead(): string {
    Indent(1) + Quote("ranges") + ": "
  }

  function ListPart(items: seq<Json>): string {
    if items == [] then "[]" else Emitted(items) + "\n  ]"
  }

  /** The text of a plan after its list of ranges. */
  function After(later: seq<Member>): string {
    (if later == [] then "" else "," + "\n" + Join(MemberLines(later, 1))) + "\n}"
  }

  /** The plan with its list of ranges, from its lines. */
  lemma PlanLines(header: seq<Member>, items: seq<Json>, later: seq<Member>)
    ensures Lines(Obj(header + [Member("ranges", Arr(items))] + later), 0, "", "") ==
            ["{"] + CommaLines(header, 1) + Lines(Arr(items), 1, Lead(), if later == [] then "" else ",")
            + MemberLines(later, 1) + ["}"]
  {
    hide Quote, CommaLines;
    Indents();
    var rest := [Member("ranges", Arr(items))] + later;
    Regroup(header, [Member("ranges", Arr(items))], later);
    MemberLinesConcat(header, rest, 1);
    assert rest[1..] == later;
    assert "" + "{" == "{" && Indent(0) + "}" + "" == "}";
    Regroup(["{"], CommaLines(header, 1), MemberLines(rest, 1));
    Regroup(["{"] + CommaLines(header, 1), MemberLine(rest[0], 1, if later == [] then "" else ","), MemberLines(later, 1));
  }

  lemma PlanText(header: seq<Member>, items: seq<Json>, later: seq<Member>)
    ensures Dumps(Obj(header + [Member("ranges", Arr(items))] + later)) == Before(header) + ListPart(items) + After(later)
  {
    hide Quote, CommaLines, MemberLines, ItemLines, Lead, ListPart;
    var tail := if later == [] then "" else ",";
    var front, list, rest := ["{"] + CommaLines(header, 1), Lines(Arr(items), 1, Lead(), tail), MemberLines(later, 1);
    PlanLines(header, items, later);
    ListText(items, tail);
    JoinConcat(front, list);
    Glue(Join(front), Lead(), ListPart(items), tail);
    assert Join(["}"]) == "}" && "\n" + "}" == "\n}";
    if later == [] {
      NoMembers();
      assert front + list + rest == front + list;
      JoinConcat(front + list, ["}"]);
      Regroup(Join(front + list), "\n", "}");
      assert Join(front + list) + "" == Join(front + list);
    } else {
      SomeMembers(later);
      JoinConcat(front + list + rest, ["}"]);
      JoinConcat(front + list, rest);
      GlueRest(Join(front) + "\n" + Lead() + ListPart(items), Join(rest));
    }
  }

  lemma NoMembers()
    ensures MemberLines([], 1) == []
  {
  }

  lemma SomeMembers(members: seq<Member>)
    requires members != []
    ensures MemberLines(members, 1) != []
  {
  }

  lemma Glue(front: string, lead: string, list: string, tail: string)
    ensures front + "\n" + (lead + list + tail) == front + "\n" + lead + list + tail
  {
  }

  lemma GlueRest(text: string, rest: string)
    ensures text + "," + "\n" + rest + "\n" + "}" == text + ("," + "\n" + rest + "\n}")
  {
    assert "\n" + "}" == "\n}";
  }

  lemma ListText(items: seq<Json>, tail: string)
    ensures Join(Lines(Arr(items), 1, Lead(), tail)) == Lead() + ListPart(items) + tail
  {
    hide Lead, Emitted, ItemLines;
    LinesTail(Arr(items), 1, Lead(), tail);
    JoinTail(Lines(Arr(items), 1, Lead(), ""), tail);
    BareListText(items);
  }

  lemma BareListText(items: seq<Json>)
    ensures Join(Lines(Arr(items), 1, Lead(), "")) == Lead() + ListPart(items)
  {
    hide Lead, Emitted, ItemLines;
    if items == [] {
      assert Lead() + "[]" + "" == Lead() + "[]";
    } else {
      Indents();
      EmittedItems(items);
      var inner := ItemLines(items, 2);
      assert Lines(Arr(items), 1, Lead(), "") == [Lead() + "["] + inner + ["  ]"] by {
        assert Indent(1) + "]" + "" == "  ]";
      }
      JoinConcat([Lead() + "["] + inner, ["  ]"]);
      JoinConcat([Lead() + "["], inner);
      OpenList(Lead(), Join(inner), Emitted(items));
    }
  }

  lemma OpenList(lead: string, inner: string, emitted: string)
    requires "[" + "\n" + inner == emitted
    ensures lead + "[" + "\n" + inner + "\n" + "  ]" == lead + (emitted + "\n  ]")
  {
    assert lead + "[" + "\n" + inner == lead + ("[" + "\n" + inner);
    assert "\n" + "  ]" == "\n  ]";
  }

  // ---------------------------------------------------------------- the head

  /** `s.rpartition("[]")[0]` */
  function BeforeLastList(s: string): string {
    if |s| < 2 then ""
    else if s[|s| - 2..] == "[]" then s[..|s| - 2]
    else BeforeLastList(s[..|s| - 1])
  }

  lemma HeadOfEmptyPlan(h: string)
    ensures BeforeLastList(h + "[]" + "\n}") == h
  {
    var s := h + "[]" + "\n}";
    var n := |s|;
    assert s[n - 2..][1] == '}';
    assert s[..n - 1][n - 3..][1] == '\n';
    assert s[..n - 1][..n - 2] == h + "[]";
    assert (h + "[]")[|h|..] == "[]" && (h + "[]")[..|h|] == h;
    assert BeforeLastList(h + "[]") == h;
    assert BeforeLastList(s[..n - 1]) == BeforeLastList(h + "[]");
  }

  /** The last empty list is this one, or it comes after it. */
  lemma {:induction false} HeadReaches(h: string, rest: string)
    ensures var head := BeforeLastList(h + "[]" + rest); head == h || h + "[]" <= head
    decreases |rest|
  {
    var s := h + "[]" + rest;
    var n := |rest|;
    if n == 0 {
      assert s[|s| - 2..] == "[]" && s[..|s| - 2] == h;
    } else if s[|s| - 2..] == "[]" {
      assert s[|s| - 2] == s[|s| - 2..][0] == '[';
      assert s[|h| + 1] == ']';
      assert s[..|s| - 2] == h + "[]" + rest[..n - 2];
    } else {
      HeadReaches(h, rest[..n - 1]);
      assert s[..|s| - 1] == h + "[]" + rest[..n - 1];
    }
  }

  /** What is written: the text of the empty plan up to its last empty list, the ranges, and the end. */
  function Streamed(header: seq<Member>, items: seq<Json>): string {
    BeforeLastList(Dumps(Obj(WithRanges(header, Arr([]))))) + ListPart(items) + "\n}" + "\n"
  }

  lemma {:induction false} EmittedStart(items: seq<Json>)
    requires items != []
    ensures |Emitted(items)| > 2 && Emitted(items)[0] == '[' && Emitted(items)[1] == '\n'
  {
    hide Lines;
    if |items| > 1 {
      EmittedStart(items[..|items| - 1]);
    }
    ItemTextIsLong(items[|items| - 1]);
  }

  lemma ItemTextIsLong(item: Json)
    ensures ItemText(item) != ""
  {
    Indents();
    var lines := Lines(item, 2, Indent(2), "");
    assert lines[0] != "";
  }

  /** What is written is the pretty printer's text and a line feed when no member of the header comes
      after one named `ranges`, and otherwise for no plan that has a range. */
  lemma StreamedIsPlan(header: seq<Member>, items: seq<Json>)
    ensures RangesLast(header) ==> Streamed(header, items) == Dumps(Obj(WithRanges(header, Arr(items)))) + "\n"
    ensures items != [] && !RangesLast(header) ==>
              Streamed(header, items) != Dumps(Obj(WithRanges(header, Arr(items)))) + "\n"
  {
    hide Dumps, Before, Emitted, Join, MemberLines, BeforeLastList;
    var before, later := Before(Earlier(header)), Later(header);
    NothingLater(header);
    RangesBetween(header, Arr([]));
    RangesBetween(header, Arr(items));
    PlanText(Earlier(header), [], later);
    PlanText(Earlier(header), items, later);
    if later == [] {
      HeadOfEmptyPlan(before);
      assert "" + "\n}" == "\n}";
    } else if items != [] {
      HeadReaches(before, After(later));
      EmittedStart(items);
      Differs(before, BeforeLastList(before + "[]" + After(later)), ListPart(items), After(later));
    }
  }

  lemma Differs(before: string, head: string, list: string, after: string)
    requires head == before || before + "[]" <= head
    requires |list| > 1 && list[1] == '\n' && |after| > 2
    ensures head + list + "\n}" + "\n" != before + list + after + "\n"
  {
    var a, b := head + list + "\n}" + "\n", before + list + after + "\n";
    if head == before {
      assert |a| < |b|;
    } else {
      assert a[|before| + 1] == (before + "[]")[|before| + 1] == ']';
      assert b[|before| + 1] == list[1];
    }
  }

  // ---------------------------------------------------------------- the generator

  function Cat(pieces: seq<string>): string {
    if pieces == [] then "" else Cat(pieces[..|pieces| - 1]) + pieces[|pieces| - 1]
  }

  lemma CatSnoc(pieces: seq<string>, piece: string)
    ensures Cat(pieces + [piece]) == Cat(pieces) + piece
  {
    assert (pieces + [piece])[..|pieces|] == pieces;
  }

  lemma {:induction false} CatConcat(a: seq<string>, b: seq<string>)
    ensures Cat(a + b) == Cat(a) + Cat(b)
  {
    if b == [] {
      assert a + b == a;
    } else {
      var n := |b| - 1;
      CatConcat(a, b[..n]);
      assert (a + b)[..|a + b| - 1] == a + b[..n];
      Regroup(Cat(a), Cat(b[..n]), b[n]);
    }
  }

  /** The pieces so far are the head and the items so far, and `opener` is what comes before the next. */
  ghost predicate Written(head: string, items: seq<Json>, pieces: seq<string>, opener: string) {
    Cat(pieces) == head + Emitted(items) && opener == if items == [] then "[" else ","
  }

  lemma WriteRange(head: string, items: seq<Json>, pieces: seq<string>, opener: string, name: string,
                   start: int, end: int)
    requires Written(head, items, pieces, opener)
    ensures Written(head, items + [RangeItem(name, start, end)],
                    pieces + [opener + "\n" + RangeText(Quote(name), IntText(start), IntText(end))], ",")
  {
    hide Quote, IntText, RangeItem, Lines, RangeTextLines;
    var item, text := RangeItem(name, start, end), RangeText(Quote(name), IntText(start), IntText(end));
    RangeLines(name, start, end);
    assert ItemText(item) == text;
    CatSnoc(pieces, opener + "\n" + text);
    assert (items + [item])[..|items|] == items;
    assert Emitted(items + [item]) == Emitted(items) + opener + "\n" + text;
    Appended(head, Emitted(items), opener, text);
  }

  lemma Appended(before: string, emitted: string, opener: string, text: string)
    ensures before + emitted + (opener + "\n" + text) == before + (emitted + opener + "\n" + text)
  {
  }

  /** Yield the plan as text, piece by piece. */
  method JsonPieces(header: seq<Member>, plans: seq<Plan>) returns (pieces: seq<string>)
    ensures Cat(pieces) == Streamed(header, Items(plans))
    ensures RangesLast(header) ==> Cat(pieces) == Dumps(PlanJson(header, plans)) + "\n"
    ensures RangesLast(header) ==> SaysPlan(Cat(pieces), header, AllSlots(plans))
    ensures Items(plans) != [] && !RangesLast(header) ==> Cat(pieces) != Dumps(PlanJson(header, plans)) + "\n"
  {
    hide Emitted, RangeItem, Dumps, Quote, IntText, RangeText, Join, BeforeLastList, RangesLast, SaysPlan;
    StreamedIsPlan(header, Items(plans));
    if RangesLast(header) {
      PlanSays(header, plans);
    }
    var head := BeforeLastList(Dumps(Obj(WithRanges(header, Arr([])))));
    pieces := [head];
    var opener := "[";
    FirstPiece(head, opener);
    for p := 0 to |plans|
      invariant Written(head, Items(plans[..p]), pieces, opener)
    {
      var group := Quote(plans[p].name);
      var ranges := plans[p].ranges;
      ghost var items := Items(plans[..p]);
      assert items + RangeItems(plans[p].name, ranges[..0]) == items;
      for i := 0 to |ranges|
        invariant Written(head, items + RangeItems(plans[p].name, ranges[..i]), pieces, opener)
      {
        var start, end := ranges[i].0, ranges[i].1;
        WriteRange(head, items + RangeItems(plans[p].name, ranges[..i]), pieces, opener, plans[p].name, start, end);
        pieces := pieces + [opener + "\n" + RangeText(group, IntText(start), IntText(end))];
        opener := ",";
        NextRange(items, plans[p].name, ranges, i);
      }
      assert ranges[..|ranges|] == ranges && plans[..p + 1][..p] == plans[..p];
    }
    assert plans[..|plans|] == plans;
    var ending := if opener == "[" then "[]\n}\n" else "\n  ]\n}\n";
    LastPiece(head, Items(plans), pieces, opener);
    pieces := pieces + [ending];
  }

  lemma FirstPiece(head: string, opener: string)
    requires opener == "["
    ensures Written(head, [], [head], opener)
  {
    CatSnoc([], head);
    assert [] + [head] == [head] && "" + head == head && head + "" == head;
  }

  lemma NextRange(items: seq<Json>, name: string, ranges: seq<(int, int)>, i: nat)
    requires i < |ranges|
    ensures items + RangeItems(name, ranges[..i]) + [RangeItem(name, ranges[i].0, ranges[i].1)] ==
            items + RangeItems(name, ranges[..i + 1])
  {
    assert ranges[..i + 1][..i] == ranges[..i];
  }

  lemma LastPiece(head: string, items: seq<Json>, pieces: seq<string>, opener: string)
    requires Written(head, items, pieces, opener)
    ensures Cat(pieces + [if opener == "[" then "[]\n}\n" else "\n  ]\n}\n"]) == head + ListPart(items) + "\n}" + "\n"
  {
    hide Emitted;
    var ending := if opener == "[" then "[]\n}\n" else "\n  ]\n}\n";
    CatSnoc(pieces, ending);
    if items == [] {
      assert Emitted(items) == "" && head + "" == head by { NothingEmitted(); }
      assert ending == "[]" + "\n}" + "\n";
    } else {
      assert ending == "\n  ]" + "\n}" + "\n";
    }
  }

  lemma NothingEmitted()
    ensures Emitted([]) == ""
  {
  }

  // ---------------------------------------------------------------- what a reader of the plan gets

  /** One range of a plan: its group, start and end. */
  datatype Slot = Slot(group: string, start: int, end: int)

  function GroupSlots(plan: Plan): seq<Slot> {
    seq(|plan.ranges|, i requires 0 <= i < |plan.ranges| => Slot(plan.name, plan.ranges[i].0, plan.ranges[i].1))
  }

  /** The ranges of all groups, in order. */
  function AllSlots(plans: seq<Plan>): seq<Slot> {
    if plans == [] then [] else AllSlots(plans[..|plans| - 1]) + GroupSlots(plans[|plans| - 1])
  }

  function Find(members: seq<Member>, key: string): Option<Json> {
    if members == [] then None else if members[0].key == key then Some(members[0].value) else Find(members[1..], key)
  }

  function Under(v: Json, key: string): Option<Json> {
    if v.Obj? then Find(v.members, key) else None
  }

  /** A string whose text is the number. */
  predicate IsNumberText(v: Json, n: int) {
    v.Str? && ReadJson(v.s) == Some(Int(n))
  }

  /** An entry of the plan says this range in its fields, its environment and its arguments. */
  predicate SaysSlot(item: Json, slot: Slot) {
    && Under(item, "group") == Some(Str(slot.group))
    && Under(item, "slot_start") == Some(Int(slot.start))
    && Under(item, "slot_end") == Some(Int(slot.end))
    && Under(item, "env").Some? && SaysEnv(Under(item, "env").value, slot)
    && Under(item, "cli_args").Some? && SaysArgs(Under(item, "cli_args").value, slot)
  }

  predicate SaysEnv(env: Json, slot: Slot) {
    && Under(env, "FIRECUBE_SLOT_START").Some? && IsNumberText(Under(env, "FIRECUBE_SLOT_START").value, slot.start)
    && Under(env, "FIRECUBE_SLOT_END").Some? && IsNumberText(Under(env, "FIRECUBE_SLOT_END").value, slot.end)
    && Under(env, "FIRECUBE_SLOT_GROUP") == Some(Str(slot.group))
  }

  predicate SaysArgs(args: Json, slot: Slot) {
    && args.Arr? && |args.items| == 6
    && args.items[0] == Str("--slot-start") && IsNumberText(args.items[1], slot.start)
    && args.items[2] == Str("--slot-end") && IsNumberText(args.items[3], slot.end)
    && args.items[4] == Str("--slot-group") && args.items[5] == Str(slot.group)
  }

  /** The text reads as the header, a `ranges` member of its own left out, and then exactly these
      ranges, in order. */
  ghost predicate SaysPlan(text: string, header: seq<Member>, slots: seq<Slot>) {
    var own := header != [] && header[|header| - 1].key == "ranges";
    var v := ReadJson(text);
    && v.Some? && v.value.Obj?
    && var members := v.value.members;
       && |members| > 0
       && members[..|members| - 1] == (if own then header[..|header| - 1] else header)
       && members[|members| - 1].key == "ranges"
       && members[|members| - 1].value.Arr?
       && SaysSlots(members[|members| - 1].value.items, slots)
  }

  ghost predicate SaysSlots(items: seq<Json>, slots: seq<Slot>) {
    |items| == |slots| && forall i :: 0 <= i < |items| ==> SaysSlot(items[i], slots[i])
  }

  lemma NumberText(n: int)
    ensures IsNumberText(Str(IntText(n)), n)
  {
    hide ReadJson, IntText;
    DumpsReadsBack(Int(n));
    assert "" + IntText(n) + "" == IntText(n);
    assert Dumps(Int(n)) == IntText(n);
  }

  lemma RangeItemSays(name: string, start: int, end: int)
    ensures SaysSlot(RangeItem(name, start, end), Slot(name, start, end))
  {
    hide IsNumberText, IntText;
    NumberText(start);
    NumberText(end);
    EnvSays(name, start, end);
    var item := RangeItem(name, start, end);
    var ms := item.members;
    FindNext(ms, "slot_start");
    FindNext(ms, "slot_end");
    FindNext(ms[1..], "slot_end");
    FindNext(ms, "env");
    FindNext(ms[1..], "env");
    FindNext(ms[2..], "env");
    FindNext(ms, "cli_args");
    FindNext(ms[1..], "cli_args");
    FindNext(ms[2..], "cli_args");
    FindNext(ms[3..], "cli_args");
  }

  lemma FindNext(members: seq<Member>, key: string)
    requires members != [] && members[0].key != key
    ensures Find(members, key) == Find(members[1..], key)
  {
  }

  lemma EnvSays(name: string, start: int, end: int)
    ensures SaysEnv(Env(name, IntText(start), IntText(end)), Slot(name, start, end))
  {
    hide IsNumberText, IntText;
    NumberText(start);
    NumberText(end);
    var ms := Env(name, IntText(start), IntText(end)).members;
    FindNext(ms, "FIRECUBE_SLOT_END");
    FindNext(ms, "FIRECUBE_SLOT_GROUP");
    FindNext(ms[1..], "FIRECUBE_SLOT_GROUP");
  }

  lemma {:induction false} GroupSays(name: string, ranges: seq<(int, int)>)
    ensures SaysSlots(RangeItems(name, ranges), GroupSlots(Plan(name, ranges)))
  {
    hide SaysSlot, RangeItem;
    if ranges != [] {
      var n := |ranges| - 1;
      GroupSays(name, ranges[..n]);
      RangeItemSays(name, ranges[n].0, ranges[n].1);
      assert GroupSlots(Plan(name, ranges)) ==
             GroupSlots(Plan(name, ranges[..n])) + [Slot(name, ranges[n].0, ranges[n].1)];
    }
  }

  lemma {:induction false} ItemsSay(plans: seq<Plan>)
    ensures SaysSlots(Items(plans), AllSlots(plans))
  {
    hide SaysSlot;
    if plans != [] {
      var n := |plans| - 1;
      ItemsSay(plans[..n]);
      GroupSays(plans[n].name, plans[n].ranges);
    }
  }

  /** The pretty printer's text of a plan says what the plan is. */
  lemma PlanSays(header: seq<Member>, plans: seq<Plan>)
    requires RangesLast(header)
    ensures SaysPlan(Dumps(PlanJson(header, plans)) + "\n", header, AllSlots(plans))
  {
    hide Dumps, ReadJson, SaysSlots, Items, AllSlots;
    DumpsReadsBack(PlanJson(header, plans));
    ItemsSay(plans);
    NothingLater(header);
    RangesBetween(header, Arr(Items(plans)));
    EarlierOf(header);
    assert Earlier(header) + [Member("ranges", Arr(Items(plans)))] + [] ==
           Earlier(header) + [Member("ranges", Arr(Items(plans)))];
  }

  lemma {:induction false} EarlierOf(header: seq<Member>)
    requires RangesLast(header)
    ensures Earlier(header) ==
            if header != [] && header[|header| - 1].key == "ranges" then header[..|header| - 1] else header
  {
    if header != [] && header[0].key != "ranges" {
      forall i | 0 <= i < |header[1..]| - 1 ensures header[1..][i].key != "ranges" {
        assert header[1..][i] == header[i + 1];
      }
      EarlierOf(header[1..]);
      assert Earlier(header) == [header[0]] + Earlier(header[1..]);
    }
  }

  // ---------------------------------------------------------------- batched writing

  const WRITE_BATCH := 1024

  /** Write the pieces in order, joined in batches: each element of `writes` is one write. */
  method EchoBatched(pieces: seq<string>) returns (writes: seq<string>)
    ensures Cat(writes) == Cat(pieces)
    ensures |writes| == (|pieces| + 1023) / 1024
  {
    writes := [];
    var batch := [];
    for i := 0 to |pieces|
      invariant |batch| < WRITE_BATCH && i == |writes| * WRITE_BATCH + |batch|
      invariant Cat(writes) + Cat(batch) == Cat(pieces[..i])
    {
      CatSnoc(pieces[..i], pieces[i]);
      CatSnoc(batch, pieces[i]);
      assert pieces[..i + 1] == pieces[..i] + [pieces[i]];
      Regroup(Cat(writes), Cat(batch), pieces[i]);
      batch := batch + [pieces[i]];
      if |batch| >= WRITE_BATCH {
        CatSnoc(writes, Cat(batch));
        writes := writes + [Cat(batch)];
        batch := [];
      }
    }
    assert pieces[..|pieces|] == pieces;
    if batch != [] {
      CatSnoc(writes, Cat(batch));
      writes := writes + [Cat(batch)];
    }
  }

  /** `firecube zarr slots --output json`: what is written is the whole plan and a line feed. */
  method EmitJson(header: seq<Member>, plans: seq<Plan>) returns (writes: seq<string>)
    ensures RangesLast(header) ==> Cat(writes) == Dumps(PlanJson(header, plans)) + "\n"
    ensures RangesLast(header) ==> SaysPlan(Cat(writes), header, AllSlots(plans))
    ensures Items(plans) != [] && !RangesLast(header) ==> Cat(writes) != Dumps(PlanJson(header, plans)) + "\n"
  {
    var pieces := JsonPieces(header, plans);
    writes := EchoBatched(pieces);
  }
}
