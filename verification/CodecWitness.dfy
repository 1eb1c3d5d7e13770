/** A way to write events that meets everything `Lawful` asks: the theorems about run logs do speak of
    something. Each field is written as the code of each character in unary, ended by `;`. */
module CodecWitness {
  import opened Sequences
  import opened WalReader

  function Ones(n: nat): string {
    if n == 0 then "," else "1" + Ones(n - 1)
  }

  function Field(s: string): string {
    if s == "" then ";" else Ones(s[0] as int) + Field(s[1..])
  }

  function Fields(e: WalEvent): string {
    Field(e.eventId) + (Field(e.eventType) + (Field(e.schema) + Field(e.body)))
  }

  function Encode(e: WalEvent): string {
    "{" + Fields(e) + "}"
  }

  /** Printable, and without the closing brace. */
  predicate Inner(s: string) {
    forall i :: 0 <= i < |s| ==> 0x20 <= s[i] as int < 0x7d
  }

  lemma {:induction false} OnesInner(n: nat)
    ensures Inner(Ones(n)) && Ones(n) != "" && Ones(n)[0] == if n == 0 then ',' else '1'
  {
    if n > 0 {
      OnesInner(n - 1);
    }
  }

  lemma {:induction false} FieldInner(s: string)
    ensures Inner(Field(s)) && Field(s) != "" && (Field(s)[0] == ';' <==> s == "")
  {
    if s != "" {
      OnesInner(s[0] as int);
      FieldInner(s[1..]);
    }
  }

  lemma {:induction false} OnesCancel(n: nat, m: nat, u: string, v: string)
    requires Ones(n) + u == Ones(m) + v
    ensures n == m && u == v
  {
    OnesInner(n);
    OnesInner(m);
    var s := Ones(n) + u;
    assert s[0] == Ones(n)[0] && (Ones(m) + v)[0] == Ones(m)[0];
    if n == 0 {
      assert u == s[1..] && v == (Ones(m) + v)[1..];
    } else {
      assert Ones(n - 1) + u == s[1..] && Ones(m - 1) + v == (Ones(m) + v)[1..];
      OnesCancel(n - 1, m - 1, u, v);
    }
  }

  lemma FieldSplits(s: string, u: string)
    ensures s != "" ==> Field(s) + u == Ones(s[0] as int) + (Field(s[1..]) + u)
    ensures s == "" ==> (Field(s) + u)[1..] == u
  {
    if s != "" {
      Regroup(Ones(s[0] as int), Field(s[1..]), u);
    }
  }

  lemma {:induction false} FieldCancel(a: string, b: string, u: string, v: string)
    requires Field(a) + u == Field(b) + v
    ensures a == b && u == v
    decreases |a|
  {
    FieldInner(a);
    FieldInner(b);
    assert (Field(a) + u)[0] == Field(a)[0] && (Field(b) + v)[0] == Field(b)[0];
    FieldSplits(a, u);
    FieldSplits(b, v);
    if a != "" {
      OnesCancel(a[0] as int, b[0] as int, Field(a[1..]) + u, Field(b[1..]) + v);
      FieldCancel(a[1..], b[1..], u, v);
      assert a == [a[0]] + a[1..] && b == [b[0]] + b[1..];
    }
  }

  lemma FieldsCancel(e: WalEvent, f: WalEvent)
    requires Fields(e) == Fields(f)
    ensures e == f
  {
    FieldCancel(e.eventId, f.eventId, Field(e.eventType) + (Field(e.schema) + Field(e.body)),
                Field(f.eventType) + (Field(f.schema) + Field(f.body)));
    FieldCancel(e.eventType, f.eventType, Field(e.schema) + Field(e.body), Field(f.schema) + Field(f.body));
    FieldCancel(e.schema, f.schema, Field(e.body), Field(f.body));
    assert Field(e.body) + "" == Field(e.body) && Field(f.body) + "" == Field(f.body);
    FieldCancel(e.body, f.body, "", "");
  }

  lemma EncodeDecodes(e: WalEvent, f: WalEvent)
    requires Encode(e) == Encode(f)
    ensures e == f
  {
    assert Fields(e) == Encode(e)[1..|Encode(e)| - 1] && Fields(f) == Encode(f)[1..|Encode(f)| - 1];
    FieldsCancel(e, f);
  }

  lemma InnerAppend(a: string, b: string)
    requires Inner(a) && Inner(b)
    ensures Inner(a + b)
  {
  }

  lemma FieldsInner(e: WalEvent)
    ensures Inner(Fields(e))
  {
    FieldInner(e.eventId);
    FieldInner(e.eventType);
    FieldInner(e.schema);
    FieldInner(e.body);
    InnerAppend(Field(e.schema), Field(e.body));
    InnerAppend(Field(e.eventType), Field(e.schema) + Field(e.body));
    InnerAppend(Field(e.eventId), Field(e.eventType) + (Field(e.schema) + Field(e.body)));
  }

  ghost function Parse(s: string): LineText {
    if exists e :: Encode(e) == s then var e :| Encode(e) == s; Object(e) else NotJson
  }

  lemma EncodeWritesBack(e: WalEvent)
    ensures WritesBack(Codec(Encode, Parse), e)
  {
    var text := Encode(e);
    FieldsInner(e);
    assert forall i :: 0 < i < |text| - 1 ==> text[i] == Fields(e)[i - 1];
    forall f | Encode(f) == text ensures f == e {
      EncodeDecodes(f, e);
    }
    forall n | 0 < n < |text| ensures Parse(text[..n]) == NotJson {
      forall f ensures Encode(f) != text[..n] {
        assert Encode(f)[|Encode(f)| - 1] == '}' && text[..n][n - 1] != '}';
      }
    }
  }

  lemma LawfulCodec()
    ensures Lawful(Codec(Encode, Parse))
  {
    forall e ensures WritesBack(Codec(Encode, Parse), e) {
      EncodeWritesBack(e);
    }
  }
}
