/** Canonical JSON: a writer that appends to a buffer, and a parser that recovers what was written. */
module CanonicalJson {
  import opened Basics
  import opened Sorting

  // A decoded value; numbers keep their text.
  datatype Json =
    | Null
    | Bool(b: bool)
    | Number(text: string)
    | Str(s: string)
    | Arr(items: seq<Json>)
    | Obj(fields: map<string, Json>)

  // ---------- Characters ----------

  const BACKSPACE := '\U{0008}'
  const FORM_FEED := '\U{000c}'

  function HexDigit(n: nat): char
    requires n < 16
  {
    if n < 10 then ('0' as int + n) as char else ('a' as int + n - 10) as char
  }

  function HexValue(c: char): Option<nat> {
    if '0' <= c <= '9' then Some(c as int - '0' as int)
    else if 'a' <= c <= 'f' then Some(c as int - 'a' as int + 10)
    else None
  }

  function Escape(c: char): (r: string)
    ensures r != ""
  {
    if c == '"' then "\\\""
    else if c == '\\' then "\\\\"
    else if c == '\n' then "\\n"
    else if c == '\r' then "\\r"
    else if c == '\t' then "\\t"
    else if c == BACKSPACE then "\\b"
    else if c == FORM_FEED then "\\f"
    else if c as int < 0x20 then "\\u00" + [HexDigit(c as int / 16), HexDigit(c as int % 16)]
    else [c]
  }

  function Escaped(s: string): string {
    if s == "" then "" else Escape(s[0]) + Escaped(s[1..])
  }

  function PrintString(s: string): string {
    "\"" + Escaped(s) + "\""
  }

  // ---------- The printed text ----------

  predicate CharLess(a: char, b: char) {
    a < b
  }

  predicate KeyLess(a: string, b: string) {
    LexLess(CharLess, a, b)
  }

  lemma KeyOrder()
    ensures StrictOrder(KeyLess)
  {
    assert StrictOrder(CharLess);
    forall a: string, b: string
      ensures !(KeyLess(a, b) && KeyLess(b, a)) && (a == b || KeyLess(a, b) || KeyLess(b, a))
    {
      LexTotal(CharLess, a, b);
    }
    forall a: string, b: string, c: string | KeyLess(a, b) && KeyLess(b, c) ensures KeyLess(a, c) {
      LexTransitive(CharLess, a, b, c);
    }
  }

  // Where two keys first differ, the first ends or has the smaller code point.
  predicate SmallerAt(a: string, b: string, i: nat) {
    i <= |a| && i < |b| && a[..i] == b[..i] && (i == |a| || a[i] as int < b[i] as int)
  }

  ghost predicate ComesBefore(a: string, b: string) {
    exists i: nat :: SmallerAt(a, b, i)
  }

  lemma KeyLessIff(a: string, b: string)
    ensures KeyLess(a, b) <==> ComesBefore(a, b)
  {
    LexIs(CharLess, a, b);
    forall i: nat ensures DiffersAt(CharLess, a, b, i) == SmallerAt(a, b, i) {}
  }

  // Some order in which the keys of a map may be visited.
  ghost function SomeOrder(ks: set<string>): (r: seq<string>)
    ensures Distinct(r) && Members(r) == ks
  {
    if ks == {} then [] else
      var k :| k in ks;
      var rest := SomeOrder(ks - {k});
      MembersConcat([k], rest);
      MembersOne(k);
      assert forall i | 0 <= i < |rest| :: rest[i] in Members(rest);
      [k] + rest
  }

  predicate Distinct(ks: seq<string>) {
    forall i, j | 0 <= i < j < |ks| :: ks[i] != ks[j]
  }

  ghost function SortedKeys(ks: set<string>): seq<string> {
    Sort(KeyLess, SomeOrder(ks))
  }

  ghost function Print(v: Json): string
    decreases v, 1, 0, 0
  {
    match v
    case Null => "null"
    case Bool(b) => if b then "true" else "false"
    case Number(text) => text
    case Str(s) => PrintString(s)
    case Arr(items) => "[" + PrintItems(v, 0) + "]"
    case Obj(fields) => "{" + PrintFields(v, SortedKeys(fields.Keys), 0) + "}"
  }

  ghost function PrintItems(v: Json, i: nat): string
    requires v.Arr? && i <= |v.items|
    decreases v, 0, |v.items| - i, 1
  {
    if i == |v.items| then "" else PrintItem(v, i) + PrintItems(v, i + 1)
  }

  ghost function PrintItem(v: Json, i: nat): string
    requires v.Arr? && i < |v.items|
    decreases v, 0, |v.items| - i, 0
  {
    (if i > 0 then "," else "") + Print(v.items[i])
  }

  ghost function PrintFields(v: Json, ks: seq<string>, i: nat): string
    requires v.Obj? && i <= |ks|
    decreases v, 0, |ks| - i, 1
  {
    if i == |ks| then "" else PrintField(v, ks, i) + PrintFields(v, ks, i + 1)
  }

  ghost function PrintField(v: Json, ks: seq<string>, i: nat): string
    requires v.Obj? && i < |ks|
    decreases v, 0, |ks| - i, 0
  {
    (if i > 0 then "," else "") + (PrintString(ks[i]) + ":" + if ks[i] in v.fields then Print(v.fields[ks[i]]) else "")
  }

  /** Whatever order the keys are visited in, sorting them gives the printed order. */
  lemma OrderIndependent(visited: seq<string>, ks: set<string>)
    requires Distinct(visited) && Members(visited) == ks
    ensures Sort(KeyLess, visited) == SortedKeys(ks)
  {
    KeyOrder();
    SortDistinct(visited);
    SortDistinct(SomeOrder(ks));
    StrictUnique(KeyLess, Sort(KeyLess, visited), SortedKeys(ks));
  }

  /** The printed keys are those of the map, in ascending order of code points. */
  lemma KeysAscend(ks: set<string>)
    ensures Members(SortedKeys(ks)) == ks
    ensures forall i, j | 0 <= i < j < |SortedKeys(ks)| :: ComesBefore(SortedKeys(ks)[i], SortedKeys(ks)[j])
  {
    hide KeyLess, ComesBefore, Sort;
    KeyOrder();
    SortDistinct(SomeOrder(ks));
    var r := SortedKeys(ks);
    forall i, j | 0 <= i < j < |r| ensures ComesBefore(r[i], r[j]) {
      assert KeyLess(r[i], r[j]);
      KeyLessIff(r[i], r[j]);
    }
  }

  lemma SortDistinct(s: seq<string>)
    requires StrictOrder(KeyLess) && Distinct(s)
    ensures StrictlyAscending(KeyLess, Sort(KeyLess, s)) && Members(Sort(KeyLess, s)) == Members(s)
  {
    hide KeyLess;
    SortSorts(KeyLess, s);
    KeepsDistinct(s);
    var r := Sort(KeyLess, s);
    forall i, j | 0 <= i < j < |r| ensures KeyLess(r[i], r[j]) {
      assert r[i] != r[j] && !KeyLess(r[j], r[i]);
    }
  }

  lemma {:induction false} KeepsDistinct(s: seq<string>)
    requires StrictOrder(KeyLess) && Distinct(s)
    ensures Distinct(Sort(KeyLess, s))
  {
    hide KeyLess;
    if s != [] {
      var front, last := s[..|s| - 1], s[|s| - 1];
      KeepsDistinct(front);
      SortSorts(KeyLess, front);
      assert last !in Members(front);
      InsertDistinct(last, Sort(KeyLess, front));
    }
  }

  lemma {:induction false} InsertDistinct(k: string, s: seq<string>)
    requires StrictOrder(KeyLess) && Ascending(KeyLess, s) && Distinct(s) && k !in Members(s)
    ensures Distinct(Insert(KeyLess, k, s))
  {
    hide KeyLess;
    assert forall i | 0 <= i < |s| :: s[i] in Members(s);
    if s != [] && !KeyLess(k, s[0]) {
      var rest := Insert(KeyLess, k, s[1..]);
      assert k !in Members(s[1..]) by {
        assert forall i | 0 <= i < |s[1..]| :: s[1..][i] == s[i + 1];
      }
      InsertDistinct(k, s[1..]);
      InsertSorts(KeyLess, k, s[1..]);
      forall j | 0 <= j < |rest| ensures rest[j] != s[0] {
        assert rest[j] in Members(rest);
      }
    }
  }

  // ---------- The writer ----------

  class Buffer {
    var text: string

    constructor ()
      ensures text == ""
    {
      text := "";
    }

    method Write(s: string)
      modifies this
      ensures text == old(text) + s
    {
      text := text + s;
    }

    method WriteEscaped(c: char)
      modifies this
      ensures text == old(text) + Escape(c)
    {
      if c == '"' {
        Write("\\\"");
      } else if c == '\\' {
        Write("\\\\");
      } else if c == '\n' {
        Write("\\n");
      } else if c == '\r' {
        Write("\\r");
      } else if c == '\t' {
        Write("\\t");
      } else if c == BACKSPACE {
        Write("\\b");
      } else if c == FORM_FEED {
        Write("\\f");
      } else if c as int < 0x20 {
        Write("\\u00" + [HexDigit(c as int / 16), HexDigit(c as int % 16)]);
      } else {
        Write([c]);
      }
    }

    method WriteCanonicalString(s: string)
      modifies this
      ensures text == old(text) + PrintString(s)
    {
      hide Escape;
      Write("\"");
      for i := 0 to |s|
        invariant text == old(text) + "\"" + Escaped(s[..i])
      {
        EscapedSnoc(s[..i], s[i]);
        assert s[..i + 1] == s[..i] + [s[i]];
        WriteEscaped(s[i]);
      }
      assert s[..|s|] == s;
      Write("\"");
    }

    method WriteCanonicalValue(v: Json)
      modifies this
      ensures text == old(text) + Print(v)
      decreases v, 1, 0
    {
      hide PrintString, SortedKeys, Sort;
      match v {
        case Null => Write("null");
        case Bool(b) => Write(if b then "true" else "false");
        case Number(t) => Write(t);
        case Str(s) => WriteCanonicalString(s);
        case Arr(items) => WriteItems(v);
        case Obj(fields) => WriteFields(v);
      }
    }

    method WriteItems(v: Json)
      requires v.Arr?
      modifies this
      ensures text == old(text) + Print(v)
      decreases v, 0, 1
    {
      hide PrintItem;
      Write("[");
      ghost var done := "";
      for i := 0 to |v.items|
        invariant text == old(text) + "[" + done && done + PrintItems(v, i) == PrintItems(v, 0)
      {
        WriteItem(v, i);
        Associative(old(text) + "[", done, PrintItem(v, i));
        Associative(done, PrintItem(v, i), PrintItems(v, i + 1));
        done := done + PrintItem(v, i);
      }
      Bracketed(old(text), "[", done, "]");
      Write("]");
    }

    method WriteItem(v: Json, i: nat)
      requires v.Arr? && i < |v.items|
      modifies this
      ensures text == old(text) + PrintItem(v, i)
      decreases v, 0, 0
    {
      if i > 0 {
        Write(",");
      }
      WriteCanonicalValue(v.items[i]);
    }

    // The keys come in whatever order the map is iterated.
    method Keys(fields: map<string, Json>) returns (keys: seq<string>)
      ensures keys == SortedKeys(fields.Keys) && Members(keys) == fields.Keys
      ensures forall i, j | 0 <= i < j < |keys| :: ComesBefore(keys[i], keys[j])
    {
      hide Sort, KeyLess, ComesBefore;
      keys := [];
      var todo := fields.Keys;
      while todo != {}
        invariant todo <= fields.Keys && Distinct(keys) && Members(keys) == fields.Keys - todo
        decreases |todo|
      {
        var k :| k in todo;
        MembersConcat(keys, [k]);
        MembersOne(k);
        assert forall i | 0 <= i < |keys| :: keys[i] in Members(keys);
        keys := keys + [k];
        todo := todo - {k};
      }
      OrderIndependent(keys, fields.Keys);
      KeysAscend(fields.Keys);
      keys := Sort(KeyLess, keys);
    }

    method WriteFields(v: Json)
      requires v.Obj?
      modifies this
      ensures text == old(text) + Print(v)
      decreases v, 0, 1
    {
      hide PrintField, SortedKeys;
      var ks := Keys(v.fields);
      SortedKeysMembers(v.fields.Keys);
      Write("{");
      ghost var done := "";
      for i := 0 to |ks|
        invariant text == old(text) + "{" + done && done + PrintFields(v, ks, i) == PrintFields(v, ks, 0)
      {
        assert ks[i] in Members(ks);
        WriteField(v, ks, i);
        Associative(old(text) + "{", done, PrintField(v, ks, i));
        Associative(done, PrintField(v, ks, i), PrintFields(v, ks, i + 1));
        done := done + PrintField(v, ks, i);
      }
      Bracketed(old(text), "{", done, "}");
      Write("}");
    }

    method WriteField(v: Json, ks: seq<string>, i: nat)
      requires v.Obj? && i < |ks| && ks[i] in v.fields
      modifies this
      ensures text == old(text) + PrintField(v, ks, i)
      decreases v, 0, 0
    {
      hide PrintString;
      if i > 0 {
        Write(",");
      }
      WriteCanonicalString(ks[i]);
      Write(":");
      WriteCanonicalValue(v.fields[ks[i]]);
    }
  }

  lemma Associative(a: string, b: string, c: string)
    ensures (a + b) + c == a + (b + c)
  {}

  lemma Bracketed(before: string, open: string, body: string, close: string)
    ensures before + open + body + close == before + (open + body + close)
    ensures body + "" == body
  {}

  lemma {:induction false} EscapedSnoc(s: string, c: char)
    ensures Escaped(s + [c]) == Escaped(s) + Escape(c)
  {
    hide Escape;
    if s == "" {
      assert s + [c] == [c];
    } else {
      assert (s + [c])[1..] == s[1..] + [c];
      EscapedSnoc(s[1..], c);
    }
  }

  lemma SortedKeysMembers(ks: set<string>)
    ensures Members(SortedKeys(ks)) == ks && Distinct(SortedKeys(ks))
  {
    KeyOrder();
    SortSorts(KeyLess, SomeOrder(ks));
    KeepsDistinct(SomeOrder(ks));
  }
}
