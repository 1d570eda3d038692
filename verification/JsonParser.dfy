/** A parser for canonical JSON, and the proof that it recovers every printed value. */
module JsonParser {
  import opened Basics
  import opened Sorting
  import opened CanonicalJson

  // ---------- Strings ----------

  function HexPair(s: string): Option<char>
    requires |s| == 2
  {
    var high, low := HexValue(s[0]), HexValue(s[1]);
    if high.Some? && low.Some? then Some((high.value * 16 + low.value) as char) else None
  }

  // The character an escape stands for, and the text after it.
  function Unescape(s: string): (r: Option<(char, string)>)
    ensures r.Some? ==> |r.value.1| < |s|
  {
    if |s| < 2 then None
    else if s[1] == '"' || s[1] == '\\' then Some((s[1], s[2..]))
    else if s[1] == 'n' then Some(('\n', s[2..]))
    else if s[1] == 'r' then Some(('\r', s[2..]))
    else if s[1] == 't' then Some(('\t', s[2..]))
    else if s[1] == 'b' then Some((BACKSPACE, s[2..]))
    else if s[1] == 'f' then Some((FORM_FEED, s[2..]))
    else if s[1] == 'u' && |s| >= 6 && s[2] == s[3] == '0' && HexPair(s[4..6]).Some? then
      Some((HexPair(s[4..6]).value, s[6..]))
    else None
  }

  // The rest of a string whose opening quote was read, and the text after its closing quote.
  function ParseString(s: string): (r: Option<(string, string)>)
    ensures r.Some? ==> |r.value.1| < |s|
    decreases |s|
  {
    if s == "" then None
    else if s[0] == '"' then Some(("", s[1..]))
    else if s[0] == '\\' then
      var u := Unescape(s);
      if u.None? then None else
        var rest := ParseString(u.value.1);
        if rest.None? then None else Some(([u.value.0] + rest.value.0, rest.value.1))
    else
      var rest := ParseString(s[1..]);
      if rest.None? then None else Some(([s[0]] + rest.value.0, rest.value.1))
  }

  lemma HexDigits(n: nat)
    requires n < 32
    ensures HexPair([HexDigit(n / 16), HexDigit(n % 16)]) == Some(n as char)
  {}

  predicate Plain(c: char) {
    c != '"' && c != '\\' && 0x20 <= c as int
  }

  lemma UnescapeEscape(c: char, rest: string)
    requires !Plain(c)
    ensures Unescape(Escape(c) + rest) == Some((c, rest)) && (Escape(c) + rest)[0] == '\\'
  {
    var e := Escape(c);
    var s := e + rest;
    assert s[|e|..] == rest;
    if |e| == 6 {
      HexDigits(c as int);
      assert s[4..6] == e[4..6] == [HexDigit(c as int / 16), HexDigit(c as int % 16)];
    }
  }

  // One character, written plainly or escaped, in front of a string that parses.
  lemma ParseCharacter(c: char, tail: string, s: string, rest: string)
    requires ParseString(tail) == Some((s, rest))
    ensures ParseString(Escape(c) + tail) == Some(([c] + s, rest))
  {
    hide Unescape;
    var text := Escape(c) + tail;
    if Plain(c) {
      assert Escape(c) == [c] && text[0] == c && text[1..] == tail;
    } else {
      UnescapeEscape(c, tail);
    }
  }

  lemma {:induction false} ParseStringPrinted(s: string, rest: string)
    ensures ParseString(Escaped(s) + "\"" + rest) == Some((s, rest))
  {
    hide Escape, Escaped, ParseString;
    if s == "" {
      ParseEnd(rest);
    } else {
      var tail := Escaped(s[1..]) + "\"" + rest;
      ParseStringPrinted(s[1..], rest);
      ParseCharacter(s[0], tail, s[1..], rest);
      EscapedFirst(s, "\"", rest);
      assert s == [s[0]] + s[1..];
    }
  }

  lemma ParseEnd(rest: string)
    ensures ParseString(Escaped("") + "\"" + rest) == Some(("", rest))
  {
    assert Escaped("") + "\"" + rest == "\"" + rest;
    assert ("\"" + rest)[1..] == rest;
  }

  lemma EscapedFirst(s: string, quote: string, rest: string)
    requires s != ""
    ensures Escaped(s) + quote + rest == Escape(s[0]) + (Escaped(s[1..]) + quote + rest)
  {
    hide Escape;
    var a, b := Escape(s[0]), Escaped(s[1..]);
    assert a + b + quote + rest == a + (b + quote + rest);
  }

  // ---------- Numbers ----------

  predicate NumberChar(c: char) {
    '0' <= c <= '9' || c == '+' || c == '-' || c == '.' || c == 'e' || c == 'E'
  }

  predicate NumberText(t: string) {
    && t != "" && ('0' <= t[0] <= '9' || t[0] == '-')
    && forall i | 0 <= i < |t| :: NumberChar(t[i])
  }

  function NumberLength(s: string): (n: nat)
    ensures n <= |s|
  {
    if s == "" || !NumberChar(s[0]) then 0 else 1 + NumberLength(s[1..])
  }

  // A text that cannot continue a number.
  predicate Delimited(rest: string) {
    rest == "" || !NumberChar(rest[0])
  }

  lemma {:induction false} NumberEnds(t: string, rest: string)
    requires (forall i | 0 <= i < |t| :: NumberChar(t[i])) && Delimited(rest)
    ensures NumberLength(t + rest) == |t|
  {
    if t == "" {
      assert t + rest == rest;
    } else {
      assert (t + rest)[1..] == t[1..] + rest;
      NumberEnds(t[1..], rest);
    }
  }

  // ---------- Values ----------

  predicate StartsWith(s: string, prefix: string) {
    |prefix| <= |s| && s[..|prefix|] == prefix
  }

  function Parse(s: string): (r: Option<(Json, string)>)
    ensures r.Some? ==> |r.value.1| < |s|
    decreases |s|, 1
  {
    if s == "" then None
    else if StartsWith(s, "null") then Some((Null, s[4..]))
    else if StartsWith(s, "true") then Some((Bool(true), s[4..]))
    else if StartsWith(s, "false") then Some((Bool(false), s[5..]))
    else if s[0] == '"' then
      var r := ParseString(s[1..]);
      if r.None? then None else Some((Str(r.value.0), r.value.1))
    else if s[0] == '[' then
      var r := ParseItems(s[1..], true);
      if r.None? then None else Some((Arr(r.value.0), r.value.1))
    else if s[0] == '{' then
      var r := ParseFields(s[1..], true);
      if r.None? then None else Some((Obj(r.value.0), r.value.1))
    else
      var n := NumberLength(s);
      if NumberText(s[..n]) then Some((Number(s[..n]), s[n..])) else None
  }

  function Separated(s: string, first: bool): (r: Option<string>)
    ensures r.Some? ==> |r.value| <= |s|
  {
    if first then Some(s) else if s != "" && s[0] == ',' then Some(s[1..]) else None
  }

  // The items up to the closing bracket.
  function ParseItems(s: string, first: bool): (r: Option<(seq<Json>, string)>)
    ensures r.Some? ==> |r.value.1| < |s|
    decreases |s|, 2
  {
    if s != "" && s[0] == ']' then Some(([], s[1..]))
    else
      var body := Separated(s, first);
      if body.None? then None else
        var item := Parse(body.value);
        if item.None? then None else
          var more := ParseItems(item.value.1, false);
          if more.None? then None else Some(([item.value.0] + more.value.0, more.value.1))
  }

  function ParseField(s: string): (r: Option<(string, Json, string)>)
    ensures r.Some? ==> |r.value.2| < |s|
    decreases |s|, 2
  {
    if s == "" || s[0] != '"' then None
    else
      var key := ParseString(s[1..]);
      if key.None? || key.value.1 == "" || key.value.1[0] != ':' then None else
        var value := Parse(key.value.1[1..]);
        if value.None? then None else Some((key.value.0, value.value.0, value.value.1))
  }

  // The fields up to the closing brace.
  function ParseFields(s: string, first: bool): (r: Option<(map<string, Json>, string)>)
    ensures r.Some? ==> |r.value.1| < |s|
    decreases |s|, 3
  {
    if s != "" && s[0] == '}' then Some((map[], s[1..]))
    else
      var body := Separated(s, first);
      if body.None? then None else
        var field := ParseField(body.value);
        if field.None? then None else
          var more := ParseFields(field.value.2, false);
          if more.None? || field.value.0 in more.value.0 then None
          else Some((more.value.0[field.value.0 := field.value.1], more.value.1))
  }

  // ---------- Round trip ----------

  // Every number in the value is number text, as the decoder delivers it.
  predicate Valid(v: Json) {
    match v
    case Number(t) => NumberText(t)
    case Arr(items) => forall i | 0 <= i < |items| :: Valid(items[i])
    case Obj(fields) => forall k | k in fields :: Valid(fields[k])
    case _ => true
  }

  predicate ValueStart(c: char) {
    c != ']' && c != '}' && c != ','
  }

  lemma PrintStarts(v: Json)
    requires Valid(v)
    ensures Print(v) != "" && ValueStart(Print(v)[0])
  {}

  lemma ParseNumber(t: string, rest: string)
    requires NumberText(t) && Delimited(rest)
    ensures Parse(t + rest) == Some((Number(t), rest))
  {
    var s := t + rest;
    NumberEnds(t, rest);
    assert s[..|t|] == t && s[|t|..] == rest && s[0] == t[0];
  }

  lemma ParseWords(rest: string)
    ensures Parse("null" + rest) == Some((Null, rest))
    ensures Parse("true" + rest) == Some((Bool(true), rest))
    ensures Parse("false" + rest) == Some((Bool(false), rest))
  {
    var n, t, f := "null" + rest, "true" + rest, "false" + rest;
    assert n[..4] == "null" && n[4..] == rest;
    assert t[..4] == "true" && t[4..] == rest && n[0] == 'n' && t[0] == 't' && f[0] == 'f';
    assert f[..5] == "false" && f[5..] == rest;
  }

  lemma ParseStr(s: string, rest: string)
    ensures Parse(PrintString(s) + rest) == Some((Str(s), rest))
  {
    hide ParseItems, ParseFields, ParseString, Escaped, NumberText;
    var text := PrintString(s) + rest;
    assert text[0] == '"' && text[1..] == Escaped(s) + "\"" + rest;
    ParseStringPrinted(s, rest);
  }

  /** The parser recovers a printed value from in front of any delimiter. */
  lemma {:induction false} ParsePrint(v: Json, rest: string)
    requires Valid(v) && (v.Number? ==> Delimited(rest))
    ensures Parse(Print(v) + rest) == Some((v, rest))
    decreases v, 1, 0
  {
    hide PrintString, SortedKeys, NumberText, Parse, ParseItems, ParseFields;
    match v {
      case Null => ParseWords(rest);
      case Bool(b) => ParseWords(rest);
      case Number(t) => ParseNumber(t, rest);
      case Str(s) => ParseStr(s, rest);
      case Arr(items) =>
        ParsePrintItems(v, 0, rest);
        assert items[0..] == items;
        ParseArr(PrintItems(v, 0), items, rest);
      case Obj(fields) =>
        var ks := SortedKeys(fields.Keys);
        SortedKeysMembers(fields.Keys);
        ParsePrintFields(v, ks, 0, rest);
        RestrictedToAll(fields, ks);
        ParseObj(PrintFields(v, ks, 0), fields, rest);
    }
  }

  lemma ParseArr(body: string, items: seq<Json>, rest: string)
    requires ParseItems(body + "]" + rest, true) == Some((items, rest))
    ensures Parse("[" + body + "]" + rest) == Some((Arr(items), rest))
  {
    hide ParseItems, ParseFields, ParseString, NumberText;
    var text := "[" + body + "]" + rest;
    assert text[0] == '[' && text[1..] == body + "]" + rest;
  }

  lemma ParseObj(body: string, fields: map<string, Json>, rest: string)
    requires ParseFields(body + "}" + rest, true) == Some((fields, rest))
    ensures Parse("{" + body + "}" + rest) == Some((Obj(fields), rest))
  {
    hide ParseItems, ParseFields, ParseString, NumberText;
    var text := "{" + body + "}" + rest;
    assert text[0] == '{' && text[1..] == body + "}" + rest;
  }

  lemma {:induction false} ParsePrintItems(v: Json, i: nat, rest: string)
    requires v.Arr? && Valid(v) && i <= |v.items|
    ensures ParseItems(PrintItems(v, i) + "]" + rest, i == 0) == Some((v.items[i..], rest))
    decreases v, 0, |v.items| - i
  {
    hide Parse, NumberText;
    var s := PrintItems(v, i) + "]" + rest;
    if i == |v.items| {
      assert s == "]" + rest && s[1..] == rest;
    } else {
      var tail := PrintItems(v, i + 1) + "]" + rest;
      TailDelimited(v, i + 1, rest);
      ParsePrint(v.items[i], tail);
      PrintStarts(v.items[i]);
      ParsePrintItems(v, i + 1, rest);
      ItemText(v, i, rest);
      assert v.items[i..] == [v.items[i]] + v.items[i + 1..];
    }
  }

  lemma TailDelimited(v: Json, i: nat, rest: string)
    requires v.Arr? && 0 < i <= |v.items|
    ensures Delimited(PrintItems(v, i) + "]" + rest)
  {
    if i < |v.items| {
      assert PrintItem(v, i)[0] == ',';
    }
  }

  lemma ItemText(v: Json, i: nat, rest: string)
    requires v.Arr? && i < |v.items| && Print(v.items[i]) != "" && ValueStart(Print(v.items[i])[0])
    ensures var s := PrintItems(v, i) + "]" + rest;
            && s != "" && s[0] != ']'
            && Separated(s, i == 0) == Some(Print(v.items[i]) + (PrintItems(v, i + 1) + "]" + rest))
  {
    hide Print;
    SeparatedText(if i > 0 then "," else "", Print(v.items[i]), PrintItems(v, i + 1), "]", rest);
  }

  lemma SeparatedText(sep: string, p: string, more: string, close: string, rest: string)
    requires (sep == "" || sep == ",") && p != ""
    ensures var s, tail := sep + p + more + close + rest, more + close + rest;
            && s[0] == (if sep == "" then p[0] else ',')
            && Separated(s, sep == "") == Some(p + tail)
  {
    var s, tail := sep + p + more + close + rest, more + close + rest;
    assert s == sep + (p + tail);
    if sep == "," {
      assert s[1..] == p + tail;
    } else {
      assert s == p + tail;
    }
  }

  // The fields named by a list of keys.
  function Restricted(fields: map<string, Json>, ks: seq<string>): map<string, Json> {
    map k | k in fields && k in ks :: fields[k]
  }

  lemma RestrictedToAll(fields: map<string, Json>, ks: seq<string>)
    requires Members(ks) == fields.Keys
    ensures Restricted(fields, ks[0..]) == fields
  {
    assert ks[0..] == ks;
    forall k | k in fields ensures k in ks {
      assert k in Members(ks);
    }
  }

  lemma {:induction false} ParsePrintFields(v: Json, ks: seq<string>, i: nat, rest: string)
    requires v.Obj? && Valid(v) && Distinct(ks) && Members(ks) == v.fields.Keys && i <= |ks|
    ensures ParseFields(PrintFields(v, ks, i) + "}" + rest, i == 0) == Some((Restricted(v.fields, ks[i..]), rest))
    decreases v, 0, |ks| - i
  {
    hide Parse, ParseField, NumberText, PrintString;
    var s := PrintFields(v, ks, i) + "}" + rest;
    if i == |ks| {
      assert s == "}" + rest && s[1..] == rest;
      assert Restricted(v.fields, ks[i..]) == map[];
    } else {
      assert ks[i] in Members(ks);
      var k, value, tail := ks[i], v.fields[ks[i]], PrintFields(v, ks, i + 1) + "}" + rest;
      FieldTailDelimited(v, ks, i + 1, rest);
      ParsePrint(value, tail);
      ParseFieldPrinted(k, value, tail);
      ParsePrintFields(v, ks, i + 1, rest);
      FieldText(v, ks, i, rest);
      RestrictedStep(v.fields, ks, i);
    }
  }

  lemma RestrictedStep(fields: map<string, Json>, ks: seq<string>, i: nat)
    requires Distinct(ks) && i < |ks| && ks[i] in fields
    ensures ks[i] !in Restricted(fields, ks[i + 1..])
    ensures Restricted(fields, ks[i..]) == Restricted(fields, ks[i + 1..])[ks[i] := fields[ks[i]]]
  {
    assert ks[i..] == [ks[i]] + ks[i + 1..];
    assert ks[i] !in ks[i + 1..];
  }

  lemma FieldTailDelimited(v: Json, ks: seq<string>, i: nat, rest: string)
    requires v.Obj? && 0 < i <= |ks|
    ensures Delimited(PrintFields(v, ks, i) + "}" + rest)
  {
    hide PrintString, Print;
    if i < |ks| {
      assert PrintField(v, ks, i)[0] == ',';
    }
  }

  lemma ParseFieldPrinted(k: string, value: Json, tail: string)
    requires Parse(Print(value) + tail) == Some((value, tail))
    ensures ParseField(PrintString(k) + ":" + Print(value) + tail) == Some((k, value, tail))
  {
    hide Parse, Print;
    var s, after := PrintString(k) + ":" + Print(value) + tail, ":" + (Print(value) + tail);
    assert s[0] == '"' && s[1..] == Escaped(k) + "\"" + after;
    ParseStringPrinted(k, after);
    assert after[1..] == Print(value) + tail;
  }

  lemma FieldText(v: Json, ks: seq<string>, i: nat, rest: string)
    requires v.Obj? && i < |ks| && ks[i] in v.fields
    ensures var s := PrintFields(v, ks, i) + "}" + rest;
            && s != "" && s[0] != '}'
            && Separated(s, i == 0)
               == Some(PrintString(ks[i]) + ":" + Print(v.fields[ks[i]]) + (PrintFields(v, ks, i + 1) + "}" + rest))
  {
    hide Print, Escaped;
    SeparatedText(if i > 0 then "," else "",
                  PrintString(ks[i]) + ":" + Print(v.fields[ks[i]]), PrintFields(v, ks, i + 1), "}", rest);
  }

  /** Distinct values print differently. */
  lemma PrintInjective(u: Json, v: Json)
    requires Valid(u) && Valid(v) && Print(u) == Print(v)
    ensures u == v
  {
    hide Print, Parse, Valid;
    ParsePrint(u, "");
    ParsePrint(v, "");
  }
}
