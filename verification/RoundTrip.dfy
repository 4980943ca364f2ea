/** Reading inverts printing: the canonical text of a value is self-delimiting and denotes
    exactly that value. */
module RoundTrip {
  import opened GoValues
  import opened Json
  import opened Numbers
  import opened Parser
  import opened Wrappers
  import Decimals

  lemma HexDigits(d: int)
    requires 0 <= d < 16
    ensures HexValue(HexDigit(d)) == d
  {
  }

  lemma ReadEscapedChar(c: char, rest: string)
    ensures ReadChar(EscapeChar(c) + rest) == Some((c, rest))
    ensures EscapeChar(c) != "" && EscapeChar(c)[0] != '"'
  {
    var e := EscapeChar(c);
    var s := e + rest;
    Split(e, rest);
    if (c as int) < 0x20 && |e| == 6 {
      HexDigits(0);
      HexDigits(c as int / 16);
      HexDigits(c as int % 16);
      assert s[2..6] == e[2..6] == ['0', '0', e[4], e[5]];
      assert Unit(s[2..6]) == c as int;
    }
  }

  lemma {:induction false} ReadEscaped(text: string, rest: string)
    ensures ReadString(Escape(text) + ("\"" + rest)) == Some((text, rest))
  {
    hide ReadChar, EscapeChar;
    if text == "" {
      assert Escape(text) + ("\"" + rest) == "\"" + rest;
      Split("\"", rest);
    } else {
      var e, tail := EscapeChar(text[0]), Escape(text[1..]) + ("\"" + rest);
      assert Escape(text) + ("\"" + rest) == e + tail;
      ReadEscapedChar(text[0], tail);
      ReadEscaped(text[1..], rest);
      assert [text[0]] + text[1..] == text;
    }
  }

  lemma ReadQuoted(text: string, rest: string)
    ensures var s := Quote(text) + rest;
      s != "" && s[0] == '"' && ReadString(s[1..]) == Some((text, rest))
  {
    assert Quote(text) + rest == "\"" + (Escape(text) + ("\"" + rest));
    Split("\"", Escape(text) + ("\"" + rest));
    ReadEscaped(text, rest);
  }

  /** How a canonical text starts: never with space, never with a closing bracket or a comma. */
  lemma PrintStarts(j: Json)
    ensures var s := Print(j);
      && s != "" && !IsSpace(s[0]) && s[0] != ']' && s[0] != '}' && s[0] != ','
      && (s[0] == '[' <==> j.Arr?) && (s[0] == '{' <==> j.Obj?)
  {
  }

  lemma ReadWordOf(word: string, v: Value, rest: string)
    requires word != ""
    ensures ReadWord(word + rest, word, v) == Some((v, rest))
  {
    Split(word, rest);
  }

  lemma ReadPrintedScalar(j: Json, rest: string)
    requires !j.Arr? && !j.Obj? && Stops(rest)
    ensures ReadScalar(Print(j) + rest) == Some((Raw(j), rest))
  {
    match j
    case Null => ReadWordOf("null", Raw(j), rest);
    case Bool(b) => ReadWordOf(if b then "true" else "false", Raw(j), rest);
    case Str(text) => ReadQuoted(text, rest);
    case Num(n) => ReadPrintedInt(n, rest);
  }

  lemma ReadPrintedInt(n: int, rest: string)
    requires Stops(rest)
    ensures ReadScalar(FormatInt(n) + rest) == Some((Literal(FormatInt(n)), rest))
  {
    hide ScanNumber, ReadString, ReadWord;
    FormatIntScans(n, rest);
    Split(FormatInt(n), rest);
    assert (FormatInt(n) + rest)[0] == FormatInt(n)[0];
  }

  ghost function RawItems(items: seq<Json>): seq<Value> {
    seq(|items|, i requires 0 <= i < |items| => Raw(items[i]))
  }

  /** The decoder's map for the members listed in `keys`. */
  ghost function RawMembers(fields: map<string, Json>, keys: seq<string>): map<GoString, Value>
    requires KeySet(keys) <= fields.Keys
  {
    map k | k in TextKeys(KeySet(keys)) :: Raw(fields[k.text])
  }

  lemma ReadPrinted(j: Json, rest: string)
    requires Stops(rest)
    ensures ReadValue(Print(j) + rest) == Some((Raw(j), rest))
    decreases j, 1
  {
    hide ReadItems, ReadMembers, PrintItems, PrintMembers;
    var s := Print(j) + rest;
    PrintStarts(j);
    assert s[0] == Print(j)[0] && SkipSpace(s) == s;
    match j
    case Arr(items) =>
      var body := PrintItems(items, true) + ("]" + rest);
      assert s == "[" + body;
      Split("[", body);
      ReadPrintedItems(items, true, rest);
    case Obj(fields) =>
      var keys := SortedKeys(fields.Keys);
      var body := PrintMembers(j, keys, true) + ("}" + rest);
      assert s == "{" + body;
      Split("{", body);
      ReadPrintedMembers(j, keys, true, map[], rest);
      assert map[] + RawMembers(fields, keys) == Raw(j).fields;
    case _ => ReadPrintedScalar(j, rest);
  }

  ghost function Separated(first: bool, s: string): string {
    (if first then "" else ",") + s
  }

  /** Where a list continues, its reader skips nothing but the comma. */
  lemma SeparatedStart(first: bool, s: string, close: char)
    requires s != "" && !IsSpace(s[0]) && s[0] != close && close != ','
    ensures var t := Separated(first, s);
      && t != "" && SkipSpace(t) == t && t[0] != close && (!first ==> t[0] == ',')
      && (if first then t else t[1..]) == s
  {
    if first {
      assert Separated(first, s) == s;
    } else {
      Split(",", s);
    }
  }

  lemma ReadItemsStep(first: bool, s: string, item: Value, u: string, items: seq<Value>, rest: string)
    requires s != "" && !IsSpace(s[0]) && s[0] != ']'
    requires ReadValue(s) == Some((item, u)) && ReadItems(u, false) == Some((items, rest))
    ensures ReadItems(Separated(first, s), first) == Some(([item] + items, rest))
  {
    SeparatedStart(first, s, ']');
  }

  lemma ReadItemsEnd(first: bool, rest: string)
    ensures ReadItems("]" + rest, first) == Some(([], rest))
  {
    Split("]", rest);
    assert SkipSpace("]" + rest) == "]" + rest;
  }

  lemma Regroup(first: bool, a: string, b: string, end: string)
    ensures ((if first then "" else ",") + (a + b)) + end == Separated(first, a + (b + end))
  {
  }

  lemma ItemsTailStops(items: seq<Json>, rest: string)
    ensures Stops(PrintItems(items, false) + ("]" + rest))
  {
  }

  lemma {:induction false} ReadPrintedItems(items: seq<Json>, first: bool, rest: string)
    ensures ReadItems(PrintItems(items, first) + ("]" + rest), first) == Some((RawItems(items), rest))
    decreases items, 0
  {
    var end := "]" + rest;
    if items == [] {
      assert PrintItems(items, first) + end == end;
      ReadItemsEnd(first, rest);
    } else {
      var tail := PrintItems(items[1..], false) + end;
      Regroup(first, Print(items[0]), PrintItems(items[1..], false), end);
      ItemsTailStops(items[1..], rest);
      PrintStarts(items[0]);
      ReadPrinted(items[0], tail);
      ReadPrintedItems(items[1..], false, rest);
      ReadItemsStep(first, Print(items[0]) + tail, Raw(items[0]), tail, RawItems(items[1..]), rest);
      assert RawItems(items) == [Raw(items[0])] + RawItems(items[1..]);
    }
  }

  lemma ReadPrintedMember(key: string, value: Json, rest: string)
    requires Stops(rest)
    ensures ReadMember(PrintMember(key, value) + rest) == Some((key, Raw(value), rest))
    decreases value, 2
  {
    hide ReadString, ReadValue, Raw;
    var colon := ":" + (Print(value) + rest);
    assert PrintMember(key, value) + rest == Quote(key) + colon;
    ReadQuoted(key, colon);
    assert SkipSpace(Quote(key) + colon) == Quote(key) + colon;
    Split(":", Print(value) + rest);
    assert SkipSpace(colon) == colon;
    ReadPrinted(value, rest);
  }

  lemma ReadMembersStep(first: bool, s: string, key: string, value: Value, u: string,
                        seen: map<GoString, Value>, fields: map<GoString, Value>, rest: string)
    requires s != "" && !IsSpace(s[0]) && s[0] != '}'
    requires Text(key) !in seen && ReadMember(s) == Some((key, value, u))
    requires ReadMembers(u, false, seen[Text(key) := value]) == Some((fields, rest))
    ensures ReadMembers(Separated(first, s), first, seen) == Some((fields, rest))
  {
    SeparatedStart(first, s, '}');
  }

  lemma ReadMembersEnd(first: bool, seen: map<GoString, Value>, rest: string)
    ensures ReadMembers("}" + rest, first, seen) == Some((seen, rest))
  {
    Split("}", rest);
    assert SkipSpace("}" + rest) == "}" + rest;
  }

  lemma MembersTailStops(j: Json, keys: seq<string>, rest: string)
    requires j.Obj? && KeySet(keys) <= j.fields.Keys
    ensures Stops(PrintMembers(j, keys, false) + ("}" + rest))
  {
  }

  lemma RawMembersCons(fields: map<string, Json>, keys: seq<string>, seen: map<GoString, Value>)
    requires keys != [] && StrictlySorted(keys) && KeySet(keys) <= fields.Keys
    ensures KeySet(keys[1..]) == KeySet(keys) - {keys[0]} && keys[0] in KeySet(keys)
    ensures seen[Text(keys[0]) := Raw(fields[keys[0]])] + RawMembers(fields, keys[1..]) == seen + RawMembers(fields, keys)
  {
    TailKeys(keys);
    assert keys[0] in KeySet(keys);
  }

  lemma MemberStarts(key: string, value: Json, tail: string)
    ensures PrintMember(key, value) + tail != "" && (PrintMember(key, value) + tail)[0] == '"'
  {
  }

  lemma {:induction false} ReadPrintedMembers(j: Json, keys: seq<string>, first: bool, seen: map<GoString, Value>, rest: string)
    requires j.Obj? && KeySet(keys) <= j.fields.Keys && StrictlySorted(keys)
    requires forall k | k in KeySet(keys) :: Text(k) !in seen
    ensures ReadMembers(PrintMembers(j, keys, first) + ("}" + rest), first, seen)
         == Some((seen + RawMembers(j.fields, keys), rest))
    decreases j, 0, |keys|
  {
    hide Print, PrintMember, Raw, ReadMember, ReadMembers, Stops;
    var end := "}" + rest;
    if keys == [] {
      assert PrintMembers(j, keys, first) + end == end;
      ReadMembersEnd(first, seen, rest);
      assert seen + RawMembers(j.fields, keys) == seen;
    } else {
      RawMembersCons(j.fields, keys, seen);
      var key, value := keys[0], j.fields[keys[0]];
      var tail := PrintMembers(j, keys[1..], false) + end;
      Regroup(first, PrintMember(key, value), PrintMembers(j, keys[1..], false), end);
      MembersTailStops(j, keys[1..], rest);
      ReadPrintedMember(key, value, tail);
      var seen' := seen[Text(key) := Raw(value)];
      ReadPrintedMembers(j, keys[1..], false, seen', rest);
      var member := PrintMember(key, value) + tail;
      MemberStarts(key, value, tail);
      ReadMembersStep(first, member, key, Raw(value), tail, seen, seen' + RawMembers(j.fields, keys[1..]), rest);
    }
  }

  /** Canonical text determines the value. */
  lemma PrintInjective(a: Json, b: Json)
    requires Safe(a) && Safe(b) && Print(a) == Print(b)
    ensures a == b
  {
    assert Print(a) + "" == Print(a) && Print(b) + "" == Print(b);
    ReadPrinted(a, "");
    ReadPrinted(b, "");
    MeaningOfRaw(a);
    MeaningOfRaw(b);
  }
}
