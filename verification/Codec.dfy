/** The canonical encoder of Product hashes, written as the source writes it, and the laws that
    every plan id, digest and equality check rests on. */
module Codec {
  import opened GoValues
  import opened Numbers
  import opened Wrappers
  import D = Decoder
  import J = Json
  import P = Parser
  import RT = RoundTrip
  import U = Utf8

  // ---------- specification ----------

  /** The canonical bytes of a Go value: those of its meaning, an error when it has none. */
  ghost function Canonical(v: Value): Result<seq<U.Byte>> {
    match Meaning(v)
    case None => Err
    case Some(j) => Ok(U.Encode(J.Print(j)))
  }

  // ---------- bytes.Buffer ----------

  /** The output buffer. Everything written to it is valid UTF-8, so it is kept as text. */
  class Buffer {
    var text: string

    constructor ()
      ensures text == ""
    {
      text := "";
    }

    method WriteString(s: string)
      modifies this
      ensures text == old(text) + s
    {
      text := text + s;
    }

    function Bytes(): seq<U.Byte>
      reads this
    {
      U.Encode(text)
    }
  }

  lemma Regroup(a: string, b: string, c: string, d: string)
    ensures a + b + c + d == a + (b + (c + d))
  {
  }

  // ---------- writeCanonicalString ----------

  lemma {:induction false} EscapeSnoc(s: string, c: char)
    ensures J.Escape(s + [c]) == J.Escape(s) + J.EscapeChar(c)
  {
    hide J.EscapeChar;
    if s == "" {
      assert s + [c] == [c];
      assert J.Escape([c][1..]) == "";
    } else {
      EscapeSnoc(s[1..], c);
      assert (s + [c])[1..] == s[1..] + [c];
      assert (s + [c])[0] == s[0];
      Associate(J.EscapeChar(s[0]), J.Escape(s[1..]), J.EscapeChar(c));
    }
  }

  lemma EscapePrefix(base: string, s: string, i: nat)
    requires i < |s|
    ensures base + J.Escape(s[..i + 1]) == base + J.Escape(s[..i]) + J.EscapeChar(s[i])
  {
    hide J.Escape, J.EscapeChar;
    EscapeSnoc(s[..i], s[i]);
    assert s[..i + 1] == s[..i] + [s[i]];
    Associate(base, J.Escape(s[..i]), J.EscapeChar(s[i]));
  }

  /** `writeCanonicalString`: appends the quoted text, escaping only what must be escaped. */
  method WriteCanonicalString(out: Buffer, value: string)
    modifies out
    ensures out.text == old(out.text) + J.Quote(value)
  {
    hide J.EscapeChar;
    ghost var start := out.text;
    out.WriteString("\"");
    ghost var base := out.text;
    var i := 0;
    while i < |value|
      invariant 0 <= i <= |value|
      invariant out.text == base + J.Escape(value[..i])
    {
      EscapePrefix(base, value, i);
      WriteCharacter(out, value[i]);
      i := i + 1;
    }
    assert value[..i] == value;
    Regroup(start, "\"", J.Escape(value), "\"");
    out.WriteString("\"");
  }

  method WriteCharacter(out: Buffer, character: char)
    modifies out
    ensures out.text == old(out.text) + J.EscapeChar(character)
  {
    if character == '"' || character == '\\' {
      out.WriteString(['\\', character]);
    } else if character as int == 0x08 {
      out.WriteString("\\b");
    } else if character as int == 0x0C {
      out.WriteString("\\f");
    } else if character == '\n' {
      out.WriteString("\\n");
    } else if character == '\r' {
      out.WriteString("\\r");
    } else if character == '\t' {
      out.WriteString("\\t");
    } else if (character as int) < 0x20 {
      var hex := "0123456789abcdef";
      out.WriteString("\\u00" + [hex[character as int / 16], hex[character as int % 16]]);
    } else {
      out.WriteString([character]);
    }
  }

  // ---------- sortCodePoints ----------

  /** The comparison of `sortCodePoints`. */
  method KeyLess(left: string, right: string) returns (less: bool)
    ensures less == J.Less(left, right)
  {
    var n := 0;
    while n < |left| && n < |right|
      invariant 0 <= n <= |left| && n <= |right|
      invariant J.Less(left, right) == J.Less(left[n..], right[n..])
    {
      if left[n] != right[n] {
        return left[n] < right[n];
      }
      n := n + 1;
    }
    return |left| < |right|;
  }

  /** `sortCodePoints`: the keys of one map, strictly sorted by code point. The library sort is
      an insertion sort here. */
  method SortCodePoints(keys: seq<string>) returns (sorted: seq<string>)
    requires forall i, j | 0 <= i < j < |keys| :: keys[i] != keys[j]
    ensures J.StrictlySorted(sorted) && J.KeySet(sorted) == J.KeySet(keys)
  {
    sorted := [];
    for n := 0 to |keys|
      invariant J.StrictlySorted(sorted) && J.KeySet(sorted) == J.KeySet(keys[..n])
    {
      assert keys[n] !in J.KeySet(keys[..n]);
      assert J.KeySet(keys[..n + 1]) == J.KeySet(keys[..n]) + {keys[n]};
      sorted := Insert(sorted, keys[n]);
    }
    assert keys[..|keys|] == keys;
  }

  method Insert(sorted: seq<string>, key: string) returns (r: seq<string>)
    requires J.StrictlySorted(sorted) && key !in J.KeySet(sorted)
    ensures J.StrictlySorted(r) && J.KeySet(r) == J.KeySet(sorted) + {key}
  {
    var i, before := 0, true;
    while i < |sorted| && before
      invariant 0 <= i <= |sorted|
      invariant forall k | 0 <= k < i :: J.Less(sorted[k], key)
      invariant !before ==> i < |sorted| && !J.Less(sorted[i], key)
      decreases |sorted| - i, before
    {
      before := KeyLess(sorted[i], key);
      if before {
        i := i + 1;
      }
    }
    forall k | i <= k < |sorted| ensures J.Less(key, sorted[k]) {
      assert sorted[i] in J.KeySet(sorted);
      J.LessTotal(sorted[i], key);
      if k > i {
        J.LessTransitive(key, sorted[i], sorted[k]);
      }
    }
    r := sorted[..i] + [key] + sorted[i..];
    assert forall x :: x in r <==> x in sorted || x == key;
  }

  // ---------- encodeCanonical ----------

  lemma {:induction false} PrintItemsSnoc(items: seq<J.Json>, x: J.Json, first: bool)
    ensures J.PrintItems(items + [x], first)
         == J.PrintItems(items, first) + ((if first && items == [] then "" else ",") + J.Print(x))
  {
    hide J.Print;
    if items == [] {
      assert items + [x] == [x] && J.PrintItems([x][1..], false) == "";
    } else {
      PrintItemsSnoc(items[1..], x, false);
      assert (items + [x])[1..] == items[1..] + [x] && (items + [x])[0] == items[0];
      Join(if first then "" else ",", J.Print(items[0]), J.PrintItems(items[1..], false), "," + J.Print(x));
    }
  }

  lemma {:induction false} PrintMembersSnoc(j: J.Json, keys: seq<string>, k: string, first: bool)
    requires j.Obj? && J.KeySet(keys + [k]) <= j.fields.Keys
    ensures J.KeySet(keys) <= j.fields.Keys && k in j.fields
    ensures J.PrintMembers(j, keys + [k], first)
         == J.PrintMembers(j, keys, first) + ((if first && keys == [] then "" else ",") + J.PrintMember(k, j.fields[k]))
  {
    hide J.Print, J.PrintMember;
    assert forall x | x in keys :: x in J.KeySet(keys + [k]);
    assert (keys + [k])[|keys|] in J.KeySet(keys + [k]);
    if keys == [] {
      assert keys + [k] == [k] && J.PrintMembers(j, [k][1..], false) == "";
    } else {
      assert (keys + [k])[1..] == keys[1..] + [k] && (keys + [k])[0] == keys[0];
      assert forall x | x in keys[1..] + [k] :: x in J.KeySet(keys + [k]);
      PrintMembersSnoc(j, keys[1..], k, false);
      Join(if first then "" else ",", J.PrintMember(keys[0], j.fields[keys[0]]), J.PrintMembers(j, keys[1..], false),
           "," + J.PrintMember(k, j.fields[k]));
    }
  }

  /** What `encodeCanonical` leaves in the buffer when it does not fail. */
  ghost predicate Encodes(before: string, v: Value, ok: bool, after: string) {
    match Meaning(v)
    case None => !ok
    case Some(j) => ok && after == before + J.Print(j)
  }

  /** `encodeCanonical` on a normalized value. */
  method EncodeCanonical(out: Buffer, v: Value) returns (ok: bool)
    requires IsPlain(v)
    modifies out
    ensures Encodes(old(out.text), v, ok, out.text)
    decreases v, 1
  {
    match v {
      case Null =>
        out.WriteString("null");
        return true;
      case Bool(b) =>
        out.WriteString(if b then "true" else "false");
        return true;
      case String(s) =>
        WriteCanonicalString(out, s.text);
        return true;
      case Literal(_) =>
        return false;
      case Integer(n) =>
        if n < -MAX_SAFE_INTEGER || n > MAX_SAFE_INTEGER {
          return false;
        }
        out.WriteString(FormatInt(n));
        return true;
      case Float(f) =>
        if !f.Finite? || f.value.Floor as real != f.value
           || f.value.Floor < -MAX_SAFE_INTEGER || f.value.Floor > MAX_SAFE_INTEGER {
          return false;
        }
        out.WriteString(FormatInt(f.value.Floor));
        return true;
      case List(items) =>
        ok := EncodeList(out, items);
      case Object(fields) =>
        ok := EncodeObject(out, v);
    }
  }

  method WriteSeparator(out: Buffer, first: bool)
    modifies out
    ensures out.text == old(out.text) + (if first then "" else ",")
  {
    if !first {
      out.WriteString(",");
    }
  }

  lemma ListPrefix(meaning: seq<J.Json>, i: nat)
    requires i < |meaning|
    ensures J.PrintItems(meaning[..i + 1], true)
         == J.PrintItems(meaning[..i], true) + ((if i == 0 then "" else ",") + J.Print(meaning[i]))
  {
    assert meaning[..i + 1] == meaning[..i] + [meaning[i]];
    PrintItemsSnoc(meaning[..i], meaning[i], true);
  }

  ghost function Separator(i: nat): string {
    if i == 0 then "" else ","
  }

  /** The buffer after the first `i` items. */
  ghost predicate ListDone(base: string, items: seq<Value>, i: nat, text: string)
    requires i <= |items|
  {
    match Meaning(List(items))
    case None => true
    case Some(j) => text == base + J.PrintItems(j.items[..i], true)
  }

  lemma ListStep(base: string, items: seq<Value>, i: nat, text: string, text': string)
    requires i < |items| && ListDone(base, items, i, text)
    requires Encodes(text + Separator(i), items[i], true, text')
    ensures ListDone(base, items, i + 1, text')
  {
    if Meaning(List(items)).Some? {
      var meaning := Meaning(List(items)).value.items;
      Regroup(base, J.PrintItems(meaning[..i], true), Separator(i), J.Print(meaning[i]));
      ListPrefix(meaning, i);
    }
  }

  lemma ListEnd(start: string, items: seq<Value>, text: string)
    requires ListDone(start + "[", items, |items|, text) && forall x | x in items :: Meaning(x).Some?
    ensures Encodes(start, List(items), true, text + "]")
  {
    var meaning := Meaning(List(items)).value.items;
    assert meaning[..|items|] == meaning;
    Regroup(start, "[", J.PrintItems(meaning, true), "]");
  }

  method EncodeList(out: Buffer, items: seq<Value>) returns (ok: bool)
    requires forall x | x in items :: IsPlain(x)
    modifies out
    ensures Encodes(old(out.text), List(items), ok, out.text)
    decreases items, 0
  {
    ghost var start := out.text;
    out.WriteString("[");
    ghost var base := out.text;
    var i := 0;
    while i < |items|
      invariant 0 <= i <= |items|
      invariant forall k | 0 <= k < i :: Meaning(items[k]).Some?
      invariant ListDone(base, items, i, out.text)
    {
      ghost var before := out.text;
      WriteSeparator(out, i == 0);
      ok := EncodeCanonical(out, items[i]);
      if !ok {
        assert items[i] in items;
        return false;
      }
      ListStep(base, items, i, before, out.text);
      i := i + 1;
    }
    ListEnd(start, items, out.text);
    out.WriteString("]");
    return true;
  }

  /** The object branch. The keys are met in any order; the sort makes the order irrelevant. */
  method EncodeObject(out: Buffer, v: Value) returns (ok: bool)
    requires v.Object? && IsPlain(v)
    modifies out
    ensures Encodes(old(out.text), v, ok, out.text)
    decreases v, 0
  {
    var fields := v.fields;
    var listed := ListKeys(fields);
    if listed.None? {
      return false;
    }
    var keys := SortCodePoints(listed.value);
    ok := EncodeMembers(out, v, keys);
  }

  /** The range over the map: every key, once, in an order that is not determined. */
  method ListKeys(fields: map<GoString, Value>) returns (keys: Option<seq<string>>)
    ensures keys.None? <==> !AllText(fields.Keys)
    ensures keys.Some? ==> J.KeySet(keys.value) == Texts(fields.Keys)
    ensures keys.Some? ==> forall i, j | 0 <= i < j < |keys.value| :: keys.value[i] != keys.value[j]
  {
    var listed: seq<string> := [];
    var remaining := fields.Keys;
    while remaining != {}
      invariant remaining <= fields.Keys && AllText(fields.Keys - remaining)
      invariant J.KeySet(listed) == Texts(fields.Keys - remaining)
      invariant forall i, j | 0 <= i < j < |listed| :: listed[i] != listed[j]
      decreases remaining
    {
      var key :| key in remaining;
      if key.Malformed? {
        return None;
      }
      assert forall i | 0 <= i < |listed| :: listed[i] in J.KeySet(listed);
      assert Texts(fields.Keys - (remaining - {key})) == Texts(fields.Keys - remaining) + {key.text};
      assert J.KeySet(listed + [key.text]) == J.KeySet(listed) + {key.text};
      listed := listed + [key.text];
      remaining := remaining - {key};
    }
    assert fields.Keys - remaining == fields.Keys;
    return Some(listed);
  }

  lemma MembersPrefix(j: J.Json, keys: seq<string>, i: nat)
    requires j.Obj? && i < |keys| && J.KeySet(keys) <= j.fields.Keys
    ensures J.KeySet(keys[..i]) <= j.fields.Keys && J.KeySet(keys[..i + 1]) <= j.fields.Keys && keys[i] in j.fields
    ensures J.PrintMembers(j, keys[..i + 1], true)
         == J.PrintMembers(j, keys[..i], true) + ((if i == 0 then "" else ",") + J.PrintMember(keys[i], j.fields[keys[i]]))
  {
    assert forall x | x in keys[..i + 1] :: x in J.KeySet(keys);
    assert keys[..i + 1] == keys[..i] + [keys[i]];
    PrintMembersSnoc(j, keys[..i], keys[i], true);
  }

  /** One member: the quoted key, a colon, the value. */
  method EncodeMember(out: Buffer, key: string, v: Value) returns (ok: bool)
    requires IsPlain(v)
    modifies out
    ensures match Meaning(v)
      case None => !ok
      case Some(j) => ok && out.text == old(out.text) + J.PrintMember(key, j)
    decreases v, 2
  {
    ghost var start := out.text;
    WriteCanonicalString(out, key);
    out.WriteString(":");
    ok := EncodeCanonical(out, v);
    if ok {
      Regroup(start, J.Quote(key), ":", J.Print(Meaning(v).value));
    }
  }

  ghost predicate KeysOf(v: Value, keys: seq<string>) {
    v.Object? && AllText(v.fields.Keys) && J.StrictlySorted(keys) && J.KeySet(keys) == Texts(v.fields.Keys)
  }

  lemma KeysOfMeaning(v: Value, keys: seq<string>, i: nat)
    requires KeysOf(v, keys) && Meaning(v).Some? && i <= |keys|
    ensures Meaning(v).value.Obj? && J.KeySet(keys[..i]) <= Meaning(v).value.fields.Keys
  {
    assert forall x | x in keys[..i] :: x in J.KeySet(keys);
  }

  /** The buffer after the first `i` members. */
  ghost predicate MembersDone(base: string, v: Value, keys: seq<string>, i: nat, text: string)
    requires KeysOf(v, keys) && i <= |keys|
  {
    match Meaning(v)
    case None => true
    case Some(j) =>
      KeysOfMeaning(v, keys, i);
      text == base + J.PrintMembers(j, keys[..i], true)
  }

  lemma MembersStart(base: string, v: Value, keys: seq<string>)
    requires KeysOf(v, keys)
    ensures MembersDone(base, v, keys, 0, base)
  {
    assert keys[..0] == [];
  }

  lemma MemberMeaning(v: Value, t: string)
    requires v.Object? && Meaning(v).Some? && Text(t) in v.fields
    ensures Meaning(v).value.Obj? && t in Meaning(v).value.fields
    ensures Meaning(v.fields[Text(t)]) == Some(Meaning(v).value.fields[t])
  {
  }

  lemma MemberFails(v: Value, t: string)
    requires v.Object? && Text(t) in v.fields && Meaning(v.fields[Text(t)]).None?
    ensures Meaning(v).None?
  {
  }

  lemma MembersStep(base: string, v: Value, keys: seq<string>, i: nat, text: string, j: J.Json)
    requires KeysOf(v, keys) && i < |keys| && MembersDone(base, v, keys, i, text)
    requires Text(keys[i]) in v.fields && Meaning(v.fields[Text(keys[i])]) == Some(j)
    ensures MembersDone(base, v, keys, i + 1, text + Separator(i) + J.PrintMember(keys[i], j))
  {
    if Meaning(v).Some? {
      MemberMeaning(v, keys[i]);
      KeysOfMeaning(v, keys, |keys|);
      assert keys[..|keys|] == keys;
      MembersPrefix(Meaning(v).value, keys, i);
      Regroup(base, J.PrintMembers(Meaning(v).value, keys[..i], true), Separator(i), J.PrintMember(keys[i], j));
    }
  }

  /** Each of the first `i` members has a meaning. */
  ghost predicate MembersMean(v: Value, keys: seq<string>, i: nat)
    requires v.Object? && i <= |keys|
  {
    forall k | 0 <= k < i :: Text(keys[k]) in v.fields && Meaning(v.fields[Text(keys[k])]).Some?
  }

  lemma MembersEnd(start: string, v: Value, keys: seq<string>, text: string)
    requires KeysOf(v, keys) && MembersDone(start + "{", v, keys, |keys|, text)
    requires MembersMean(v, keys, |keys|)
    ensures Encodes(start, v, true, text + "}")
  {
    forall k | k in v.fields ensures Meaning(v.fields[k]).Some? {
      assert k == Text(k.text) && k.text in J.KeySet(keys);
    }
    var j := Meaning(v).value;
    KeysOfMeaning(v, keys, |keys|);
    assert keys[..|keys|] == keys;
    J.SortedListingUnique(keys, J.SortedKeys(j.fields.Keys));
    Regroup(start, "{", J.PrintMembers(j, keys, true), "}");
  }

  lemma KeyIn(v: Value, keys: seq<string>, i: nat)
    requires KeysOf(v, keys) && i < |keys|
    ensures Text(keys[i]) in v.fields
  {
    assert keys[i] in J.KeySet(keys);
  }

  /** The members in the order of `keys`. */
  method EncodeMembers(out: Buffer, v: Value, keys: seq<string>) returns (ok: bool)
    requires IsPlain(v) && KeysOf(v, keys)
    modifies out
    ensures Encodes(old(out.text), v, ok, out.text)
    decreases v, 0, 0
  {
    hide Meaning;
    ghost var start := out.text;
    out.WriteString("{");
    ghost var base := out.text;
    MembersStart(base, v, keys);
    var i := 0;
    while i < |keys|
      invariant 0 <= i <= |keys|
      invariant MembersMean(v, keys, i)
      invariant MembersDone(base, v, keys, i, out.text)
    {
      KeyIn(v, keys, i);
      ghost var before := out.text;
      var value := v.fields[Text(keys[i])];
      WriteSeparator(out, i == 0);
      ok := EncodeMember(out, keys[i], value);
      if !ok {
        MemberFails(v, keys[i]);
        return false;
      }
      MembersStep(base, v, keys, i, before, Meaning(value).value);
      i := i + 1;
    }
    MembersEnd(start, v, keys, out.text);
    out.WriteString("}");
    return true;
  }

  // ---------- plainValue ----------

  /** `plainValue` on a value without cycles. */
  method PlainValue(v: Value) returns (r: Result<Value>)
    ensures r == Plain(v)
    decreases v, 1
  {
    match v {
      case String(s) =>
        return if s.Text? then Ok(v) else Err;
      case Literal(text) =>
        var n := NormalizeNumber(text);
        return if n.Ok? then Ok(Integer(n.value)) else Err;
      case List(items) =>
        r := PlainSlice(items);
      case Object(fields) =>
        r := PlainMap(v);
      case _ =>
        return Ok(v);
    }
  }

  method PlainSlice(items: seq<Value>) returns (r: Result<Value>)
    ensures r == Plain(List(items))
    decreases items, 0
  {
    var result: seq<Value> := [];
    for i := 0 to |items|
      invariant |result| == i && forall k | 0 <= k < i :: Plain(items[k]) == Ok(result[k])
    {
      var plain := PlainValue(items[i]);
      if plain.Err? {
        assert items[i] in items;
        return Err;
      }
      result := result + [plain.value];
    }
    assert seq(|items|, i requires 0 <= i < |items| => Plain(items[i]).value) == result;
    return Ok(List(result));
  }

  /** The entries of a map, in an order that is not determined. */
  method PlainMap(v: Value) returns (r: Result<Value>)
    requires v.Object?
    ensures r == Plain(v)
    decreases v, 0
  {
    var fields := v.fields;
    var result: map<GoString, Value> := map[];
    var remaining := fields.Keys;
    while remaining != {}
      invariant remaining <= fields.Keys && result.Keys == fields.Keys - remaining
      invariant forall k | k in result :: Plain(fields[k]) == Ok(result[k])
      decreases remaining
    {
      var k :| k in remaining;
      var plain := PlainValue(fields[k]);
      if plain.Err? {
        return Err;
      }
      result := result[k := plain.value];
      remaining := remaining - {k};
    }
    var plain := map k | k in fields :: Plain(fields[k]).value;
    assert plain == result;
    return Ok(Object(result));
  }

  // ---------- canonicalJSON and its users ----------

  /** `canonicalJSON`. */
  method CanonicalJSON(v: Value) returns (r: Result<seq<U.Byte>>)
    ensures r == Canonical(v)
  {
    PlainMeaning(v);
    var plain := PlainValue(v);
    if plain.Err? {
      return Err;
    }
    var out := new Buffer();
    var ok := EncodeCanonical(out, plain.value);
    if !ok {
      return Err;
    }
    assert out.text == "" + J.Print(Meaning(v).value) == J.Print(Meaning(v).value);
    return Ok(out.Bytes());
  }

  /** A Go `map[string]any` that may be nil. A nil map is encoded like an empty one. */
  type Fields = Option<map<GoString, Value>>

  function AsValue(fields: Fields): Value {
    Object(if fields.None? then map[] else fields.value)
  }

  /** `cloneMap`: a normalized copy; nil becomes an empty map. */
  method CloneMap(fields: Fields) returns (r: Result<map<GoString, Value>>)
    ensures r == Clone(fields)
  {
    if fields.None? {
      return Ok(map[]);
    }
    var plain := PlainValue(Object(fields.value));
    if plain.Err? {
      return Err;
    }
    return Ok(plain.value.fields);
  }

  ghost function Clone(fields: Fields): Result<map<GoString, Value>> {
    match Plain(AsValue(fields))
    case Ok(v) => Ok(v.fields)
    case Err => Err
  }

  /** `enterpriseExecutionValuesEqual`. */
  method ValuesEqual(left: Value, right: Value) returns (equal: bool)
    ensures equal <==> Meaning(left).Some? && Meaning(left) == Meaning(right)
  {
    var leftBytes := CanonicalJSON(left);
    var rightBytes := CanonicalJSON(right);
    CanonicalUnique(left, right);
    return leftBytes.Ok? && rightBytes.Ok? && leftBytes.value == rightBytes.value;
  }

  // ---------- laws ----------

  /** Canonical bytes are unique: two values have the same canonical bytes exactly when they are
      the same JSON value. */
  lemma CanonicalUnique(a: Value, b: Value)
    ensures Canonical(a).Ok? <==> Meaning(a).Some?
    ensures Canonical(a).Ok? && Canonical(a) == Canonical(b) <==> Meaning(a).Some? && Meaning(a) == Meaning(b)
  {
    if Canonical(a).Ok? && Canonical(a) == Canonical(b) {
      MeaningIsSafe(a);
      MeaningIsSafe(b);
      U.EncodeInjective(J.Print(Meaning(a).value), J.Print(Meaning(b).value));
      RT.PrintInjective(Meaning(a).value, Meaning(b).value);
    }
  }

  /** Decoding canonical bytes: an object comes back with its numbers as text, anything else is
      refused because it is not an object. */
  lemma DecodeCanonical(v: Value)
    requires Canonical(v).Ok?
    ensures D.StrictLoads(Canonical(v).value) == if Meaning(v).value.Obj? then Ok(Raw(Meaning(v).value)) else Err
  {
    var j := Meaning(v).value;
    U.DecodeEncode(J.Print(j));
    assert J.Print(j) + "" == J.Print(j);
    RT.ReadPrinted(j, "");
  }

  /** Round trip: decoding the canonical bytes of an object and normalizing gives back exactly
      that object, and encoding it again gives the same bytes. */
  lemma CanonicalRoundTrip(j: J.Json)
    requires j.Obj? && J.Safe(j)
    ensures var bytes := Canonical(FromJson(j));
      && bytes.Ok?
      && D.StrictLoads(bytes.value) == Ok(Raw(j))
      && Plain(Raw(j)) == Ok(FromJson(j))
      && Canonical(Raw(j)) == bytes
  {
    MeaningOfFromJson(j);
    MeaningOfRaw(j);
    PlainOfRaw(j);
    DecodeCanonical(FromJson(j));
  }

  /** Every document that the decoder accepts and the encoder can encode has one canonical form,
      which decodes to the same meaning: canonicalization is idempotent. */
  lemma CanonicalIdempotent(data: seq<U.Byte>)
    requires D.StrictLoads(data).Ok? && Canonical(D.StrictLoads(data).value).Ok?
    ensures var bytes := Canonical(D.StrictLoads(data).value).value;
      && D.StrictLoads(bytes).Ok?
      && Meaning(D.StrictLoads(bytes).value) == Meaning(D.StrictLoads(data).value)
      && Canonical(D.StrictLoads(bytes).value) == Ok(bytes)
  {
    var v := D.StrictLoads(data).value;
    LoadsObject(data);
    MeaningOfObjectIsObject(v);
    MeaningIsSafe(v);
    DecodeCanonical(v);
    MeaningOfRaw(Meaning(v).value);
  }

  lemma LoadsObject(data: seq<U.Byte>)
    requires D.StrictLoads(data).Ok?
    ensures D.StrictLoads(data).value.Object?
  {
  }

  lemma MeaningOfObjectIsObject(v: Value)
    requires v.Object? && Meaning(v).Some?
    ensures Meaning(v).value.Obj?
  {
  }

  /** A clone has the canonical bytes of the original, also for a nil map. */
  lemma CloneCanonical(fields: Fields)
    ensures Clone(fields).Ok? ==> Canonical(Object(Clone(fields).value)) == Canonical(AsValue(fields))
    ensures Clone(fields).Err? ==> Canonical(AsValue(fields)).Err?
  {
    PlainMeaning(AsValue(fields));
    if Clone(fields).Ok? {
      assert Plain(AsValue(fields)).value == Object(Clone(fields).value);
    }
  }

  /** Cloning accepts more than the encoder: a fractional float is copied but has no canonical bytes. */
  lemma CloneAcceptsMore()
    ensures var usage := Some(map[Text("cost") := Float(Finite(1.5))]);
      Clone(usage).Ok? && Canonical(AsValue(usage)).Err?
  {
    var v := Float(Finite(1.5));
    var fields := map[Text("cost") := v];
    assert (1.5 as real).Floor == 1;
    assert Meaning(v).None? && Plain(v) == Ok(v);
    assert Text("cost") in fields && fields[Text("cost")] == v;
    assert forall k | k in fields :: Plain(fields[k]) == Ok(v);
  }
}
