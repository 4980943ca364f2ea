/** The dynamic Go values that reach the canonical encoder. */
module GoValues {
  import opened Numbers
  import opened Utf8
  import opened Wrappers
  import J = Json

  /** A Go string: valid UTF-8, identified with its text, or some other bytes. */
  datatype GoString = Text(text: string) | Malformed(bytes: seq<Byte>)

  /** The cases of a float64 that the encoder tells apart. */
  datatype GoFloat = NaN | Infinity(negative: bool) | NegativeZero | Finite(value: real)

  /** `any` after reflection: `Integer` stands for every signed and unsigned integer kind,
      `Literal` for json.Number. */
  datatype Value =
    | Null
    | Bool(b: bool)
    | String(s: GoString)
    | Literal(text: string)
    | Integer(n: int)
    | Float(f: GoFloat)
    | List(items: seq<Value>)
    | Object(fields: map<GoString, Value>)

  ghost predicate IsSafe(n: int) {
    -MAX_SAFE_INTEGER <= n <= MAX_SAFE_INTEGER
  }

  ghost predicate AllText(keys: set<GoString>) {
    forall k | k in keys :: k.Text?
  }

  ghost function Texts(keys: set<GoString>): set<string> {
    set k | k in keys && k.Text? :: k.text
  }

  ghost function MeaningOfFloat(f: GoFloat): Option<J.Json> {
    match f
    case Finite(r) => if r == r.Floor as real && IsSafe(r.Floor) then Some(J.Num(r.Floor)) else None
    case _ => None
  }

  /** The portable JSON value that `v` stands for; None when it is outside the portable domain:
      text that is not UTF-8, or a number that is not exactly a safe integer. */
  ghost function Meaning(v: Value): Option<J.Json> {
    match v
    case Null => Some(J.Null)
    case Bool(b) => Some(J.Bool(b))
    case String(s) => if s.Text? then Some(J.Str(s.text)) else None
    case Literal(text) => (match Normalized(text) case Ok(n) => Some(J.Num(n)) case Err => None)
    case Integer(n) => if IsSafe(n) then Some(J.Num(n)) else None
    case Float(f) => MeaningOfFloat(f)
    case List(items) =>
      if forall x | x in items :: Meaning(x).Some? then
        Some(J.Arr(seq(|items|, i requires 0 <= i < |items| => Meaning(items[i]).value)))
      else None
    case Object(fields) =>
      if AllText(fields.Keys) && forall k | k in fields :: Meaning(fields[k]).Some? then
        Some(J.Obj(map t | t in Texts(fields.Keys) :: Meaning(fields[Text(t)]).value))
      else None
  }

  /** Whatever has a meaning means a value whose numbers are all safe integers. */
  lemma {:induction false} MeaningIsSafe(v: Value)
    requires Meaning(v).Some?
    ensures J.Safe(Meaning(v).value)
  {
    match v
    case Literal(text) => NormalizedMeans(text, Normalized(text).value);
    case List(items) =>
      forall x | x in items ensures J.Safe(Meaning(x).value) {
        MeaningIsSafe(x);
      }
    case Object(fields) =>
      forall t | t in Texts(fields.Keys) ensures J.Safe(Meaning(fields[Text(t)]).value) {
        MeaningIsSafe(fields[Text(t)]);
      }
    case _ =>
  }

  /** The Go value that the decoder builds for `j`: numbers stay text. */
  ghost function Raw(j: J.Json): Value {
    match j
    case Null => Null
    case Bool(b) => Bool(b)
    case Str(text) => String(Text(text))
    case Num(n) => Literal(FormatInt(n))
    case Arr(items) => List(seq(|items|, i requires 0 <= i < |items| => Raw(items[i])))
    case Obj(fields) => Object(map k | k in TextKeys(fields.Keys) :: Raw(fields[k.text]))
  }

  ghost function TextKeys(keys: set<string>): (r: set<GoString>)
    ensures AllText(r) && Texts(r) == keys
    ensures forall k :: k in r <==> k.Text? && k.text in keys
  {
    var r := set t | t in keys :: Text(t);
    assert forall t | t in keys :: Text(t) in r;
    r
  }

  lemma MeaningOfObject(fields: map<GoString, Value>, meaning: map<string, J.Json>)
    requires AllText(fields.Keys) && Texts(fields.Keys) == meaning.Keys
    requires forall k | k in fields :: Meaning(fields[k]) == Some(meaning[k.text])
    ensures Meaning(Object(fields)) == Some(J.Obj(meaning))
  {
    var m := map t | t in Texts(fields.Keys) :: Meaning(fields[Text(t)]).value;
    assert m == meaning;
  }

  lemma MeaningOfList(items: seq<Value>, meaning: seq<J.Json>)
    requires |items| == |meaning| && forall i | 0 <= i < |items| :: Meaning(items[i]) == Some(meaning[i])
    ensures Meaning(List(items)) == Some(J.Arr(meaning))
  {
    assert seq(|items|, i requires 0 <= i < |items| => Meaning(items[i]).value) == meaning;
  }

  lemma {:induction false} MeaningOfRaw(j: J.Json)
    requires J.Safe(j)
    ensures Meaning(Raw(j)) == Some(j)
  {
    match j
    case Num(n) => FormatIntNormalizes(n);
    case Arr(items) =>
      forall i | 0 <= i < |items| ensures Meaning(Raw(items[i])) == Some(items[i]) {
        MeaningOfRaw(items[i]);
      }
      MeaningOfList(Raw(j).items, items);
    case Obj(fields) =>
      forall t | t in fields ensures Meaning(Raw(fields[t])) == Some(fields[t]) {
        MeaningOfRaw(fields[t]);
      }
      assert Raw(j).fields.Keys == TextKeys(fields.Keys);
      MeaningOfObject(Raw(j).fields, fields);
    case _ =>
  }

  // ---------- plain values ----------

  /** What normalization leaves: no number text and no malformed string. Keys are not looked at. */
  ghost predicate IsPlain(v: Value) {
    match v
    case String(s) => s.Text?
    case Literal(_) => false
    case List(items) => forall x | x in items :: IsPlain(x)
    case Object(fields) => forall k | k in fields :: IsPlain(fields[k])
    case _ => true
  }

  /** `plainValue`: number text becomes an integer, everything else is copied. */
  ghost function Plain(v: Value): Result<Value> {
    match v
    case String(s) => if s.Text? then Ok(v) else Err
    case Literal(text) => (match Normalized(text) case Ok(n) => Ok(Integer(n)) case Err => Err)
    case List(items) =>
      if forall x | x in items :: Plain(x).Ok? then
        Ok(List(seq(|items|, i requires 0 <= i < |items| => Plain(items[i]).value)))
      else Err
    case Object(fields) =>
      if forall k | k in fields :: Plain(fields[k]).Ok? then
        Ok(Object(map k | k in fields :: Plain(fields[k]).value))
      else Err
    case _ => Ok(v)
  }

  /** Normalization keeps the meaning: what it refuses has none. */
  lemma {:induction false} PlainMeaning(v: Value)
    ensures Plain(v).Err? ==> Meaning(v).None?
    ensures Plain(v).Ok? ==> IsPlain(Plain(v).value) && Meaning(Plain(v).value) == Meaning(v)
  {
    match v
    case Literal(text) =>
      if Normalized(text).Ok? {
        NormalizedMeans(text, Normalized(text).value);
      }
    case List(items) =>
      forall x | x in items
        ensures Plain(x).Err? ==> Meaning(x).None?
        ensures Plain(x).Ok? ==> IsPlain(Plain(x).value) && Meaning(Plain(x).value) == Meaning(x)
      {
        PlainMeaning(x);
      }
      if Plain(v).Ok? {
        var plain := Plain(v).value.items;
        forall i | 0 <= i < |items| ensures Meaning(plain[i]) == Meaning(items[i]) {
          assert items[i] in items && plain[i] == Plain(items[i]).value;
        }
        SameMeaningList(items, plain);
      }
    case Object(fields) =>
      forall k | k in fields
        ensures Plain(fields[k]).Err? ==> Meaning(fields[k]).None?
        ensures Plain(fields[k]).Ok? ==> IsPlain(Plain(fields[k]).value) && Meaning(Plain(fields[k]).value) == Meaning(fields[k])
      {
        PlainMeaning(fields[k]);
      }
      if Plain(v).Ok? {
        var plain := Plain(v).value.fields;
        assert forall k | k in fields :: plain[k] == Plain(fields[k]).value;
        SameMeaningObject(fields, plain);
      }
    case _ =>
  }

  lemma SameMeaningList(items: seq<Value>, items': seq<Value>)
    requires |items| == |items'| && forall i | 0 <= i < |items| :: Meaning(items'[i]) == Meaning(items[i])
    ensures Meaning(List(items')) == Meaning(List(items))
  {
    if forall x | x in items :: Meaning(x).Some? {
      MeaningOfList(items', Meaning(List(items)).value.items);
    } else {
      var i :| 0 <= i < |items| && Meaning(items[i]).None?;
      assert items'[i] in items';
    }
  }

  lemma SameMeaningObject(fields: map<GoString, Value>, fields': map<GoString, Value>)
    requires fields.Keys == fields'.Keys && forall k | k in fields :: Meaning(fields'[k]) == Meaning(fields[k])
    ensures Meaning(Object(fields')) == Meaning(Object(fields))
  {
    if Meaning(Object(fields)).Some? {
      var meaning := Meaning(Object(fields)).value.fields;
      assert forall k | k in fields :: k == Text(k.text);
      MeaningOfObject(fields', meaning);
    }
  }

  /** `j` as a plain Go value. */
  ghost function FromJson(j: J.Json): Value {
    match j
    case Null => Null
    case Bool(b) => Bool(b)
    case Str(text) => String(Text(text))
    case Num(n) => Integer(n)
    case Arr(items) => List(seq(|items|, i requires 0 <= i < |items| => FromJson(items[i])))
    case Obj(fields) => Object(map k | k in TextKeys(fields.Keys) :: FromJson(fields[k.text]))
  }

  lemma PlainList(raw: seq<Value>, plain: seq<Value>)
    requires |raw| == |plain| && forall i | 0 <= i < |raw| :: Plain(raw[i]) == Ok(plain[i])
    ensures Plain(List(raw)) == Ok(List(plain))
  {
    assert plain == seq(|raw|, i requires 0 <= i < |raw| => Plain(raw[i]).value);
  }

  lemma PlainObject(raw: map<GoString, Value>, plain: map<GoString, Value>)
    requires raw.Keys == plain.Keys && forall k | k in raw :: Plain(raw[k]) == Ok(plain[k])
    ensures Plain(Object(raw)) == Ok(Object(plain))
  {
    assert forall k | k in raw :: Plain(raw[k]).Ok?;
    var normalized := map k | k in raw :: Plain(raw[k]).value;
    assert normalized == plain;
  }

  /** Decoded numbers normalize back to the integers they were printed from. */
  lemma {:induction false} PlainOfRaw(j: J.Json)
    requires J.Safe(j)
    ensures Plain(Raw(j)) == Ok(FromJson(j))
  {
    match j
    case Num(n) => FormatIntNormalizes(n);
    case Arr(items) =>
      var raw := Raw(j).items;
      forall i | 0 <= i < |items| ensures Plain(raw[i]) == Ok(FromJson(items[i])) {
        PlainOfRaw(items[i]);
      }
      PlainList(raw, FromJson(j).items);
    case Obj(fields) =>
      var raw := Raw(j).fields;
      forall k | k in raw ensures Plain(raw[k]) == Ok(FromJson(j).fields[k]) {
        PlainOfRaw(fields[k.text]);
      }
      PlainObject(raw, FromJson(j).fields);
    case _ =>
  }

  lemma MeaningOfFromJson(j: J.Json)
    requires J.Safe(j)
    ensures Meaning(FromJson(j)) == Some(j)
  {
    PlainOfRaw(j);
    PlainMeaning(Raw(j));
    MeaningOfRaw(j);
  }
}
