/** JSON values of the portable domain and their canonical text: compact, keys in code-point
    order, every character that needs no escape written as itself. */
module Json {
  import opened Wrappers
  import opened Numbers

  datatype Json =
    | Null
    | Bool(b: bool)
    | Str(text: string)
    | Num(n: int)
    | Arr(items: seq<Json>)
    | Obj(fields: map<string, Json>)

  /** Every number in `j` is a safe integer. */
  ghost predicate Safe(j: Json) {
    match j
    case Num(n) => -MAX_SAFE_INTEGER <= n <= MAX_SAFE_INTEGER
    case Arr(items) => forall x | x in items :: Safe(x)
    case Obj(fields) => forall k | k in fields :: Safe(fields[k])
    case _ => true
  }

  // ---------- key order ----------

  /** Code-point order: the first difference decides, and a proper prefix comes first. */
  predicate Less(a: string, b: string) {
    if b == "" then false
    else if a == "" then true
    else if a[0] != b[0] then a[0] < b[0]
    else Less(a[1..], b[1..])
  }

  lemma {:induction false} LessIrreflexive(a: string)
    ensures !Less(a, a)
  {
    if a != "" {
      LessIrreflexive(a[1..]);
    }
  }

  lemma {:induction false} LessTransitive(a: string, b: string, c: string)
    requires Less(a, b) && Less(b, c)
    ensures Less(a, c)
  {
    if a != "" && a[0] == b[0] == c[0] {
      LessTransitive(a[1..], b[1..], c[1..]);
    }
  }

  lemma {:induction false} LessTotal(a: string, b: string)
    ensures Less(a, b) || a == b || Less(b, a)
  {
    if a != "" && b != "" && a[0] == b[0] {
      LessTotal(a[1..], b[1..]);
      assert a == [a[0]] + a[1..] && b == [b[0]] + b[1..];
    }
  }

  ghost predicate StrictlySorted(keys: seq<string>) {
    forall i, j | 0 <= i < j < |keys| :: Less(keys[i], keys[j])
  }

  ghost function KeySet(keys: seq<string>): set<string> {
    set k | k in keys
  }

  /** One set of keys has only one strictly sorted listing, whatever order they were met in. */
  lemma {:induction false} SortedListingUnique(a: seq<string>, b: seq<string>)
    requires StrictlySorted(a) && StrictlySorted(b) && KeySet(a) == KeySet(b)
    ensures a == b
  {
    if a != [] {
      assert a[0] in KeySet(a);
    }
    if b != [] {
      assert b[0] in KeySet(b);
    }
    if a != [] && b != [] {
      var i :| 0 <= i < |b| && b[i] == a[0];
      var j :| 0 <= j < |a| && a[j] == b[0];
      if i > 0 && j > 0 {
        LessTransitive(a[0], a[j], b[i]);
        LessIrreflexive(a[0]);
        assert false;
      }
      assert a[0] == b[0];
      TailKeys(a);
      TailKeys(b);
      SortedListingUnique(a[1..], b[1..]);
    }
  }

  lemma TailKeys(keys: seq<string>)
    requires StrictlySorted(keys) && keys != []
    ensures KeySet(keys[1..]) == KeySet(keys) - {keys[0]}
  {
    forall i | 1 <= i < |keys| ensures keys[i] != keys[0] {
      LessIrreflexive(keys[0]);
    }
    forall k | k in KeySet(keys) - {keys[0]} ensures k in KeySet(keys[1..]) {
      var i :| 0 <= i < |keys| && keys[i] == k;
      assert keys[1..][i - 1] == k;
    }
  }

  ghost predicate IsLeast(k: string, keys: set<string>) {
    k in keys && forall x | x in keys :: x == k || Less(k, x)
  }

  lemma {:induction false} LeastKey(keys: set<string>) returns (k: string)
    requires keys != {}
    ensures IsLeast(k, keys)
  {
    var x :| x in keys;
    var rest := keys - {x};
    assert forall y | y in keys :: y == x || y in rest;
    if rest == {} {
      return x;
    }
    k := LeastKey(rest);
    LessTotal(x, k);
    if Less(x, k) {
      forall y | y in rest ensures Less(x, y) {
        if y != k {
          LessTransitive(x, k, y);
        }
      }
      k := x;
    }
  }

  lemma LeastKeyExists(keys: set<string>)
    requires keys != {}
    ensures exists k :: IsLeast(k, keys)
  {
    var k := LeastKey(keys);
  }

  /** The strictly sorted listing of a set of keys. */
  ghost function SortedKeys(keys: set<string>): (listing: seq<string>)
    ensures StrictlySorted(listing) && KeySet(listing) == keys
  {
    if keys == {} then []
    else
      LeastKeyExists(keys);
      var k :| IsLeast(k, keys);
      SortedCons(k, SortedKeys(keys - {k}), keys);
      [k] + SortedKeys(keys - {k})
  }

  lemma SortedCons(k: string, tail: seq<string>, keys: set<string>)
    requires IsLeast(k, keys) && StrictlySorted(tail) && KeySet(tail) == keys - {k}
    ensures StrictlySorted([k] + tail) && KeySet([k] + tail) == keys
  {
    forall i | 0 <= i < |tail| ensures Less(k, tail[i]) {
      assert tail[i] in KeySet(tail);
    }
    assert forall x :: x in [k] + tail <==> x == k || x in KeySet(tail);
  }

  // ---------- canonical text ----------

  function HexDigit(d: int): char
    requires 0 <= d < 16
  {
    "0123456789abcdef"[d]
  }

  function EscapeChar(c: char): string {
    if c == '"' || c == '\\' then ['\\', c]
    else if c as int == 0x08 then "\\b"
    else if c as int == 0x0C then "\\f"
    else if c == '\n' then "\\n"
    else if c == '\r' then "\\r"
    else if c == '\t' then "\\t"
    else if (c as int) < 0x20 then "\\u00" + [HexDigit(c as int / 16), HexDigit(c as int % 16)]
    else [c]
  }

  function Escape(s: string): string {
    if s == "" then "" else EscapeChar(s[0]) + Escape(s[1..])
  }

  function Quote(s: string): string {
    "\"" + (Escape(s) + "\"")
  }

  /** The canonical text of `j`. */
  ghost function Print(j: Json): string
    decreases j, 1
  {
    match j
    case Null => "null"
    case Bool(b) => if b then "true" else "false"
    case Str(text) => Quote(text)
    case Num(n) => FormatInt(n)
    case Arr(items) => "[" + (PrintItems(items, true) + "]")
    case Obj(fields) => "{" + (PrintMembers(j, SortedKeys(fields.Keys), true) + "}")
  }

  ghost function PrintItems(items: seq<Json>, first: bool): string
    decreases items, 0
  {
    if items == [] then ""
    else (if first then "" else ",") + (Print(items[0]) + PrintItems(items[1..], false))
  }

  ghost function PrintMember(key: string, value: Json): string
    decreases value, 2
  {
    Quote(key) + (":" + Print(value))
  }

  ghost function PrintMembers(j: Json, keys: seq<string>, first: bool): string
    requires j.Obj? && KeySet(keys) <= j.fields.Keys
    decreases j, 0, |keys|
  {
    if keys == [] then ""
    else
      assert keys[0] in KeySet(keys) && forall k | k in keys[1..] :: k in KeySet(keys);
      (if first then "" else ",") + (PrintMember(keys[0], j.fields[keys[0]]) + PrintMembers(j, keys[1..], false))
  }
}
