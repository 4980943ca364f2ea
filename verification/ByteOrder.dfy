/** Go compares strings by their bytes. For valid UTF-8 that is the order by code point. */
module ByteOrder {
  import opened Utf8
  import J = Json

  /** Go's `<` on strings, and the order of `sort.Strings`. */
  predicate BytesLess(a: seq<Byte>, b: seq<Byte>) {
    if b == [] then false
    else if a == [] then true
    else if a[0] != b[0] then a[0] < b[0]
    else BytesLess(a[1..], b[1..])
  }

  lemma {:induction false} SamePrefix(p: seq<Byte>, a: seq<Byte>, b: seq<Byte>)
    ensures BytesLess(p + a, p + b) <==> BytesLess(a, b)
  {
    if p == [] {
      assert p + a == a && p + b == b;
    } else {
      assert (p + a)[1..] == p[1..] + a && (p + b)[1..] == p[1..] + b;
      SamePrefix(p[1..], a, b);
    }
  }

  /** The first byte in which two texts differ decides. */
  lemma {:induction false} FirstDifference(a: seq<Byte>, b: seq<Byte>, k: nat)
    requires k < |a| && k < |b| && a[..k] == b[..k] && a[k] < b[k]
    ensures BytesLess(a, b) && !BytesLess(b, a)
  {
    assert a == a[..k] + a[k..] && b == b[..k] + b[k..];
    SamePrefix(a[..k], a[k..], b[k..]);
    SamePrefix(a[..k], b[k..], a[k..]);
  }

  lemma LowerBits(u: int, v: int)
    requires u <= v
    ensures u / 0x40 <= v / 0x40
    ensures u / 0x40 == v / 0x40 ==> Tail(v) as int - Tail(u) as int == v - u
  {
  }

  /** A longer encoding starts with a greater byte. */
  lemma LongerChar(c: char, d: char)
    requires c < d && |EncodeChar(c)| != |EncodeChar(d)|
    ensures EncodeChar(c)[0] < EncodeChar(d)[0]
  {
  }

  /** A smaller character has an encoding that differs first in a smaller byte. */
  lemma SmallerChar(c: char, d: char) returns (k: nat)
    requires c < d
    ensures k < |EncodeChar(c)| && k < |EncodeChar(d)|
    ensures EncodeChar(c)[..k] == EncodeChar(d)[..k] && EncodeChar(c)[k] < EncodeChar(d)[k]
  {
    var n := |EncodeChar(c)|;
    if n != |EncodeChar(d)| {
      LongerChar(c, d);
      return 0;
    }
    var u, v := c as int, d as int;
    LowerBits(u, v);
    LowerBits(u / 0x40, v / 0x40);
    LowerBits(u / 0x40 / 0x40, v / 0x40 / 0x40);
    hide Tail;
    if n > 1 && u / 0x40 == v / 0x40 {
      k := n - 1;
    } else if n > 2 && u / 0x40 / 0x40 == v / 0x40 / 0x40 {
      k := n - 2;
    } else if n > 3 && u / 0x40 / 0x40 / 0x40 == v / 0x40 / 0x40 / 0x40 {
      k := n - 3;
    } else {
      k := 0;
    }
  }

  /** The byte order of the encodings is the order of the texts by code point. */
  lemma {:induction false} EncodingKeepsOrder(s: string, t: string)
    ensures BytesLess(Encode(s), Encode(t)) <==> J.Less(s, t)
  {
    hide EncodeChar;
    if s != "" && t != "" {
      if s[0] == t[0] {
        SamePrefix(EncodeChar(s[0]), Encode(s[1..]), Encode(t[1..]));
        EncodingKeepsOrder(s[1..], t[1..]);
      } else if s[0] < t[0] {
        var k := SmallerChar(s[0], t[0]);
        DifferEarly(EncodeChar(s[0]), Encode(s[1..]), EncodeChar(t[0]), Encode(t[1..]), k);
      } else {
        var k := SmallerChar(t[0], s[0]);
        DifferEarly(EncodeChar(t[0]), Encode(t[1..]), EncodeChar(s[0]), Encode(s[1..]), k);
      }
    }
  }

  lemma DifferEarly(a: seq<Byte>, u: seq<Byte>, b: seq<Byte>, v: seq<Byte>, k: nat)
    requires k < |a| && k < |b| && a[..k] == b[..k] && a[k] < b[k]
    ensures BytesLess(a + u, b + v) && !BytesLess(b + v, a + u)
  {
    assert (a + u)[..k] == a[..k] && (b + v)[..k] == b[..k];
    FirstDifference(a + u, b + v, k);
  }
}
