/** UTF-8 as defined in section 3 of RFC 3629. A valid Go string is identified with the
    sequence of its Unicode scalar values (a Dafny `string`); this module is the bridge
    between that view and the bytes on the wire. */
module Utf8 {
  import opened Wrappers

  type Byte = b: int | 0 <= b < 256

  /** The bytes of one scalar value: a leading byte, then six bits in each continuation byte. */
  function EncodeChar(c: char): (b: seq<Byte>)
    ensures 1 <= |b| <= 4
  {
    var v := c as int;
    if v < 0x80 then [v]
    else if v < 0x800 then [0xC0 + v / 0x40, Tail(v)]
    else if v < 0x1_0000 then [0xE0 + v / 0x40 / 0x40, Tail(v / 0x40), Tail(v)]
    else [0xF0 + v / 0x40 / 0x40 / 0x40, Tail(v / 0x40 / 0x40), Tail(v / 0x40), Tail(v)]
  }

  function Tail(v: int): Byte {
    0x80 + v % 0x40
  }

  /** Appends the six bits of a continuation byte to the bits read so far. */
  function Shift(bits: int, tail: Byte): int {
    bits * 0x40 + (tail as int - 0x80)
  }

  lemma ShiftTail(v: int)
    ensures Shift(v / 0x40, Tail(v)) == v && Continuation(Tail(v))
  {
  }

  lemma TailShift(bits: int, tail: Byte)
    requires Continuation(tail)
    ensures Shift(bits, tail) / 0x40 == bits && Tail(Shift(bits, tail)) == tail
  {
  }

  function Encode(s: string): (b: seq<Byte>) {
    if s == [] then [] else EncodeChar(s[0]) + Encode(s[1..])
  }

  predicate Continuation(b: Byte) {
    0x80 <= b < 0xC0
  }

  predicate IsScalar(v: int) {
    0 <= v < 0xD800 || 0xE000 <= v < 0x11_0000
  }

  /** The scalar value that starts `b` and its width in bytes, or None when the first bytes
      are not a shortest-form encoding of a scalar value. */
  function DecodeChar(b: seq<Byte>): (r: Option<(char, nat)>)
    ensures r.Some? ==> 1 <= r.value.1 <= |b|
  {
    if |b| == 0 then None
    else if b[0] < 0x80 then Some((b[0] as char, 1))
    else if b[0] < 0xC2 then None
    else if b[0] < 0xE0 then
      if |b| >= 2 && Continuation(b[1]) then
        Some((Shift(b[0] as int - 0xC0, b[1]) as char, 2))
      else None
    else if b[0] < 0xF0 then
      if |b| >= 3 && Continuation(b[1]) && Continuation(b[2]) then
        var v := Shift(Shift(b[0] as int - 0xE0, b[1]), b[2]);
        if v >= 0x800 && IsScalar(v) then Some((v as char, 3)) else None
      else None
    else if |b| >= 4 && Continuation(b[1]) && Continuation(b[2]) && Continuation(b[3]) then
      var v := Shift(Shift(Shift(b[0] as int - 0xF0, b[1]), b[2]), b[3]);
      if v >= 0x1_0000 && IsScalar(v) then Some((v as char, 4)) else None
    else None
  }

  /** The text that `b` encodes; None when `b` is not valid UTF-8. */
  function Decode(b: seq<Byte>): Option<string>
    decreases |b|
  {
    if b == [] then Some("")
    else match DecodeChar(b)
      case None => None
      case Some((c, width)) =>
        match Decode(b[width..])
        case None => None
        case Some(rest) => Some([c] + rest)
  }

  lemma CharRoundTrip(c: char, rest: seq<Byte>)
    ensures DecodeChar(EncodeChar(c) + rest) == Some((c, |EncodeChar(c)|))
  {
    hide Shift, Tail, Continuation;
    var v := c as int;
    ShiftTail(v);
    ShiftTail(v / 0x40);
    ShiftTail(v / 0x40 / 0x40);
    assert forall i | 0 <= i < |EncodeChar(c)| :: (EncodeChar(c) + rest)[i] == EncodeChar(c)[i];
  }

  lemma DecodedCharEncodes(b: seq<Byte>)
    requires DecodeChar(b).Some?
    ensures var (c, width) := DecodeChar(b).value; b == EncodeChar(c) + b[width..]
  {
    var (c, width) := DecodeChar(b).value;
    if width == 2 {
      TailShift(b[0] as int - 0xC0, b[1]);
    } else if width == 3 {
      TailShift(b[0] as int - 0xE0, b[1]);
      TailShift(Shift(b[0] as int - 0xE0, b[1]), b[2]);
    } else if width == 4 {
      TailShift(b[0] as int - 0xF0, b[1]);
      TailShift(Shift(b[0] as int - 0xF0, b[1]), b[2]);
      TailShift(Shift(Shift(b[0] as int - 0xF0, b[1]), b[2]), b[3]);
    }
    assert EncodeChar(c) == b[..width];
  }

  lemma {:induction false} DecodeEncode(s: string)
    ensures Decode(Encode(s)) == Some(s)
  {
    if s != [] {
      CharRoundTrip(s[0], Encode(s[1..]));
      DecodeEncode(s[1..]);
      assert Encode(s)[|EncodeChar(s[0])|..] == Encode(s[1..]);
      assert [s[0]] + s[1..] == s;
    }
  }

  lemma {:induction false} EncodeDecode(b: seq<Byte>)
    requires Decode(b).Some?
    ensures Encode(Decode(b).value) == b
    decreases |b|
  {
    if b != [] {
      var (c, width) := DecodeChar(b).value;
      DecodedCharEncodes(b);
      EncodeDecode(b[width..]);
      assert Decode(b).value[1..] == Decode(b[width..]).value;
    }
  }

  lemma EncodeInjective(s: string, t: string)
    requires Encode(s) == Encode(t)
    ensures s == t
  {
    DecodeEncode(s);
    DecodeEncode(t);
  }

  lemma {:induction false} EncodeAppend(s: string, t: string)
    ensures Encode(s + t) == Encode(s) + Encode(t)
  {
    if s == [] {
      assert s + t == t;
    } else {
      EncodeAppend(s[1..], t);
      assert (s + t)[1..] == s[1..] + t;
    }
  }
}
