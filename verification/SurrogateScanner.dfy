/** The scan for unpaired surrogate escapes that runs over a response before it is decoded. */
module SurrogateScanner {
  import opened Parser
  import opened Utf8
  import opened Wrappers

  const BACKSLASH: Byte := 0x5C
  const LETTER_U: Byte := 0x75

  // ---------- the scan ----------

  function HexByte(b: int): (v: int)
    ensures -1 <= v < 16
  {
    if 0x30 <= b <= 0x39 then b - 0x30
    else if 0x61 <= b <= 0x66 then b - 0x61 + 10
    else if 0x41 <= b <= 0x46 then b - 0x41 + 10
    else -1
  }

  /** Go's `strconv.ParseUint(text, 16, 16)` on four bytes; -1 for an error. */
  function ParseUnit(b: seq<Byte>): (u: int)
    requires |b| == 4
    ensures -1 <= u < 0x1_0000
  {
    if HexByte(b[0]) < 0 || HexByte(b[1]) < 0 || HexByte(b[2]) < 0 || HexByte(b[3]) < 0 then -1
    else ((HexByte(b[0]) * 16 + HexByte(b[1])) * 16 + HexByte(b[2])) * 16 + HexByte(b[3])
  }

  /** What the scan says of the bytes from some index on. */
  function Scan(raw: seq<Byte>): bool
    decreases |raw|
  {
    if raw == [] then true
    else if raw[0] != BACKSLASH then Scan(raw[1..])
    else if |raw| < 2 then true
    else if raw[1] != LETTER_U then Scan(raw[2..])
    else if |raw| < 6 then false
    else
      var value := ParseUnit(raw[2..6]);
      if value < 0 || IsLow(value) then false
      else if !IsHigh(value) then Scan(raw[6..])
      else if |raw| < 12 || raw[6] != BACKSLASH || raw[7] != LETTER_U then false
      else IsLow(ParseUnit(raw[8..12])) && Scan(raw[12..])
  }

  /** `contextReadUnicodeEscapesValid`: one loop that moves its index by hand. */
  method UnicodeEscapesValid(raw: seq<Byte>) returns (valid: bool)
    ensures valid == Scan(raw)
  {
    var index := 0;
    while index < |raw|
      invariant 0 <= index
      invariant Scan(raw) == if index <= |raw| then Scan(raw[index..]) else true
    {
      ghost var here := raw[index..];
      if raw[index] != BACKSLASH {
        index := index + 1;
        continue;
      }
      index := index + 1;
      if index >= |raw| || raw[index] != LETTER_U {
        index := index + 1;
        continue;
      }
      if index + 4 >= |raw| {
        return false;
      }
      assert raw[index + 1..index + 5] == here[2..6];
      var value := ParseUnit(raw[index + 1..index + 5]);
      if value < 0 {
        return false;
      }
      index := index + 4;
      if value >= 0xDC00 && value <= 0xDFFF {
        return false;
      }
      if value < 0xD800 || value > 0xDBFF {
        index := index + 1;
        continue;
      }
      if index + 6 >= |raw| || raw[index + 1] != BACKSLASH || raw[index + 2] != LETTER_U {
        return false;
      }
      assert raw[index + 3..index + 7] == here[8..12];
      var low := ParseUnit(raw[index + 3..index + 7]);
      if low < 0xDC00 || low > 0xDFFF {
        return false;
      }
      index := index + 7;
    }
    return true;
  }

  // ---------- what it decides ----------

  /** A piece of text in which every backslash starts an escape: a character, an escape of one
      letter, or a code unit in four hexadecimal digits. */
  datatype Piece = Lit(c: char) | Short(c: char) | CodeUnit(digits: string)
  {
    ghost predicate WellFormed() {
      match this
      case Lit(c) => c != '\\'
      case Short(c) => c != 'u'
      case CodeUnit(digits) => |digits| == 4 && Unit(digits) >= 0
    }

    ghost function Spelling(): string {
      match this
      case Lit(c) => [c]
      case Short(c) => ['\\', c]
      case CodeUnit(digits) => "\\u" + digits
    }

    ghost predicate High() {
      CodeUnit? && |digits| == 4 && IsHigh(Unit(digits))
    }

    ghost predicate Low() {
      CodeUnit? && |digits| == 4 && IsLow(Unit(digits))
    }
  }

  ghost function Spell(pieces: seq<Piece>): string {
    if pieces == [] then "" else pieces[0].Spelling() + Spell(pieces[1..])
  }

  ghost predicate AllWellFormed(pieces: seq<Piece>) {
    forall i | 0 <= i < |pieces| :: pieces[i].WellFormed()
  }

  /** A high surrogate is followed at once by a low one, and a low one follows a high one. */
  ghost predicate PairedAt(pieces: seq<Piece>, i: nat)
    requires i < |pieces|
  {
    && (pieces[i].High() ==> i + 1 < |pieces| && pieces[i + 1].Low())
    && (pieces[i].Low() ==> 0 < i && pieces[i - 1].High())
  }

  ghost predicate Paired(pieces: seq<Piece>) {
    forall i | 0 <= i < |pieces| :: PairedAt(pieces, i)
  }

  lemma {:induction false} ScanSkips(b: seq<Byte>, rest: seq<Byte>)
    requires forall i | 0 <= i < |b| :: b[i] != BACKSLASH
    ensures Scan(b + rest) == Scan(rest)
  {
    if b == [] {
      assert b + rest == rest;
    } else {
      ScanSkips(b[1..], rest);
      assert (b + rest)[1..] == b[1..] + rest;
    }
  }

  lemma ScanShort(c: char, rest: seq<Byte>)
    requires c != 'u'
    ensures Scan([BACKSLASH] + EncodeChar(c) + rest) == Scan(rest)
  {
    var b := EncodeChar(c);
    var raw := [BACKSLASH] + b + rest;
    assert raw[1] == b[0] && raw[2..] == b[1..] + rest;
    ScanSkips(b[1..], rest);
  }

  lemma HexAscii(c: char)
    ensures HexValue(c) >= 0 ==> (c as int) < 0x80 && HexByte(c as int) == HexValue(c)
  {
  }

  lemma AsciiBytes(digits: string)
    requires |digits| == 4 && Unit(digits) >= 0
    ensures |Encode(digits)| == 4 && ParseUnit(Encode(digits)) == Unit(digits)
  {
    HexAscii(digits[0]);
    HexAscii(digits[1]);
    HexAscii(digits[2]);
    HexAscii(digits[3]);
    hide HexValue, HexByte;
    var b := [digits[0] as int, digits[1] as int, digits[2] as int, digits[3] as int];
    EncodeAscii(digits, 4);
    assert Encode(digits) == b;
  }

  lemma {:induction false} EncodeAscii(s: string, n: nat)
    requires |s| == n && forall i | 0 <= i < |s| :: (s[i] as int) < 0x80
    ensures |Encode(s)| == n && forall i | 0 <= i < n :: Encode(s)[i] == s[i] as int
  {
    if s != "" {
      EncodeAscii(s[1..], n - 1);
    }
  }

  /** The bytes of a code unit's spelling, and the unit they parse to. */
  lemma UnitBytes(p: Piece, rest: seq<Byte>)
    requires p.CodeUnit? && p.WellFormed()
    ensures var raw := Encode(p.Spelling()) + rest;
      && |raw| >= 6 && raw[0] == BACKSLASH && raw[1] == LETTER_U
      && ParseUnit(raw[2..6]) == Unit(p.digits) && raw[6..] == rest
  {
    AsciiBytes(p.digits);
    EncodeAppend("\\u", p.digits);
    EncodeAscii("\\u", 2);
    assert Encode("\\u") == [BACKSLASH, LETTER_U];
    var raw := Encode(p.Spelling()) + rest;
    assert raw == [BACKSLASH, LETTER_U] + Encode(p.digits) + rest;
    assert raw[2..6] == Encode(p.digits);
  }

  lemma PairedTail(pieces: seq<Piece>, n: nat)
    requires 0 < n <= |pieces| && !pieces[n - 1].High()
    ensures Paired(pieces) ==> Paired(pieces[n..])
    ensures Paired(pieces[n..]) ==> forall i | n <= i < |pieces| :: PairedAt(pieces, i)
  {
    var tail := pieces[n..];
    if Paired(pieces) {
      forall i | 0 <= i < |tail| ensures PairedAt(tail, i) {
        assert PairedAt(pieces, n + i);
      }
    }
    if Paired(tail) {
      forall i | n <= i < |pieces| ensures PairedAt(pieces, i) {
        assert PairedAt(tail, i - n);
      }
    }
  }

  lemma HighIsNotLow(p: Piece)
    ensures !(p.High() && p.Low())
  {
  }

  lemma PairedCons(pieces: seq<Piece>)
    requires pieces != []
    ensures pieces[0].Low() ==> !Paired(pieces)
    ensures !pieces[0].Low() && !pieces[0].High() ==> (Paired(pieces) <==> Paired(pieces[1..]))
    ensures pieces[0].High() ==> (Paired(pieces) <==> |pieces| > 1 && pieces[1].Low() && Paired(pieces[2..]))
  {
    assert Paired(pieces) ==> PairedAt(pieces, 0);
    if pieces[0].High() {
      HighIsNotLow(pieces[0]);
      if |pieces| > 1 && pieces[1].Low() {
        HighIsNotLow(pieces[1]);
        PairedTail(pieces, 2);
        assert PairedAt(pieces, 0) && PairedAt(pieces, 1);
      }
    } else if !pieces[0].Low() {
      PairedTail(pieces, 1);
      assert PairedAt(pieces, 0);
    }
  }

  lemma FirstByte(c: char)
    ensures EncodeChar(c)[0] == BACKSLASH <==> c == '\\'
    ensures EncodeChar(c)[0] == LETTER_U <==> c == 'u'
    ensures forall i | 1 <= i < |EncodeChar(c)| :: EncodeChar(c)[i] != BACKSLASH
  {
  }

  lemma SpellBytes(pieces: seq<Piece>)
    requires pieces != []
    ensures Encode(Spell(pieces)) == Encode(pieces[0].Spelling()) + Encode(Spell(pieces[1..]))
  {
    EncodeAppend(pieces[0].Spelling(), Spell(pieces[1..]));
  }

  lemma LitBytes(c: char)
    ensures Encode([c]) == EncodeChar(c)
    ensures Encode(['\\', c]) == [BACKSLASH] + EncodeChar(c)
  {
    assert [c][1..] == "" && ['\\', c][1..] == [c];
  }

  /** What follows a high surrogate decides: only a low surrogate passes. */
  lemma ScanAfterHigh(pieces: seq<Piece>)
    requires AllWellFormed(pieces)
    ensures var raw := Encode(Spell(pieces));
      (|raw| >= 6 && raw[0] == BACKSLASH && raw[1] == LETTER_U && IsLow(ParseUnit(raw[2..6])))
      <==> (pieces != [] && pieces[0].Low())
  {
    if pieces != [] {
      SpellBytes(pieces);
      match pieces[0]
      case Lit(c) => LitBytes(c); FirstByte(c);
      case Short(c) =>
        LitBytes(c);
        FirstByte(c);
        assert ([BACKSLASH] + EncodeChar(c) + Encode(Spell(pieces[1..])))[1] == EncodeChar(c)[0];
      case CodeUnit(digits) => UnitBytes(pieces[0], Encode(Spell(pieces[1..])));
    }
  }

  lemma ScanLit(c: char, rest: seq<Byte>)
    requires c != '\\'
    ensures Scan(Encode([c]) + rest) == Scan(rest)
  {
    LitBytes(c);
    FirstByte(c);
    ScanSkips(EncodeChar(c), rest);
  }

  /** One step of the scan over a code unit. */
  lemma ScanUnit(p: Piece, rest: seq<Byte>)
    requires p.CodeUnit? && p.WellFormed()
    ensures var low := |rest| >= 6 && rest[0] == BACKSLASH && rest[1] == LETTER_U && IsLow(ParseUnit(rest[2..6]));
      Scan(Encode(p.Spelling()) + rest) ==
        if p.Low() then false
        else if !p.High() then Scan(rest)
        else low && Scan(rest[6..])
  {
    UnitBytes(p, rest);
    var raw := Encode(p.Spelling()) + rest;
    if |rest| >= 6 {
      assert rest[2..6] == raw[8..12] && rest[0] == raw[6] && rest[1] == raw[7] && raw[12..] == rest[6..];
    }
  }

  /** On text in which every backslash starts an escape, the scan passes exactly when all
      surrogate escapes are paired. */
  lemma {:induction false} ScanDecides(pieces: seq<Piece>)
    requires AllWellFormed(pieces)
    ensures Scan(Encode(Spell(pieces))) <==> Paired(pieces)
    decreases |pieces|
  {
    if pieces != [] {
      var rest := Encode(Spell(pieces[1..]));
      SpellBytes(pieces);
      PairedCons(pieces);
      ScanDecides(pieces[1..]);
      match pieces[0]
      case Lit(c) => ScanLit(c, rest);
      case Short(c) =>
        LitBytes(c);
        ScanShort(c, rest);
      case CodeUnit(_) =>
        ScanUnit(pieces[0], rest);
        ScanAfterHigh(pieces[1..]);
        if |pieces| > 1 && pieces[1].Low() {
          SpellBytes(pieces[1..]);
          assert pieces[1..][1..] == pieces[2..];
          UnitBytes(pieces[1], Encode(Spell(pieces[2..])));
          ScanDecides(pieces[2..]);
        }
    }
  }

  // ---------- what the decoder makes of such text ----------

  /** The pieces of a string body. */
  ghost predicate InString(p: Piece) {
    match p
    case Lit(c) => c != '\\' && c != '"' && (c as int) >= 0x20
    case Short(c) => ShortEscape(c).Some?
    case CodeUnit(digits) => |digits| == 4 && Unit(digits) >= 0
  }

  ghost predicate Body(pieces: seq<Piece>) {
    forall i | 0 <= i < |pieces| :: InString(pieces[i])
  }

  /** The character of a piece that is not a surrogate. */
  ghost function CharOf(p: Piece): char
    requires InString(p) && !p.High() && !p.Low()
  {
    match p
    case Lit(c) => c
    case Short(c) => ShortEscape(c).value
    case CodeUnit(digits) => Unit(digits) as char
  }

  /** The exact reading of a string body: pairs are joined; None when a surrogate is unpaired. */
  ghost function Reading(pieces: seq<Piece>): Option<string>
    requires Body(pieces)
    decreases |pieces|
  {
    if pieces == [] then Some("")
    else
      assert InString(pieces[0]);
      if pieces[0].High() then
        if |pieces| == 1 || !pieces[1].Low() then None
        else Prepend(Pair(Unit(pieces[0].digits), Unit(pieces[1].digits)), Reading(pieces[2..]))
      else if pieces[0].Low() then None
      else Prepend(CharOf(pieces[0]), Reading(pieces[1..]))
  }

  ghost function Prepend(c: char, text: Option<string>): Option<string> {
    if text.None? then None else Some([c] + text.value)
  }

  lemma ReadPlainPiece(p: Piece, tail: string)
    requires InString(p) && !p.High() && !p.Low()
    ensures p.Spelling() != "" && p.Spelling()[0] != '"'
    ensures ReadChar(p.Spelling() + tail) == Some((CharOf(p), tail))
  {
    var s := p.Spelling() + tail;
    match p
    case Lit(c) => assert s[0] == c && s[1..] == tail;
    case Short(c) => assert s[0] == '\\' && s[1] == c && s[2..] == tail;
    case CodeUnit(digits) => UnitText(digits, tail);
  }

  lemma UnitText(digits: string, tail: string)
    requires |digits| == 4 && Unit(digits) >= 0
    ensures var s := "\\u" + digits + tail;
      s[0] == '\\' && s[1] == 'u' && LeadingUnit(s) == Unit(digits) && s[6..] == tail
  {
    var s := "\\u" + digits + tail;
    assert s[2..6] == digits;
  }

  /** A surrogate escape in front of `tail`: joined with a low surrogate, or replaced. */
  lemma ReadSurrogate(p: Piece, tail: string)
    requires InString(p) && (p.High() || p.Low())
    ensures var low := LeadingUnit(tail);
      ReadChar(p.Spelling() + tail) ==
        if p.High() && IsLow(low) then Some((Pair(Unit(p.digits), low), tail[6..])) else Some((REPLACEMENT, tail))
  {
    UnitText(p.digits, tail);
    var s := p.Spelling() + tail;
    if IsLow(LeadingUnit(tail)) {
      assert s[12..] == tail[6..];
    }
  }

  lemma NextUnit(pieces: seq<Piece>, end: string)
    requires Body(pieces) && end != "" && end[0] == '"'
    ensures IsLow(LeadingUnit(Spell(pieces) + end)) <==> pieces != [] && pieces[0].Low()
    ensures pieces != [] && pieces[0].Low() ==>
      var s := Spell(pieces) + end;
      LeadingUnit(s) == Unit(pieces[0].digits) && s[6..] == Spell(pieces[1..]) + end
  {
    if pieces == [] {
      assert Spell(pieces) + end == end;
    } else {
      var tail := Spell(pieces[1..]) + end;
      assert InString(pieces[0]);
      assert Spell(pieces) + end == pieces[0].Spelling() + tail;
      match pieces[0]
      case Lit(c) => assert (pieces[0].Spelling() + tail)[0] == c;
      case Short(c) => assert (pieces[0].Spelling() + tail)[1] == c;
      case CodeUnit(digits) => UnitText(digits, tail);
    }
  }

  lemma ReadStringStep(s: string)
    requires s != "" && s[0] != '"' && ReadChar(s).Some?
    ensures var (c, t) := ReadChar(s).value;
      ReadString(s) == match ReadString(t)
        case None => None
        case Some((text, rest)) => Some(([c] + text, rest))
  {
  }

  /** The decoder reads a string body exactly when all its surrogate escapes are paired;
      otherwise it silently puts U+FFFD into the text. */
  ghost predicate DecodesAs(pieces: seq<Piece>, rest: string)
    requires Body(pieces)
  {
    var read := ReadString(Spell(pieces) + ("\"" + rest));
    && (Reading(pieces).Some? <==> Paired(pieces))
    && read.Some? && read.value.1 == rest
    && (Paired(pieces) ==> read.value.0 == Reading(pieces).value)
    && (!Paired(pieces) ==> REPLACEMENT in read.value.0)
  }

  /** One character more: it is read exactly, or a surrogate is unpaired and replaced. */
  lemma DecodesOn(pieces: seq<Piece>, more: seq<Piece>, rest: string, c: char, exact: bool)
    requires Body(pieces) && Body(more) && DecodesAs(more, rest)
    requires Spell(pieces) != "" && Spell(pieces)[0] != '"'
    requires ReadChar(Spell(pieces) + ("\"" + rest)) == Some((c, Spell(more) + ("\"" + rest)))
    requires Paired(pieces) <==> exact && Paired(more)
    requires Reading(pieces) == if exact then Prepend(c, Reading(more)) else None
    requires !exact ==> c == REPLACEMENT
    ensures DecodesAs(pieces, rest)
  {
    hide Paired, Reading, Spell, ReadChar, ReadString, InString;
    var s := Spell(pieces) + ("\"" + rest);
    assert s[0] == Spell(pieces)[0];
    ReadStringStep(s);
    assert REPLACEMENT in [c] + ReadString(Spell(more) + ("\"" + rest)).value.0 || exact;
  }

  lemma DecodesPlain(pieces: seq<Piece>, rest: string)
    requires Body(pieces) && pieces != [] && !pieces[0].High() && !pieces[0].Low()
    requires DecodesAs(pieces[1..], rest)
    ensures DecodesAs(pieces, rest)
  {
    hide DecodesAs, ReadString, ReadChar, Paired, CharOf, ShortEscape, Unit;
    var p, tail := pieces[0], Spell(pieces[1..]) + ("\"" + rest);
    assert InString(p);
    assert Spell(pieces) + ("\"" + rest) == p.Spelling() + tail;
    ReadPlainPiece(p, tail);
    PairedCons(pieces);
    DecodesOn(pieces, pieces[1..], rest, CharOf(p), true);
  }

  lemma DecodesSurrogate(pieces: seq<Piece>, rest: string)
    requires Body(pieces) && pieces != [] && (pieces[0].High() || pieces[0].Low())
    requires DecodesAs(pieces[1..], rest)
    requires pieces[0].High() && |pieces| > 1 && pieces[1].Low() ==> DecodesAs(pieces[2..], rest)
    ensures DecodesAs(pieces, rest)
  {
    hide DecodesAs, ReadString, ReadChar, Paired, ShortEscape, Unit, LeadingUnit;
    var end := "\"" + rest;
    var p, tail := pieces[0], Spell(pieces[1..]) + end;
    assert InString(p);
    assert Spell(pieces) + end == p.Spelling() + tail;
    HighIsNotLow(p);
    ReadSurrogate(p, tail);
    NextUnit(pieces[1..], end);
    PairedCons(pieces);
    if p.High() && |pieces| > 1 && pieces[1].Low() {
      assert pieces[1..][1..] == pieces[2..];
      DecodesOn(pieces, pieces[2..], rest, Pair(Unit(p.digits), Unit(pieces[1].digits)), true);
    } else {
      DecodesOn(pieces, pieces[1..], rest, REPLACEMENT, false);
    }
  }

  lemma {:induction false} DecoderReadsPieces(pieces: seq<Piece>, rest: string)
    requires Body(pieces)
    ensures DecodesAs(pieces, rest)
    decreases |pieces|
  {
    if pieces == [] {
      assert Spell(pieces) + ("\"" + rest) == "\"" + rest;
      assert ("\"" + rest)[1..] == rest;
    } else {
      DecoderReadsPieces(pieces[1..], rest);
      if !pieces[0].High() && !pieces[0].Low() {
        DecodesPlain(pieces, rest);
      } else {
        if |pieces| > 1 {
          DecoderReadsPieces(pieces[2..], rest);
        }
        DecodesSurrogate(pieces, rest);
      }
    }
  }
}
