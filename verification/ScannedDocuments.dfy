/** Every document that the strict decoder accepts is text in which each backslash starts an escape, so
    the surrogate scan decides all of them: it lets pass exactly the documents whose text the decoder
    does not change. */
module ScannedDocuments {
  import opened ExactReader
  import opened GoValues
  import opened Numbers
  import opened Parser
  import opened SurrogateScanner
  import opened Wrappers
  import D = Decoder
  import U = Utf8

  /** `s` is some well-formed pieces followed by `rest`. */
  ghost predicate Spells(s: string, rest: string) {
    exists pieces :: SpelledBy(pieces, s, rest)
  }

  lemma {:induction false} SpellAppend(a: seq<Piece>, b: seq<Piece>)
    ensures Spell(a + b) == Spell(a) + Spell(b)
  {
    hide Piece.Spelling;
    if a == [] {
      assert a + b == b;
      assert "" + Spell(b) == Spell(b);
    } else {
      SpellAppend(a[1..], b);
      assert (a + b)[1..] == a[1..] + b && (a + b)[0] == a[0];
      Associate(a[0].Spelling(), Spell(a[1..]), Spell(b));
    }
  }

  lemma SpellsNothing(s: string)
    ensures Spells(s, s)
  {
    assert SpelledBy([], s, s);
  }

  ghost predicate SpelledBy(pieces: seq<Piece>, s: string, rest: string) {
    AllWellFormed(pieces) && s == Spell(pieces) + rest
  }

  lemma SpellsThen(a: string, b: string, c: string)
    requires Spells(a, b) && Spells(b, c)
    ensures Spells(a, c)
  {
    var p :| SpelledBy(p, a, b);
    var q :| SpelledBy(q, b, c);
    SpellAppend(p, q);
    Associate(Spell(p), Spell(q), c);
    assert SpelledBy(p + q, a, c);
  }

  lemma SpellsPiece(p: Piece, rest: string)
    requires p.WellFormed()
    ensures Spells(p.Spelling() + rest, rest)
  {
    assert Spell([p][1..]) == "";
    assert SpelledBy([p], p.Spelling() + rest, rest);
  }

  ghost predicate Passes(s: string) {
    Scan(U.Encode(s))
  }

  /** From `s` to `rest` there are well-formed pieces, and the scan goes through them exactly if
      `exact` holds. */
  ghost predicate Goes(s: string, rest: string, exact: bool) {
    Spells(s, rest) && (Passes(s) <==> exact && Passes(rest))
  }

  lemma GoesThen(a: string, b: string, c: string, first: bool, second: bool)
    requires Goes(a, b, first) && Goes(b, c, second)
    ensures Goes(a, c, first && second)
  {
    hide Spells;
    SpellsThen(a, b, c);
  }

  lemma GoesNothing(s: string)
    ensures Goes(s, s, true)
  {
    SpellsNothing(s);
  }

  lemma GoesChar(s: string)
    requires s != "" && s[0] != '\\'
    ensures Goes(s, s[1..], true)
  {
    hide Scan;
    assert s == Lit(s[0]).Spelling() + s[1..];
    SpellsPiece(Lit(s[0]), s[1..]);
    U.EncodeAppend([s[0]], s[1..]);
    ScanLit(s[0], U.Encode(s[1..]));
  }

  lemma {:induction false} GoesPlain(s: string, n: nat)
    requires n <= |s| && forall i | 0 <= i < n :: s[i] != '\\'
    ensures Goes(s, s[n..], true)
  {
    hide Goes;
    if n == 0 {
      GoesNothing(s);
    } else {
      GoesChar(s);
      GoesPlain(s[1..], n - 1);
      assert s[1..][n - 1..] == s[n..];
      GoesThen(s, s[1..], s[n..], true, true);
    }
  }

  lemma {:induction false} GoesSpace(s: string)
    ensures Goes(s, SkipSpace(s), true)
  {
    hide Goes;
    if s != "" && IsSpace(s[0]) {
      GoesChar(s);
      GoesSpace(s[1..]);
      GoesThen(s, s[1..], SkipSpace(s), true, true);
    } else {
      GoesNothing(s);
    }
  }

  lemma GoesShort(s: string)
    requires |s| >= 2 && s[0] == '\\' && s[1] != 'u'
    ensures Goes(s, s[2..], true)
  {
    hide Scan;
    assert s == Short(s[1]).Spelling() + s[2..];
    SpellsPiece(Short(s[1]), s[2..]);
    U.EncodeAppend(['\\', s[1]], s[2..]);
    LitBytes(s[1]);
    ScanShort(s[1], U.Encode(s[2..]));
  }

  // ---------- code units ----------

  /** The text that starts with bytes below 0x80. */
  lemma {:induction false} AsciiText(s: string, n: nat)
    requires n <= |U.Encode(s)| && forall i | 0 <= i < n :: U.Encode(s)[i] < 0x80
    ensures n <= |s| && U.Encode(s)[n..] == U.Encode(s[n..])
    ensures forall i | 0 <= i < n :: s[i] as int == U.Encode(s)[i]
  {
    if n > 0 {
      var b := U.Encode(s);
      assert b[0] == U.EncodeChar(s[0])[0];
      assert U.Encode(s[1..]) == b[1..];
      AsciiText(s[1..], n - 1);
      assert s[1..][n - 1..] == s[n..] && b[1..][n - 1..] == b[n..];
      forall i | 0 <= i < n ensures s[i] as int == b[i] {
        if i > 0 {
          assert s[i] == s[1..][i - 1] && b[i] == b[1..][i - 1];
        }
      }
    }
  }

  /** The bytes start with the escape of a low surrogate. */
  ghost predicate LowFirst(raw: seq<U.Byte>) {
    |raw| >= 6 && raw[0] == BACKSLASH && raw[1] == LETTER_U && IsLow(ParseUnit(raw[2..6]))
  }

  lemma LowIsAscii(raw: seq<U.Byte>)
    requires LowFirst(raw)
    ensures forall i | 0 <= i < 6 :: raw[i] < 0x80
  {
    assert forall i | 2 <= i < 6 :: raw[i] == raw[2..6][i - 2];
  }

  lemma LowText(s: string)
    requires LowFirst(U.Encode(s))
    ensures IsLow(LeadingUnit(s))
  {
    var raw := U.Encode(s);
    LowIsAscii(raw);
    AsciiText(s, 6);
    var digits, bytes := s[2..6], raw[2..6];
    assert forall i | 0 <= i < 4 :: digits[i] == s[2 + i] && bytes[i] == raw[2 + i];
    assert forall i | 0 <= i < 4 :: HexValue(digits[i]) == HexByte(bytes[i]);
    hide U.Encode, HexValue, HexByte;
    assert Unit(digits) == ParseUnit(bytes);
  }

  lemma LowBytes(s: string)
    ensures LowFirst(U.Encode(s)) <==> IsLow(LeadingUnit(s))
    ensures IsLow(LeadingUnit(s)) ==> U.Encode(s)[6..] == U.Encode(s[6..])
  {
    if IsLow(LeadingUnit(s)) {
      UnitAhead(s);
    } else if LowFirst(U.Encode(s)) {
      LowText(s);
    }
  }

  lemma UnitAhead(s: string)
    requires LeadingUnit(s) >= 0
    ensures CodeUnit(s[2..6]).WellFormed() && s == CodeUnit(s[2..6]).Spelling() + s[6..]
    ensures U.Encode(s) == U.Encode(CodeUnit(s[2..6]).Spelling()) + U.Encode(s[6..])
    ensures var raw := U.Encode(s);
      |raw| >= 6 && raw[0] == BACKSLASH && raw[1] == LETTER_U && ParseUnit(raw[2..6]) == LeadingUnit(s)
      && raw[6..] == U.Encode(s[6..])
  {
    var p := CodeUnit(s[2..6]);
    assert s == p.Spelling() + s[6..];
    U.EncodeAppend(p.Spelling(), s[6..]);
    UnitBytes(p, U.Encode(s[6..]));
  }

  /** One step of the scan over a code unit, on text. */
  lemma PassesUnit(s: string)
    requires LeadingUnit(s) >= 0
    ensures Passes(s) <==>
      var u := LeadingUnit(s);
      if IsHigh(u) then IsLow(LeadingUnit(s[6..])) && Passes(s[12..]) else !IsLow(u) && Passes(s[6..])
  {
    var t := s[6..];
    UnitAhead(s);
    ScanUnit(CodeUnit(s[2..6]), U.Encode(t));
    LowBytes(t);
    if IsLow(LeadingUnit(t)) {
      assert t[6..] == s[12..];
    }
  }

  lemma SpellsUnit(s: string)
    requires LeadingUnit(s) >= 0
    ensures Spells(s, s[6..])
  {
    UnitAhead(s);
    SpellsPiece(CodeUnit(s[2..6]), s[6..]);
  }

  lemma GoesUnit(s: string)
    requires LeadingUnit(s) >= 0
    ensures ReadChar(s).Some? && Goes(s, ReadChar(s).value.1, !Unpaired(s))
  {
    SpellsUnit(s);
    hide Spells, Passes;
    PassesUnit(s);
    var t := s[6..];
    if IsHigh(LeadingUnit(s)) && IsLow(LeadingUnit(t)) {
      SpellsUnit(t);
      assert t[6..] == s[12..];
      SpellsThen(s, t, s[12..]);
    }
  }

  lemma GoesReadChar(s: string)
    requires ReadChar(s).Some?
    ensures Goes(s, ReadChar(s).value.1, ExactChar(s).Some?)
  {
    hide Goes;
    if s[0] != '\\' {
      GoesChar(s);
    } else if s[1] != 'u' {
      GoesShort(s);
    } else {
      GoesUnit(s);
    }
  }

  // ---------- the readers ----------

  lemma {:induction false} GoesReadString(s: string)
    requires ReadString(s).Some?
    ensures Goes(s, ReadString(s).value.1, ExactString(s).Some?)
    decreases |s|
  {
    hide Goes, ReadChar;
    if s != "" && s[0] == '"' {
      GoesChar(s);
    } else {
      var t := ReadChar(s).value.1;
      GoesReadChar(s);
      GoesReadString(t);
      GoesThen(s, t, ReadString(t).value.1, ExactChar(s).Some?, ExactString(t).Some?);
    }
  }

  ghost predicate NoBackslash(s: string) {
    forall i | 0 <= i < |s| :: s[i] != '\\'
  }

  lemma NoBackslashJoin(a: string, b: string)
    requires NoBackslash(a) && NoBackslash(b)
    ensures NoBackslash(a + b)
  {
  }

  lemma NumberIsPlain(number: Numeral)
    requires number.WellFormed()
    ensures NoBackslash(number.Text())
  {
    var fraction, exponent := FractionText(number.fraction), ExponentText(number.exponent);
    assert NoBackslash(fraction) && NoBackslash(number.whole);
    if number.exponent.Some? {
      var e := number.exponent.value;
      NoBackslashJoin(e.sign, e.digits);
      NoBackslashJoin([e.mark], e.sign + e.digits);
    }
    NoBackslashJoin(fraction, exponent);
    NoBackslashJoin(number.whole, fraction + exponent);
    NoBackslashJoin(if number.negative then "-" else "", number.Unsigned());
  }

  lemma GoesReadScalar(s: string)
    requires ReadScalar(s).Some?
    ensures Goes(s, ReadScalar(s).value.1, ExactScalar(s).Some?)
  {
    hide Goes;
    var rest := ReadScalar(s).value.1;
    if s[0] == '"' {
      GoesChar(s);
      GoesReadString(s[1..]);
      GoesThen(s, s[1..], rest, true, ExactString(s[1..]).Some?);
    } else if s[0] == 't' || s[0] == 'n' {
      GoesPlain(s, 4);
    } else if s[0] == 'f' {
      GoesPlain(s, 5);
    } else {
      var number := ScanNumber(s).value.0;
      NumberIsPlain(number);
      var n := |number.Text()|;
      assert forall i | 0 <= i < n :: s[i] == number.Text()[i];
      assert s[n..] == rest;
      GoesPlain(s, n);
    }
  }

  /** Skips space and one structural character. */
  lemma GoesToken(s: string)
    requires SkipSpace(s) != "" && SkipSpace(s)[0] != '\\'
    ensures Goes(s, SkipSpace(s)[1..], true)
  {
    hide Goes;
    GoesSpace(s);
    GoesChar(SkipSpace(s));
    GoesThen(s, SkipSpace(s), SkipSpace(s)[1..], true, true);
  }

  lemma {:induction false} GoesReadValue(s: string)
    requires ReadValue(s).Some?
    ensures Goes(s, ReadValue(s).value.1, ExactValue(s).Some?)
    decreases |s|, 1
  {
    hide Goes, ReadScalar;
    var t, rest := SkipSpace(s), ReadValue(s).value.1;
    if t[0] == '[' {
      GoesToken(s);
      GoesReadItems(t[1..], true);
      GoesThen(s, t[1..], rest, true, ExactItems(t[1..], true).Some?);
    } else if t[0] == '{' {
      GoesToken(s);
      GoesReadMembers(t[1..], true, map[]);
      GoesThen(s, t[1..], rest, true, ExactMembers(t[1..], true, map[]).Some?);
    } else {
      GoesSpace(s);
      GoesReadScalar(t);
      GoesThen(s, t, rest, true, ExactScalar(t).Some?);
    }
  }

  /** The separator in front of an item or a member. */
  lemma GoesSeparator(s: string, first: bool)
    requires SkipSpace(s) != "" && (first || SkipSpace(s)[0] == ',')
    ensures Goes(s, if first then SkipSpace(s) else SkipSpace(s)[1..], true)
  {
    hide Goes;
    if first {
      GoesSpace(s);
    } else {
      GoesToken(s);
    }
  }

  lemma {:induction false} GoesReadItems(s: string, first: bool)
    requires ReadItems(s, first).Some?
    ensures Goes(s, ReadItems(s, first).value.1, ExactItems(s, first).Some?)
    decreases |s|, 2
  {
    hide Goes, ReadValue;
    var t, rest := SkipSpace(s), ReadItems(s, first).value.1;
    if t[0] == ']' {
      GoesToken(s);
    } else {
      var u := if first then t else t[1..];
      var v := ReadValue(u).value.1;
      GoesSeparator(s, first);
      GoesReadValue(u);
      GoesReadItems(v, false);
      GoesThen(s, u, v, true, ExactValue(u).Some?);
      GoesThen(s, v, rest, ExactValue(u).Some?, ExactItems(v, false).Some?);
    }
  }

  lemma GoesReadMember(s: string)
    requires ReadMember(s).Some?
    ensures Goes(s, ReadMember(s).value.2, ExactMember(s).Some?)
    decreases |s|, 2
  {
    hide Goes, ReadValue, ReadString;
    var t := SkipSpace(s);
    var u := ReadString(t[1..]).value.1;
    var v := SkipSpace(u)[1..];
    var key, value := ExactString(t[1..]).Some?, ExactValue(v).Some?;
    GoesToken(s);
    GoesReadString(t[1..]);
    GoesToken(u);
    GoesReadValue(v);
    GoesThen(s, t[1..], u, true, key);
    GoesThen(s, u, v, key, true);
    GoesThen(s, v, ReadMember(s).value.2, key, value);
  }

  lemma {:induction false} GoesReadMembers(s: string, first: bool, seen: map<GoString, Value>)
    requires ReadMembers(s, first, seen).Some?
    ensures Goes(s, ReadMembers(s, first, seen).value.1, ExactMembers(s, first, seen).Some?)
    decreases |s|, 3
  {
    hide Goes, ReadMember;
    var t, rest := SkipSpace(s), ReadMembers(s, first, seen).value.1;
    if t[0] == '}' {
      GoesToken(s);
    } else {
      var u := if first then t else t[1..];
      var (key, value, v) := ReadMember(u).value;
      var more := seen[Text(key) := value];
      GoesSeparator(s, first);
      GoesReadMember(u);
      GoesReadMembers(v, false, more);
      GoesThen(s, u, v, true, ExactMember(u).Some?);
      GoesThen(s, v, rest, ExactMember(u).Some?, ExactMembers(v, false, more).Some?);
    }
  }

  // ---------- documents ----------

  /** The whole document, from its text to its end. */
  lemma GoesDocument(data: seq<U.Byte>)
    requires D.StrictLoads(data).Ok?
    ensures var text := U.Decode(data).value;
      U.Encode(text) == data && Goes(text, "", ExactValue(text).Some?)
  {
    var text := U.Decode(data).value;
    var rest := ReadValue(text).value.1;
    U.EncodeDecode(data);
    hide Goes;
    GoesReadValue(text);
    GoesSpace(rest);
    GoesThen(text, rest, "", ExactValue(text).Some?, true);
  }

  /** For every document that `strictJSONLoads` accepts, the scan passes exactly when every
      surrogate escape in it is paired. */
  lemma ScanDecidesDocuments(data: seq<U.Byte>)
    requires D.StrictLoads(data).Ok?
    ensures exists pieces ::
      AllWellFormed(pieces) && U.Encode(Spell(pieces)) == data && (Scan(data) <==> Paired(pieces))
  {
    GoesDocument(data);
    var text := U.Decode(data).value;
    var pieces :| SpelledBy(pieces, text, "");
    assert text == Spell(pieces);
    ScanDecides(pieces);
  }

  /** Text is never silently rewritten: for all bytes, decoding behind the scan gives exactly what the
      reader gives that refuses unpaired surrogates, the same value or an error. */
  lemma ScannedLoadsAreExact(data: seq<U.Byte>)
    ensures ExactLoads(data) == if Scan(data) then D.StrictLoads(data) else Err
  {
    hide ReadValue, ExactValue, SkipSpace;
    if D.StrictLoads(data).Ok? {
      GoesDocument(data);
    }
  }
}
