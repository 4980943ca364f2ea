/** JSON number text (section 6 of RFC 8259) and its exact reduction to a safe integer. */
module Numbers {
  import opened Decimals
  import opened Wrappers

  const MAX_SAFE_INTEGER: int := 9007199254740991
  const MAX_EXPONENT: int := 100000

  datatype Exponent = Exponent(mark: char, sign: string, digits: string)
  {
    ghost predicate WellFormed() {
      && IsMark(mark)
      && |sign| <= 1 && (sign != "" ==> IsSign(sign[0]))
      && digits != "" && AllDigits(digits)
    }
  }

  predicate IsMark(c: char) {
    c == 'e' || c == 'E'
  }

  predicate IsSign(c: char) {
    c == '+' || c == '-'
  }

  /** The parts of a number's text. An absent fraction is "". */
  datatype Numeral = Numeral(negative: bool, whole: string, fraction: string, exponent: Option<Exponent>)
  {
    ghost predicate WellFormed() {
      && whole != "" && AllDigits(whole) && (whole == "0" || whole[0] != '0')
      && AllDigits(fraction)
      && (exponent.Some? ==>
            && exponent.value.WellFormed())
    }

    ghost function Text(): string {
      (if negative then "-" else "") + Unsigned()
    }

    ghost function Unsigned(): string {
      whole + (FractionText(fraction) + ExponentText(exponent))
    }

    ghost function ExponentValue(): int
      requires WellFormed()
    {
      if exponent.None? then 0
      else if exponent.value.sign == "-" then 0 - Nat(exponent.value.digits)
      else Nat(exponent.value.digits)
    }

    ghost function Joined(): (digits: string)
      requires WellFormed()
      ensures AllDigits(digits)
    {
      whole + fraction
    }

    ghost function Scale(): int
      requires WellFormed()
    {
      |fraction| - ExponentValue()
    }

    /** The rational `(-1)^negative * Nat(whole + fraction) / 10^(|fraction| - exponent)` is `n`. */
    ghost predicate Denotes(n: int)
      requires WellFormed()
    {
      Scaled(if negative then -n else n, Nat(Joined()), Scale())
    }

    /** The exponent is in range and the value is a safe integer that is not a negative zero. */
    ghost predicate SafeValue(n: int)
      requires WellFormed()
    {
      ExponentInRange() && SafeScaled(negative, Nat(Joined()), Scale(), n)
    }

    /** `r` is the safe integer of this number; Err when it has none. */
    ghost predicate NormalizesTo(r: Result<int>)
      requires WellFormed()
    {
      if ExponentInRange() then Settles(r, negative, Joined(), Scale()) else r.Err?
    }

    /** The exponent, if there is one, is within the range the SDK reads. */
    ghost predicate ExponentInRange()
      requires WellFormed()
    {
      -MAX_EXPONENT <= ExponentValue() <= MAX_EXPONENT
    }
  }

  /** `m == d / 10^scale`, written without division. */
  ghost predicate Scaled(m: int, d: nat, scale: int) {
    if scale > 0 then m * Pow10(scale) == d else m == d * Pow10(-scale)
  }

  /** The signed value is a safe integer and not a negative zero. */
  ghost predicate SafeScaled(negative: bool, d: nat, scale: int, n: int) {
    && Scaled(if negative then -n else n, d, scale)
    && -MAX_SAFE_INTEGER <= n <= MAX_SAFE_INTEGER
    && !(negative && n == 0)
  }

  /** `r` is the one integer that the signed, scaled digits denote exactly; Err when there is none. */
  ghost predicate Settles(r: Result<int>, negative: bool, joined: string, scale: int)
    requires AllDigits(joined)
  {
    forall n :: r == Ok(n) <==> SafeScaled(negative, Nat(joined), scale, n)
  }

  ghost function FractionText(fraction: string): string {
    if fraction == "" then "" else "." + fraction
  }

  ghost function ExponentText(exponent: Option<Exponent>): string {
    match exponent
    case None => ""
    case Some(e) => [e.mark] + (e.sign + e.digits)
  }

  // ---------- scanning ----------

  lemma Split(a: string, b: string)
    ensures (a + b)[..|a|] == a && (a + b)[|a|..] == b
  {
  }

  lemma Associate(a: string, b: string, c: string)
    ensures a + (b + c) == (a + b) + c
  {
  }

  lemma Join(a: string, b: string, c: string, d: string)
    ensures (a + (b + c)) + d == a + (b + (c + d))
  {
  }

  /** The number of digits `s` starts with. */
  function DigitRun(s: string): (n: nat)
    ensures n <= |s| && AllDigits(s[..n])
    ensures n == |s| || !IsDigit(s[n])
  {
    if s != "" && IsDigit(s[0]) then 1 + DigitRun(s[1..]) else 0
  }

  /** The characters that could continue a number. */
  predicate Stops(rest: string) {
    rest == "" || !(IsDigit(rest[0]) || rest[0] == '.' || IsMark(rest[0]) || IsSign(rest[0]))
  }

  lemma {:induction false} DigitRunOf(digits: string, rest: string)
    requires AllDigits(digits) && (rest == "" || !IsDigit(rest[0]))
    ensures DigitRun(digits + rest) == |digits|
  {
    if digits == "" {
      assert digits + rest == rest;
    } else {
      DigitRunOf(digits[1..], rest);
      assert (digits + rest)[1..] == digits[1..] + rest;
    }
  }

  function ScanFraction(s: string): (r: Option<(string, string)>)
    ensures r.Some? ==> AllDigits(r.value.0) && s == FractionText(r.value.0) + r.value.1
  {
    if s != "" && s[0] == '.' then
      var n := DigitRun(s[1..]);
      if n == 0 then None else
      assert s == "." + s[1..][..n] + s[1..][n..];
      Some((s[1..][..n], s[1..][n..]))
    else Some(("", s))
  }

  /** An exponent's sign and digits, after its mark. */
  function ScanSigned(t: string): (r: Option<(string, string, string)>)
    ensures r.Some? ==>
      var (sign, digits, rest) := r.value;
      && |sign| <= 1 && (sign != "" ==> IsSign(sign[0]))
      && digits != "" && AllDigits(digits) && t == sign + (digits + rest)
  {
    var sign := if t != "" && IsSign(t[0]) then [t[0]] else "";
    var u := t[|sign|..];
    var n := DigitRun(u);
    if n == 0 then None else
    assert u == u[..n] + u[n..];
    Some((sign, u[..n], u[n..]))
  }

  function ScanExponent(s: string): (r: Option<(Option<Exponent>, string)>)
    ensures r.Some? ==> s == ExponentText(r.value.0) + r.value.1
    ensures r.Some? && r.value.0.Some? ==> r.value.0.value.WellFormed()
  {
    if s != "" && IsMark(s[0]) then
      match ScanSigned(s[1..])
      case None => None
      case Some((sign, digits, rest)) =>
        Join([s[0]], sign, digits, rest);
        assert s == [s[0]] + s[1..];
        Some((Some(Exponent(s[0], sign, digits)), rest))
    else Some((None, s))
  }

  lemma UnsignedText(t: string, w: nat, number: Numeral, u: string, rest: string)
    requires w <= |t| && number.whole == t[..w]
    requires t[w..] == FractionText(number.fraction) + u && u == ExponentText(number.exponent) + rest
    ensures t == number.Unsigned() + rest
  {
    hide FractionText, ExponentText;
    Join(t[..w], FractionText(number.fraction), ExponentText(number.exponent), rest);
    assert t == t[..w] + t[w..];
  }

  lemma SignedText(s: string, number: Numeral, rest: string)
    requires if number.negative then s != "" && s[0] == '-' && s[1..] == number.Unsigned() + rest else s == number.Unsigned() + rest
    ensures s == number.Text() + rest
  {
    hide Numeral.Unsigned;
    var text := number.Unsigned();
    if number.negative {
      assert s == "-" + (text + rest) == "-" + text + rest;
    } else {
      assert "" + text == text;
    }
  }

  /** Go's number scanner after the sign: takes the longest prefix that can be a number and
      fails where the grammar requires a digit that is not there. */
  function ScanUnsigned(t: string, negative: bool): (r: Option<(Numeral, string)>)
    ensures r.Some? ==> r.value.0.WellFormed() && r.value.0.negative == negative
    ensures r.Some? ==> t == r.value.0.Unsigned() + r.value.1
  {
    var w := if t != "" && t[0] == '0' then 1 else DigitRun(t);
    if w == 0 then None
    else match ScanFraction(t[w..])
      case None => None
      case Some((fraction, u)) =>
        match ScanExponent(u)
        case None => None
        case Some((exponent, rest)) =>
          UnsignedText(t, w, Numeral(negative, t[..w], fraction, exponent), u, rest);
          Some((Numeral(negative, t[..w], fraction, exponent), rest))
  }

  function ScanNumber(s: string): (r: Option<(Numeral, string)>)
    ensures r.Some? ==> r.value.0.WellFormed() && s == r.value.0.Text() + r.value.1
    ensures r.Some? ==> |r.value.1| < |s|
  {
    if s != "" && s[0] == '-' then
      match ScanUnsigned(s[1..], true)
      case None => None
      case Some((number, rest)) =>
        SignedText(s, number, rest);
        Some((number, rest))
    else
      match ScanUnsigned(s, false)
      case None => None
      case Some((number, rest)) =>
        SignedText(s, number, rest);
        Some((number, rest))
  }

  /** The anchored pattern `jsonNumberPattern`. */
  function MatchNumber(text: string): (r: Option<Numeral>)
    ensures r.Some? ==> r.value.WellFormed() && r.value.Text() == text
  {
    match ScanNumber(text)
    case Some((number, "")) => Some(number)
    case _ => None
  }

  lemma ScanFractionOf(fraction: string, rest: string)
    requires AllDigits(fraction) && (rest == "" || (!IsDigit(rest[0]) && rest[0] != '.'))
    ensures ScanFraction(FractionText(fraction) + rest) == Some((fraction, rest))
  {
    var s := FractionText(fraction) + rest;
    if fraction == "" {
      assert s == rest;
    } else {
      Associate(".", fraction, rest);
      Split(".", fraction + rest);
      DigitRunOf(fraction, rest);
      Split(fraction, rest);
    }
  }

  lemma SignOf(sign: string, digits: string, rest: string)
    requires |sign| <= 1 && (sign != "" ==> IsSign(sign[0]))
    requires digits != "" && AllDigits(digits)
    ensures var t := sign + (digits + rest);
      t != "" && (if IsSign(t[0]) then [t[0]] else "") == sign && t[|sign|..] == digits + rest
  {
    var t := sign + (digits + rest);
    Split(sign, digits + rest);
    if sign == "" {
      assert t[0] == digits[0];
    } else {
      assert t[0] == sign[0] && sign == [sign[0]];
    }
  }

  lemma ScanExponentOf(exponent: Option<Exponent>, rest: string)
    requires exponent.Some? ==> exponent.value.WellFormed()
    requires Stops(rest)
    ensures ScanExponent(ExponentText(exponent) + rest) == Some((exponent, rest))
  {
    var s := ExponentText(exponent) + rest;
    if exponent.None? {
      assert s == rest;
    } else {
      var e := exponent.value;
      Join([e.mark], e.sign, e.digits, rest);
      Split([e.mark], e.sign + (e.digits + rest));
      assert s[0] == e.mark;
      SignOf(e.sign, e.digits, rest);
      DigitRunOf(e.digits, rest);
      Split(e.digits, rest);
    }
  }

  lemma ScanUnsignedOf(number: Numeral, rest: string)
    requires number.WellFormed() && Stops(rest)
    ensures ScanUnsigned(number.Unsigned() + rest, number.negative) == Some((number, rest))
  {
    var tail := ExponentText(number.exponent) + rest;
    var u := FractionText(number.fraction) + tail;
    var t := number.Unsigned() + rest;
    Join(number.whole, FractionText(number.fraction), ExponentText(number.exponent), rest);
    assert t == number.whole + u;
    assert u != "" ==> !IsDigit(u[0]);
    assert tail != "" ==> !IsDigit(tail[0]) && tail[0] != '.';
    DigitRunOf(number.whole, u);
    Split(number.whole, u);
    ScanFractionOf(number.fraction, tail);
    ScanExponentOf(number.exponent, rest);
  }

  lemma ScanAfterSign(negative: bool, unsigned: string, rest: string)
    requires unsigned != "" && unsigned[0] != '-'
    ensures var sign := if negative then "-" else "";
      ScanNumber(sign + unsigned + rest) == ScanUnsigned(unsigned + rest, negative)
  {
    if negative {
      assert ("-" + unsigned) + rest == "-" + (unsigned + rest);
      Split("-", unsigned + rest);
    } else {
      assert "" + unsigned == unsigned;
    }
  }

  /** The scanner reads back every number text that nothing continues. */
  lemma ScanNumberOf(number: Numeral, rest: string)
    requires number.WellFormed() && Stops(rest)
    ensures ScanNumber(number.Text() + rest) == Some((number, rest))
  {
    ScanUnsignedOf(number, rest);
    assert number.Unsigned()[0] == number.whole[0];
    ScanAfterSign(number.negative, number.Unsigned(), rest);
  }

  lemma MatchNumberOf(number: Numeral)
    requires number.WellFormed()
    ensures MatchNumber(number.Text()) == Some(number)
  {
    ScanNumberOf(number, "");
    assert number.Text() + "" == number.Text();
  }

  // ---------- the meaning of a number's text ----------

  /** `text` is a JSON number whose exact value is the safe integer `n`, not a negative zero. */
  ghost predicate Acceptable(text: string, n: int) {
    match MatchNumber(text)
    case None => false
    case Some(number) => number.SafeValue(n)
  }

  lemma ProductGap(d: int, p: nat)
    ensures d >= 1 ==> d * p >= p
    ensures d <= 0 ==> d * p <= 0
    ensures p > 0 && d < 0 ==> d * p < 0
  {
  }

  lemma MulCancel(a: int, b: int, p: nat)
    requires p > 0 && a * p == b * p
    ensures a == b
  {
    ProductGap(a - b, p);
    assert (a - b) * p == a * p - b * p;
  }

  /** A number's text denotes at most one integer. */
  lemma DenotesUnique(number: Numeral, m: int, n: int)
    requires number.WellFormed() && number.Denotes(m) && number.Denotes(n)
    ensures m == n
  {
    var scale := number.Scale();
    if scale > 0 {
      MulCancel(if number.negative then -m else m, if number.negative then -n else n, Pow10(scale));
    }
  }

  /** The safe integer that `text` denotes exactly; Err when there is none. */
  ghost function Normalized(text: string): Result<int> {
    if exists n :: Acceptable(text, n) then
      var n :| Acceptable(text, n);
      Ok(n)
    else Err
  }

  lemma NormalizedMeans(text: string, n: int)
    ensures Normalized(text) == Ok(n) <==> Acceptable(text, n)
  {
    if Acceptable(text, n) {
      forall m | Acceptable(text, m) ensures m == n {
        DenotesUnique(MatchNumber(text).value, m, n);
      }
    }
  }

  // ---------- cutting the text into its parts ----------

  /** Go's `strings.IndexAny`. */
  function IndexAny(s: string, marks: string): (i: int)
    ensures -1 <= i < |s|
    ensures i >= 0 ==> s[i] in marks
    ensures forall k | 0 <= k < (if i < 0 then |s| else i) :: s[k] !in marks
  {
    if s == "" then -1
    else if s[0] in marks then 0
    else
      var i := IndexAny(s[1..], marks);
      assert forall k | 0 < k < |s| :: s[k] == s[1..][k - 1];
      if i < 0 then -1 else i + 1
  }

  /** A signed digit string as a 64-bit integer; Err when it is out of range. */
  function BoundedInt(negative: bool, digits: string): Result<int>
    requires AllDigits(digits)
  {
    var n := if negative then 0 - Nat(digits) else Nat(digits);
    if -0x8000_0000_0000_0000 <= n < 0x8000_0000_0000_0000 then Ok(n) else Err
  }

  /** Go's `strconv.Atoi` on a 64-bit platform. */
  function Atoi(text: string): Result<int> {
    if text == "" then Err
    else
      var digits := if IsSign(text[0]) then text[1..] else text;
      if digits == "" || !AllDigits(digits) then Err else BoundedInt(text[0] == '-', digits)
  }

  lemma AtoiSigned(sign: string, digits: string)
    requires |sign| <= 1 && (sign != "" ==> IsSign(sign[0]))
    requires digits != "" && AllDigits(digits)
    ensures Atoi(sign + digits) == BoundedInt(sign == "-", digits)
  {
    if sign == "" {
      assert sign + digits == digits && !IsSign(digits[0]);
    } else {
      Split(sign, digits);
      assert sign == [sign[0]];
    }
  }

  lemma IndexAnyAt(s: string, marks: string, i: nat)
    requires i < |s| && s[i] in marks && forall k | 0 <= k < i :: s[k] !in marks
    ensures IndexAny(s, marks) == i
  {
  }

  lemma IndexAnyNone(s: string, marks: string)
    requires forall k | 0 <= k < |s| :: s[k] !in marks
    ensures IndexAny(s, marks) == -1
  {
  }

  /** Cutting the unsigned text at the exponent mark and at the point gives back its parts. */
  lemma PartsOf(number: Numeral)
    requires number.WellFormed()
    ensures var value := number.Unsigned();
      var mark := IndexAny(value, "eE");
      var mantissa := if mark >= 0 then value[..mark] else value;
      var point := IndexAny(mantissa, ".");
      && (mark >= 0 <==> number.exponent.Some?)
      && (mark >= 0 ==> value[mark + 1..] == number.exponent.value.sign + number.exponent.value.digits)
      && (if point >= 0 then mantissa[..point] else mantissa) == number.whole
      && (if point >= 0 then mantissa[point + 1..] else "") == number.fraction
  {
    var mantissa := number.whole + FractionText(number.fraction);
    var tail := ExponentText(number.exponent);
    assert number.Unsigned() == mantissa + tail;
    MarkOf(mantissa, number.exponent);
    PointOf(number.whole, number.fraction);
  }

  lemma MarkOf(mantissa: string, exponent: Option<Exponent>)
    requires forall k | 0 <= k < |mantissa| :: !IsMark(mantissa[k])
    requires exponent.Some? ==> exponent.value.WellFormed()
    ensures var value := mantissa + ExponentText(exponent);
      var mark := IndexAny(value, "eE");
      && (mark >= 0 <==> exponent.Some?)
      && (if mark >= 0 then value[..mark] else value) == mantissa
      && (mark >= 0 ==> value[mark + 1..] == exponent.value.sign + exponent.value.digits)
  {
    var value := mantissa + ExponentText(exponent);
    if exponent.None? {
      assert value == mantissa;
      IndexAnyNone(value, "eE");
    } else {
      var e := exponent.value;
      IndexAnyAt(value, "eE", |mantissa|);
      assert value == (mantissa + [e.mark]) + (e.sign + e.digits);
      Split(mantissa + [e.mark], e.sign + e.digits);
    }
  }

  lemma PointOf(whole: string, fraction: string)
    requires AllDigits(whole) && AllDigits(fraction)
    ensures var mantissa := whole + FractionText(fraction);
      var point := IndexAny(mantissa, ".");
      && (if point >= 0 then mantissa[..point] else mantissa) == whole
      && (if point >= 0 then mantissa[point + 1..] else "") == fraction
  {
    var mantissa := whole + FractionText(fraction);
    if fraction == "" {
      assert mantissa == whole;
      IndexAnyNone(mantissa, ".");
    } else {
      IndexAnyAt(mantissa, ".", |whole|);
    }
  }

  lemma AtoiOfExponent(number: Numeral)
    requires number.WellFormed() && number.exponent.Some?
    ensures var parsed := Atoi(number.exponent.value.sign + number.exponent.value.digits);
      if number.ExponentInRange() then parsed == Ok(number.ExponentValue())
      else parsed.Err? || parsed.value < -MAX_EXPONENT || parsed.value > MAX_EXPONENT
  {
    AtoiSigned(number.exponent.value.sign, number.exponent.value.digits);
  }

  /** No integer is left when digits that are not all zero would be cut off. */
  lemma CutOff(digits: string, scale: nat, m: int)
    requires AllDigits(digits) && digits != "" && digits[0] != '0' && scale > 0
    ensures var cut := |digits| - scale;
      Scaled(m, Nat(digits), scale) <==> cut > 0 && AllZeros(digits[cut..]) && m == Nat(digits[..cut])
  {
    var p, cut := Pow10(scale), |digits| - scale;
    if cut <= 0 {
      NatBelow(digits);
      Pow10Monotone(|digits|, scale);
      NatLeading(digits);
      NotMultiple(m, 0, Nat(digits), p);
    } else {
      var head, tail := digits[..cut], digits[cut..];
      assert head + tail == digits;
      NatAppend(head, tail);
      NatBelow(tail);
      NatZero(tail);
      if Nat(tail) > 0 {
        NotMultiple(m, Nat(head), Nat(tail), p);
      } else if m * p == Nat(digits) {
        MulCancel(m, Nat(head), p);
      }
    }
  }

  lemma CutOffAll(digits: string, scale: nat)
    requires AllDigits(digits) && digits != "" && digits[0] != '0' && scale > 0
    ensures var cut := |digits| - scale;
      forall m :: Scaled(m, Nat(digits), scale) <==> cut > 0 && AllZeros(digits[cut..]) && m == Nat(digits[..cut])
  {
    forall m ensures var cut := |digits| - scale;
      Scaled(m, Nat(digits), scale) <==> cut > 0 && AllZeros(digits[cut..]) && m == Nat(digits[..cut])
    {
      CutOff(digits, scale, m);
    }
  }

  lemma NotMultiple(m: int, q: int, r: int, p: nat)
    requires 0 < r < p
    ensures m * p != q * p + r
  {
    ProductGap(m - q, p);
    assert (m - q) * p == m * p - q * p;
  }

  lemma MulMonotone(a: int, b: int, p: nat)
    requires a <= b
    ensures a * p <= b * p
  {
    ProductGap(a - b, p);
    assert (a - b) * p == a * p - b * p;
  }

  /** Seventeen or more significant digits are not a safe integer. */
  lemma TooLong(digits: string, k: nat)
    requires AllDigits(digits) && digits != "" && digits[0] != '0' && |digits| + k > 16
    ensures Nat(digits) * Pow10(k) > MAX_SAFE_INTEGER
  {
    NatLeading(digits);
    Pow10Add(|digits| - 1, k);
    MulMonotone(Pow10(|digits| - 1), Nat(digits), Pow10(k));
    Pow10Monotone(16, |digits| - 1 + k);
    assert Pow10(4) == 10000;
    Pow10Add(4, 4);
    Pow10Add(8, 8);
  }

  // ---------- normalizeNumber ----------

  lemma SignOfText(number: Numeral)
    requires number.WellFormed()
    ensures var text := number.Text();
      && text != ""
      && (text[0] == '-' <==> number.negative)
      && (if text[0] == '-' then text[1..] else text) == number.Unsigned()
  {
    assert number.Unsigned()[0] == number.whole[0];
    if number.negative {
      Split("-", number.Unsigned());
    } else {
      assert "" + number.Unsigned() == number.Unsigned();
    }
  }

  lemma NormalizedOf(text: string, number: Numeral, r: Result<int>)
    requires MatchNumber(text) == Some(number) && number.NormalizesTo(r)
    ensures r == Normalized(text)
  {
    assert number.ExponentInRange() ==> forall n :: r == Ok(n) <==> number.SafeValue(n);
    if r.Ok? {
      NormalizedMeans(text, r.value);
    } else if number.ExponentInRange() {
      assert forall n :: !(r == Ok(n));
      assert forall n :: !number.SafeValue(n);
    }
  }

  lemma NormalizedNone(text: string)
    requires MatchNumber(text).None?
    ensures Normalized(text).Err?
  {
  }

  /** `normalizeNumber`. */
  method NormalizeNumber(text: string) returns (r: Result<int>)
    ensures r == Normalized(text)
  {
    var matched := MatchNumber(text);
    if matched.None? {
      NormalizedNone(text);
      return Err;
    }
    r := NormalizeMatched(text, matched.value);
    NormalizedOf(text, matched.value, r);
  }

  /** `normalizeNumber` on text that matches the number pattern. */
  method NormalizeMatched(text: string, ghost number: Numeral) returns (r: Result<int>)
    requires number.WellFormed() && text == number.Text()
    ensures number.NormalizesTo(r)
  {
    var negative, value := CutSign(text, number);
    var exponent, whole, fraction := CutNumber(value, number);
    if exponent.Err? {
      return Err;
    }
    assert whole + fraction == number.Joined();
    r := ScaleDigits(negative, whole + fraction, |fraction| - exponent.value);
  }

  method CutSign(text: string, ghost number: Numeral) returns (negative: bool, value: string)
    requires number.WellFormed() && text == number.Text()
    ensures negative == number.negative && value == number.Unsigned()
  {
    SignOfText(number);
    negative, value := text[0] == '-', text;
    if negative {
      value := value[1..];
    }
  }

  lemma NoExponent(number: Numeral)
    requires number.WellFormed()
    ensures number.exponent.None? ==> number.ExponentInRange() && number.ExponentValue() == 0
  {
  }

  /** `normalizeNumber` up to the exponent and the decimal point. */
  method CutNumber(value: string, ghost number: Numeral) returns (exponent: Result<int>, whole: string, fraction: string)
    requires number.WellFormed() && value == number.Unsigned()
    ensures exponent == if number.ExponentInRange() then Ok(number.ExponentValue()) else Err
    ensures exponent.Ok? ==> whole == number.whole && fraction == number.fraction
  {
    hide Numeral.Unsigned, Numeral.WellFormed, Numeral.ExponentValue, IndexAny, Atoi;
    PartsOf(number);
    NoExponent(number);
    whole, fraction := "", "";
    var mantissa, exponentText, hasExponent := value, "0", false;
    var mark := IndexAny(value, "eE");
    if mark >= 0 {
      mantissa, exponentText, hasExponent := value[..mark], value[mark + 1..], true;
    }
    exponent := Ok(0);
    if hasExponent {
      AtoiOfExponent(number);
      exponent := Atoi(exponentText);
      if exponent.Err? || exponent.value < -MAX_EXPONENT || exponent.value > MAX_EXPONENT {
        return Err, "", "";
      }
    }
    whole := mantissa;
    var point := IndexAny(mantissa, ".");
    if point >= 0 {
      whole, fraction := mantissa[..point], mantissa[point + 1..];
    }
  }

  /** `normalizeNumber` from the joined digits on: exact scaling by a power of ten. */
  method ScaleDigits(negative: bool, joined: string, scale: int) returns (r: Result<int>)
    requires AllDigits(joined)
    ensures Settles(r, negative, joined, scale)
  {
    var digits := TrimZeros(joined);
    if digits == "" {
      assert forall n :: SafeScaled(negative, 0, scale, n) ==> n == 0 by {
        forall n | SafeScaled(negative, 0, scale, n) ensures n == 0 {
          ProductGap(n, Pow10(if scale > 0 then scale else 0));
        }
      }
      return if negative then Err else Ok(0);
    }
    if scale > 0 {
      CutOffAll(digits, scale);
      var cut := |digits| - scale;
      if cut <= 0 {
        return Err;
      }
      for k := cut to |digits|
        invariant forall j | cut <= j < k :: digits[j] == '0'
      {
        if digits[k] != '0' {
          assert digits[cut..][k - cut] == digits[k];
          return Err;
        }
      }
      digits := TrimZeros(digits[..cut]);
      // The leading digit is not zero, so the source's second emptiness test never succeeds.
      assert digits != "";
    } else if -scale > 16 - |digits| {
      TooLong(digits, -scale);
      return Err;
    } else {
      NatTimesPow10(digits, -scale);
      digits := digits + Zeros(-scale);
    }
    assert digits[0] != '0';
    assert forall m :: Scaled(m, Nat(joined), scale) <==> m == Nat(digits);
    r := SignedSafe(negative, digits);
  }

  /** The bound checks and the sign at the end of `normalizeNumber`. */
  method SignedSafe(negative: bool, digits: string) returns (r: Result<int>)
    requires AllDigits(digits) && digits != "" && digits[0] != '0'
    ensures r == if Nat(digits) > MAX_SAFE_INTEGER then Err else Ok(if negative then 0 - Nat(digits) else Nat(digits))
    ensures Nat(digits) > 0
  {
    NatLeading(digits);
    if |digits| > 16 {
      TooLong(digits, 0);
      return Err;
    }
    var parsed := Nat(digits);
    if parsed > MAX_SAFE_INTEGER {
      return Err;
    }
    return Ok(if negative then 0 - parsed else parsed);
  }

  /** Go's `strconv.FormatInt(n, 10)`. */
  function FormatInt(n: int): (s: string)
    ensures s != "" && (s[0] == '-' || IsDigit(s[0]))
  {
    if n < 0 then "-" + Digits(-n) else Digits(n)
  }

  ghost function IntNumeral(n: int): Numeral {
    Numeral(n < 0, Digits(if n < 0 then -n else n), "", None)
  }

  lemma FormatIntScans(n: int, rest: string)
    requires Stops(rest)
    ensures ScanNumber(FormatInt(n) + rest) == Some((IntNumeral(n), rest))
  {
    assert IntNumeral(n).Text() == FormatInt(n);
    ScanNumberOf(IntNumeral(n), rest);
  }

  /** Every safe integer survives formatting and exact normalization. */
  lemma FormatIntNormalizes(n: int)
    requires -MAX_SAFE_INTEGER <= n <= MAX_SAFE_INTEGER
    ensures Normalized(FormatInt(n)) == Ok(n)
  {
    var number := IntNumeral(n);
    FormatIntScans(n, "");
    assert FormatInt(n) + "" == FormatInt(n);
    assert MatchNumber(FormatInt(n)) == Some(number);
    assert number.Joined() == number.whole;
    NatDigits(if n < 0 then -n else n);
    assert Pow10(0) == 1;
    assert number.SafeValue(n);
    NormalizedMeans(FormatInt(n), n);
  }
}
