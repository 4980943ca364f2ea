/** Decimal digit strings and the natural numbers they denote. */
module Decimals {
  predicate IsDigit(c: char) {
    '0' <= c <= '9'
  }

  predicate AllDigits(s: string) {
    forall i | 0 <= i < |s| :: IsDigit(s[i])
  }

  predicate AllZeros(s: string) {
    forall i | 0 <= i < |s| :: s[i] == '0'
  }

  function DigitValue(c: char): (d: nat)
    requires IsDigit(c)
    ensures d < 10
  {
    c as int - '0' as int
  }

  function Pow10(k: nat): (p: nat)
    ensures p > 0
  {
    if k == 0 then 1 else 10 * Pow10(k - 1)
  }

  function Nat(s: string): nat
    requires AllDigits(s)
  {
    if s == [] then 0 else Nat(s[..|s| - 1]) * 10 + DigitValue(s[|s| - 1])
  }

  /** The shortest digit string of `n`, as Go's `strconv.FormatUint` writes it. */
  function Digits(n: nat): (s: string)
    ensures |s| > 0 && AllDigits(s)
    ensures s == "0" || s[0] != '0'
  {
    if n < 10 then [('0' as int + n) as char]
    else Digits(n / 10) + [('0' as int + n % 10) as char]
  }

  lemma {:induction false} NatDigits(n: nat)
    ensures Nat(Digits(n)) == n
  {
    var s := Digits(n);
    if n < 10 {
      assert s[..0] == [];
    } else {
      NatDigits(n / 10);
      assert s[..|s| - 1] == Digits(n / 10);
    }
  }

  /** A digit string without a leading zero is the one that is written for its number. */
  lemma {:induction false} DigitsNat(s: string)
    requires AllDigits(s) && s != "" && (s == "0" || s[0] != '0')
    ensures Digits(Nat(s)) == s
  {
    var front, last := s[..|s| - 1], s[|s| - 1];
    assert s == front + [last];
    if front == "" {
      assert Nat(s) == DigitValue(last);
    } else {
      DigitsNat(front);
      NatLeading(front);
      assert Nat(s) / 10 == Nat(front) && Nat(s) % 10 == DigitValue(last) && Nat(s) >= 10;
    }
  }

  lemma {:induction false} Pow10Add(a: nat, b: nat)
    ensures Pow10(a + b) == Pow10(a) * Pow10(b)
  {
    if a > 0 {
      Pow10Add(a - 1, b);
      assert Pow10(a) * Pow10(b) == 10 * (Pow10(a - 1) * Pow10(b));
    }
  }

  lemma {:induction false} Pow10Monotone(a: nat, b: nat)
    requires a <= b
    ensures Pow10(a) <= Pow10(b)
    decreases b - a
  {
    if a < b {
      Pow10Monotone(a + 1, b);
    }
  }

  lemma TimesTen(n: nat, k: nat)
    ensures n * Pow10(k + 1) == 10 * (n * Pow10(k))
  {
  }

  lemma {:induction false} NatAppend(a: string, b: string)
    requires AllDigits(a) && AllDigits(b)
    ensures AllDigits(a + b) && Nat(a + b) == Nat(a) * Pow10(|b|) + Nat(b)
  {
    if b == [] {
      assert a + b == a;
    } else {
      var front := b[..|b| - 1];
      NatAppend(a, front);
      assert (a + b)[..|a + b| - 1] == a + front;
      TimesTen(Nat(a), |front|);
    }
  }

  lemma {:induction false} NatBelow(s: string)
    requires AllDigits(s)
    ensures Nat(s) < Pow10(|s|)
  {
    if s != [] {
      NatBelow(s[..|s| - 1]);
    }
  }

  lemma {:induction false} NatZero(s: string)
    requires AllDigits(s)
    ensures Nat(s) == 0 <==> AllZeros(s)
  {
    if s != [] {
      var front := s[..|s| - 1];
      NatZero(front);
      assert s == front + [s[|s| - 1]];
    }
  }

  /** A digit string without leading zeros is at least the power of ten of its length. */
  lemma {:induction false} NatLeading(s: string)
    requires AllDigits(s) && s != [] && s[0] != '0'
    ensures Pow10(|s| - 1) <= Nat(s)
  {
    if |s| == 1 {
      assert s[..0] == [];
    } else {
      NatLeading(s[..|s| - 1]);
    }
  }

  /** Go's `strings.TrimLeft(s, "0")`. */
  function TrimZeros(s: string): (t: string)
    requires AllDigits(s)
    ensures AllDigits(t) && |t| <= |s|
    ensures t == [] || t[0] != '0'
    ensures Nat(t) == Nat(s)
  {
    if s != [] && s[0] == '0' then
      NatAppend(s[..1], s[1..]);
      assert s[..1] + s[1..] == s && s[..1][..0] == [];
      TrimZeros(s[1..])
    else s
  }

  function Zeros(k: nat): (s: string)
    ensures |s| == k && AllDigits(s) && AllZeros(s)
  {
    seq(k, i => '0')
  }

  lemma NatTimesPow10(s: string, k: nat)
    requires AllDigits(s)
    ensures Nat(s + Zeros(k)) == Nat(s) * Pow10(k)
  {
    NatAppend(s, Zeros(k));
    NatZero(Zeros(k));
  }
}
