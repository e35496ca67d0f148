/** Decimal numerals, and rounding down to a number of significant figures. */
module Decimal {

  function Pow10(k: nat): (r: nat)
    ensures r > 0
  {
    if k == 0 then 1 else 10 * Pow10(k - 1)
  }

  lemma {:induction false} Pow10Sum(a: nat, b: nat)
    ensures Pow10(a + b) == Pow10(a) * Pow10(b)
  {
    if a > 0 {
      Pow10Sum(a - 1, b);
    }
  }

  lemma {:induction false} Pow10Monotone(a: nat, b: nat)
    requires a <= b
    ensures Pow10(a) <= Pow10(b)
  {
    if a < b {
      Pow10Monotone(a, b - 1);
    }
  }

  /** `str(n)`, without the characters: how many digits it has. */
  function Digits(n: nat): (d: nat)
    ensures d >= 1
  {
    if n < 10 then 1 else 1 + Digits(n / 10)
  }

  lemma {:induction false} DigitsBound(n: nat)
    ensures n < Pow10(Digits(n))
    ensures n > 0 ==> Pow10(Digits(n) - 1) <= n
  {
    if n >= 10 {
      DigitsBound(n / 10);
    } else {
      assert Pow10(1) == 10 * Pow10(0);
    }
  }

  // ---- numerals -------------------------------------------------------------------------

  predicate IsDigit(c: char) {
    '0' <= c <= '9'
  }

  predicate AllDigits(s: string) {
    forall i :: 0 <= i < |s| ==> IsDigit(s[i])
  }

  /** `int(s)` */
  function Number(s: string): nat
    requires AllDigits(s)
  {
    if s == "" then 0 else 10 * Number(s[..|s| - 1]) + (s[|s| - 1] - '0') as nat
  }

  /** `str(n)` */
  function Numeral(n: nat): (s: string)
    ensures AllDigits(s) && |s| == Digits(n)
  {
    var last := ['0' + (n % 10) as char];
    if n < 10 then last else Numeral(n / 10) + last
  }

  lemma {:induction false} NumeralNumber(n: nat)
    ensures Number(Numeral(n)) == n
  {
    var s := Numeral(n);
    if n >= 10 {
      NumeralNumber(n / 10);
      assert s[..|s| - 1] == Numeral(n / 10);
    } else {
      assert s[..0] == "";
    }
  }

  // ---- significant figures -----------------------------------------------------------------

  function Scale(q: nat, f: nat): nat {
    q * f
  }

  /** `m` is written with `sig` figures followed by zeros. */
  ghost predicate HasFigures(m: nat, sig: nat) {
    exists c: nat, k: nat :: c < Pow10(sig) && m == Scale(c, Pow10(k))
  }

  /** The greatest multiple of `f` that is at most `n`. */
  function RoundDown(n: nat, f: nat): (r: nat)
    requires f > 0
    ensures r <= n < r + f
  {
    Scale(n / f, f)
  }

  lemma RoundDownIsGreatest(n: nat, f: nat, c: nat)
    requires f > 0 && c * f <= n
    ensures c * f <= RoundDown(n, f)
  {
    if c > n / f {
      MulMonotone(n / f + 1, c, f);
    }
  }

  /** `quantize_available_sat` */
  function Quantize(n: int, sig: nat): nat {
    if n <= 0 then 0
    else if Digits(n) <= sig then n
    else RoundDown(n, Pow10(Digits(n) - sig))
  }

  lemma MulMonotone(a: nat, b: nat, f: nat)
    requires a <= b
    ensures a * f <= b * f
  {
  }

  lemma MulStrict(a: nat, b: nat, f: nat)
    requires a < b && f > 0
    ensures a * f < b * f
  {
  }

  lemma Associate(a: nat, b: nat, c: nat)
    ensures a * (b * c) == (a * b) * c
  {
  }

  lemma Below(q: nat, p: nat, f: nat, n: nat)
    requires Scale(q, f) <= n < p * f
    ensures q < p
  {
    if q >= p {
      MulMonotone(p, q, f);
    }
  }

  lemma FewFigures(n: nat, sig: nat)
    requires n < Pow10(sig)
    ensures HasFigures(n, sig)
  {
    assert n == Scale(n, Pow10(0));
  }

  /** The result is at most the input and has `sig` figures. */
  lemma QuantizeRoundsDown(n: int, sig: nat)
    ensures 0 < n ==> Quantize(n, sig) <= n
    ensures HasFigures(Quantize(n, sig), sig)
  {
    if n <= 0 {
      FewFigures(0, sig);
    } else if Digits(n) <= sig {
      DigitsBound(n);
      Pow10Monotone(Digits(n), sig);
      FewFigures(n, sig);
    } else {
      RoundedHasFigures(n, sig, Digits(n) - sig);
    }
  }

  lemma RoundedHasFigures(n: nat, sig: nat, k: nat)
    requires Digits(n) == sig + k
    ensures HasFigures(RoundDown(n, Pow10(k)), sig)
  {
    DigitsBound(n);
    Pow10Sum(sig, k);
    hide Digits, Pow10, RoundDown, Scale;
    var q := RoundDownIs(n, Pow10(k));
    Below(q, Pow10(sig), Pow10(k), n);
  }

  lemma RoundDownIs(n: nat, f: nat) returns (q: nat)
    requires f > 0
    ensures RoundDown(n, f) == Scale(q, f)
  {
    q := n / f;
  }

  /** No number with `sig` figures lies between the result and the input: rounding down loses as
      little as it can. */
  lemma QuantizeIsGreatest(n: int, sig: nat, m: nat)
    requires HasFigures(m, sig) && m <= n
    ensures m <= Quantize(n, sig)
  {
    if n > 0 && Digits(n) > sig {
      var c: nat, k: nat :| c < Pow10(sig) && m == Scale(c, Pow10(k));
      var d := Digits(n) - sig;
      if k >= d {
        CoarserIsKept(n, c, k, d);
      } else if sig > 0 {
        FinerIsBelow(n, sig, c, k, d);
      }
    }
  }

  /** A multiple of a power of ten that is at least the unit survives rounding. */
  lemma CoarserIsKept(n: nat, c: nat, k: nat, d: nat)
    requires k >= d && Scale(c, Pow10(k)) <= n
    ensures Scale(c, Pow10(k)) <= RoundDown(n, Pow10(d))
  {
    hide Pow10, RoundDown;
    Pow10Sum(k - d, d);
    Associate(c, Pow10(k - d), Pow10(d));
    RoundDownIsGreatest(n, Pow10(d), c * Pow10(k - d));
  }

  /** With a smaller power of ten it is below the power of ten that the number reaches. */
  lemma FinerIsBelow(n: nat, sig: nat, c: nat, k: nat, d: nat)
    requires n > 0 && sig > 0 && k < d && Digits(n) == sig + d && c < Pow10(sig)
    ensures Scale(c, Pow10(k)) <= RoundDown(n, Pow10(d))
  {
    DigitsBound(n);
    hide Pow10, RoundDown, Digits;
    Pow10Sum(sig, k);
    MulMonotone(c, Pow10(sig), Pow10(k));
    Pow10Monotone(sig + k, sig + d - 1);
    Pow10Sum(sig - 1, d);
    assert sig - 1 + d == sig + d - 1;
    RoundDownIsGreatest(n, Pow10(d), Pow10(sig - 1));
  }

  lemma QuantizeMonotone(a: int, b: int, sig: nat)
    requires a <= b
    ensures Quantize(a, sig) <= Quantize(b, sig)
  {
    if a > 0 {
      QuantizeRoundsDown(a, sig);
      QuantizeIsGreatest(b, sig, Quantize(a, sig));
    }
  }

  lemma QuantizeIdempotent(n: int, sig: nat)
    ensures Quantize(Quantize(n, sig), sig) == Quantize(n, sig)
  {
    var q := Quantize(n, sig);
    QuantizeRoundsDown(n, sig);
    QuantizeIsGreatest(q, sig, q);
    QuantizeRoundsDown(q, sig);
  }

  /** Less than one unit of the last figure is lost; with two figures, less than a tenth. */
  lemma QuantizeLoss(n: int, sig: nat)
    requires n > 0 && sig > 0
    ensures (n - Quantize(n, sig)) * Pow10(sig - 1) < n
  {
    if Digits(n) > sig {
      LossBound(n, sig, Digits(n) - sig);
    }
  }

  lemma LossBound(n: nat, sig: nat, k: nat)
    requires n > 0 && sig > 0 && Digits(n) == sig + k
    ensures (n - RoundDown(n, Pow10(k))) * Pow10(sig - 1) < n
  {
    DigitsBound(n);
    hide Pow10, Digits;
    Pow10Sum(k, sig - 1);
    assert k + (sig - 1) == sig + k - 1;
    MulStrict(n - RoundDown(n, Pow10(k)), Pow10(k), Pow10(sig - 1));
  }
}
