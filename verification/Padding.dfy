/** The padded length of NIP-44 version 2 (clink/nip44.py `_calc_padded_len`). */
module Padding {

  function Pow2(k: nat): (p: nat)
    ensures p >= 1
  {
    if k == 0 then 1 else 2 * Pow2(k - 1)
  }

  /** `n.bit_length()` */
  function BitLength(n: nat): nat {
    if n == 0 then 0 else 1 + BitLength(n / 2)
  }

  /** `1 << (n - 1).bit_length()` */
  function NextPower(n: nat): nat
    requires n >= 1
  {
    Pow2(BitLength(n - 1))
  }

  function Chunk(n: nat): (c: nat)
    requires n >= 1
    ensures c >= 1
  {
    var p := NextPower(n);
    if p <= 256 then 32 else p / 8
  }

  /** `_calc_padded_len` */
  function PaddedLen(n: nat): nat {
    if n <= 32 then 32 else Chunk(n) * ((n - 1) / Chunk(n) + 1)
  }

  // ---- powers of two ---------------------------------------------------------------

  lemma {:induction false} BitLengthBounds(n: nat)
    ensures n < Pow2(BitLength(n)) && (n > 0 ==> Pow2(BitLength(n) - 1) <= n)
  {
    if n > 0 {
      BitLengthBounds(n / 2);
      if n / 2 > 0 { assert Pow2(BitLength(n / 2)) == 2 * Pow2(BitLength(n / 2) - 1); }
    }
  }

  lemma {:induction false} Pow2Grows(i: nat, j: nat)
    requires i < j
    ensures 2 * Pow2(i) <= Pow2(j)
  {
    if i + 1 < j { Pow2Grows(i, j - 1); }
  }

  /** `NextPower(n)` is the least power of two that is at least `n`. */
  lemma NextPowerIsLeast(n: nat, k: nat)
    requires n >= 1
    ensures NextPower(n) >= n
    ensures Pow2(k) >= n <==> Pow2(k) >= NextPower(n)
  {
    var b := BitLength(n - 1);
    BitLengthBounds(n - 1);
    if k < b {
      Pow2Grows(k, b);
      if k < b - 1 { Pow2Grows(k, b - 1); }
    } else if b < k {
      Pow2Grows(b, k);
    }
  }

  /** Less than a doubling: the next power is below `2n`. */
  lemma NextPowerBelowDouble(n: nat)
    requires n >= 2
    ensures NextPower(n) < 2 * n
  {
    BitLengthBounds(n - 1);
    assert Pow2(BitLength(n - 1)) == 2 * Pow2(BitLength(n - 1) - 1);
  }

  lemma NextPowerMonotone(m: nat, n: nat)
    requires 1 <= m <= n
    ensures NextPower(m) <= NextPower(n)
  {
    NextPowerIsLeast(n, BitLength(n - 1));
    NextPowerIsLeast(m, BitLength(n - 1));
  }

  lemma {:induction false} Pow2Eighth(k: nat)
    requires k >= 3
    ensures Pow2(k) == 8 * Pow2(k - 3)
  {
    assert Pow2(k) == 2 * Pow2(k - 1) && Pow2(k - 1) == 2 * Pow2(k - 2) && Pow2(k - 2) == 2 * Pow2(k - 3);
  }

  /** From 33 on, the next power is a whole number of chunks, namely eight or fewer. */
  lemma PowerIsWholeChunks(n: nat) returns (q: nat)
    requires n > 32
    ensures 1 <= q <= 8 && NextPower(n) == q * Chunk(n)
  {
    var b := BitLength(n - 1);
    NextPowerIsLeast(n, b);
    SmallPowers();
    if b <= 5 {
      if b < 5 { Pow2Grows(b, 5); }
      assert false;
    } else if b == 6 {
      q := 2;
    } else if b == 7 {
      q := 4;
    } else if b == 8 {
      q := 8;
    } else {
      Pow2Grows(8, b);
      Pow2Eighth(b);
      q := 8;
    }
  }

  lemma SmallPowers()
    ensures Pow2(5) == 32 && Pow2(6) == 64 && Pow2(7) == 128 && Pow2(8) == 256
  {
    assert Pow2(2) == 4;
    assert Pow2(4) == 16;
    assert Pow2(6) == 64;
  }

  // ---- rounding up to a multiple -------------------------------------------------------

  function RoundUp(n: nat, c: nat): nat
    requires n >= 1 && c >= 1
  {
    c * ((n - 1) / c + 1)
  }

  lemma MulMonotone(a: int, b: int, c: int)
    requires a <= b && 0 <= c
    ensures a * c <= b * c
  {
  }

  lemma RoundUpSize(n: nat, c: nat)
    requires n >= 1 && c >= 1
    ensures n <= RoundUp(n, c) < n + c
  {
    var q, r := (n - 1) / c, (n - 1) % c;
    assert n - 1 == c * q + r;
    assert RoundUp(n, c) == c * q + c;
  }

  /** No smaller multiple of `c` holds `n`. */
  lemma RoundUpIsLeast(n: nat, c: nat, k: nat)
    requires n >= 1 && c >= 1 && k * c >= n
    ensures RoundUp(n, c) <= k * c
  {
    var q, r := (n - 1) / c, (n - 1) % c;
    assert n - 1 == c * q + r;
    if k <= q {
      MulMonotone(k, q, c);
    } else {
      MulMonotone(q + 1, k, c);
      assert RoundUp(n, c) == (q + 1) * c;
    }
  }

  // ---- the padded length -----------------------------------------------------------------

  /** One formula covers both branches. */
  lemma PaddedIsRoundUp(n: nat)
    requires n >= 1
    ensures PaddedLen(n) == RoundUp(n, Chunk(n))
  {
    if n <= 32 {
      NextPowerIsLeast(n, 5);
      SmallPowers();
      assert Chunk(n) == 32 && (n - 1) / 32 == 0;
    }
  }

  /** The padded length holds the text and 32 bytes, is a whole number of chunks, and no
      smaller multiple of the chunk holds the text. */
  lemma PaddedLenIsLeastMultiple(n: nat, k: nat) returns (q: nat)
    requires n >= 1
    ensures n <= PaddedLen(n) && 32 <= PaddedLen(n)
    ensures PaddedLen(n) == q * Chunk(n)
    ensures k * Chunk(n) >= n ==> PaddedLen(n) <= k * Chunk(n)
  {
    var c := Chunk(n);
    PaddedIsRoundUp(n);
    RoundUpSize(n, c);
    RoundUpAtLeast(n, c);
    ChunkAtLeast32(n);
    q := RoundUpMultiple(n, c);
    if k * c >= n { RoundUpIsLeast(n, c, k); }
    hide Chunk, PaddedLen, RoundUp;
  }

  lemma PaddedLenHolds(n: nat)
    ensures n <= PaddedLen(n) && 32 <= PaddedLen(n)
  {
    if n >= 1 { var _ := PaddedLenIsLeastMultiple(n, 0); }
  }

  lemma RoundUpMultiple(n: nat, c: nat) returns (q: nat)
    requires n >= 1 && c >= 1
    ensures RoundUp(n, c) == q * c
  {
    q := (n - 1) / c + 1;
  }

  lemma RoundUpAtLeast(n: nat, c: nat)
    requires n >= 1 && c >= 1
    ensures RoundUp(n, c) >= c
  {
    MulMonotone(1, (n - 1) / c + 1, c);
  }

  lemma ChunkAtLeast32(n: nat)
    requires n >= 1
    ensures Chunk(n) >= 32
  {
    if NextPower(n) > 256 {
      SmallPowers();
      Pow2Order(8, BitLength(n - 1));
    }
  }

  lemma Pow2Order(i: nat, j: nat)
    requires Pow2(i) < Pow2(j)
    ensures 2 * Pow2(i) <= Pow2(j)
  {
    if i < j { Pow2Grows(i, j); } else if j < i { Pow2Grows(j, i); }
  }

  lemma PaddedWithinPower(n: nat)
    requires n > 32
    ensures PaddedLen(n) <= NextPower(n)
  {
    var q := PowerIsWholeChunks(n);
    NextPowerIsLeast(n, 0);
    RoundUpIsLeast(n, Chunk(n), q);
  }

  /** Longer texts are never padded to less. */
  lemma PaddedLenMonotone(m: nat, n: nat)
    requires 1 <= m <= n
    ensures PaddedLen(m) <= PaddedLen(n)
  {
    var _ := PaddedLenIsLeastMultiple(n, 0);
    if m > 32 {
      NextPowerMonotone(m, n);
      if NextPower(m) == NextPower(n) {
        RoundUpMonotone(m, n, Chunk(n));
      } else {
        PaddedWithinPower(m);
        NextPowerIsLeast(n, BitLength(m - 1));
      }
    }
  }

  lemma RoundUpMonotone(m: nat, n: nat, c: nat)
    requires 1 <= m <= n && c >= 1
    ensures RoundUp(m, c) <= RoundUp(n, c)
  {
    RoundUpSize(n, c);
    assert RoundUp(n, c) == ((n - 1) / c + 1) * c;
    RoundUpIsLeast(m, c, (n - 1) / c + 1);
  }

  /** Padding a padded length changes nothing. */
  lemma PaddedLenIdempotent(n: nat)
    requires n >= 1
    ensures PaddedLen(PaddedLen(n)) == PaddedLen(n)
  {
    if n > 32 {
      var m := PaddedLen(n);
      var q := PaddedLenIsLeastMultiple(n, 0);
      PaddedWithinPower(n);
      NextPowerMonotone(n, m);
      NextPowerIsLeast(m, BitLength(n - 1));
      assert Chunk(m) == Chunk(n);
      var _ := PaddedLenIsLeastMultiple(m, q);
    }
  }

  /** Above 256 bytes, padding adds less than a quarter. */
  lemma PaddedLenOverhead(n: nat)
    requires n > 256
    ensures 4 * PaddedLen(n) < 5 * n
  {
    SmallPowers();
    NextPowerIsLeast(n, 8);
    NextPowerBelowDouble(n);
    RoundUpSize(n, Chunk(n));
  }

  /** Up to 256 bytes the chunk is 32; above, it is an eighth of the power of two that holds the
      length and is below its double. */
  lemma ChunkExactly(n: nat) returns (k: nat)
    requires n >= 2
    ensures n <= 256 ==> Chunk(n) == 32
    ensures n > 256 ==> n <= Pow2(k) < 2 * n && 8 * Chunk(n) == Pow2(k)
  {
    hide Pow2, BitLength;
    k := BitLength(n - 1);
    SmallPowers();
    NextPowerIsLeast(n, 8);
    NextPowerBelowDouble(n);
    AboveIsEighth(k);
  }

  lemma AboveIsEighth(k: nat)
    ensures Pow2(k) > 256 ==> Pow2(k) % 8 == 0
  {
    SmallPowers();
    if k < 3 { Pow2Grows(k, 8); } else { Pow2Eighth(k); }
  }
}
