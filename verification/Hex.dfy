/** `bytes.fromhex` and `bytes.hex`. */
module Hex {
  import opened Wrappers
  import opened Bytes

  predicate IsSpace(c: char) {
    c == ' ' || '\t' <= c <= '\r'
  }

  predicate IsLowerDigit(c: char) {
    '0' <= c <= '9' || 'a' <= c <= 'f'
  }

  predicate IsDigit(c: char) {
    IsLowerDigit(c) || 'A' <= c <= 'F'
  }

  function DigitValue(c: char): (v: nat)
    requires IsDigit(c)
    ensures v < 16
  {
    if c <= '9' then (c - '0') as int
    else if c <= 'F' then (c - 'A') as int + 10
    else (c - 'a') as int + 10
  }

  function Digit(v: nat): (c: char)
    requires v < 16
    ensures IsLowerDigit(c) && DigitValue(c) == v
  {
    if v < 10 then '0' + v as char else 'a' + (v - 10) as char
  }

  /** The byte a pair of digits stands for. */
  function ByteOf(high: char, low: char): byte
    requires IsDigit(high) && IsDigit(low)
  {
    16 * DigitValue(high) + DigitValue(low)
  }

  /** `b.hex()`: two lower-case digits a byte. */
  function ToHex(b: bytes): (s: string)
    ensures |s| == 2 * |b|
  {
    seq(2 * |b|, i requires 0 <= i < 2 * |b| =>
      if i % 2 == 0 then Digit(b[i / 2] / 16) else Digit(b[i / 2] % 16))
  }

  /** `bytes.fromhex(s)` from position `at` on: pairs of digits of either case, with white
      space allowed between pairs but not inside one. */
  function FromHex(s: string, at: nat): Option<bytes>
    requires at <= |s|
    decreases |s| - at
  {
    if at == |s| then Some([])
    else if IsSpace(s[at]) then FromHex(s, at + 1)
    else if at + 1 == |s| || !IsDigit(s[at]) || !IsDigit(s[at + 1]) then None
    else
      match FromHex(s, at + 2)
      case None => None
      case Some(rest) => Some([ByteOf(s[at], s[at + 1])] + rest)
  }

  lemma PairAt(b: bytes, k: nat)
    requires k < |b|
    ensures var s := ToHex(b);
      IsLowerDigit(s[2 * k]) && IsLowerDigit(s[2 * k + 1]) && ByteOf(s[2 * k], s[2 * k + 1]) == b[k]
  {
    var s := ToHex(b);
    assert (2 * k + 1) / 2 == k && (2 * k + 1) % 2 == 1;
    assert s[2 * k] == Digit(b[k] / 16) && s[2 * k + 1] == Digit(b[k] % 16);
  }

  ghost predicate PairIs(s: string, k: nat, b: byte) {
    2 * k + 1 < |s| && IsDigit(s[2 * k]) && IsDigit(s[2 * k + 1]) && ByteOf(s[2 * k], s[2 * k + 1]) == b
  }

  /** A canonical string is determined by the bytes it stands for. */
  lemma PairsDetermine(b: bytes, s: string)
    requires Canonical(s) && |s| == 2 * |b|
    requires forall k :: 0 <= k < |b| ==> PairIs(s, k, b[k])
    ensures ToHex(b) == s
  {
    hide ToHex, ByteOf;
    forall i | 0 <= i < |s| ensures ToHex(b)[i] == s[i] {
      var k := i / 2;
      assert i == 2 * k || i == 2 * k + 1;
      PairAt(b, k);
      assert PairIs(s, k, b[k]);
      SamePair(s[2 * k], s[2 * k + 1], ToHex(b)[2 * k], ToHex(b)[2 * k + 1]);
    }
  }

  lemma SamePair(h: char, l: char, h': char, l': char)
    requires IsLowerDigit(h) && IsLowerDigit(l) && IsLowerDigit(h') && IsLowerDigit(l')
    requires ByteOf(h, l) == ByteOf(h', l')
    ensures h == h' && l == l'
  {
  }

  lemma {:induction false} HexRoundTripFrom(b: bytes, k: nat)
    requires k <= |b|
    ensures FromHex(ToHex(b), 2 * k) == Some(b[k..])
    decreases |b| - k
  {
    hide ToHex, ByteOf, Digit;
    if k < |b| {
      PairAt(b, k);
      HexRoundTripFrom(b, k + 1);
      assert 2 * (k + 1) == 2 * k + 2;
      assert b[k..] == [b[k]] + b[k + 1..];
    } else {
      assert b[k..] == [];
    }
  }

  /** Reading what `hex` wrote gives the bytes back. */
  lemma HexRoundTrip(b: bytes)
    ensures FromHex(ToHex(b), 0) == Some(b)
  {
    HexRoundTripFrom(b, 0);
  }

  /** The form `hex` writes: whole pairs of lower-case digits and nothing else. */
  ghost predicate Canonical(s: string) {
    |s| % 2 == 0 && forall i :: 0 <= i < |s| ==> IsLowerDigit(s[i])
  }

  /** `b` holds the pairs of `s` from pair `k` on. */
  ghost predicate PairsFrom(s: string, k: nat, b: bytes)
    requires Canonical(s)
  {
    |s| == 2 * (k + |b|) && forall i :: 0 <= i < |b| ==> PairIs(s, k + i, b[i])
  }

  lemma {:induction false} CanonicalParses(s: string, k: nat)
    requires Canonical(s) && 2 * k <= |s|
    ensures FromHex(s, 2 * k).Some? && PairsFrom(s, k, FromHex(s, 2 * k).value)
    decreases |s| - k
  {
    if 2 * k < |s| {
      CanonicalParses(s, k + 1);
      assert 2 * (k + 1) == 2 * k + 2;
      var rest := FromHex(s, 2 * k + 2).value;
      var b := [ByteOf(s[2 * k], s[2 * k + 1])] + rest;
      forall i | 0 <= i < |b| ensures PairIs(s, k + i, b[i]) {
        if i > 0 { assert k + i == k + 1 + (i - 1) && b[i] == rest[i - 1]; }
      }
    }
  }

  lemma CanonicalIsFixed(s: string)
    requires Canonical(s)
    ensures FromHex(s, 0).Some? && ToHex(FromHex(s, 0).value) == s
  {
    hide FromHex, ByteOf, ToHex, Canonical;
    CanonicalParses(s, 0);
    var b := FromHex(s, 0).value;
    forall k | 0 <= k < |b| ensures PairIs(s, k, b[k]) {
      assert PairIs(s, 0 + k, b[k]);
    }
    PairsDetermine(b, s);
  }

  lemma HexIsCanonical(b: bytes)
    ensures Canonical(ToHex(b))
  {
    forall i | 0 <= i < |ToHex(b)| ensures IsLowerDigit(ToHex(b)[i]) {
      PairAt(b, i / 2);
      assert i == 2 * (i / 2) || i == 2 * (i / 2) + 1;
    }
  }

  /** The higher half of a byte is written first: `hex` of 31 is `1f`, and either case is read. */
  lemma HighDigitFirst()
    ensures ToHex([31]) == "1f" && ByteOf('1', 'f') == 31 && ByteOf('1', 'F') == 31 && ByteOf('f', '1') == 241
  {
    assert ToHex([31])[0] == '1' && ToHex([31])[1] == 'f';
  }
}
