/** clink/nip44.py: NIP-44 version 2 padding, key derivation and framing. The cipher, the
    MAC, base64 and utf-8 come from libraries and are parameters, used only through laws. */
module Nip44 {
  import opened Wrappers
  import opened Bytes
  import opened Padding

  const VERSION := 2
  const MIN_PLAINTEXT := 1
  const MAX_PLAINTEXT := 65535
  const HASH_LEN := 32

  datatype Crypto = Crypto(
    hmac: (bytes, bytes) -> bytes,             // key, message
    chacha: (bytes, bytes, bytes) -> bytes,    // key, nonce, data
    b64enc: bytes -> string,
    b64dec: string -> Option<bytes>,
    utf8enc: string -> bytes,
    utf8dec: bytes -> Option<string>)

  /** What the framing relies on: a 32-byte MAC, a length-preserving involutive stream
      cipher, and codecs that undo themselves, base64 never yielding a leading `#`. */
  ghost predicate Lawful(c: Crypto) {
    (forall k, m :: |c.hmac(k, m)| == HASH_LEN) &&
    (forall k, n, d :: |c.chacha(k, n, d)| == |d|) &&
    (forall k, n, d :: c.chacha(k, n, c.chacha(k, n, d)) == d) &&
    (forall d :: c.b64dec(c.b64enc(d)) == Some(d)) &&
    (forall d :: !Hash(c.b64enc(d))) &&
    (forall s :: c.utf8dec(c.utf8enc(s)) == Some(s))
  }

  /** `payload.startswith("#")` */
  predicate Hash(s: string) {
    |s| > 0 && s[0] == '#'
  }

  // ---- HKDF-Expand -------------------------------------------------------------------

  /** T(i) of RFC 5869, section 2.3. */
  function Block(c: Crypto, prk: bytes, info: bytes, i: nat): bytes
    requires i <= 255
  {
    if i == 0 then [] else c.hmac(prk, Block(c, prk, info, i - 1) + info + [i])
  }

  /** T(1) | ... | T(n) */
  function Blocks(c: Crypto, prk: bytes, info: bytes, n: nat): bytes
    requires n <= 255
  {
    if n == 0 then [] else Blocks(c, prk, info, n - 1) + Block(c, prk, info, n)
  }

  lemma {:induction false} BlocksSize(c: Crypto, prk: bytes, info: bytes, n: nat)
    requires Lawful(c) && n <= 255
    ensures |Blocks(c, prk, info, n)| == HASH_LEN * n
  {
    if n > 0 { BlocksSize(c, prk, info, n - 1); }
  }

  /** The number of blocks RFC 5869 takes for `length` octets. */
  function BlockCount(length: nat): nat {
    (length + HASH_LEN - 1) / HASH_LEN
  }

  /** OKM: the first `length` octets of T(1) | ... | T(N). */
  function Expand(c: Crypto, prk: bytes, info: bytes, length: nat): bytes
    requires length <= 255 * HASH_LEN
  {
    var t := Blocks(c, prk, info, BlockCount(length));
    if length <= |t| then t[..length] else t
  }

  lemma ExpandSize(c: Crypto, prk: bytes, info: bytes, length: nat)
    requires Lawful(c) && length <= 255 * HASH_LEN
    ensures |Expand(c, prk, info, length)| == length
  {
    BlocksSize(c, prk, info, BlockCount(length));
  }

  /** `_hkdf_expand` is HKDF-Expand of RFC 5869; where that asks for more than 255 blocks,
      the one-byte counter overflows and the call raises. */
  method HkdfExpand(c: Crypto, prk: bytes, info: bytes, length: nat) returns (r: Result<bytes>)
    requires Lawful(c)
    ensures r == if length <= 255 * HASH_LEN then Ok(Expand(c, prk, info, length)) else Err
    ensures r.Ok? ==> |r.value| == length
  {
    var out: bytes, block: bytes := [], [];
    var counter: int := 1;
    while |out| < length
      invariant 1 <= counter <= 256
      invariant out == Blocks(c, prk, info, counter - 1) && block == Block(c, prk, info, counter - 1)
      invariant |out| == HASH_LEN * (counter - 1)
      invariant counter > 1 ==> HASH_LEN * (counter - 2) < length
      decreases length - |out|
    {
      if counter > 255 {
        return Err;
      }
      block := c.hmac(prk, block + info + [counter]);
      out := out + block;
      counter := counter + 1;
    }
    assert counter - 1 == BlockCount(length);
    r := Ok(out[..length]);
  }

  datatype Keys = Keys(chachaKey: bytes, chachaNonce: bytes, hmacKey: bytes)

  /** `_message_keys` */
  function MessageKeys(c: Crypto, convKey: bytes, nonce: bytes): Result<Keys>
    requires Lawful(c)
  {
    if |nonce| != 32 then Err
    else
      ExpandSize(c, convKey, nonce, 76);
      var keys := Expand(c, convKey, nonce, 76);
      Ok(Keys(keys[0..32], keys[32..44], keys[44..76]))
  }

  // ---- padding ------------------------------------------------------------------------

  function Pad(plaintext: bytes): Result<bytes> {
    var n := |plaintext|;
    if !(MIN_PLAINTEXT <= n <= MAX_PLAINTEXT) then Err
    else
      PaddedLenHolds(n);
      Ok(ToBytes(n, 2) + plaintext + Zeros(PaddedLen(n) - n))
  }

  /** The slice `b[lo:hi]`, clamped to the end of `b`. */
  function Slice(b: bytes, lo: nat, hi: nat): bytes
    requires lo <= hi && lo <= |b|
  {
    if hi <= |b| then b[lo..hi] else b[lo..]
  }

  function Unpad(padded: bytes): Result<bytes> {
    if |padded| < 2 then Err
    else
      var n := FromBytes(padded[..2]);
      var plaintext := Slice(padded, 2, 2 + n);
      if |plaintext| != n || !(MIN_PLAINTEXT <= n <= MAX_PLAINTEXT) || |padded| != 2 + PaddedLen(n) then Err
      else Ok(plaintext)
  }

  /** `padded` is a length prefix, the text, and as many further bytes as the rule asks for. */
  ghost predicate PadsTo(padded: bytes, plaintext: bytes) {
    var n := |plaintext|;
    MIN_PLAINTEXT <= n <= MAX_PLAINTEXT && |padded| == 2 + PaddedLen(n) && 2 + n <= |padded| &&
    padded[..2] == ToBytes(n, 2) && padded[2..2 + n] == plaintext
  }

  /** `_unpad` accepts exactly the padded forms of a text; what fills the rest is not
      looked at. */
  lemma UnpadAcceptsExactly(padded: bytes, plaintext: bytes)
    ensures Unpad(padded) == Ok(plaintext) <==> PadsTo(padded, plaintext)
  {
    var n := |plaintext|;
    if MIN_PLAINTEXT <= n <= MAX_PLAINTEXT {
      BigEndianRoundTrip(n, 2) by { assert Pow256(2) == 65536 by { assert Pow256(1) == 256; } }
    }
    if |padded| >= 2 {
      TwoBytes(padded[..2]);
    }
  }

  /** `_pad` refuses exactly the texts outside 1 to 65535 bytes, pads to the NIP-44 length,
      and `_unpad` undoes it. */
  lemma PadRoundTrip(plaintext: bytes)
    ensures Pad(plaintext).Ok? <==> MIN_PLAINTEXT <= |plaintext| <= MAX_PLAINTEXT
    ensures Pad(plaintext).Ok? ==>
      |Pad(plaintext).value| == 2 + PaddedLen(|plaintext|) >= 34 && Unpad(Pad(plaintext).value) == Ok(plaintext)
  {
    if Pad(plaintext).Ok? {
      var n := |plaintext|;
      PaddedLenHolds(n);
      var padded := Pad(plaintext).value;
      assert padded[..2] == ToBytes(n, 2);
      assert padded[2..2 + n] == plaintext;
      UnpadAcceptsExactly(padded, plaintext);
    }
  }

  // ---- framing ------------------------------------------------------------------------

  function Mac(c: Crypto, key: bytes, message: bytes, aad: bytes): Result<bytes> {
    if |aad| != 32 then Err else Ok(c.hmac(key, aad + message))
  }

  /** version | nonce | ciphertext | mac */
  function Frame(nonce: bytes, ciphertext: bytes, mac: bytes): bytes {
    [VERSION] + nonce + ciphertext + mac
  }

  function Encrypt(c: Crypto, plaintext: string, convKey: bytes, nonce: bytes): Result<string>
    requires Lawful(c)
  {
    match MessageKeys(c, convKey, nonce)
    case Err => Err
    case Ok(keys) =>
      match Pad(c.utf8enc(plaintext))
      case Err => Err
      case Ok(padded) =>
        var ciphertext := c.chacha(keys.chachaKey, keys.chachaNonce, padded);
        match Mac(c, keys.hmacKey, ciphertext, nonce)
        case Err => Err
        case Ok(mac) => Ok(c.b64enc(Frame(nonce, ciphertext, mac)))
  }

  function Decrypt(c: Crypto, payload: string, convKey: bytes): Result<string>
    requires Lawful(c)
  {
    if Hash(payload) then Err
    else
      match c.b64dec(payload)
      case None => Err
      case Some(data) => Open(c, data, convKey)
  }

  /** `decrypt` from the decoded bytes on. */
  function Open(c: Crypto, data: bytes, convKey: bytes): Result<string>
    requires Lawful(c)
  {
    if |data| < 99 || data[0] != VERSION then Err
    else
      var nonce, ciphertext, mac := data[1..33], data[33..|data| - 32], data[|data| - 32..];
      match MessageKeys(c, convKey, nonce)
      case Err => Err
      case Ok(keys) =>
        if Mac(c, keys.hmacKey, ciphertext, nonce) != Ok(mac) then Err
        else
          match Unpad(c.chacha(keys.chachaKey, keys.chachaNonce, ciphertext))
          case Err => Err
          case Ok(text) =>
            match c.utf8dec(text)
            case None => Err
            case Some(s) => Ok(s)
  }

  /** The bytes `encrypt` puts on the wire for an already padded block. */
  function Sealed(c: Crypto, convKey: bytes, nonce: bytes, padded: bytes): bytes
    requires Lawful(c) && |nonce| == 32
  {
    var keys := MessageKeys(c, convKey, nonce).value;
    var ciphertext := c.chacha(keys.chachaKey, keys.chachaNonce, padded);
    Frame(nonce, ciphertext, c.hmac(keys.hmacKey, nonce + ciphertext))
  }

  lemma FrameSlices(nonce: bytes, ciphertext: bytes, mac: bytes)
    requires |nonce| == 32 && |mac| == 32
    ensures var data := Frame(nonce, ciphertext, mac);
      |data| == 65 + |ciphertext| && data[0] == VERSION && data[1..33] == nonce &&
      data[33..|data| - 32] == ciphertext && data[|data| - 32..] == mac
  {
  }

  /** What a sealed block opens to depends on its padding and its text alone; the 99-byte
      minimum turns away no block that `_unpad` would accept. */
  lemma SealedOpens(c: Crypto, convKey: bytes, nonce: bytes, padded: bytes, s: string)
    requires Lawful(c) && |nonce| == 32
    ensures Open(c, Sealed(c, convKey, nonce, padded), convKey) == Ok(s) <==>
      Unpad(padded).Ok? && c.utf8dec(Unpad(padded).value) == Some(s)
  {
    var keys := MessageKeys(c, convKey, nonce).value;
    var ciphertext := c.chacha(keys.chachaKey, keys.chachaNonce, padded);
    FrameSlices(nonce, ciphertext, c.hmac(keys.hmacKey, nonce + ciphertext));
    if Unpad(padded).Ok? {
      UnpadAcceptsExactly(padded, Unpad(padded).value);
      PaddedLenHolds(|Unpad(padded).value|);
    }
  }

  /** `decrypt` accepts nothing but sealed blocks: whatever opens to a text is, byte for
      byte, what `encrypt` would send for some padded block under the same key. */
  lemma OpensOnlySealed(c: Crypto, data: bytes, convKey: bytes) returns (nonce: bytes, padded: bytes)
    requires Lawful(c) && Open(c, data, convKey).Ok?
    ensures |nonce| == 32 && data == Sealed(c, convKey, nonce, padded)
  {
    nonce := data[1..33];
    var ciphertext, mac := data[33..|data| - 32], data[|data| - 32..];
    var keys := MessageKeys(c, convKey, nonce).value;
    padded := c.chacha(keys.chachaKey, keys.chachaNonce, ciphertext);
    assert data == Frame(nonce, ciphertext, mac);
  }

  /** `decrypt(encrypt(p, k, nonce), k) == p` for every plaintext of 1 to 65535 bytes, and
      `encrypt` refuses exactly the other lengths (and a nonce that is not 32 bytes). */
  lemma EncryptRoundTrip(c: Crypto, plaintext: string, convKey: bytes, nonce: bytes)
    requires Lawful(c)
    ensures Encrypt(c, plaintext, convKey, nonce).Ok? <==>
      |nonce| == 32 && MIN_PLAINTEXT <= |c.utf8enc(plaintext)| <= MAX_PLAINTEXT
    ensures Encrypt(c, plaintext, convKey, nonce).Ok? ==>
      Decrypt(c, Encrypt(c, plaintext, convKey, nonce).value, convKey) == Ok(plaintext)
  {
    var text := c.utf8enc(plaintext);
    PadRoundTrip(text);
    if |nonce| == 32 && Pad(text).Ok? {
      var padded := Pad(text).value;
      assert Encrypt(c, plaintext, convKey, nonce) == Ok(c.b64enc(Sealed(c, convKey, nonce, padded)));
      SealedOpens(c, convKey, nonce, padded, plaintext);
    }
  }

  // ---- what goes over the wire -----------------------------------------------------------

  /** The three blocks that 76 octets of key material come from. */
  function FirstBlock(c: Crypto, key: bytes, info: bytes): bytes {
    c.hmac(key, info + [1])
  }

  function SecondBlock(c: Crypto, key: bytes, info: bytes): bytes {
    c.hmac(key, FirstBlock(c, key, info) + info + [2])
  }

  function ThirdBlock(c: Crypto, key: bytes, info: bytes): bytes {
    c.hmac(key, SecondBlock(c, key, info) + info + [3])
  }

  lemma BlocksAre(c: Crypto, key: bytes, info: bytes)
    ensures Block(c, key, info, 1) == FirstBlock(c, key, info)
    ensures Block(c, key, info, 2) == SecondBlock(c, key, info)
    ensures Block(c, key, info, 3) == ThirdBlock(c, key, info)
  {
    assert Block(c, key, info, 0) == [];
    assert [] + info + [1] == info + [1];
    assert Block(c, key, info, 1) == FirstBlock(c, key, info);
    assert Block(c, key, info, 2) == SecondBlock(c, key, info);
  }

  lemma Expand76(c: Crypto, key: bytes, info: bytes)
    requires Lawful(c)
    ensures Expand(c, key, info, 76) ==
      FirstBlock(c, key, info) + SecondBlock(c, key, info) + ThirdBlock(c, key, info)[..12]
  {
    BlocksAre(c, key, info);
    var a, b, d := FirstBlock(c, key, info), SecondBlock(c, key, info), ThirdBlock(c, key, info);
    assert Blocks(c, key, info, 0) == [] && [] + a == a;
    assert Blocks(c, key, info, 1) == a;
    assert Blocks(c, key, info, 2) == a + b;
    assert Blocks(c, key, info, 3) == a + b + d;
    assert BlockCount(76) == 3;
    hide Block, Blocks, FirstBlock, SecondBlock, ThirdBlock;
    assert (a + b + d)[..76] == a + b + d[..12];
  }

  /** The message keys, octet by octet: the cipher key is the first block of the expansion of the
      conversation key with the nonce, the cipher nonce the first 12 octets of the second, and the
      MAC key the remaining 20 of it with 12 of the third. */
  lemma MessageKeysAre(c: Crypto, convKey: bytes, nonce: bytes)
    requires Lawful(c)
    ensures MessageKeys(c, convKey, nonce).Ok? <==> |nonce| == 32
    ensures |nonce| == 32 ==>
      MessageKeys(c, convKey, nonce).value == Keys(
        FirstBlock(c, convKey, nonce), SecondBlock(c, convKey, nonce)[..12],
        SecondBlock(c, convKey, nonce)[12..] + ThirdBlock(c, convKey, nonce)[..12])
  {
    Expand76(c, convKey, nonce);
    hide Expand;
    var a, b, d := FirstBlock(c, convKey, nonce), SecondBlock(c, convKey, nonce), ThirdBlock(c, convKey, nonce);
    assert |a| == 32 && |b| == 32 && |d| == 32;
    hide FirstBlock, SecondBlock, ThirdBlock;
    var keys := a + b + d[..12];
    assert keys[0..32] == a && keys[32..44] == b[..12] && keys[44..76] == b[12..] + d[..12];
  }

  /** The padded form: two octets of length, highest first, the text, and zeros up to the padded
      length. */
  lemma PadLayout(plaintext: bytes)
    requires 1 <= |plaintext| <= 65535
    ensures var n := |plaintext|;
      Pad(plaintext) == Ok([n / 256, n % 256] + plaintext + Zeros(PaddedLen(n) - n)) &&
      |Pad(plaintext).value| == 2 + PaddedLen(n)
  {
    var n := |plaintext|;
    PaddedLenHolds(n);
    assert ToBytes(n / 256 / 256, 0) == [] && [] + [n / 256 % 256] == [n / 256];
    assert ToBytes(n / 256, 1) == [n / 256];
    assert ToBytes(n, 2) == [n / 256] + [n % 256];
    assert [n / 256] + [n % 256] == [n / 256, n % 256];
  }

  /** The payload: version 2, the nonce, the padded text under the cipher, and the MAC of nonce and
      ciphertext. */
  lemma PayloadLayout(c: Crypto, plaintext: string, convKey: bytes, nonce: bytes)
    requires Lawful(c) && Encrypt(c, plaintext, convKey, nonce).Ok?
    ensures c.b64dec(Encrypt(c, plaintext, convKey, nonce).value).Some?
    ensures var data := c.b64dec(Encrypt(c, plaintext, convKey, nonce).value).value;
      var keys := MessageKeys(c, convKey, nonce);
      var padded := Pad(c.utf8enc(plaintext));
      keys.Ok? && padded.Ok? && |data| == 65 + |padded.value| && data[0] == 2 && data[1..33] == nonce &&
      data[33..|data| - 32] == c.chacha(keys.value.chachaKey, keys.value.chachaNonce, padded.value) &&
      data[|data| - 32..] == c.hmac(keys.value.hmacKey, nonce + data[33..|data| - 32])
  {
    var keys, padded := MessageKeys(c, convKey, nonce).value, Pad(c.utf8enc(plaintext)).value;
    var ciphertext := c.chacha(keys.chachaKey, keys.chachaNonce, padded);
    FrameSlices(nonce, ciphertext, c.hmac(keys.hmacKey, nonce + ciphertext));
    hide Pad, Frame;
  }

  // ---- the laws can be met ---------------------------------------------------------------

  function ToyUtf8(s: string): bytes {
    if s == "" then []
    else ToyUtf8(s[..|s| - 1]) + ToBytes(s[|s| - 1] as int, 3)
  }

  function ToyUtf8Back(b: bytes): Option<string> {
    if b == [] then Some("")
    else if |b| < 3 then None
    else
      match ToyUtf8Back(b[..|b| - 3])
      case None => None
      case Some(s) =>
        var n := FromBytes(b[|b| - 3..]);
        if 0 <= n < 0xD800 || 0xE000 <= n < 0x11_0000 then Some(s + [n as char]) else None
  }

  lemma CharBack(c: char)
    ensures FromBytes(ToBytes(c as int, 3)) == c as int
  {
    Pow256Of3();
    BigEndianRoundTrip(c as int, 3);
  }

  lemma Pow256Of3()
    ensures Pow256(3) == 0x100_0000
  {
    assert Pow256(1) == 256 && Pow256(2) == 65536;
  }

  lemma CharAppended(b: bytes, s: string, c: char)
    requires ToyUtf8Back(b) == Some(s)
    ensures ToyUtf8Back(b + ToBytes(c as int, 3)) == Some(s + [c])
  {
    CharBack(c);
    hide FromBytes, ToBytes;
    var all := b + ToBytes(c as int, 3);
    assert all[..|all| - 3] == b && all[|all| - 3..] == ToBytes(c as int, 3);
  }

  lemma {:induction false} ToyUtf8Undone(s: string)
    ensures ToyUtf8Back(ToyUtf8(s)) == Some(s)
  {
    hide ToyUtf8Back, ToBytes;
    if s == "" {
      assert ToyUtf8Back([]) == Some("") by { NothingBack(); }
    } else {
      var init, c := s[..|s| - 1], s[|s| - 1];
      ToyUtf8Undone(init);
      CharAppended(ToyUtf8(init), init, c);
      assert init + [c] == s;
    }
  }

  lemma NothingBack()
    ensures ToyUtf8Back([]) == Some("")
  {
  }

  function ToyBase64(d: bytes): string {
    seq(|d|, i requires 0 <= i < |d| => (d[i] as int + 64) as char)
  }

  function ToyBase64Back(s: string): Option<bytes> {
    if forall i :: 0 <= i < |s| ==> 64 <= s[i] as int < 320
    then Some(seq(|s|, i requires 0 <= i < |s| => s[i] as int - 64))
    else None
  }

  lemma ToyBase64Undone(d: bytes)
    ensures ToyBase64Back(ToyBase64(d)) == Some(d) && !Hash(ToyBase64(d))
  {
    assert ToyBase64Back(ToyBase64(d)).Some?;
    assert ToyBase64Back(ToyBase64(d)).value == d;
  }

  /** The laws are consistent: some primitives satisfy them. */
  lemma LawsCanBeMet()
    ensures exists c: Crypto :: Lawful(c)
  {
    hide ToyBase64, ToyBase64Back, ToyUtf8, ToyUtf8Back, Zeros, Hash;
    var c := Crypto((k, m) => Zeros(32), (k, n, d) => d, ToyBase64, ToyBase64Back, ToyUtf8, ToyUtf8Back);
    forall d ensures c.b64dec(c.b64enc(d)) == Some(d) && !Hash(c.b64enc(d)) { ToyBase64Undone(d); }
    forall s ensures c.utf8dec(c.utf8enc(s)) == Some(s) { ToyUtf8Undone(s); }
    assert Lawful(c);
  }
}
