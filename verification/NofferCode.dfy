/** clink/noffer.py: the noffer string itself, on top of the TLV records. */
module NofferCode {
  import opened Wrappers
  import opened Bytes
  import opened Hex
  import opened Noffer

  datatype PriceType = Fixed | Variable | Spontaneous

  function PriceCode(p: PriceType): byte {
    match p case Fixed => 0 case Variable => 1 case Spontaneous => 2
  }

  function PriceOf(b: byte): Option<PriceType> {
    if b == 0 then Some(Fixed) else if b == 1 then Some(Variable) else if b == 2 then Some(Spontaneous) else None
  }

  datatype Offer = Offer(pubkey: string, relay: string, offer: string, priceType: PriceType, price: Option<int>)

  /** What a call ends with; the three exceptions Python raises here are told apart. */
  datatype Outcome<+T> = Value(value: T) | ValueError | IndexError | OverflowError

  /** The library codecs: utf-8, and bech32 with the regrouping of bits around it. Decoding
      answers None where Python raises or returns nothing usable. */
  datatype Codec = Codec(
    encodeUtf8: string -> Option<bytes>,
    decodeUtf8: bytes -> Option<string>,
    encodeBech32: bytes -> string,
    decodeBech32: string -> Option<bytes>)

  const PREFIX := "noffer1"

  /** Each codec's decoder inverts its encoder, and bech32 puts the prefix in front. */
  ghost predicate Lawful(c: Codec) {
    (forall s :: c.encodeUtf8(s).Some? ==> c.decodeUtf8(c.encodeUtf8(s).value) == Some(s)) &&
    (forall b :: PREFIX <= c.encodeBech32(b) && c.decodeBech32(c.encodeBech32(b)) == Some(b))
  }

  // ---- encoding ---------------------------------------------------------------------

  /** The price is attached only when it is truthy. */
  predicate HasPrice(o: Offer) {
    o.price.Some? && o.price.value != 0
  }

  ghost predicate TextsEncode(c: Codec, o: Offer) {
    c.encodeUtf8(o.relay).Some? && c.encodeUtf8(o.offer).Some?
  }

  ghost predicate KeyFits(o: Offer) {
    FromHex(o.pubkey, 0).Some? && |FromHex(o.pubkey, 0).value| == 32
  }

  ghost predicate PriceFits(o: Offer) {
    HasPrice(o) ==> 0 < o.price.value < Pow256(4)
  }

  /** The offers that have a code. */
  ghost predicate Encodable(c: Codec, o: Offer) {
    KeyFits(o) && TextsEncode(c, o) && PriceFits(o) &&
    |c.encodeUtf8(o.relay).value| <= 255 && |c.encodeUtf8(o.offer).value| <= 255
  }

  /** The four required records. */
  function Required(key: bytes, relay: bytes, offer: bytes, price: bytes): map<byte, bytes> {
    map[0 := key, 1 := relay, 2 := offer, 3 := price]
  }

  ghost function RecordsOf(c: Codec, o: Offer): map<byte, bytes>
    requires Encodable(c, o)
  {
    var base := Required(FromHex(o.pubkey, 0).value, c.encodeUtf8(o.relay).value, c.encodeUtf8(o.offer).value,
      [PriceCode(o.priceType)]);
    if HasPrice(o) then base[4 := ToBytes(o.price.value, 4)] else base
  }

  lemma RecordsAreShort(c: Codec, o: Offer)
    requires Encodable(c, o)
    ensures AllShort(RecordsOf(c, o)) && Short(Descending(RecordsOf(c, o)))
  {
    ShortWhenAllShort(RecordsOf(c, o));
  }

  /** The one code of an offer. */
  ghost function CodeOf(c: Codec, o: Offer): string
    requires Encodable(c, o)
  {
    RecordsAreShort(c, o);
    c.encodeBech32(Serial(Descending(RecordsOf(c, o))))
  }

  /** `noffer_encode`: succeeds exactly on the offers that have a code. The one exception
      besides ValueError is the price's. */
  method Encode(c: Codec, o: Offer) returns (r: Outcome<string>)
    ensures r.Value? <==> Encodable(c, o)
    ensures r.Value? ==> r.value == CodeOf(c, o)
    ensures r.OverflowError? <==> KeyFits(o) && TextsEncode(c, o) && !PriceFits(o)
    ensures !r.IndexError?
  {
    var key := FromHex(o.pubkey, 0);
    if key.None? {
      return ValueError;
    }
    if |key.value| != 32 {
      return ValueError;
    }
    var relay, offer := c.encodeUtf8(o.relay), c.encodeUtf8(o.offer);
    if relay.None? || offer.None? {
      return ValueError;
    }
    var records := Required(key.value, relay.value, offer.value, [PriceCode(o.priceType)]);
    if HasPrice(o) {
      if o.price.value < 0 || o.price.value >= Pow256(4) {
        return OverflowError;
      }
      records := records[4 := ToBytes(o.price.value, 4)];
    }
    var data := EncodeTlv(records);
    if data.Err? {
      assert |records[1]| > 255 || |records[2]| > 255;
      return ValueError;
    }
    assert |records[1]| <= 255 && |records[2]| <= 255;
    assert Encodable(c, o) && records == RecordsOf(c, o);
    return Value(c.encodeBech32(data.value));
  }

  // ---- the code, byte by byte -----------------------------------------------------------

  function Field(t: byte, v: bytes): bytes
    requires |v| <= 255
  {
    [t, |v|] + v
  }

  lemma LeastLast(m: map<byte, bytes>, t: byte)
    requires t in m && forall u :: u in m ==> t <= u
    ensures Descending(m) == Descending(m - {t}) + [Record(t, m[t])]
  {
    DescendingStep(m);
    assert Least(m.Keys) == t;
    hide Descending;
  }

  lemma SerialGrows(rs: seq<Record>, r: Record)
    requires Short(rs) && |r.value| <= 255
    ensures Short(rs + [r]) && Serial(rs + [r]) == Serial(rs) + Field(r.tag, r.value)
  {
    assert (rs + [r])[..|rs|] == rs;
  }

  /** Serialising a map whose least type is `t` ends with that record. */
  lemma SerialEndsWith(m: map<byte, bytes>, t: byte)
    requires t in m && (forall u :: u in m ==> t <= u) && |m[t]| <= 255 && Short(Descending(m - {t}))
    ensures Short(Descending(m)) && Serial(Descending(m)) == Serial(Descending(m - {t})) + Field(t, m[t])
  {
    hide Descending, Serial, Short;
    LeastLast(m, t);
    SerialGrows(Descending(m - {t}), Record(t, m[t]));
  }

  lemma SerialOfNone(m: map<byte, bytes>)
    requires m == map[]
    ensures Short(Descending(m)) && Serial(Descending(m)) == []
  {
  }

  /** The price record, if any, then price type, offer, relay and key, each with its type and length. */
  lemma SerialOfFields(key: bytes, relay: bytes, offer: bytes, pt: bytes, price: Option<bytes>)
    requires |key| <= 255 && |relay| <= 255 && |offer| <= 255 && |pt| <= 255
    requires price.Some? ==> |price.value| <= 255
    ensures var base := Required(key, relay, offer, pt);
      var m := if price.Some? then base[4 := price.value] else base;
      Short(Descending(m)) &&
      Serial(Descending(m)) == (if price.Some? then Field(4, price.value) else []) +
        Field(3, pt) + Field(2, offer) + Field(1, relay) + Field(0, key)
  {
    hide Descending, Serial, Short, Field;
    var base := Required(key, relay, offer, pt);
    var m := if price.Some? then base[4 := price.value] else base;
    var m1, m2, m3 := m - {0}, m - {0} - {1}, m - {0} - {1} - {2};
    var m4 := m3 - {3};
    if price.Some? {
      assert m4 - {4} == map[];
      SerialOfNone(m4 - {4});
      SerialEndsWith(m4, 4);
      assert [] + Field(4, price.value) == Field(4, price.value);
    } else {
      assert m4 == map[];
      SerialOfNone(m4);
    }
    SerialEndsWith(m3, 3);
    SerialEndsWith(m2, 2);
    SerialEndsWith(m1, 1);
    SerialEndsWith(m, 0);
  }

  /** The number as four bytes, highest first. */
  function FourBytes(n: nat): bytes
    requires n < 4294967296
  {
    [n / 16777216, n / 65536 % 256, n / 256 % 256, n % 256]
  }

  lemma FourBytesAre(n: nat)
    requires n < 4294967296
    ensures ToBytes(n, 4) == FourBytes(n)
  {
    assert n / 256 / 256 == n / 65536 && n / 65536 / 256 == n / 16777216;
    assert ToBytes(n / 16777216 / 256, 0) == [];
    assert ToBytes(n / 16777216, 1) == [n / 16777216];
    assert ToBytes(n / 65536, 2) == [n / 16777216, n / 65536 % 256];
    assert ToBytes(n / 256, 3) == [n / 16777216, n / 65536 % 256, n / 256 % 256];
  }

  lemma FourBytesLimit()
    ensures Pow256(4) == 4294967296
  {
    assert Pow256(2) == 65536;
  }

  /** What a code's data is: type 4 with four bytes of price if there is one, type 3 with one byte,
      0 for fixed, 1 for variable and 2 for spontaneous, type 2 with the offer id, type 1 with the
      relay, and type 0 with the 32 bytes of the key. */
  lemma CodeLayout(c: Codec, o: Offer)
    requires Encodable(c, o)
    ensures HasPrice(o) ==> 0 < o.price.value < 4294967296
    ensures CodeOf(c, o) == c.encodeBech32(
      (if HasPrice(o) then [4, 4] + FourBytes(o.price.value) else []) +
      [3, 1, if o.priceType.Fixed? then 0 else if o.priceType.Variable? then 1 else 2] +
      ([2, |c.encodeUtf8(o.offer).value|] + c.encodeUtf8(o.offer).value) +
      ([1, |c.encodeUtf8(o.relay).value|] + c.encodeUtf8(o.relay).value) +
      ([0, 32] + FromHex(o.pubkey, 0).value))
  {
    hide Descending, Serial, Short, FromHex, Pow256, ToBytes, FourBytes;
    FourBytesLimit();
    var key, relay, offer := FromHex(o.pubkey, 0).value, c.encodeUtf8(o.relay).value, c.encodeUtf8(o.offer).value;
    var pt := [PriceCode(o.priceType)];
    if HasPrice(o) { FourBytesAre(o.price.value); }
    SerialOfFields(key, relay, offer, pt, if HasPrice(o) then Some(ToBytes(o.price.value, 4)) else None);
    assert Field(3, pt) == [3, 1, PriceCode(o.priceType)];
  }

  // ---- decoding ---------------------------------------------------------------------

  /** `tlv.get(t)` is truthy. */
  predicate Has(tlv: Parsed, t: byte) {
    Values(tlv, t) != []
  }

  /** The checks on the parsed records, in the order they are made. */
  function FromRecords(c: Codec, tlv: Parsed): Outcome<Offer> {
    if !Has(tlv, 0) || |tlv[0][0]| != 32 || !Has(tlv, 1) || !Has(tlv, 2) || !Has(tlv, 3) then ValueError
    else
      var relay, offer, price := c.decodeUtf8(tlv[1][0]), c.decodeUtf8(tlv[2][0]), tlv[3][0];
      if relay.None? || offer.None? then ValueError
      else if price == [] then IndexError
      else if PriceOf(price[0]).None? then ValueError
      else Value(Offer(ToHex(tlv[0][0]), relay.value, offer.value, PriceOf(price[0]).value,
                       if Has(tlv, 4) then Some(FromBytes(tlv[4][0])) else None))
  }

  function Decoded(c: Codec, code: string): Outcome<Offer> {
    if !(PREFIX <= code) then ValueError
    else
      match c.decodeBech32(code)
      case None => ValueError
      case Some(raw) =>
        match Records(raw, 0)
        case None => ValueError
        case Some(rs) => FromRecords(c, Collect(rs))
  }

  /** `noffer_decode` */
  method Decode(c: Codec, code: string) returns (r: Outcome<Offer>)
    ensures r == Decoded(c, code)
  {
    if !(PREFIX <= code) {
      return ValueError;
    }
    var raw := c.decodeBech32(code);
    if raw.None? {
      return ValueError;
    }
    var tlv := ParseTlv(raw.value);
    if tlv.Err? {
      return ValueError;
    }
    return FromRecords(c, tlv.value);
  }

  // ---- the two together ---------------------------------------------------------------

  /** What an offer comes back as: the key in canonical hex, and a zero price as none. */
  ghost function Normal(o: Offer): Offer
    requires KeyFits(o)
  {
    o.(pubkey := ToHex(FromHex(o.pubkey, 0).value), price := if HasPrice(o) then o.price else None)
  }

  /** Decoding a code made from a map of short records. */
  lemma DecodesMap(c: Codec, m: map<byte, bytes>)
    requires Lawful(c) && AllShort(m)
    ensures Short(Descending(m))
    ensures Decoded(c, c.encodeBech32(Serial(Descending(m)))) == FromRecords(c, Singletons(m))
  {
    TlvRoundTrip(m);
  }

  lemma ValuesOfSingletons(m: map<byte, bytes>, t: byte)
    ensures Values(Singletons(m), t) == if t in m then [m[t]] else []
  {
  }

  /** The records of an offer, or the same with the price type replaced, read back. */
  lemma ReadsBack(c: Codec, o: Offer, price: bytes)
    requires Lawful(c) && Encodable(c, o)
    requires |price| <= 1 && (price != [] ==> PriceOf(price[0]).Some?)
    ensures FromRecords(c, Singletons(RecordsOf(c, o)[3 := price])) ==
      if price == [] then IndexError else Value(Normal(o).(priceType := PriceOf(price[0]).value))
  {
    hide Records, FromHex, ToHex, Serial, Descending, Singletons, Pow256, ToBytes, FromBytes, Canonical;
    var m := RecordsOf(c, o)[3 := price];
    ValuesOfSingletons(m, 0);
    ValuesOfSingletons(m, 1);
    ValuesOfSingletons(m, 2);
    ValuesOfSingletons(m, 3);
    ValuesOfSingletons(m, 4);
    if HasPrice(o) {
      BigEndianRoundTrip(o.price.value, 4);
    }
  }

  /** Every offer that has a code comes back from it, up to the two normalisations. */
  lemma CodeRoundTrip(c: Codec, o: Offer)
    requires Lawful(c) && Encodable(c, o)
    ensures Decoded(c, CodeOf(c, o)) == Value(Normal(o))
  {
    hide Records, FromHex, ToHex, Serial, Descending, Singletons, Pow256, FromRecords, Decoded, AllShort;
    RecordsAreShort(c, o);
    DecodesMap(c, RecordsOf(c, o));
    var price := [PriceCode(o.priceType)];
    assert RecordsOf(c, o)[3 := price] == RecordsOf(c, o);
    ReadsBack(c, o, price);
  }

  /** With a lower-case 32-byte key and a price that is absent or from 1 to 2^32 - 1, the offer
      comes back as it was. */
  lemma CodeRoundTripExact(c: Codec, o: Offer)
    requires Lawful(c) && Encodable(c, o)
    ensures Decoded(c, CodeOf(c, o)) == Value(o) <==> Canonical(o.pubkey) && o.price != Some(0)
  {
    CodeRoundTrip(c, o);
    if Canonical(o.pubkey) {
      CanonicalIsFixed(o.pubkey);
    } else {
      HexIsCanonical(FromHex(o.pubkey, 0).value);
    }
  }

  /** Two offers share a code only if they are the same up to those normalisations. */
  lemma CodesTellOffersApart(c: Codec, a: Offer, b: Offer)
    requires Lawful(c) && Encodable(c, a) && Encodable(c, b)
    ensures CodeOf(c, a) == CodeOf(c, b) <==> Normal(a) == Normal(b)
  {
    CodeRoundTrip(c, a);
    CodeRoundTrip(c, b);
    if Normal(a) == Normal(b) {
      HexRoundTrip(FromHex(a.pubkey, 0).value);
      HexRoundTrip(FromHex(b.pubkey, 0).value);
      assert RecordsOf(c, a) == RecordsOf(c, b);
    }
  }

  /** Records appended to a code's data change nothing, unless they bring the first price. */
  lemma TrailingRecordsIgnored(c: Codec, x: bytes, y: bytes)
    requires Records(x, 0).Some? && Records(y, 0).Some?
    requires FromRecords(c, Collect(Records(x, 0).value)).Value?
    requires Has(Collect(Records(x, 0).value), 4) || !Has(Collect(Records(y, 0).value), 4)
    ensures Records(x + y, 0).Some?
    ensures FromRecords(c, Collect(Records(x + y, 0).value)) == FromRecords(c, Collect(Records(x, 0).value))
  {
    ParseOfConcatenation(x, y);
    var a, b := Collect(Records(x, 0).value), Collect(Records(y, 0).value);
    var m := Merged(a, b);
    assert forall t :: Has(a, t) ==> Has(m, t) && m[t][0] == a[t][0];
    assert Has(m, 4) ==> Has(a, 4);
  }

  /** Whatever decodes names a whole key, in canonical hex, and no negative price. */
  lemma DecodedIsCanonical(c: Codec, code: string)
    requires Decoded(c, code).Value?
    ensures var o := Decoded(c, code).value;
      |o.pubkey| == 64 && Canonical(o.pubkey) && (o.price.Some? ==> o.price.value >= 0)
  {
    var tlv := Collect(Records(c.decodeBech32(code).value, 0).value);
    HexIsCanonical(tlv[0][0]);
    hide Records, Collect, ToHex, Canonical, FromBytes;
    assert Decoded(c, code) == FromRecords(c, tlv);
  }

  // ---- the exceptions of decoding ---------------------------------------------------------

  /** The parsed records with one price type, spontaneous, in place of those they hold. */
  function WithPriceType(tlv: Parsed): Parsed {
    tlv[3 := [[PriceCode(Spontaneous)]]]
  }

  /** Everything about the code is in order, except that its first price type record is empty. */
  ghost predicate OnlyLacksPriceType(c: Codec, code: string) {
    PREFIX <= code && c.decodeBech32(code).Some? && Records(c.decodeBech32(code).value, 0).Some? &&
    var tlv := Collect(Records(c.decodeBech32(code).value, 0).value);
    Has(tlv, 3) && tlv[3][0] == [] && FromRecords(c, WithPriceType(tlv)).Value?
  }

  /** Malformed codes are meant to raise ValueError. One raises IndexError exactly if it would
      decode with a price type, but its first record of one is empty; every other code decodes or
      raises ValueError. */
  lemma IndexErrorExactly(c: Codec, code: string)
    ensures Decoded(c, code) == IndexError <==> OnlyLacksPriceType(c, code)
    ensures Decoded(c, code) != OverflowError
  {
    hide Records, Collect, ToHex, FromBytes;
    if PREFIX <= code && c.decodeBech32(code).Some? && Records(c.decodeBech32(code).value, 0).Some? {
      var tlv := Collect(Records(c.decodeBech32(code).value, 0).value);
      SameButPriceType(tlv, 0);
      SameButPriceType(tlv, 1);
      SameButPriceType(tlv, 2);
      assert Values(WithPriceType(tlv), 3) == [[PriceCode(Spontaneous)]];
    }
  }

  lemma SameButPriceType(tlv: Parsed, t: byte)
    requires t != 3
    ensures Values(WithPriceType(tlv), t) == Values(tlv, t)
  {
  }

  /** Such codes exist: every offer that has a code gives one when its price type record is
      emptied. */
  lemma EmptyPriceTypeRaisesIndexError(c: Codec, o: Offer)
    requires Lawful(c) && Encodable(c, o)
    ensures var m := RecordsOf(c, o)[3 := []];
      Short(Descending(m)) && Decoded(c, c.encodeBech32(Serial(Descending(m)))) == IndexError
  {
    hide Records, FromHex, ToHex, Serial, Descending, Singletons, Pow256, FromRecords, Decoded;
    RecordsAreShort(c, o);
    DecodesMap(c, RecordsOf(c, o)[3 := []]);
    ReadsBack(c, o, []);
  }
}
