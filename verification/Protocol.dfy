/** clink/protocol.py: what a decrypted request is answered with. */
module Protocol {
  import opened Wrappers
  import opened Decimal
  import NofferCode
  import O = Offers
  import opened OfferBook
  import opened Text

  /** A JSON value, as far as the request fields tell values apart. */
  datatype Json = Null | Bool(b: bool) | Int(n: int) | Str(s: string) | FloatOrContainer

  type Request = map<string, Json>

  const MAX_OFFER_ID_LEN := 64
  const MAX_AMOUNT_SAT := 2100000000000000
  const MAX_NUMERAL_LEN := 16

  /** The figures kept of an advertised maximum. */
  const SIG_FIGS: nat := 2

  /** `request_offer_id` */
  function OfferIdOf(req: Request): Option<string> {
    if "offer" in req && req["offer"].Str? && 0 < |req["offer"].s| <= MAX_OFFER_ID_LEN then Some(req["offer"].s)
    else None
  }

  /** The value of the amount field: the SDK's spelling if the key is present at all. */
  function AmountField(req: Request): Json {
    if "amount_sats" in req then req["amount_sats"]
    else if "amount" in req then req["amount"]
    else Null
  }

  /** `request_amount_sat`, on the field's value: an integer or a short string of ASCII digits,
      in range. A JSON boolean is no integer here. */
  function AmountIn(v: Json): (r: Option<nat>)
    ensures r.Some? ==> 0 < r.value <= MAX_AMOUNT_SAT
  {
    var n :=
      if v.Int? then v.n
      else if v.Str? && v.s != "" && AllDigits(v.s) && |v.s| <= MAX_NUMERAL_LEN then Number(v.s)
      else 0;
    if 0 < n <= MAX_AMOUNT_SAT then Some(n) else None
  }

  function AmountOf(req: Request): Option<nat> {
    AmountIn(AmountField(req))
  }

  /** A number and its numeral are the same request, however large: the bound on the length of a
      numeral rejects nothing that the range would accept. */
  lemma NumeralMeansNumber(n: nat)
    ensures AmountIn(Str(Numeral(n))) == AmountIn(Int(n))
  {
    hide Pow10, Digits, Number, Numeral;
    NumeralNumber(n);
    var digits := Digits(n);
    if digits > MAX_NUMERAL_LEN {
      DigitsBound(n);
      Pow10Monotone(MAX_NUMERAL_LEN, digits - 1);
      SixteenDigits();
    }
  }

  /** What counts as an amount: an integer, or a numeral of at most sixteen ASCII digits, from 1 to
      the supply of 21 million bitcoin in sats; no boolean, no other string, nothing else. */
  lemma AmountsExactly(v: Json, n: nat)
    ensures AmountIn(v) == Some(n) <==>
      0 < n <= 21000000 * 100000000 &&
      (v == Int(n) || (v.Str? && 0 < |v.s| <= 16 && AllDigits(v.s) && Number(v.s) == n))
    ensures AmountIn(Bool(true)) == None && AmountIn(Null) == None
  {
    hide Number, AllDigits;
  }

  /** The SDK's spelling wins whenever it is there, whatever its value. */
  lemma SdkSpellingWins(req: Request)
    ensures AmountOf(req) ==
      if "amount_sats" in req then AmountIn(req["amount_sats"])
      else if "amount" in req then AmountIn(req["amount"]) else None
    ensures "amount_sats" in req && req["amount_sats"] == Null ==> AmountOf(req) == None
  {
  }

  lemma SixteenDigits()
    ensures Pow10(MAX_NUMERAL_LEN) > MAX_AMOUNT_SAT
  {
    Pow10Sum(8, 8);
  }

  const ERR_INVALID_OFFER := 1
  const ERR_TEMPORARY_FAILURE := 2
  const ERR_UNSUPPORTED_FEATURE := 4
  const ERR_INVALID_AMOUNT := 5

  datatype Resolution =
    | IssueInvoice(amount: int)
    | InvalidOffer
    | UnsupportedFeature
    | InvalidAmount(min: int, max: int)

  /** The CLINK error code of a refusal. */
  function ErrorCode(r: Resolution): Option<int> {
    match r
    case IssueInvoice(_) => None
    case InvalidOffer => Some(ERR_INVALID_OFFER)
    case UnsupportedFeature => Some(ERR_UNSUPPORTED_FEATURE)
    case InvalidAmount(_, _) => Some(ERR_INVALID_AMOUNT)
  }

  /** `resolve_request` */
  function Resolve(req: Request, offer: Option<O.Offer>, available: int, min: int): Resolution {
    if offer.None? || !offer.value.active then InvalidOffer
    else if offer.value.priceType != NofferCode.Spontaneous then UnsupportedFeature
    else
      var amount := AmountOf(req);
      if amount.None? || amount.value < min || amount.value > available
      then InvalidAmount(min, Quantize(available, SIG_FIGS))
      else IssueInvoice(amount.value)
  }

  /** No invoice is for more than is available, for less than the minimum, or for another amount
      than the payer named. */
  lemma IssuedIsAvailable(req: Request, offer: Option<O.Offer>, available: int, min: int)
    ensures Resolve(req, offer, available, min).IssueInvoice? ==>
      (min <= Resolve(req, offer, available, min).amount <= available &&
       0 < Resolve(req, offer, available, min).amount <= MAX_AMOUNT_SAT &&
       AmountOf(req) == Some(Resolve(req, offer, available, min).amount))
    ensures Resolve(req, offer, available, min).InvalidAmount? ==>
      Resolve(req, offer, available, min).max <= (if available > 0 then available else 0)
  {
    QuantizeRoundsDown(available, SIG_FIGS);
  }

  /** Which refusal: an unknown or inactive offer comes first, then a price type that is not
      supported, and only then the amount, with the range that is advertised. */
  lemma RefusalsExactly(req: Request, offer: Option<O.Offer>, available: int, min: int)
    ensures var code := ErrorCode(Resolve(req, offer, available, min));
      (code == Some(1) <==> offer.None? || !offer.value.active) &&
      (code == Some(4) <==> offer.Some? && offer.value.active && !offer.value.priceType.Spontaneous?) &&
      (code == Some(5) <==> (offer.Some? && offer.value.active && offer.value.priceType.Spontaneous? &&
        (AmountOf(req) == None || AmountOf(req).value < min || AmountOf(req).value > available))) &&
      (code == Some(5) ==> Resolve(req, offer, available, min) == InvalidAmount(min, Quantize(available, 2)))
  {
    hide Quantize, AmountOf;
  }

  function Asking(id: string, amount: int): Request {
    map["offer" := Str(id), "amount_sats" := Int(amount)]
  }

  /** Whatever amount in its range a refusal is answered with is then accepted. */
  ghost predicate RangeHonoured(id: string, offer: Option<O.Offer>, available: int, refusal: Resolution)
    requires refusal.InvalidAmount?
  {
    forall a: int :: refusal.min <= a <= refusal.max ==>
      Resolve(Asking(id, a), offer, available, refusal.min) == IssueInvoice(a)
  }

  /** The least availability whose advertised maximum no request may name. It is more than the
      total supply. */
  const OVERPROMISED := 2200000000000000

  lemma MaximumWithinSupply(available: int)
    ensures Quantize(available, SIG_FIGS) <= MAX_AMOUNT_SAT <==> available < OVERPROMISED
  {
    if available >= OVERPROMISED {
      OverpromisedHasFigures();
      QuantizeIsGreatest(available, SIG_FIGS, OVERPROMISED);
    } else if available > MAX_AMOUNT_SAT {
      SixteenFigures(available);
    } else {
      QuantizeRoundsDown(available, SIG_FIGS);
    }
    hide Quantize;
  }

  lemma Powers()
    ensures Pow10(2) == 100 && Pow10(14) == 100000000000000 && Pow10(15) == 1000000000000000
  {
    Pow10Sum(7, 7);
    Pow10Sum(8, 7);
  }

  lemma OverpromisedHasFigures()
    ensures HasFigures(OVERPROMISED, SIG_FIGS)
  {
    Powers();
    assert OVERPROMISED == Scale(22, Pow10(14));
  }

  lemma SixteenFigures(n: nat)
    requires MAX_AMOUNT_SAT < n < OVERPROMISED
    ensures Quantize(n, SIG_FIGS) <= MAX_AMOUNT_SAT
  {
    DigitsBound(n);
    Powers();
    SixteenDigits();
    var d := Digits(n);
    if d < 16 { Pow10Monotone(d, 15); }
    if d > 16 {
      Pow10Monotone(16, d - 1);
      LargePower();
    }
    assert d == 16;
    hide Pow10, Digits, HasFigures;
    RoundDownIs100T(n);
  }

  lemma LargePower()
    ensures Pow10(16) > OVERPROMISED
  {
    Pow10Sum(8, 8);
  }

  lemma RoundDownIs100T(n: nat)
    requires n < OVERPROMISED
    ensures RoundDown(n, 100000000000000) <= MAX_AMOUNT_SAT
  {
  }

  /** Every amount in the range that a refusal advertises is accepted at the same availability,
      exactly when the range is empty, or starts at 1 or more and the availability stays below
      `OVERPROMISED`. */
  lemma AdvertisedRangeIsHonoured(req: Request, id: string, offer: Option<O.Offer>, available: int, min: int)
    requires Resolve(req, offer, available, min).InvalidAmount?
    ensures RangeHonoured(id, offer, available, Resolve(req, offer, available, min)) <==>
      Quantize(available, SIG_FIGS) < min || (1 <= min && available < OVERPROMISED)
  {
    QuantizeRoundsDown(available, SIG_FIGS);
    MaximumWithinSupply(available);
    var max := Quantize(available, SIG_FIGS);
    assert available <= 0 ==> max == 0;
    hide Quantize, HasFigures;
    if RangeHonoured(id, offer, available, Resolve(req, offer, available, min)) && min <= max {
      assert Resolve(Asking(id, min), offer, available, min) == IssueInvoice(min);
      assert Resolve(Asking(id, max), offer, available, min) == IssueInvoice(max);
    }
  }

  /** With the minimum of 1 that every request is held to, the promise is kept exactly below that
      availability: by every wallet, since none can receive more than the supply. */
  lemma AdvertisedMaximumIsHonoured(req: Request, id: string, offer: Option<O.Offer>, available: int)
    requires Resolve(req, offer, available, 1).InvalidAmount?
    ensures RangeHonoured(id, offer, available, Resolve(req, offer, available, 1)) <==> available < OVERPROMISED
    ensures available <= MAX_AMOUNT_SAT ==> RangeHonoured(id, offer, available, Resolve(req, offer, available, 1))
  {
    AdvertisedRangeIsHonoured(req, id, offer, available, 1);
    QuantizeRoundsDown(available, SIG_FIGS);
    OverpromisedHasFigures();
    if available >= OVERPROMISED { QuantizeIsGreatest(available, SIG_FIGS, OVERPROMISED); }
    hide Quantize, HasFigures, RangeHonoured, Resolve;
  }

  /** At that availability a refusal advertises itself, and asking for it is refused. */
  lemma OverpromisedIsRefused(id: string, offer: O.Offer)
    requires offer.active && offer.priceType == NofferCode.Spontaneous
    ensures Resolve(Asking(id, 0), Some(offer), OVERPROMISED, 1) == InvalidAmount(1, OVERPROMISED)
    ensures Resolve(Asking(id, OVERPROMISED), Some(offer), OVERPROMISED, 1) == InvalidAmount(1, OVERPROMISED)
  {
    hide Quantize, HasFigures;
    var available := OVERPROMISED;
    AdvertisesItself(available);
  }

  lemma AdvertisesItself(available: nat)
    requires available == OVERPROMISED
    ensures Quantize(available, SIG_FIGS) == available
  {
    QuantizeRoundsDown(available, SIG_FIGS);
    OverpromisedHasFigures();
    QuantizeIsGreatest(available, SIG_FIGS, available);
    hide Quantize, HasFigures;
  }

  /** Two availabilities that round alike get the same refusal: the exact capacity shows only in
      whether a request is refused. */
  lemma RefusalShowsRoundedCapacity(req: Request, offer: Option<O.Offer>, a: int, b: int, min: int)
    requires Quantize(a, SIG_FIGS) == Quantize(b, SIG_FIGS)
    requires !Resolve(req, offer, a, min).IssueInvoice? && !Resolve(req, offer, b, min).IssueInvoice?
    ensures Resolve(req, offer, a, min) == Resolve(req, offer, b, min)
    ensures Resolve(req, offer, a, min).InvalidAmount? ==> HasFigures(Resolve(req, offer, a, min).max, SIG_FIGS)
  {
    QuantizeRoundsDown(a, SIG_FIGS);
  }

  /** The offer a request is resolved against. */
  function OfferFor(d: Book, req: Request): Option<O.Offer> {
    if OfferIdOf(req).Some? then Lookup(d, OfferIdOf(req).value) else None
  }

  /** From noffer to invoice: a payer who decodes the noffer of an active offer and names an
      amount gets an invoice for it exactly when the amount is positive, not beyond the supply,
      and available. */
  lemma NofferIsPayable(c: NofferCode.Codec, d: Book, id: string, pubkey: string, default: string, amount: int,
                        available: int)
    requires NofferCode.Lawful(c) && Sound(d) && id in d.vals && 0 < |id| <= MAX_OFFER_ID_LEN
    requires d.vals[id].active && d.vals[id].priceType == NofferCode.Spontaneous
    requires NofferCode.Encodable(c, NofferOf(d, id, pubkey, default))
    ensures var got := NofferCode.Decoded(c, NofferCode.CodeOf(c, NofferOf(d, id, pubkey, default)));
      got.Value? && got.value.priceType == NofferCode.Spontaneous &&
      (var req := Asking(got.value.offer, amount);
       Resolve(req, OfferFor(d, req), available, 1) == IssueInvoice(amount) <==>
         1 <= amount <= MAX_AMOUNT_SAT && amount <= available)
  {
    AskedAmount(d, id, amount, available);
    hide Resolve, OfferFor, Asking, Sound;
    hide NofferCode.Decoded, NofferCode.CodeOf, NofferCode.Lawful, NofferCode.Encodable;
    NofferCode.CodeRoundTrip(c, NofferOf(d, id, pubkey, default));
  }

  lemma AskedAmount(d: Book, id: string, amount: int, available: int)
    requires id in d.vals && 0 < |id| <= MAX_OFFER_ID_LEN
    requires d.vals[id].active && d.vals[id].priceType == NofferCode.Spontaneous
    ensures var req := Asking(id, amount);
      Resolve(req, OfferFor(d, req), available, 1) == IssueInvoice(amount) <==>
        1 <= amount <= MAX_AMOUNT_SAT && amount <= available
  {
    hide Quantize;
    assert OfferFor(d, Asking(id, amount)) == Some(d.vals[id]);
  }

  /** From the user's hand to the payer's: an offer just created as a spontaneous one is payable
      through its noffer, which names the relay it was created with. */
  lemma NewOfferIsPayable(c: NofferCode.Codec, d: Book, op: Op, pubkey: string, default: string, amount: int,
                          available: int)
    requires NofferCode.Lawful(c) && Sound(d) && op.Create? && op.id !in d.vals && 0 < |op.id| <= MAX_OFFER_ID_LEN
    requires op.priceType == NofferCode.Spontaneous && Strip(op.relay) != ""
    requires NofferCode.Encodable(c, NofferOf(Apply(d, op), op.id, pubkey, default))
    ensures var d' := Apply(d, op);
      var got := NofferCode.Decoded(c, NofferCode.CodeOf(c, NofferOf(d', op.id, pubkey, default)));
      got.Value? && got.value.relay == Strip(op.relay) &&
      (var req := Asking(got.value.offer, amount);
       Resolve(req, OfferFor(d', req), available, 1) == IssueInvoice(amount) <==>
         1 <= amount <= MAX_AMOUNT_SAT && amount <= available)
  {
    var d' := Apply(d, op);
    StripIdempotent(op.relay);
    CreatedOffer(d, op);
    ApplySound(d, op);
    assert NofferOf(d', op.id, pubkey, default).relay == Strip(op.relay);
    hide Apply, Strip, Resolve, OfferFor, Asking, Sound, NofferCode.Decoded, NofferCode.CodeOf;
    hide NofferCode.Lawful, NofferCode.Encodable, SameOthers;
    NofferIsPayable(c, d', op.id, pubkey, default, amount, available);
    NofferCode.CodeRoundTrip(c, NofferOf(d', op.id, pubkey, default));
  }
}
