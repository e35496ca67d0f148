/** clink/offers.py: offers, the relays they advertise, and the persisted store. */
module Offers {
  import opened Wrappers
  import opened PyDict
  import opened Text
  import NofferCode

  type PriceType = NofferCode.PriceType

  // ---- offers -----------------------------------------------------------------------

  /** `labelText` is the source's `label`, which is a reserved word here. */
  datatype Offer = Offer(
    offerId: string, labelText: string, priceType: PriceType, price: Option<int>, active: bool, createdAt: int,
    allowPayerMemo: bool, relay: string, relayCustom: bool)

  /** A stored entry: a JSON object in which any field may be missing. A missing price and a
      null one read alike. */
  datatype Raw = Raw(
    offerId: Option<string>, labelText: Option<string>, priceType: Option<int>, price: Option<int>,
    active: Option<bool>, createdAt: Option<int>, allowPayerMemo: Option<bool>, relay: Option<string>,
    relayCustom: Option<bool>)

  function Or<T>(o: Option<T>, default: T): T {
    if o.Some? then o.value else default
  }

  function ToDict(o: Offer): Raw {
    Raw(Some(o.offerId), Some(o.labelText), Some(NofferCode.PriceCode(o.priceType)), o.price, Some(o.active),
        Some(o.createdAt), Some(o.allowPayerMemo), Some(o.relay), Some(o.relayCustom))
  }

  function PriceTypeOf(code: int): Option<PriceType> {
    if 0 <= code < 256 then NofferCode.PriceOf(code) else None
  }

  /** `Offer.from_dict`: Err where it raises, for a missing id or an unknown price type. An
      entry older than the `relay_custom` flag counts as custom if it names a relay. */
  function FromDict(r: Raw): Result<Offer> {
    var priceType := PriceTypeOf(Or(r.priceType, NofferCode.PriceCode(NofferCode.Spontaneous)));
    if r.offerId.None? || priceType.None? then Err
    else Ok(Offer(r.offerId.value, Or(r.labelText, ""), priceType.value, r.price, Or(r.active, true),
                  Or(r.createdAt, 0),
                  Or(r.allowPayerMemo, true), Or(r.relay, ""), Or(r.relayCustom, Or(r.relay, "") != "")))
  }

  lemma DictRoundTrip(o: Offer)
    ensures FromDict(ToDict(o)) == Ok(o)
  {
    match o.priceType case Fixed => case Variable => case Spontaneous =>
  }

  /** An entry stored before the later fields existed reads as an active spontaneous offer that
      honours memos, and as custom exactly if it names a relay; without an id or with an unknown
      price type it does not read at all. */
  lemma LegacyEntry(r: Raw)
    requires r.active.None? && r.allowPayerMemo.None? && r.relayCustom.None?
    ensures FromDict(r).Ok? <==> r.offerId.Some? && (r.priceType.Some? ==> 0 <= r.priceType.value <= 2)
    ensures FromDict(r).Ok? ==>
      var o := FromDict(r).value;
      o.offerId == r.offerId.value && o.active && o.allowPayerMemo && o.price == r.price &&
      (r.priceType.None? ==> o.priceType.Spontaneous?) &&
      (r.labelText.None? ==> o.labelText == "") && (r.createdAt.None? ==> o.createdAt == 0) &&
      o.relay == (if r.relay.Some? then r.relay.value else "") && (o.relayCustom <==> o.relay != "")
  {
  }

  // ---- the relays of a list of offers --------------------------------------------------

  function AdvertisedRelay(o: Option<Offer>, default: string): string {
    if o.Some? && Strip(o.value.relay) != "" then Strip(o.value.relay) else default
  }

  /** The non-blank urls, stripped, each at its first place only. */
  function Distinct(urls: seq<string>): (r: seq<string>)
    ensures urls == [] ==> r == []
  {
    if urls == [] then []
    else
      var out, url := Distinct(urls[..|urls| - 1]), Strip(urls[|urls| - 1]);
      if url != "" && url !in out then out + [url] else out
  }

  lemma {:induction false} DistinctMembers(urls: seq<string>, x: string)
    ensures x in Distinct(urls) <==> x != "" && Names(urls, x)
    ensures NoDup(Distinct(urls))
  {
    hide Strip;
    if urls != [] {
      var init := urls[..|urls| - 1];
      DistinctMembers(init, x);
      assert forall i :: 0 <= i < |init| ==> init[i] == urls[i];
      assert Names(urls, x) <==> Names(init, x) || Strip(urls[|urls| - 1]) == x;
    }
  }

  /** One of the urls is `x`, spaces aside. */
  ghost predicate Names(urls: seq<string>, x: string) {
    exists i :: 0 <= i < |urls| && Strip(urls[i]) == x
  }

  function AdvertisedFields(offers: seq<Offer>, default: string): (r: seq<string>)
    ensures |r| == |offers| && forall i :: 0 <= i < |r| ==> r[i] == AdvertisedRelay(Some(offers[i]), default)
  {
    seq(|offers|, i requires 0 <= i < |offers| => AdvertisedRelay(Some(offers[i]), default))
  }

  function Advertised(offers: seq<Offer>, default: string): seq<string> {
    Distinct(AdvertisedFields(offers, default))
  }

  predicate NeedsDefault(offers: seq<Offer>) {
    offers == [] || exists i :: 0 <= i < |offers| && Strip(offers[i].relay) == ""
  }

  function RelayFields(offers: seq<Offer>): (r: seq<string>)
    ensures |r| == |offers| && forall i :: 0 <= i < |r| ==> r[i] == offers[i].relay
  {
    seq(|offers|, i requires 0 <= i < |offers| => offers[i].relay)
  }

  function Listened(offers: seq<Offer>, default: string): seq<string> {
    Distinct((if NeedsDefault(offers) then [default] else []) + RelayFields(offers))
  }

  lemma DistinctSnoc(urls: seq<string>, i: nat)
    requires i < |urls|
    ensures var out, url := Distinct(urls[..i]), Strip(urls[i]);
      Distinct(urls[..i + 1]) == if url != "" && url !in out then out + [url] else out
  {
    assert urls[..i + 1][..i] == urls[..i];
  }

  /** `advertised_relays` */
  method AdvertisedRelays(offers: seq<Offer>, default: string) returns (out: seq<string>)
    ensures out == Advertised(offers, default)
  {
    hide Strip, Distinct;
    out := [];
    ghost var urls := AdvertisedFields(offers, default);
    for i := 0 to |offers|
      invariant out == Distinct(urls[..i])
    {
      var url := Strip(AdvertisedRelay(Some(offers[i]), default));
      DistinctSnoc(urls, i);
      if url != "" && url !in out {
        out := out + [url];
      }
    }
    assert urls[..|offers|] == urls;
  }

  /** `listen_relays` */
  method ListenRelays(offers: seq<Offer>, default: string) returns (out: seq<string>)
    ensures out == Listened(offers, default)
  {
    hide Strip, Distinct, NeedsDefault;
    var urls := (if NeedsDefault(offers) then [default] else []) + RelayFields(offers);
    out := [];
    for i := 0 to |urls|
      invariant out == Distinct(urls[..i])
    {
      var url := Strip(urls[i]);
      DistinctSnoc(urls, i);
      if url != "" && url !in out {
        out := out + [url];
      }
    }
    assert urls[..|urls|] == urls;
  }

  /** The advertised relays are those of some offer each. */
  lemma AdvertisedMembers(offers: seq<Offer>, default: string, x: string)
    ensures x in Advertised(offers, default) <==> x != "" && Names(AdvertisedFields(offers, default), x)
    ensures NoDup(Advertised(offers, default))
  {
    DistinctMembers(AdvertisedFields(offers, default), x);
  }

  lemma ListenedMembers(offers: seq<Offer>, default: string, x: string)
    ensures x in Listened(offers, default) <==>
      (x != "" && ((NeedsDefault(offers) && Strip(default) == x) || Names(RelayFields(offers), x)))
    ensures NoDup(Listened(offers, default))
  {
    hide Strip, NeedsDefault;
    var front, fields := if NeedsDefault(offers) then [default] else [], RelayFields(offers);
    DistinctMembers(front + fields, x);
    NamesConcat(front, fields, x);
    assert NeedsDefault(offers) ==> front[0] == default;
  }

  lemma NamesConcat(a: seq<string>, b: seq<string>, x: string)
    ensures Names(a + b, x) <==> Names(a, x) || Names(b, x)
  {
    hide Strip;
    if i :| 0 <= i < |a| && Strip(a[i]) == x { assert (a + b)[i] == a[i]; }
    if i :| 0 <= i < |b| && Strip(b[i]) == x { assert (a + b)[|a| + i] == b[i]; }
  }

  /** For every non-empty list of offers the plugin listens on exactly the relays it advertises,
      each of them once. */
  lemma ListensWhereItAdvertises(offers: seq<Offer>, default: string, x: string)
    requires offers != []
    ensures x in Listened(offers, default) <==> x in Advertised(offers, default)
    ensures NoDup(Listened(offers, default)) && NoDup(Advertised(offers, default))
  {
    AdvertisedMembers(offers, default, x);
    ListenedMembers(offers, default, x);
    hide Strip, Distinct, Listened, Advertised;
    var fields, shown := RelayFields(offers), AdvertisedFields(offers, default);
    forall i | 0 <= i < |offers|
      ensures Strip(shown[i]) == if Strip(fields[i]) != "" then Strip(fields[i]) else Strip(default)
    {
      StripIdempotent(offers[i].relay);
    }
    if x != "" {
      if NeedsDefault(offers) {
        var i :| 0 <= i < |offers| && Strip(offers[i].relay) == "";
        assert Strip(shown[i]) == Strip(default);
      }
      if Names(shown, x) {
        var i :| 0 <= i < |shown| && Strip(shown[i]) == x;
        assert Strip(fields[i]) == x || (Strip(offers[i].relay) == "" && Strip(default) == x);
      }
      if Names(fields, x) {
        var i :| 0 <= i < |fields| && Strip(fields[i]) == x;
        assert Strip(shown[i]) == x;
      }
    }
  }

  /** Without offers nothing is advertised, and only the default is listened on. */
  lemma NoOffers(default: string)
    ensures Advertised([], default) == []
    ensures Listened([], default) == if Strip(default) == "" then [] else [Strip(default)]
  {
    var urls := [default] + RelayFields([]);
    assert urls == [default] && urls[..0] == [];
    assert Distinct(urls[..0]) == [];
  }
}
