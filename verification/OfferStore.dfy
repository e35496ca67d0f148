/** clink/offers.py: `OfferStore`, and what stays fixed about an offer over any run of it. */
module OfferBook {
  import opened Wrappers
  import opened PyDict
  import opened Text
  import opened Offers
  import NofferCode

  type Book = Dict<string, Offer>

  /** Every offer is filed under its own id. */
  ghost predicate OwnIds(d: Book) {
    forall k :: k in d.vals ==> d.vals[k].offerId == k
  }

  ghost predicate Sound(d: Book) {
    Valid(d) && OwnIds(d)
  }

  // ---- storage --------------------------------------------------------------------

  /** `_persist`: the offers in order. */
  function Persisted(d: Book): seq<Raw>
    requires Valid(d)
  {
    seq(|d.keys|, i requires 0 <= i < |d.keys| => KeyPresent(d, i); ToDict(d.vals[d.keys[i]]))
  }

  /** What the constructor makes of the stored entries; Err where it raises. */
  function Loaded(stored: seq<Raw>): Result<Book> {
    if stored == [] then Ok(Empty())
    else
      var before, offer := Loaded(stored[..|stored| - 1]), FromDict(stored[|stored| - 1]);
      if before.Err? || offer.Err? then Err else Ok(Put(before.value, offer.value.offerId, offer.value))
  }

  lemma {:induction false} LoadedSound(stored: seq<Raw>)
    requires Loaded(stored).Ok?
    ensures Sound(Loaded(stored).value)
  {
    if stored != [] {
      LoadedSound(stored[..|stored| - 1]);
      var offer := FromDict(stored[|stored| - 1]).value;
      PutValid(Loaded(stored[..|stored| - 1]).value, offer.offerId, offer);
    }
  }

  /** The first `n` offers. */
  function Front(d: Book, n: nat): Book
    requires n <= |d.keys|
  {
    Dict(d.keys[..n], map k | k in d.keys[..n] && k in d.vals :: d.vals[k])
  }

  lemma FrontStep(d: Book, n: nat)
    requires Sound(d) && n < |d.keys|
    ensures var k := d.keys[n];
      k in d.vals && Front(d, n + 1) == Put(Front(d, n), k, d.vals[k]) && d.vals[k].offerId == k
  {
    KeyPresent(d, n);
    var k := d.keys[n];
    assert d.keys[..n + 1] == d.keys[..n] + [k];
    assert Front(d, n + 1).vals == Front(d, n).vals[k := d.vals[k]];
  }

  lemma {:induction false} LoadsFront(d: Book, n: nat)
    requires Sound(d) && n <= |d.keys|
    ensures Loaded(Persisted(d)[..n]) == Ok(Front(d, n))
  {
    if n > 0 {
      LoadsFront(d, n - 1);
      assert Persisted(d)[..n][..n - 1] == Persisted(d)[..n - 1];
      FrontStep(d, n - 1);
      DictRoundTrip(d.vals[d.keys[n - 1]]);
    }
  }

  /** Reloading what was persisted gives the same offers in the same order. */
  lemma ReloadIsIdentity(d: Book)
    requires Sound(d)
    ensures Loaded(Persisted(d)) == Ok(d)
  {
    var n := |d.keys|;
    LoadsFront(d, n);
    assert Persisted(d)[..n] == Persisted(d) && d.keys[..n] == d.keys;
    forall k | k in d.vals ensures k in d.keys {
      assert k in Elems(d.keys);
    }
    assert Front(d, n).vals == d.vals;
  }

  // ---- the operations ---------------------------------------------------------------

  datatype Op =
    | Create(id: string, labelText: string, priceType: PriceType, price: Option<int>, memo: bool, relay: string,
             custom: bool, createdAt: int)
    | PinMissing(relay: string)
    | Remove(id: string)
    | SetActive(id: string, active: bool)
    | SetLabel(id: string, labelText: string)
    | SetAllowPayerMemo(id: string, allow: bool)
    | Reload

  function Created(op: Op): Offer
    requires op.Create?
  {
    Offer(op.id, op.labelText, op.priceType, op.price, true, op.createdAt, op.memo, Strip(op.relay),
          op.custom && Strip(op.relay) != "")
  }

  /** The offers without a relay. */
  function Unpinned(d: Book): set<string> {
    set k | k in d.vals && Strip(d.vals[k].relay) == ""
  }

  function Pinned(d: Book, relay: string, ks: set<string>): Book {
    Dict(d.keys, map k | k in d.vals :: if k in ks then d.vals[k].(relay := relay, relayCustom := false) else d.vals[k])
  }

  function Update(d: Book, id: string, o: Offer -> Offer): Book {
    if id in d.vals then Put(d, id, o(d.vals[id])) else d
  }

  function Apply(d: Book, op: Op): Book {
    match op
    case Create(id, _, _, _, _, _, _, _) => Put(d, id, Created(op))
    case PinMissing(relay) => if Strip(relay) == "" then d else Pinned(d, Strip(relay), Unpinned(d))
    case Remove(id) => Drop(d, id)
    case SetActive(id, active) => Update(d, id, (o: Offer) => o.(active := active))
    case SetLabel(id, labelText) => Update(d, id, (o: Offer) => o.(labelText := labelText))
    case SetAllowPayerMemo(id, allow) => Update(d, id, (o: Offer) => o.(allowPayerMemo := allow))
    case Reload => d
  }

  lemma ApplySound(d: Book, op: Op)
    requires Sound(d)
    ensures Sound(Apply(d, op))
  {
    match op
    case Create(id, _, _, _, _, _, _, _) => PutValid(d, id, Created(op));
    case PinMissing(relay) =>
      assert Pinned(d, Strip(relay), Unpinned(d)).vals.Keys == d.vals.Keys;
    case Remove(id) => RestrictValid(d, d.vals.Keys - {id});
    case SetActive(id, active) => if id in d.vals { PutValid(d, id, d.vals[id].(active := active)); }
    case SetLabel(id, labelText) => if id in d.vals { PutValid(d, id, d.vals[id].(labelText := labelText)); }
    case SetAllowPayerMemo(id, allow) => if id in d.vals { PutValid(d, id, d.vals[id].(allowPayerMemo := allow)); }
    case Reload =>
  }

  function Run(d: Book, ops: seq<Op>): Book {
    if ops == [] then d else Apply(Run(d, ops[..|ops| - 1]), ops[|ops| - 1])
  }

  /** The run neither removes the offer nor draws its id again. */
  ghost predicate Spares(ops: seq<Op>, id: string) {
    forall i :: 0 <= i < |ops| ==> (ops[i].Create? || ops[i].Remove? ==> ops[i].id != id)
  }

  /** The offers other than that of `id` are the same, in the same order. */
  ghost predicate SameOthers(d: Book, d': Book, id: string) {
    (forall k :: k != id ==> (k in d'.vals <==> k in d.vals) && (k in d.vals ==> d'.vals[k] == d.vals[k])) &&
    Filter(d'.keys, d'.vals.Keys - {id}) == Filter(d.keys, d.vals.Keys - {id})
  }

  /** Creating an offer under a fresh id files it last: active, named and priced as asked, with the
      relay stripped, and custom only if that leaves one. */
  lemma CreatedOffer(d: Book, op: Op)
    requires Sound(d) && op.Create? && op.id !in d.vals
    ensures var d' := Apply(d, op);
      d'.keys == d.keys + [op.id] && op.id in d'.vals && SameOthers(d, d', op.id) &&
      var o := d'.vals[op.id];
      o.offerId == op.id && o.labelText == op.labelText && o.priceType == op.priceType && o.price == op.price &&
      o.active && o.createdAt == op.createdAt && o.allowPayerMemo == op.memo &&
      o.relay == Strip(op.relay) && (o.relayCustom <==> op.custom && Strip(op.relay) != "")
  {
    hide Strip;
    FilterSnoc(d.keys, op.id, d.vals.Keys);
    assert Apply(d, op).vals.Keys - {op.id} == d.vals.Keys;
    assert d.vals.Keys - {op.id} == d.vals.Keys;
  }

  /** A setter changes its field of that offer, and nothing else; for an unknown id, nothing. */
  lemma SettersChangeOneField(d: Book, id: string, active: bool, labelText: string, allow: bool)
    ensures id !in d.vals ==>
      Apply(d, SetActive(id, active)) == d && Apply(d, SetLabel(id, labelText)) == d &&
      Apply(d, SetAllowPayerMemo(id, allow)) == d
    ensures id in d.vals ==>
      Apply(d, SetActive(id, active)) == Dict(d.keys, d.vals[id := d.vals[id].(active := active)]) &&
      Apply(d, SetLabel(id, labelText)) == Dict(d.keys, d.vals[id := d.vals[id].(labelText := labelText)]) &&
      Apply(d, SetAllowPayerMemo(id, allow)) == Dict(d.keys, d.vals[id := d.vals[id].(allowPayerMemo := allow)])
  {
  }

  /** Removing an offer leaves the others as they are. */
  lemma RemovedOffer(d: Book, id: string)
    requires Sound(d)
    ensures var d' := Apply(d, Remove(id));
      id !in d'.vals && SameOthers(d, d', id)
  {
    var d' := Apply(d, Remove(id));
    var S := d.vals.Keys - {id};
    FilterTwice(d.keys, S, d'.vals.Keys - {id});
    assert S * (d'.vals.Keys - {id}) == S;
  }

  /** Pinning gives every offer without a relay the stripped one, as not chosen by the user, and
      leaves the rest of it, and every other offer, alone; a blank relay pins nothing. */
  lemma PinnedOffers(d: Book, relay: string, id: string)
    requires id in d.vals
    ensures var d' := Apply(d, PinMissing(relay));
      d'.keys == d.keys && d'.vals.Keys == d.vals.Keys &&
      d'.vals[id] ==
        if Strip(relay) != "" && Strip(d.vals[id].relay) == ""
        then d.vals[id].(relay := Strip(relay), relayCustom := false) else d.vals[id]
  {
    hide Strip;
  }

  // ---- what a payer was given ----------------------------------------------------------

  function Lookup(d: Book, id: string): Option<Offer> {
    if id in d.vals then Some(d.vals[id]) else None
  }

  /** `make_noffer`: what is encoded for an offer. */
  function NofferOf(d: Book, id: string, pubkey: string, default: string): NofferCode.Offer {
    NofferCode.Offer(pubkey, AdvertisedRelay(Lookup(d, id), default), id, NofferCode.Spontaneous, None)
  }

  lemma ApplyKeepsRelay(d: Book, op: Op, id: string)
    requires id in d.vals && Strip(d.vals[id].relay) != ""
    requires op.Create? || op.Remove? ==> op.id != id
    ensures id in Apply(d, op).vals && Apply(d, op).vals[id].relay == d.vals[id].relay
  {
  }

  /** Once an offer has a relay, its noffer stays what it is through any run that does not
      remove it, whatever the default relay was then and is now. */
  lemma {:induction false} NofferNeverChanges(d: Book, ops: seq<Op>, id: string, pubkey: string, default: string,
                                              later: string)
    requires id in d.vals && Strip(d.vals[id].relay) != "" && Spares(ops, id)
    ensures id in Run(d, ops).vals && Run(d, ops).vals[id].relay == d.vals[id].relay
    ensures NofferOf(Run(d, ops), id, pubkey, later) == NofferOf(d, id, pubkey, default)
  {
    if ops != [] {
      NofferNeverChanges(d, ops[..|ops| - 1], id, pubkey, default, later);
      ApplyKeepsRelay(Run(d, ops[..|ops| - 1]), ops[|ops| - 1], id);
    }
  }

  /** An offer without a relay follows the default, until the first successful probe pins it
      for good. */
  lemma PinnedForGood(d: Book, relay: string, ops: seq<Op>, id: string, pubkey: string, default: string)
    requires id in d.vals && Strip(d.vals[id].relay) == "" && Strip(relay) != "" && Spares(ops, id)
    ensures AdvertisedRelay(Lookup(d, id), default) == default
    ensures AdvertisedRelay(Lookup(Run(Apply(d, PinMissing(relay)), ops), id), default) == Strip(relay)
  {
    var after := Apply(d, PinMissing(relay));
    StripIdempotent(relay);
    assert after.vals[id].relay == Strip(relay);
    NofferNeverChanges(after, ops, id, pubkey, default, default);
  }

  /** The offers in order. */
  function Listing(d: Book): seq<Offer>
    requires Valid(d)
  {
    seq(|d.keys|, i requires 0 <= i < |d.keys| => KeyPresent(d, i); d.vals[d.keys[i]])
  }

  /** Whoever decodes the noffer of a stored offer is sent to a relay the plugin listens on. */
  lemma DecodedRelayIsListenedOn(c: NofferCode.Codec, d: Book, id: string, pubkey: string, default: string)
    requires NofferCode.Lawful(c) && Sound(d) && id in d.vals
    requires NofferCode.Encodable(c, NofferOf(d, id, pubkey, default))
    ensures var got := NofferCode.Decoded(c, NofferCode.CodeOf(c, NofferOf(d, id, pubkey, default)));
      got.Value? && got.value.offer == id &&
      (Strip(got.value.relay) in Listened(Listing(d), default) || Strip(got.value.relay) == "")
  {
    NofferCode.CodeRoundTrip(c, NofferOf(d, id, pubkey, default));
    var x := Strip(AdvertisedRelay(Some(d.vals[id]), default));
    assert id in Elems(d.keys);
    var i :| 0 <= i < |d.keys| && d.keys[i] == id;
    var shown := AdvertisedFields(Listing(d), default);
    assert Listing(d)[i] == d.vals[id] && Strip(shown[i]) == x;
    AdvertisedMembers(Listing(d), default, x);
    ListensWhereItAdvertises(Listing(d), default, x);
  }

  lemma {:induction false} RaisesOnce(storage: seq<Raw>, i: nat)
    requires i <= |storage| && Loaded(storage[..i]).Err?
    ensures Loaded(storage).Err?
    decreases |storage| - i
  {
    if i == |storage| {
      assert storage[..i] == storage;
    } else {
      assert storage[..i + 1][..i] == storage[..i];
      RaisesOnce(storage, i + 1);
    }
  }

  lemma SoundIsValid(d: Book)
    requires Sound(d)
    ensures Valid(d)
  {
  }

  lemma PinnedKeys(d: Book, relay: string, ks: set<string>)
    ensures Pinned(d, relay, ks).keys == d.keys
  {
  }

  lemma PinStart(d: Book, relay: string, blank: set<string>)
    ensures d == Pinned(d, relay, blank * Elems(d.keys[..0])) && Filter(d.keys[..0], blank) == []
  {
    assert Pinned(d, relay, {}).vals == d.vals;
    assert blank * Elems(d.keys[..0]) == {};
  }

  lemma PinEnd(d: Book, blank: set<string>)
    requires Valid(d) && blank == Unpinned(d)
    ensures blank * Elems(d.keys) == blank
  {
    hide Strip;
  }

  /** Where nothing was listed, nothing was pinned. */
  lemma NonePinned(d: Book, relay: string)
    requires Valid(d) && Filter(d.keys, Unpinned(d)) == []
    ensures Pinned(d, relay, Unpinned(d)) == d
  {
    hide Strip;
    assert forall k :: k in Unpinned(d) ==> k in Elems(d.keys) && k in Filter(d.keys, Unpinned(d));
    assert Unpinned(d) == {};
    assert Pinned(d, relay, {}).vals == d.vals;
  }

  /** One turn of the loop. */
  lemma PinStep(d: Book, relay: string, blank: set<string>, i: nat)
    requires Valid(d) && i < |d.keys| && blank == Unpinned(d)
    ensures d.keys[i] in d.vals && (d.keys[i] in blank <==> Strip(d.vals[d.keys[i]].relay) == "")
    ensures var k, now := d.keys[i], Pinned(d, relay, blank * Elems(d.keys[..i]));
      var next := Pinned(d, relay, blank * Elems(d.keys[..i + 1]));
      next == if k in blank then Put(now, k, d.vals[k].(relay := relay, relayCustom := false)) else now
  {
    hide Strip;
    KeyPresent(d, i);
    var k := d.keys[i];
    assert d.keys[..i + 1] == d.keys[..i] + [k];
    ElemsSnoc(d.keys[..i], k);
    var now, next := Pinned(d, relay, blank * Elems(d.keys[..i])), Pinned(d, relay, blank * Elems(d.keys[..i + 1]));
    if k in blank {
      assert next.vals == now.vals[k := d.vals[k].(relay := relay, relayCustom := false)];
    } else {
      assert next.vals == now.vals;
    }
  }

  // ---- the class -------------------------------------------------------------------------

  class OfferStore {
    var offers: Book
    var stored: seq<Raw>

    /** What is in memory is what a restart would load. */
    ghost predicate Valid()
      reads this
    {
      Sound(offers) && Loaded(stored) == Ok(offers)
    }

    /** A store over existing storage, or no store when an entry cannot be read. */
    static method Open(storage: seq<Raw>) returns (r: Result<OfferStore>)
      ensures r.Ok? <==> Loaded(storage).Ok?
      ensures r.Ok? ==> fresh(r.value) && r.value.Valid() && r.value.stored == storage
      ensures r.Ok? ==> Ok(r.value.offers) == Loaded(storage)
    {
      var offers := Load(storage);
      if offers.Err? {
        return Err;
      }
      LoadedSound(storage);
      var store := new OfferStore(storage, offers.value);
      return Ok(store);
    }

    static method Load(storage: seq<Raw>) returns (r: Result<Book>)
      ensures r == Loaded(storage)
    {
      var offers: Book := Empty();
      for i := 0 to |storage|
        invariant Loaded(storage[..i]) == Ok(offers)
      {
        assert storage[..i + 1][..i] == storage[..i];
        var offer := FromDict(storage[i]);
        if offer.Err? {
          RaisesOnce(storage, i + 1);
          return Err;
        }
        offers := Put(offers, offer.value.offerId, offer.value);
      }
      assert storage[..|storage|] == storage;
      return Ok(offers);
    }

    constructor (storage: seq<Raw>, loaded: Book)
      requires Sound(loaded) && Loaded(storage) == Ok(loaded)
      ensures Valid() && offers == loaded && stored == storage
    {
      offers, stored := loaded, storage;
    }

    method Persist()
      requires Sound(offers)
      modifies this`stored
      ensures Valid() && stored == Persisted(offers)
    {
      stored := Persisted(offers);
      ReloadIsIdentity(offers);
    }

    method Create(op: Op)
      requires Valid() && op.Create?
      modifies this
      ensures Valid() && offers == Apply(old(offers), op)
    {
      ApplySound(offers, op);
      offers := Put(offers, op.id, Created(op));
      Persist();
    }

    /** `pin_missing_relays` */
    method PinMissingRelays(url: string) returns (pinned: seq<string>)
      requires Valid()
      modifies this
      ensures Valid() && offers == Apply(old(offers), PinMissing(url))
      ensures pinned == if Strip(url) == "" then [] else Filter(offers.keys, Unpinned(old(offers)))
    {
      hide Strip, Pinned, Unpinned, Filter, Sound, Loaded;
      pinned := [];
      var relay := Strip(url);
      if relay == "" {
        return;
      }
      ApplySound(offers, PinMissing(url));
      SoundIsValid(offers);
      PinnedKeys(offers, relay, Unpinned(offers));
      ghost var before := offers;
      offers, pinned := PinAll(offers, relay);
      if pinned != [] {
        Persist();
      } else {
        NonePinned(before, relay);
      }
    }

    /** Its loop. */
    static method PinAll(d: Book, relay: string) returns (all: Book, pinned: seq<string>)
      requires PyDict.Valid(d)
      ensures all == Pinned(d, relay, Unpinned(d)) && pinned == Filter(d.keys, Unpinned(d))
    {
      all, pinned := d, [];
      ghost var blank := Unpinned(d);
      PinStart(d, relay, blank);
      hide PyDict.Valid, Strip, Pinned, Unpinned;
      for i := 0 to |d.keys|
        invariant all == Pinned(d, relay, blank * Elems(d.keys[..i]))
        invariant pinned == Filter(d.keys[..i], blank)
      {
        var k := d.keys[i];
        PinStep(d, relay, blank, i);
        FilterStep(d.keys, blank, i);
        if Strip(d.vals[k].relay) == "" {
          all := Put(all, k, d.vals[k].(relay := relay, relayCustom := false));
          pinned := pinned + [k];
        }
      }
      assert d.keys[..|d.keys|] == d.keys;
      PinEnd(d, blank);
    }

    method RemoveOffer(id: string) returns (found: bool)
      requires Valid()
      modifies this
      ensures Valid() && offers == Apply(old(offers), Remove(id)) && found == (id in old(offers).vals)
    {
      found := id in offers.vals;
      if found {
        ApplySound(offers, Remove(id));
        offers := Drop(offers, id);
        Persist();
      } else {
        assert offers.vals.Keys - {id} == offers.vals.Keys;
        RestrictAll(offers);
      }
    }

    method SetOfferActive(id: string, active: bool) returns (found: bool)
      requires Valid()
      modifies this
      ensures Valid() && offers == Apply(old(offers), SetActive(id, active)) && found == (id in old(offers).vals)
    {
      found := id in offers.vals;
      if found {
        ApplySound(offers, SetActive(id, active));
        offers := Put(offers, id, offers.vals[id].(active := active));
        Persist();
      }
    }

    method SetOfferLabel(id: string, labelText: string) returns (found: bool)
      requires Valid()
      modifies this
      ensures Valid() && offers == Apply(old(offers), SetLabel(id, labelText)) && found == (id in old(offers).vals)
    {
      found := id in offers.vals;
      if found {
        ApplySound(offers, SetLabel(id, labelText));
        offers := Put(offers, id, offers.vals[id].(labelText := labelText));
        Persist();
      }
    }

    method SetOfferMemo(id: string, allow: bool) returns (found: bool)
      requires Valid()
      modifies this
      ensures Valid() && offers == Apply(old(offers), SetAllowPayerMemo(id, allow)) && found == (id in old(offers).vals)
    {
      found := id in offers.vals;
      if found {
        ApplySound(offers, SetAllowPayerMemo(id, allow));
        offers := Put(offers, id, offers.vals[id].(allowPayerMemo := allow));
        Persist();
      }
    }

    /** A restart: a new store over the same storage. */
    method Restart()
      requires Valid()
      modifies this
      ensures Valid() && offers == Apply(old(offers), Reload) && stored == old(stored)
    {
      var loaded := Load(stored);
      offers := loaded.value;
    }
  }
}
