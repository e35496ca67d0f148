/** clink/nostr_transport.py and the relay watchdog of clink/clink_plugin.py: which relay
    connections the listener holds. Whether a connect succeeds is a parameter, and connections
    are objects whose identity matters. */
module Transport {
  import opened Offers
  import opened OfferBook

  class Relay {
    const url: string
    var connected: bool
    var wsOpen: bool
    var taskDone: bool

    constructor (url: string)
      ensures this.url == url && !connected
    {
      this.url := url;
      connected, wsOpen, taskDone := false, false, false;
    }

    method Connect(up: bool)
      modifies this
      ensures connected == up && (up ==> Live())
    {
      connected, wsOpen, taskDone := up, up, false;
    }

    method Close()
      modifies `connected, `wsOpen
      ensures !connected
    {
      connected, wsOpen := false, false;
    }

    /** The negation of `_relay_connection_dead`. */
    predicate Live()
      reads this
    {
      connected && wsOpen && !taskDone
    }
  }

  // ---- lists of relays --------------------------------------------------------------

  function Urls(rs: seq<Relay>): set<string> {
    set i | 0 <= i < |rs| :: rs[i].url
  }

  /** `[r for r in relays if r not in gone]` */
  function Without(rs: seq<Relay>, gone: set<Relay>): seq<Relay> {
    if rs == [] then []
    else
      var rest, last := Without(rs[..|rs| - 1], gone), rs[|rs| - 1];
      if last in gone then rest else rest + [last]
  }

  /** The relays whose url is not in `desired`. */
  function Outside(rs: seq<Relay>, desired: set<string>): set<Relay> {
    set r | r in rs && r.url !in desired
  }

  lemma {:induction false} WithoutMembers(rs: seq<Relay>, gone: set<Relay>)
    ensures forall x :: x in Without(rs, gone) <==> x in rs && x !in gone
  {
    if rs != [] {
      var init := rs[..|rs| - 1];
      WithoutMembers(init, gone);
      assert rs == init + [rs[|rs| - 1]];
    }
  }

  lemma {:induction false} WithoutConcat(a: seq<Relay>, b: seq<Relay>, gone: set<Relay>)
    ensures Without(a + b, gone) == Without(a, gone) + Without(b, gone)
  {
    if b == [] {
      assert a + b == a;
    } else {
      var init := b[..|b| - 1];
      assert (a + b)[..|a + b| - 1] == a + init;
      WithoutConcat(a, init, gone);
    }
  }

  /** Nothing goes when none of it is to go. */
  lemma {:induction false} WithoutNone(rs: seq<Relay>, gone: set<Relay>)
    requires forall r :: r in rs ==> r !in gone
    ensures Without(rs, gone) == rs
  {
    if rs != [] {
      WithoutNone(rs[..|rs| - 1], gone);
    }
  }

  /** A connection to `url` among `rs` works. */
  ghost predicate Served(rs: seq<Relay>, url: string)
    reads rs
  {
    exists r :: r in rs && r.url == url && r.Live()
  }

  // ---- the manager -----------------------------------------------------------------------

  class HeartbeatManager {
    var relays: seq<Relay>
    var connected: bool
    /** How often the open subscriptions were issued again. */
    var refreshes: nat

    constructor ()
      ensures relays == [] && !connected
    {
      relays, connected, refreshes := [], false, 0;
    }

    /** `update_relays`, for the normalized urls: drops the connections outside `desired`, keeps
        the others as they are, adds one new connection for each missing url that answers, and
        issues the subscriptions again if the set differed and something is connected: over no
        connection at all that would end the listener's event stream. */
    method UpdateRelays(desired: set<string>, up: string -> bool) returns (ok: bool, ghost added: seq<Relay>)
      modifies this`relays, this`refreshes, relays`connected, relays`wsOpen
      ensures ok == connected
      ensures !ok ==> relays == old(relays) && refreshes == old(refreshes) && added == []
      ensures ok ==> relays == Without(old(relays), Outside(old(relays), desired)) + added
      ensures forall r :: r in added ==> fresh(r) && r.Live()
      ensures forall i, j :: 0 <= i < j < |added| ==> added[i].url != added[j].url
      ensures ok ==> Urls(added) == set u | u in desired && u !in Urls(old(relays)) && up(u)
      ensures forall r :: r in old(relays) && r.url in desired ==> unchanged(r)
      ensures ok ==> forall r :: r in old(relays) && r.url !in desired ==> !r.connected
      ensures ok && desired != Urls(old(relays)) && relays != [] ==> refreshes == old(refreshes) + 1
      ensures desired == Urls(old(relays)) || relays == [] ==> refreshes == old(refreshes)
    {
      added := [];
      if !connected {
        return false, added;
      }
      ok := true;
      ghost var before := relays;
      var tried;
      tried, added := AttachMissing(desired, up);
      OutsideUnchanged(before, added, desired);
      var removed := DetachOutside(desired);
      WithoutConcat(before, added, Outside(before, desired));
      WithoutNone(added, Outside(before, desired));
      SameUrls(before, desired);
      if (tried || removed) && relays != [] {
        refreshes := refreshes + 1;
      }
    }

    /** The first half: connect to what is missing, and add what answered. */
    method AttachMissing(desired: set<string>, up: string -> bool) returns (tried: bool, ghost added: seq<Relay>)
      modifies this`relays
      ensures relays == old(relays) + added
      ensures forall r :: r in added ==> fresh(r) && r.Live() && r.url in desired
      ensures forall i, j :: 0 <= i < j < |added| ==> added[i].url != added[j].url
      ensures Urls(added) == set u | u in desired && u !in Urls(old(relays)) && up(u)
      ensures tried == (desired - Urls(old(relays)) != {})
    {
      var missing := desired - Urls(relays);
      tried := missing != {};
      var connections := ConnectAll(missing, up);
      added := connections;
      relays := relays + connections;
      forall r | r in added ensures r.url in desired {
        assert r.url in Urls(added);
      }
    }

    /** The second half: close and forget the connections outside `desired`. */
    method DetachOutside(desired: set<string>) returns (removed: bool)
      modifies this`relays, Outside(relays, desired)`connected, Outside(relays, desired)`wsOpen
      ensures relays == Without(old(relays), Outside(old(relays), desired))
      ensures removed == (Outside(old(relays), desired) != {})
      ensures forall r :: r in Outside(old(relays), desired) ==> !r.connected
    {
      var gone := Outside(relays, desired);
      removed := gone != {};
      CloseAll(relays, gone);
      relays := Without(relays, gone);
    }

    /** New connections to `missing`, in any order; those that fail are not kept. */
    method ConnectAll(missing: set<string>, up: string -> bool) returns (rs: seq<Relay>)
      ensures forall r :: r in rs ==> fresh(r) && r.Live()
      ensures forall i, j :: 0 <= i < j < |rs| ==> rs[i].url != rs[j].url
      ensures Urls(rs) == set u | u in missing && up(u)
    {
      rs := [];
      var todo := missing;
      while todo != {}
        invariant todo <= missing
        invariant forall r :: r in rs ==> fresh(r) && r.Live()
        invariant forall i, j :: 0 <= i < j < |rs| ==> rs[i].url != rs[j].url
        invariant Urls(rs) == set u | u in missing - todo && up(u)
        decreases |todo|
      {
        var url :| url in todo;
        todo := todo - {url};
        var relay := new Relay(url);
        relay.Connect(up(url));
        if relay.connected {
          UrlsSnoc(rs, relay);
          rs := rs + [relay];
        }
      }
    }

    method CloseAll(rs: seq<Relay>, gone: set<Relay>)
      modifies gone`connected, gone`wsOpen
      ensures forall r :: r in rs && r in gone ==> !r.connected
    {
      for i := 0 to |rs|
        invariant forall j :: 0 <= j < i && rs[j] in gone ==> !rs[j].connected
      {
        if rs[i] in gone {
          rs[i].Close();
        }
      }
    }

    /** `_drop_relays`: closes the given connections, whether or not that raises, and forgets
        them. */
    method DropRelays(gone: set<Relay>)
      requires gone <= set r | r in relays
      modifies this`relays, relays`connected, relays`wsOpen
      ensures relays == Without(old(relays), gone)
      ensures forall r :: r in gone ==> !r.connected
      ensures forall r :: r in relays ==> r in old(relays)
      ensures forall r :: r in relays ==> unchanged(r)
    {
      CloseAll(relays, gone);
      WithoutMembers(relays, gone);
      relays := Without(relays, gone);
    }

    /** `prune_dead_relays`: drops exactly the connections seen to be broken. */
    method PruneDeadRelays()
      modifies this`relays, relays`connected, relays`wsOpen
      ensures relays == if connected then Without(old(relays), old(Broken(relays))) else old(relays)
      ensures connected ==> forall r :: r in old(relays) ==>
        (r in relays <==> old(r.connected) && old(r.wsOpen) && !old(r.taskDone))
      ensures forall r :: r in relays ==> r in old(relays)
      ensures forall r :: r in relays ==> unchanged(r)
    {
      if !connected {
        return;
      }
      var dead := Broken(relays);
      WithoutMembers(relays, dead);
      if dead == {} {
        WithoutNone(relays, dead);
        return;
      }
      DropRelays(dead);
    }

    /** `ensure_listener_relays`, for the normalized urls: when every desired relay is attached it
        does nothing at all, even about connections nobody desires any more. */
    method EnsureListenerRelays(desired: set<string>, up: string -> bool)
      modifies this`relays, this`refreshes, relays`connected, relays`wsOpen
      ensures !connected || desired <= Urls(old(relays)) ==> relays == old(relays) && refreshes == old(refreshes)
      ensures forall r :: r in old(relays) && (r.url in desired || !connected) ==> r in relays && unchanged(r)
      ensures connected ==> forall u :: u in desired ==>
        (Served(relays, u) <==> old(Served(relays, u)) || (u !in Urls(old(relays)) && up(u)))
    {
      if !connected {
        return;
      }
      if desired <= Urls(relays) {
        return;
      }
      ghost var before := relays;
      ghost var ok, added := UpdateRelays(desired, up);
      WithoutMembers(before, Outside(before, desired));
      forall u | u in desired
        ensures Served(relays, u) <==> old(Served(relays, u)) || (u !in Urls(before) && up(u))
      {
        if old(Served(relays, u)) {
          var r :| r in before && r.url == u && old(r.Live());
          assert r in relays;
        }
        if u !in Urls(before) && up(u) {
          assert u in Urls(added);
          var i :| 0 <= i < |added| && added[i].url == u;
          assert added[i] in relays;
        }
        if Served(relays, u) {
          var r :| r in relays && r.url == u && r.Live();
          if r in added {
            assert u in Urls(added);
          }
        }
      }
    }

    /** One pass of the watchdog: afterwards a desired relay has a working connection exactly when
        it had one or answered now. In particular, when all answer, every desired relay has. */
    method WatchdogPass(desired: set<string>, up: string -> bool)
      modifies this`relays, this`refreshes, relays`connected, relays`wsOpen
      ensures connected ==> forall u :: u in desired ==> (Served(relays, u) <==> old(Served(relays, u)) || up(u))
      ensures forall r :: r in old(relays) && r.url in desired && old(r.Live()) ==> r in relays && r.Live()
    {
      ghost var before := relays;
      ghost var dead := Broken(relays);
      PruneDeadRelays();
      WithoutMembers(before, dead);
      assert forall i :: 0 <= i < |relays| ==> relays[i] in before;
      EnsureListenerRelays(desired, up);
    }

    /** `ping_listener`, once it knows which connections stayed silent: drops them and attaches
        again, leaving the others alone. */
    method ReattachSilent(silent: set<Relay>, desired: set<string>, up: string -> bool)
      requires silent <= set r | r in relays
      modifies this`relays, this`refreshes, relays`connected, relays`wsOpen
      ensures connected ==> forall u :: u in desired && (forall r :: r in old(relays) && r.url == u ==> r in silent) ==>
        (Served(relays, u) <==> up(u))
      ensures forall r :: r in old(relays) && r.url in desired && r !in silent ==> r in relays && unchanged(r)
    {
      ghost var before := relays;
      if connected && silent != {} {
        DropRelays(silent);
      }
      WithoutMembers(before, silent);
      assert forall i :: 0 <= i < |relays| ==> relays[i] in before;
      EnsureListenerRelays(desired, up);
    }

    /** The watchdog's pass for a store's offers: every relay that some noffer advertises and that
        answers, or was connected and working, is then listened on. */
    method ServeOffers(d: Book, default: string, normalize: string -> string, up: string -> bool)
      requires Sound(d)
      modifies this`relays, this`refreshes, relays`connected, relays`wsOpen
      ensures connected ==> forall u :: u in Advertised(Listing(d), default) ==>
        (Served(relays, normalize(u)) <==> old(Served(relays, normalize(u))) || up(normalize(u)))
    {
      var urls := ListenRelays(Listing(d), default);
      var desired := set u | u in urls :: normalize(u);
      forall u | u in Advertised(Listing(d), default) ensures normalize(u) in desired {
        if Listing(d) == [] {
          NoOffers(default);
        } else {
          ListensWhereItAdvertises(Listing(d), default, u);
        }
      }
      WatchdogPass(desired, up);
    }
  }

  /** The connections that do not work. */
  function Broken(rs: seq<Relay>): set<Relay>
    reads rs
  {
    set r | r in rs && !r.Live()
  }

  /** Nothing is missing and nothing is outside exactly when the urls are the desired ones. */
  lemma SameUrls(rs: seq<Relay>, desired: set<string>)
    ensures desired - Urls(rs) == {} && Outside(rs, desired) == {} <==> desired == Urls(rs)
  {
    forall u | u in desired && desired - Urls(rs) == {} ensures u in Urls(rs) {
      assert u !in desired - Urls(rs);
    }
    if Outside(rs, desired) == {} {
      forall u | u in Urls(rs) ensures u in desired {
        var i :| 0 <= i < |rs| && rs[i].url == u;
        assert rs[i] !in Outside(rs, desired);
      }
    }
    forall r | r in rs && desired == Urls(rs) ensures r !in Outside(rs, desired) {
      var i :| 0 <= i < |rs| && rs[i] == r;
    }
  }

  lemma OutsideUnchanged(rs: seq<Relay>, added: seq<Relay>, desired: set<string>)
    requires forall r :: r in added ==> r.url in desired
    ensures Outside(rs + added, desired) == Outside(rs, desired)
  {
  }

  lemma UrlsSnoc(rs: seq<Relay>, r: Relay)
    ensures Urls(rs + [r]) == Urls(rs) + {r.url}
  {
    assert forall i :: 0 <= i < |rs| ==> (rs + [r])[i] == rs[i];
    assert (rs + [r])[|rs|] == r;
  }
}
