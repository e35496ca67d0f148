/** Python's insertion-ordered `dict` and stable `sort`, as the storage the ledgers
    of the plugin are kept in. Overwriting a key keeps its position, a new key goes
    last, and iteration follows the key order. */
module PyDict {

  ghost predicate NoDup<K>(s: seq<K>) {
    forall i, j :: 0 <= i < j < |s| ==> s[i] != s[j]
  }

  function Elems<K(==)>(s: seq<K>): set<K> {
    set k | k in s
  }

  lemma ElemsSnoc<K(!new)>(s: seq<K>, k: K)
    ensures Elems(s + [k]) == Elems(s) + {k}
  {
    assert forall x :: x in s + [k] <==> x in s || x == k;
  }

  lemma ElemsSize<K(!new)>(s: seq<K>)
    requires NoDup(s)
    ensures |Elems(s)| == |s|
  {
    if s != [] {
      var init := s[..|s| - 1];
      ElemsSize(init);
      assert s == init + [s[|s| - 1]];
      ElemsSnoc(init, s[|s| - 1]);
      assert s[|s| - 1] !in Elems(init);
    }
  }

  datatype Dict<K, V> = Dict(keys: seq<K>, vals: map<K, V>)

  /** A dict lists each of its keys once. */
  ghost predicate Valid<K(!new), V>(d: Dict<K, V>) {
    NoDup(d.keys) && Elems(d.keys) == d.vals.Keys
  }

  function Empty<K, V>(): Dict<K, V> {
    Dict([], map[])
  }

  /** `d[k] = v` */
  function Put<K(==), V>(d: Dict<K, V>, k: K, v: V): Dict<K, V> {
    Dict(if k in d.vals then d.keys else d.keys + [k], d.vals[k := v])
  }

  lemma PutValid<K(!new), V>(d: Dict<K, V>, k: K, v: V)
    requires Valid(d)
    ensures Valid(Put(d, k, v))
  {
    ElemsSnoc(d.keys, k);
    assert k in d.keys <==> k in Elems(d.keys);
  }

  /** The members of `s` that lie in `S`, in the order of `s`: `[k for k in s if k in S]`. */
  function Filter<K(==, !new)>(s: seq<K>, S: set<K>): (r: seq<K>)
    ensures forall k :: k in r <==> k in s && k in S
  {
    if s == [] then []
    else
      var rest := Filter(s[..|s| - 1], S);
      if s[|s| - 1] in S then rest + [s[|s| - 1]] else rest
  }

  lemma FilterNoDup<K(!new)>(s: seq<K>, S: set<K>)
    requires NoDup(s)
    ensures NoDup(Filter(s, S))
  {
    if s != [] {
      FilterNoDup(s[..|s| - 1], S);
    }
  }

  lemma FilterSnoc<K(!new)>(s: seq<K>, x: K, S: set<K>)
    ensures Filter(s + [x], S) == if x in S then Filter(s, S) + [x] else Filter(s, S)
  {
    assert (s + [x])[..|s|] == s;
  }

  /** The dict left after deleting every key outside `S`. */
  function Restrict<K(==, !new), V>(d: Dict<K, V>, S: set<K>): Dict<K, V> {
    Dict(Filter(d.keys, S), map k | k in d.vals && k in S :: d.vals[k])
  }

  lemma RestrictValid<K(!new), V>(d: Dict<K, V>, S: set<K>)
    requires Valid(d)
    ensures Valid(Restrict(d, S))
  {
    FilterNoDup(d.keys, S);
    assert forall k :: k in d.keys <==> k in Elems(d.keys);
  }

  /** `d.pop(k, None)`; a key that is absent changes nothing. */
  function Drop<K(==, !new), V>(d: Dict<K, V>, k: K): Dict<K, V> {
    Restrict(d, d.vals.Keys - {k})
  }

  /** Filtering commutes with taking one more element: the loop step of a filter loop. */
  lemma FilterStep<K(!new)>(s: seq<K>, S: set<K>, i: nat)
    requires i < |s|
    ensures Filter(s[..i + 1], S) == if s[i] in S then Filter(s[..i], S) + [s[i]] else Filter(s[..i], S)
  {
    assert s[..i + 1][..i] == s[..i];
  }

  lemma KeyPresent<K(!new), V>(d: Dict<K, V>, i: nat)
    requires Valid(d) && i < |d.keys|
    ensures d.keys[i] in d.vals && d.keys[i] !in d.keys[..i]
  {
    assert d.keys[i] in Elems(d.keys);
  }

  lemma SameKeysSameDict<K(!new), V>(a: Dict<K, V>, b: Dict<K, V>)
    requires Valid(a) && Valid(b) && a.keys == b.keys
    requires forall k :: k in a.vals && k in b.vals ==> a.vals[k] == b.vals[k]
    ensures a == b
  {
    assert a.vals.Keys == b.vals.Keys;
    assert a.vals == b.vals;
  }

  lemma FilterAll<K(!new)>(s: seq<K>, S: set<K>)
    requires Elems(s) <= S
    ensures Filter(s, S) == s
  {
    if s != [] {
      assert s == s[..|s| - 1] + [s[|s| - 1]];
      ElemsSnoc(s[..|s| - 1], s[|s| - 1]);
    }
  }

  lemma FilterTwice<K(!new)>(s: seq<K>, S: set<K>, T: set<K>)
    ensures Filter(Filter(s, S), T) == Filter(s, S * T)
  {
    if s != [] {
      var init := s[..|s| - 1];
      FilterTwice(init, S, T);
      assert (Filter(init, S) + [s[|s| - 1]])[..|Filter(init, S)|] == Filter(init, S);
    }
  }

  lemma RestrictAll<K(!new), V>(d: Dict<K, V>)
    requires Valid(d)
    ensures Restrict(d, d.vals.Keys) == d
    ensures Restrict(d, d.vals.Keys - Elems([])) == d
  {
    FilterAll(d.keys, d.vals.Keys);
    RestrictValid(d, d.vals.Keys);
    SameKeysSameDict(Restrict(d, d.vals.Keys), d);
    assert d.vals.Keys - Elems([]) == d.vals.Keys;
  }

  /** Deleting one more key after a restriction. */
  lemma RestrictDrop<K(!new), V>(d: Dict<K, V>, S: set<K>, k: K)
    requires Valid(d)
    ensures Drop(Restrict(d, S), k) == Restrict(d, S - {k})
  {
    RestrictValid(d, S);
    RestrictValid(Restrict(d, S), Restrict(d, S).vals.Keys - {k});
    RestrictValid(d, S - {k});
    FilterTwice(d.keys, S, Restrict(d, S).vals.Keys - {k});
    FilterCong(d.keys, S * (Restrict(d, S).vals.Keys - {k}), S - {k});
    SameKeysSameDict(Drop(Restrict(d, S), k), Restrict(d, S - {k}));
  }

  lemma FilterCong<K(!new)>(s: seq<K>, S: set<K>, T: set<K>)
    requires Elems(s) * S == Elems(s) * T
    ensures Filter(s, S) == Filter(s, T)
  {
    if s != [] {
      var init, x := s[..|s| - 1], s[|s| - 1];
      assert s == init + [x];
      ElemsSnoc(init, x);
      assert forall k :: k in Elems(init) ==> (k in Elems(s) * S <==> k in Elems(s) * T);
      FilterCong(init, S, T);
      assert x in Elems(s) * S <==> x in Elems(s) * T;
    }
  }

  lemma FilterSize<K(!new), V>(d: Dict<K, V>, S: set<K>)
    requires Valid(d) && S <= d.vals.Keys
    ensures |Filter(d.keys, S)| == |S|
  {
    FilterNoDup(d.keys, S);
    ElemsSize(Filter(d.keys, S));
    assert Elems(Filter(d.keys, S)) == S by {
      assert forall k :: k in S ==> k in Elems(d.keys);
    }
  }

  lemma DictSize<K(!new), V>(d: Dict<K, V>)
    requires Valid(d)
    ensures |d.keys| == |d.vals.Keys|
  {
    ElemsSize(d.keys);
  }

  /** `for k in ks: d.pop(k, None)` */
  method PopAll<K(==, !new), V>(d: Dict<K, V>, ks: seq<K>) returns (left: Dict<K, V>)
    requires Valid(d)
    ensures Valid(left) && left == Restrict(d, d.vals.Keys - Elems(ks))
  {
    left := d;
    RestrictAll(d);
    assert ks[..0] == [];
    for i := 0 to |ks|
      invariant left == Restrict(d, d.vals.Keys - Elems(ks[..i]))
    {
      assert ks[..i + 1] == ks[..i] + [ks[i]];
      ElemsSnoc(ks[..i], ks[i]);
      RestrictDrop(d, d.vals.Keys - Elems(ks[..i]), ks[i]);
      assert d.vals.Keys - Elems(ks[..i]) - {ks[i]} == d.vals.Keys - Elems(ks[..i + 1]);
      left := Drop(left, ks[i]);
    }
    assert ks[..|ks|] == ks;
    RestrictValid(d, d.vals.Keys - Elems(ks));
  }

  // ---- sorting -----------------------------------------------------------

  /** Every member of `s` has a sort key. */
  ghost predicate Keyed<K(!new)>(s: seq<K>, key: map<K, real>) {
    forall i :: 0 <= i < |s| ==> s[i] in key
  }

  /** The position of `k` in `s`. */
  function Pos<K(==, !new)>(s: seq<K>, k: K): (i: nat)
    requires k in s
    ensures i < |s| && s[i] == k
  {
    if s[|s| - 1] == k then |s| - 1 else Pos(s[..|s| - 1], k)
  }

  /** `a` comes before `b` in a stable sort of `s` by `key`: a smaller key, or an equal
      key and an earlier position. */
  ghost predicate Before<K(!new)>(s: seq<K>, key: map<K, real>, a: K, b: K)
    requires a in s && b in s && a in key && b in key
  {
    key[a] < key[b] || (key[a] == key[b] && Pos(s, a) < Pos(s, b))
  }

  /** The members of `s` that come before `k`. */
  ghost function Preceding<K(!new)>(s: seq<K>, key: map<K, real>, k: K): set<K>
    requires k in s && Keyed(s, key)
  {
    set j | j in s && Before(s, key, j, k)
  }

  function Insert<K(!new)>(sorted: seq<K>, key: map<K, real>, k: K): (r: seq<K>)
    requires Keyed(sorted, key) && k in key
    ensures |r| == |sorted| + 1 && Keyed(r, key)
    decreases |sorted|
  {
    if sorted == [] then [k]
    else
      var last := sorted[|sorted| - 1];
      if key[last] <= key[k] then sorted + [k]
      else Insert(sorted[..|sorted| - 1], key, k) + [last]
  }

  /** `sorted(s, key=...)`: Python's sort is stable. */
  function StableSort<K(!new)>(s: seq<K>, key: map<K, real>): (r: seq<K>)
    requires Keyed(s, key)
    ensures |r| == |s| && Keyed(r, key)
  {
    if s == [] then [] else Insert(StableSort(s[..|s| - 1], key), key, s[|s| - 1])
  }

  lemma {:induction false} InsertMembers<K(!new)>(sorted: seq<K>, key: map<K, real>, k: K, x: K)
    requires Keyed(sorted, key) && k in key
    ensures x in Insert(sorted, key, k) <==> x in sorted || x == k
    decreases |sorted|
  {
    if sorted != [] {
      InsertMembers(sorted[..|sorted| - 1], key, k, x);
      MemberSnoc(sorted[..|sorted| - 1], sorted[|sorted| - 1], x);
    }
  }

  lemma MemberSnoc<K(!new)>(init: seq<K>, last: K, x: K)
    ensures x in init + [last] <==> x in init || x == last
    ensures (init + [last])[..|init|] == init && (init + [last])[|init|] == last
  {
  }

  /** A sort has the members it was given. */
  lemma {:induction false} StableSortMembers<K(!new)>(s: seq<K>, key: map<K, real>, x: K)
    requires Keyed(s, key)
    ensures x in StableSort(s, key) <==> x in s
  {
    if s != [] {
      var init, last := s[..|s| - 1], s[|s| - 1];
      StableSortMembers(init, key, x);
      InsertMembers(StableSort(init, key), key, last, x);
      MemberSnoc(init, last, x);
      assert s == init + [last];
    }
  }

  /** `r` lists members of `s` in stable order by `key`. */
  ghost predicate SortedLike<K(!new)>(r: seq<K>, s: seq<K>, key: map<K, real>)
    requires Keyed(r, key)
  {
    (forall i :: 0 <= i < |r| ==> r[i] in s) &&
    (forall i, j :: 0 <= i < j < |r| ==> Before(s, key, r[i], r[j]))
  }

  /** Positions do not change when an element is appended; the new one comes last. */
  lemma PosSnoc<K(!new)>(s: seq<K>, x: K, k: K)
    requires k in s && NoDup(s + [x])
    ensures Pos(s + [x], k) == Pos(s, k) < Pos(s + [x], x) == |s|
  {
    assert (s + [x])[..|s|] == s;
    assert (s + [x])[Pos(s, k)] == k && (s + [x])[|s|] == x;
  }

  /** `Insert` puts `k` right after the last element whose key is not larger. */
  lemma {:induction false} InsertSplits<K(!new)>(sorted: seq<K>, key: map<K, real>, k: K) returns (p: nat)
    requires Keyed(sorted, key) && k in key
    ensures p <= |sorted|
    ensures forall i :: 0 <= i < p ==> Insert(sorted, key, k)[i] == sorted[i]
    ensures Insert(sorted, key, k)[p] == k
    ensures forall i :: p < i <= |sorted| ==> Insert(sorted, key, k)[i] == sorted[i - 1]
    ensures forall i :: p <= i < |sorted| ==> key[k] < key[sorted[i]]
    ensures p > 0 ==> key[sorted[p - 1]] <= key[k]
    decreases |sorted|
  {
    if sorted == [] { return 0; }
    if key[sorted[|sorted| - 1]] <= key[k] {
      p := |sorted|;
    } else {
      p := InsertSplits(sorted[..|sorted| - 1], key, k);
    }
  }

  lemma InsertKeepsOrder<K(!new)>(sorted: seq<K>, s: seq<K>, key: map<K, real>, k: K)
    requires NoDup(s + [k]) && Keyed(sorted, key) && k in key
    requires forall i :: 0 <= i < |sorted| ==> sorted[i] in s
    requires SortedLike(sorted, s + [k], key)
    ensures SortedLike(Insert(sorted, key, k), s + [k], key)
  {
    var p := InsertSplits(sorted, key, k);
    var t, r := s + [k], Insert(sorted, key, k);
    hide Insert, NoDup;
    forall i | 0 <= i < p ensures Before(t, key, sorted[i], k) {
      PosSnoc(s, k, sorted[i]);
      if i < p - 1 { assert Before(t, key, sorted[i], sorted[p - 1]); }
    }
    forall i | 0 <= i < |r| ensures r[i] in t {
      if i < p { assert r[i] == sorted[i]; } else if i > p { assert r[i] == sorted[i - 1]; }
    }
    forall i, j | 0 <= i < j < |r| ensures Before(t, key, r[i], r[j]) {
      if i != p && j != p {
        assert Before(t, key, sorted[if i < p then i else i - 1], sorted[if j < p then j else j - 1]);
      }
    }
  }

  lemma {:induction false} StableSortSorts<K(!new)>(s: seq<K>, key: map<K, real>)
    requires NoDup(s) && Keyed(s, key)
    ensures SortedLike(StableSort(s, key), s, key)
  {
    if s != [] {
      var init, k := s[..|s| - 1], s[|s| - 1];
      assert s == init + [k];
      StableSortSorts(init, key);
      var r := StableSort(init, key);
      hide NoDup;
      forall i, j | 0 <= i < j < |r| ensures Before(s, key, r[i], r[j]) {
        assert Before(init, key, r[i], r[j]);
        PosSnoc(init, k, r[i]);
        PosSnoc(init, k, r[j]);
      }
      assert SortedLike(r, s, key);
      InsertKeepsOrder(r, init, key, k);
    }
  }

  /** The rank of a member is its index in the stable sort. */
  lemma StableSortByRank<K(!new)>(s: seq<K>, key: map<K, real>, i: nat)
    requires NoDup(s) && Keyed(s, key) && i < |s|
    ensures NoDup(StableSort(s, key))
    ensures StableSort(s, key)[i] in s && |Preceding(s, key, StableSort(s, key)[i])| == i
  {
    StableSortSorts(s, key);
    var r := StableSort(s, key);
    assert NoDup(r) by {
      forall a, b | 0 <= a < b < |r| ensures r[a] != r[b] { assert Before(s, key, r[a], r[b]); }
    }
    assert Preceding(s, key, r[i]) == Elems(r[..i]) by {
      forall x ensures x in Preceding(s, key, r[i]) <==> x in r[..i] {
        PrecedingIsPrefix(s, key, r, i, x);
      }
    }
    ElemsSize(r[..i]);
  }

  lemma PrecedingIsPrefix<K(!new)>(s: seq<K>, key: map<K, real>, r: seq<K>, i: nat, x: K)
    requires Keyed(s, key) && Keyed(r, key) && SortedLike(r, s, key) && i < |r|
    requires r == StableSort(s, key)
    ensures x in Preceding(s, key, r[i]) <==> x in r[..i]
  {
    StableSortMembers(s, key, x);
    if x in s {
      var j :| 0 <= j < |r| && r[j] == x;
      if j < i {
        assert r[..i][j] == x;
        assert Before(s, key, r[j], r[i]);
      } else {
        assert i < j ==> Before(s, key, r[i], r[j]);
        assert x !in r[..i] by {
          forall a | 0 <= a < i ensures r[..i][a] != x {
            assert Before(s, key, r[a], r[i]);
          }
        }
      }
    } else {
      assert x !in r;
    }
  }

  /** Before the last member come exactly those whose key is not larger. */
  lemma PrecedingLast<K(!new)>(s: seq<K>, x: K, key: map<K, real>)
    requires NoDup(s + [x]) && Keyed(s + [x], key)
    ensures forall k :: k in s ==> k in key
    ensures Preceding(s + [x], key, x) == set k | k in s && key[k] <= key[x]
  {
    var t := s + [x];
    assert t[|s|] == x;
    forall k | k in s ensures k in key {
      assert t[Pos(s, k)] == k;
    }
    forall k ensures k in Preceding(t, key, x) <==> k in s && key[k] <= key[x] {
      MemberSnoc(s, x, k);
      if k in s { PosSnoc(s, x, k); }
    }
  }

  /** The slice `s[:n]`. */
  function FirstN<T>(s: seq<T>, n: nat): seq<T> {
    if n <= |s| then s[..n] else s
  }

  /** The first `n` of a stable sort are the members of rank below `n`. */
  lemma FirstByRank<K(!new)>(s: seq<K>, key: map<K, real>, n: nat, k: K)
    requires NoDup(s) && Keyed(s, key)
    ensures NoDup(FirstN(StableSort(s, key), n))
    ensures |FirstN(StableSort(s, key), n)| == if n <= |s| then n else |s|
    ensures k in FirstN(StableSort(s, key), n) <==> k in s && |Preceding(s, key, k)| < n
  {
    var r := StableSort(s, key);
    StableSortMembers(s, key, k);
    if s != [] { StableSortByRank(s, key, 0); }
    if k in s {
      var i :| 0 <= i < |r| && r[i] == k;
      StableSortByRank(s, key, i);
      if i < n {
        assert FirstN(r, n)[i] == k;
      }
    }
  }
}
