/** clink/noffer.py: TLV records and the noffer string. bech32 and utf-8 come from
    libraries and are parameters, used only through their laws. */
module Noffer {
  import opened Wrappers
  import opened Bytes

  // ---- TLV ------------------------------------------------------------------------

  datatype Record = Record(tag: byte, value: bytes)

  /** type | length | value; a longer value does not fit the one-byte length. */
  function Wire(r: Record): bytes
    requires |r.value| <= 255
  {
    [r.tag, |r.value|] + r.value
  }

  ghost predicate Short(rs: seq<Record>) {
    forall i :: 0 <= i < |rs| ==> |rs[i].value| <= 255
  }

  /** The records one after the other. */
  function Serial(rs: seq<Record>): bytes
    requires Short(rs)
  {
    if rs == [] then [] else Serial(rs[..|rs| - 1]) + Wire(rs[|rs| - 1])
  }

  /** What the parse loop collects: the values of each tag, in order of appearance. */
  type Parsed = map<byte, seq<bytes>>

  /** The values a parse holds for `t`. */
  function Values(m: Parsed, t: byte): seq<bytes> {
    if t in m then m[t] else []
  }

  /** `result.setdefault(t, []).append(value)` */
  function Append(m: Parsed, r: Record): Parsed {
    m[r.tag := Values(m, r.tag) + [r.value]]
  }

  function Collect(rs: seq<Record>): Parsed {
    if rs == [] then map[] else Append(Collect(rs[..|rs| - 1]), rs[|rs| - 1])
  }

  /** The records of `data` from `at` on, or None when it is no sequence of whole records. */
  function Records(data: bytes, at: nat): Option<seq<Record>>
    requires at <= |data|
    decreases |data| - at
  {
    if at == |data| then Some([])
    else if |data| - at < 2 then None
    else
      var len := data[at + 1];
      if at + 2 + len > |data| then None
      else
        match Records(data, at + 2 + len)
        case None => None
        case Some(rest) => Some([Record(data[at], data[at + 2..at + 2 + len])] + rest)
  }

  /** The records found so far, followed by those still to come. */
  function After(done: seq<Record>, rest: Option<seq<Record>>): Option<seq<Record>> {
    if rest == None then None else Some(done + rest.value)
  }

  ghost predicate IsTail(data: bytes, at: nat, rest: bytes) {
    at <= |data| && rest == data[at..]
  }

  /** What the parse does on a tail of the input: stop, fail, or read a record and go on. */
  lemma NextRecord(data: bytes, at: nat, rest: bytes, done: seq<Record>)
    requires IsTail(data, at, rest)
    ensures rest == [] ==> at <= |data| && After(done, Records(data, at)) == Some(done)
    ensures at <= |data| && (|rest| == 1 || (|rest| >= 2 && 2 + rest[1] > |rest|)) ==>
      After(done, Records(data, at)) == None
    ensures |rest| >= 2 && 2 + rest[1] <= |rest| ==>
      ReadsRecord(data, at, at + 2 + rest[1], done, Record(rest[0], rest[2..2 + rest[1]])) &&
      IsTail(data, at + 2 + rest[1], rest[2 + rest[1]..])
  {
    assert done + [] == done;
    if |rest| >= 2 && 2 + rest[1] <= |rest| {
      var length: nat := rest[1];
      SliceOfTail(data, at, 2, 2 + length);
      var r := Record(data[at], data[at + 2..at + 2 + data[at + 1]]);
      assert (done + [r])[..|done|] == done;
      var more := Records(data, at + 2 + data[at + 1]);
      if more != None { assert done + ([r] + more.value) == done + [r] + more.value; }
    }
  }

  ghost predicate ReadsRecord(data: bytes, at: nat, next: nat, done: seq<Record>, r: Record) {
    at <= next <= |data| &&
    After(done, Records(data, at)) == After(done + [r], Records(data, next)) &&
    Collect(done + [r]) == Append(Collect(done), r)
  }

  lemma NothingRead(data: bytes)
    ensures Records(data, 0) == After([], Records(data, 0))
    ensures Collect([]) == map[] && IsTail(data, 0, data)
  {
    var rest := Records(data, 0);
    if rest != None { assert [] + rest.value == rest.value; }
  }

  lemma SliceOfTail<T>(data: seq<T>, at: nat, lo: nat, hi: nat)
    requires lo <= hi && at + hi <= |data|
    ensures data[at..][lo..hi] == data[at + lo..at + hi] && data[at..][hi..] == data[at + hi..]
  {
  }

  /** `_parse_tlv`: terminates on every input, and collects exactly its whole records. */
  method ParseTlv(data: bytes) returns (r: Result<Parsed>)
    ensures r == match Records(data, 0) case None => Err case Some(rs) => Ok(Collect(rs))
  {
    hide Records, Collect, Append, IsTail, After;
    var result: Parsed := map[];
    var rest := data;
    ghost var at: nat := 0;
    ghost var done: seq<Record> := [];
    NothingRead(data);
    while rest != []
      invariant at <= |data| && IsTail(data, at, rest) && result == Collect(done)
      invariant Records(data, 0) == After(done, Records(data, at))
      decreases |rest|
    {
      NextRecord(data, at, rest, done);
      if |rest| < 2 {
        return Err;
      }
      var t, length := rest[0], rest[1];
      if 2 + length > |rest| {
        return Err;
      }
      var value := rest[2..2 + length];
      result := Append(result, Record(t, value));
      done := done + [Record(t, value)];
      at := at + 2 + length;
      rest := rest[2 + length..];
    }
    NextRecord(data, at, rest, done);
    assert Records(data, 0) == Some(done);
    return Ok(result);
  }

  /** Serialising what was parsed gives the input back. */
  lemma {:induction false} RecordsSerialise(data: bytes, at: nat)
    requires at <= |data| && Records(data, at).Some?
    ensures Short(Records(data, at).value)
    ensures Serial(Records(data, at).value) == data[at..]
    decreases |data| - at
  {
    if at < |data| {
      var len := data[at + 1];
      var r := Record(data[at], data[at + 2..at + 2 + len]);
      RecordsSerialise(data, at + 2 + len);
      var rest := Records(data, at + 2 + len).value;
      assert Records(data, at).value == [r] + rest;
      SerialCons(r, rest);
      TailSplits(data, at, r);
      hide Records, Serial, Wire, Short;
    }
  }

  lemma TailSplits(data: bytes, at: nat, r: Record)
    requires at + 2 + |r.value| <= |data| && |r.value| <= 255 && data[at] == r.tag && data[at + 1] == |r.value|
    requires data[at + 2..at + 2 + |r.value|] == r.value
    ensures data[at..] == Wire(r) + data[at + 2 + |r.value|..]
  {
  }

  lemma {:induction false} SerialCons(r: Record, rs: seq<Record>)
    requires |r.value| <= 255 && Short(rs)
    ensures Short([r] + rs) && Serial([r] + rs) == Wire(r) + Serial(rs)
  {
    hide Wire, Serial;
    var all := [r] + rs;
    SerialEmpty();
    SerialSnoc(all);
    if rs == [] {
      assert all == [r] && [r][..0] == [];
    } else {
      var init := rs[..|rs| - 1];
      assert all[..|all| - 1] == [r] + init && all[|all| - 1] == rs[|rs| - 1];
      SerialSnoc(rs);
      SerialCons(r, init);
      assert Wire(r) + Serial(init) + Wire(rs[|rs| - 1]) == Wire(r) + (Serial(init) + Wire(rs[|rs| - 1]));
    }
  }

  lemma SerialEmpty()
    ensures Serial([]) == []
  {
  }

  /** `part` is what `data` holds from `from` to `to`. */
  ghost predicate Holds(data: bytes, from: nat, to: nat, part: bytes) {
    from <= to <= |data| && data[from..to] == part
  }

  lemma HoldsBoth(data: bytes, from: nat, to: nat, a: bytes, b: bytes)
    requires Holds(data, from, to, a + b)
    ensures Holds(data, from, from + |a|, a) && Holds(data, from + |a|, to, b)
    ensures to == from + |a| + |b|
  {
    var whole := data[from..to];
    assert whole[..|a|] == a && whole[|a|..] == b;
    assert data[from..from + |a|] == whole[..|a|] && data[from + |a|..to] == whole[|a|..];
  }

  lemma ReadsOne(data: bytes, at: nat, to: nat, r: Record)
    requires |r.value| <= 255 && Holds(data, at, to, Wire(r)) && Records(data, to).Some?
    ensures Records(data, at) == Some([r] + Records(data, to).value)
  {
    var w := data[at..to];
    assert w[0] == data[at] && w[1] == data[at + 1];
    HoldsBoth(data, at, to, [r.tag, |r.value|], r.value);
  }

  lemma SerialSnoc(rs: seq<Record>)
    requires Short(rs) && rs != []
    ensures Short(rs[..|rs| - 1]) && |rs[|rs| - 1].value| <= 255
    ensures Serial(rs) == Serial(rs[..|rs| - 1]) + Wire(rs[|rs| - 1])
  {
  }

  lemma NothingHeld(data: bytes, from: nat, to: nat)
    requires Holds(data, from, to, Serial([]))
    ensures from == to <= |data|
  {
  }

  /** Parsing what was serialised gives the records back, whatever precedes and follows them. */
  lemma {:induction false} SerialParses(data: bytes, from: nat, to: nat, rs: seq<Record>)
    requires Short(rs) && Holds(data, from, to, Serial(rs))
    requires to <= |data| && Records(data, to).Some?
    ensures from <= |data| && Records(data, from) == Some(rs + Records(data, to).value)
    decreases |rs|
  {
    hide Records, Serial, Wire, Holds, Short;
    var tail := Records(data, to).value;
    if rs == [] {
      NothingHeld(data, from, to);
      assert rs + tail == tail;
      return;
    }
    var init, r := rs[..|rs| - 1], rs[|rs| - 1];
    SerialSnoc(rs);
    HoldsBoth(data, from, to, Serial(init), Wire(r));
    var here := from + |Serial(init)|;
    ReadsOne(data, here, to, r);
    SerialParses(data, from, here, init);
    assert init + ([r] + tail) == rs + tail;
  }

  /** `_parse_tlv` succeeds exactly on serialised records, and then knows them. */
  lemma ParsesExactlySerials(data: bytes, rs: seq<Record>)
    ensures Records(data, 0) == Some(rs) <==> Short(rs) && Serial(rs) == data
  {
    if Records(data, 0) == Some(rs) {
      RecordsSerialise(data, 0);
      assert data[0..] == data;
    }
    if Short(rs) && Serial(rs) == data {
      assert data[0..|data|] == data;
      SerialParses(data, 0, |data|, rs);
      assert rs + [] == rs;
    }
  }

  /** The two parses merged: for each tag, the values of `a` and then those of `b`. */
  function Merged(a: Parsed, b: Parsed): Parsed {
    map t | t in a.Keys + b.Keys :: Values(a, t) + Values(b, t)
  }

  lemma MergeAppend(a: Parsed, b: Parsed, r: Record)
    ensures Merged(a, Append(b, r)) == Append(Merged(a, b), r)
  {
    var x, y := Merged(a, Append(b, r)), Append(Merged(a, b), r);
    var va, vb, v := Values(a, r.tag), Values(b, r.tag), [r.value];
    assert va + (vb + v) == (va + vb) + v;
    assert Values(Append(b, r), r.tag) == vb + v && Values(Merged(a, b), r.tag) == va + vb;
    assert x.Keys == y.Keys;
    assert x[r.tag] == y[r.tag];
    forall t | t in x && t != r.tag ensures x[t] == y[t] {
      assert Values(Append(b, r), t) == Values(b, t);
    }
  }

  lemma {:induction false} CollectConcat(a: seq<Record>, b: seq<Record>)
    ensures Collect(a + b) == Merged(Collect(a), Collect(b))
  {
    if b == [] {
      assert a + b == a;
      var m := Collect(a);
      assert Merged(m, map[]).Keys == m.Keys;
      assert forall t :: t in m ==> m[t] + [] == m[t];
    } else {
      var init, last := b[..|b| - 1], b[|b| - 1];
      assert (a + b)[..|a + b| - 1] == a + init;
      CollectConcat(a, init);
      MergeAppend(Collect(a), Collect(init), last);
    }
  }

  lemma {:induction false} SerialConcat(a: seq<Record>, b: seq<Record>)
    requires Short(a) && Short(b)
    ensures Short(a + b) && Serial(a + b) == Serial(a) + Serial(b)
  {
    if b == [] {
      assert a + b == a;
    } else {
      var init, last := b[..|b| - 1], b[|b| - 1];
      assert (a + b)[..|a + b| - 1] == a + init && (a + b)[|a + b| - 1] == last;
      SerialConcat(a, init);
      assert (Serial(a) + Serial(init)) + Wire(last) == Serial(a) + (Serial(init) + Wire(last));
    }
  }

  /** Parsing two well-formed strings in a row merges their parses. */
  lemma ParseOfConcatenation(x: bytes, y: bytes)
    requires Records(x, 0).Some? && Records(y, 0).Some?
    ensures Records(x + y, 0) == Some(Records(x, 0).value + Records(y, 0).value)
    ensures Collect(Records(x + y, 0).value) == Merged(Collect(Records(x, 0).value), Collect(Records(y, 0).value))
  {
    var a, b := Records(x, 0).value, Records(y, 0).value;
    ParsesExactlySerials(x, a);
    ParsesExactlySerials(y, b);
    SerialConcat(a, b);
    ParsesExactlySerials(x + y, a + b);
    CollectConcat(a, b);
  }

  // ---- encoding a dict of records -------------------------------------------------------

  lemma LeastExists(S: set<byte>) returns (t: byte)
    requires S != {}
    ensures t in S && forall u :: u in S ==> t <= u
  {
    var some :| some in S;
    var rest := S - {some};
    t := some;
    if rest != {} {
      var least := LeastExists(rest);
      t := if least < some then least else some;
    }
    forall u | u in S ensures t <= u {
      if u != some { assert u in rest; }
    }
  }

  /** The smallest type in `S`. */
  function Least(S: set<byte>): (t: byte)
    requires S != {}
    ensures t in S && forall u :: u in S ==> t <= u
  {
    assert exists t :: t in S && forall u :: u in S ==> t <= u by { var t := LeastExists(S); }
    var t :| t in S && forall u :: u in S ==> t <= u;
    t
  }

  /** The records of `m` in the order of `sorted(records, reverse=True)`: highest type first. */
  function Descending(m: map<byte, bytes>): (r: seq<Record>)
    ensures forall i :: 0 <= i < |r| ==> r[i].tag in m && r[i].value == m[r[i].tag]
    decreases |m|
  {
    if m == map[] then []
    else
      var t := Least(m.Keys);
      Descending(m - {t}) + [Record(t, m[t])]
  }

  lemma DescendingStep(m: map<byte, bytes>)
    requires m != map[]
    ensures var t := Least(m.Keys);
      t in m && |m - {t}| < |m| && Descending(m) == Descending(m - {t}) + [Record(t, m[t])]
  {
    assert (m - {Least(m.Keys)}).Keys == m.Keys - {Least(m.Keys)};
  }

  /** Highest type first. */
  lemma {:induction false} DescendingSorted(m: map<byte, bytes>)
    ensures forall i, j :: 0 <= i < j < |Descending(m)| ==> Descending(m)[i].tag > Descending(m)[j].tag
    decreases |m|
  {
    if m == map[] { return; }
    DescendingStep(m);
    var t := Least(m.Keys);
    DescendingSorted(m - {t});
    var rest := Descending(m - {t});
    forall i | 0 <= i < |rest| ensures rest[i].tag > t {
      assert rest[i].tag in m - {t};
    }
    hide Descending, Least;
    assert forall i, j :: 0 <= i < j < |rest| ==> rest[i].tag > rest[j].tag;
  }

  /** No record is left out. */
  lemma {:induction false} DescendingComplete(m: map<byte, bytes>, t: byte)
    requires t in m
    ensures Record(t, m[t]) in Descending(m)
    decreases |m|
  {
    DescendingStep(m);
    var least := Least(m.Keys);
    if t != least {
      DescendingComplete(m - {least}, t);
    }
  }

  ghost predicate AllShort(m: map<byte, bytes>) {
    forall t :: t in m ==> |m[t]| <= 255
  }

  /** `_encode_tlv`: refuses exactly a value longer than 255 bytes, and otherwise writes the
      records in descending order of type. */
  method EncodeTlv(records: map<byte, bytes>) returns (r: Result<bytes>)
    ensures r.Ok? <==> AllShort(records)
    ensures r.Ok? ==> Short(Descending(records)) && r.value == Serial(Descending(records))
  {
    var rs := Descending(records);
    var out: bytes := [];
    ShortWhenAllShort(records);
    hide Descending, AllShort;
    for i := 0 to |rs|
      invariant Short(rs[..i]) && out == Serial(rs[..i])
    {
      if |rs[i].value| > 255 {
        return Err;
      }
      assert rs[..i + 1][..i] == rs[..i];
      out := out + Wire(rs[i]);
    }
    assert rs[..|rs|] == rs;
    return Ok(out);
  }

  lemma ShortWhenAllShort(m: map<byte, bytes>)
    ensures Short(Descending(m)) <==> AllShort(m)
  {
    if Short(Descending(m)) {
      forall t | t in m ensures |m[t]| <= 255 {
        DescendingComplete(m, t);
      }
    }
  }

  /** The dict that maps each tag to the one value it was encoded with. */
  function Singletons(m: map<byte, bytes>): Parsed {
    map t | t in m :: [m[t]]
  }

  lemma {:induction false} CollectDescending(m: map<byte, bytes>)
    ensures Collect(Descending(m)) == Singletons(m)
    decreases |m|
  {
    if m == map[] { return; }
    DescendingStep(m);
    var t := Least(m.Keys);
    var rest, r := Descending(m - {t}), Record(t, m[t]);
    CollectDescending(m - {t});
    assert (rest + [r])[..|rest|] == rest;
    assert Collect(rest + [r]) == Append(Collect(rest), r);
    hide Collect, Descending, Least;
    assert [] + [m[t]] == [m[t]];
    assert Append(Singletons(m - {t}), r) == Singletons(m);
  }

  /** Decoding inverts encoding on every map of byte-sized types to short values. */
  lemma TlvRoundTrip(m: map<byte, bytes>)
    requires AllShort(m)
    ensures Short(Descending(m)) && Records(Serial(Descending(m)), 0) == Some(Descending(m))
    ensures Collect(Descending(m)) == Singletons(m)
  {
    ParsesExactlySerials(Serial(Descending(m)), Descending(m));
    CollectDescending(m);
  }
}
