/** The multi-version memory as an object: record with its in-place scan of the last write list,
    validation and conversion, each against the operation on values of the same name. */
module MvMemoryClass {
  import opened Types
  import opened Reads
  import opened Memory
  import opened Fees

  ghost predicate NoDuplicates(ls: seq<Location>) {
    forall p, q :: 0 <= p < q < |ls| ==> ls[p] != ls[q]
  }

  ghost function Elements(ls: seq<Location>): set<Location> {
    set k | 0 <= k < |ls| :: ls[k]
  }

  /** Vec::swap_remove. */
  function SwapRemove(ls: seq<Location>, k: nat): (r: seq<Location>)
    requires k < |ls|
    ensures |r| == |ls| - 1
  {
    ls[k := ls[|ls| - 1]][..|ls| - 1]
  }

  lemma SwapRemoved(ls: seq<Location>, k: nat)
    requires k < |ls| && NoDuplicates(ls)
    ensures NoDuplicates(SwapRemove(ls, k)) && Elements(SwapRemove(ls, k)) == Elements(ls) - {ls[k]}
    ensures forall q :: 0 <= q < k ==> SwapRemove(ls, k)[q] == ls[q]
  {
    var r := SwapRemove(ls, k);
    forall l ensures l in Elements(r) <==> l in Elements(ls) - {ls[k]} {
      if l in Elements(r) {
        var q :| 0 <= q < |r| && r[q] == l;
        assert l == if q == k then ls[|ls| - 1] else ls[q];
      }
      if l in Elements(ls) - {ls[k]} {
        var q :| 0 <= q < |ls| && ls[q] == l;
        assert r[if q == |ls| - 1 then k else q] == l;
      }
    }
  }

  lemma Pushed(ls: seq<Location>, l: Location)
    requires NoDuplicates(ls) && l !in Elements(ls)
    ensures NoDuplicates(ls + [l]) && Elements(ls + [l]) == Elements(ls) + {l}
  {
    var r := ls + [l];
    forall p, q | 0 <= p < q < |r| ensures r[p] != r[q] {
      if q == |ls| { assert ls[p] in Elements(ls); }
    }
    forall k ensures k in Elements(r) <==> k in Elements(ls) + {l} {
      if k in Elements(ls) { var q :| 0 <= q < |ls| && ls[q] == k; assert r[q] == k; }
      if k == l { assert r[|ls|] == l; }
    }
  }

  /** The data with the entries of version v at the locations of `done` inserted. */
  ghost predicate Inserted(before: MvData, now: MvData, done: set<Location>, v: Version, ws: WriteSet) {
    && done <= ws.Keys && now.Keys == before.Keys + done
    && forall l :: l in now ==>
         now[l] == if l in done then At(before, l)[v.tx := Data(v.incarnation, ws[l])] else before[l]
  }

  lemma InsertedNext(before: MvData, now: MvData, done: set<Location>, v: Version, ws: WriteSet, l: Location)
    requires Inserted(before, now, done, v, ws) && l in ws && l !in done
    ensures Inserted(before, PutEntry(now, l, v.tx, Data(v.incarnation, ws[l])), done + {l}, v, ws)
  {
  }

  class MvMemory {
    var data: MvData
    const lastRead: array<ReadSet>
    const lastWrite: array<seq<Location>>
    var lazyAddresses: set<Address>

    ghost predicate Valid()
      reads this, lastRead, lastWrite
    {
      && lastRead.Length == lastWrite.Length
      && forall i :: 0 <= i < lastWrite.Length ==> NoDuplicates(lastWrite[i])
    }

    ghost function Value(): Mem
      reads this, lastRead, lastWrite
    {
      Mem(data, lastRead[..],
          seq(lastWrite.Length, i requires 0 <= i < lastWrite.Length reads this, lastWrite => Elements(lastWrite[i])))
    }

    method Contains(ls: seq<Location>, l: Location) returns (found: bool)
      ensures found <==> l in Elements(ls)
    {
      for k := 0 to |ls|
        invariant forall q :: 0 <= q < k ==> ls[q] != l
      {
        if ls[k] == l { return true; }
      }
      found := false;
    }

    ghost predicate OthersKept(was: seq<seq<Location>>, i: nat)
      reads lastWrite
    {
      |was| == lastWrite.Length && forall k :: 0 <= k < |was| && k != i ==> lastWrite[k] == was[k]
    }

    /** Drop the entries of transaction i where it no longer writes, scanning its last write list. */
    method RemoveOld(i: nat, writes: WriteVec, ghost ws: WriteSet)
      requires Valid() && i < lastWrite.Length && Represents(writes, ws)
      modifies this`data, lastWrite
      ensures Valid() && OthersKept(old(lastWrite[..]), i)
      ensures Elements(lastWrite[i]) == Elements(old(lastWrite[i])) * ws.Keys
      ensures data.Keys == old(data).Keys
      ensures forall l :: l in data ==>
                data[l] == if l in Elements(old(lastWrite[i])) && l !in ws then old(data)[l] - {i} else old(data)[l]
    {
      ghost var was := Elements(lastWrite[i]);
      var k := 0;
      while k < |lastWrite[i]|
        invariant k <= |lastWrite[i]| && NoDuplicates(lastWrite[i]) && OthersKept(old(lastWrite[..]), i)
        invariant was * ws.Keys <= Elements(lastWrite[i]) <= was
        invariant forall q :: 0 <= q < k ==> lastWrite[i][q] in ws
        invariant data.Keys == old(data).Keys
        invariant forall l :: l in data ==>
                    data[l] == if l in was - Elements(lastWrite[i]) then old(data)[l] - {i} else old(data)[l]
        decreases |lastWrite[i]| - k
      {
        var l := lastWrite[i][k];
        assert l in Elements(lastWrite[i]);
        var at := Find(writes, l);
        if at == |writes| {
          assert l !in ws;
          if l in data { data := data[l := data[l] - {i}]; }
          SwapRemoved(lastWrite[i], k);
          lastWrite[i] := SwapRemove(lastWrite[i], k);
        } else {
          k := k + 1;
        }
      }
    }

    method InsertOne(v: Version, l: Location, value: MemoryValue) returns (isNew: bool)
      requires Valid() && v.tx < lastWrite.Length
      modifies this`data, lastWrite
      ensures Valid() && OthersKept(old(lastWrite[..]), v.tx)
      ensures Elements(lastWrite[v.tx]) == Elements(old(lastWrite[v.tx])) + {l}
      ensures data == PutEntry(old(data), l, v.tx, Data(v.incarnation, value))
      ensures isNew <==> l !in Elements(old(lastWrite[v.tx]))
    {
      data := PutEntry(data, l, v.tx, Data(v.incarnation, value));
      var known := Contains(lastWrite[v.tx], l);
      isNew := !known;
      if isNew {
        Pushed(lastWrite[v.tx], l);
        lastWrite[v.tx] := lastWrite[v.tx] + [l];
      }
    }

    /** Insert the new entries and extend the write list; tell whether it grew. */
    method RegisterNew(v: Version, writes: WriteVec, ghost ws: WriteSet) returns (wroteNew: bool)
      requires Valid() && v.tx < lastWrite.Length && Represents(writes, ws)
      requires Elements(lastWrite[v.tx]) <= ws.Keys
      modifies this`data, lastWrite
      ensures Valid() && OthersKept(old(lastWrite[..]), v.tx) && Elements(lastWrite[v.tx]) == ws.Keys
      ensures Inserted(old(data), data, ws.Keys, v, ws)
      ensures wroteNew <==> !(ws.Keys <= Elements(old(lastWrite[v.tx])))
    {
      ghost var was := Elements(lastWrite[v.tx]);
      ghost var done: set<Location> := {};
      wroteNew := false;
      var k := 0;
      while k < |writes|
        invariant k <= |writes| && Valid() && OthersKept(old(lastWrite[..]), v.tx)
        invariant forall q :: 0 <= q < |writes| ==> (writes[q].0 in done <==> q < k)
        invariant Elements(lastWrite[v.tx]) == was + done && (wroteNew <==> !(done <= was))
        invariant Inserted(old(data), data, done, v, ws)
      {
        var (l, value) := writes[k];
        InsertedNext(old(data), data, done, v, ws, l);
        var isNew := InsertOne(v, l, value);
        if isNew { wroteNew := true; }
        done := done + {l};
        k := k + 1;
      }
      forall l | l in ws ensures l in done { var q :| KeyAt(writes, q, l); }
      assert done == ws.Keys;
    }

    /** MvMemory::record. */
    method Record(v: Version, rs: ReadSet, writes: WriteVec, ghost ws: WriteSet) returns (wroteNew: bool)
      requires Valid() && v.tx < lastWrite.Length && Represents(writes, ws)
      modifies this`data, lastRead, lastWrite
      ensures Valid() && Value() == Memory.Record(old(Value()), v, rs, ws)
      ensures wroteNew <==> exists l :: l in ws && l !in old(Value()).lastWrite[v.tx]
    {
      ghost var start := Value();
      lastRead[v.tx] := rs;
      RemoveOld(v.tx, writes, ws);
      wroteNew := RegisterNew(v, writes, ws);
      assert data == Rewritten(start.data, v, start.lastWrite[v.tx], ws);
      assert Value().lastWrite == start.lastWrite[v.tx := ws.Keys];
    }

    /** MvMemory::convert_writes_to_estimates. */
    method ConvertWritesToEstimates(i: nat)
      requires Valid() && i < lastWrite.Length
      modifies this`data
      ensures Valid() && Value() == Memory.ConvertWritesToEstimates(old(Value()), i)
    {
      var ls := lastWrite[i];
      for k := 0 to |ls|
        invariant data.Keys == old(data).Keys
        invariant forall l :: l in data ==>
                    data[l] == if l in Elements(ls[..k]) then old(data)[l][i := Estimate] else old(data)[l]
      {
        var l := ls[k];
        assert ls[..k + 1] == ls[..k] + [l];
        assert Elements(ls[..k + 1]) == Elements(ls[..k]) + {l};
        if l in data {
          var h: Entries := data[l];
          data := data[l := h[i := Estimate]];
        }
      }
      assert ls[..|ls|] == ls;
      assert data == Memory.ConvertWritesToEstimates(old(Value()), i).data;
    }

    /** The inner loop of validation: the chain against an iterator over the entries below i. */
    method ChainMatches(h: Entries, i: nat, chain: seq<Origin>) returns (ok: bool)
      ensures ok <==> Matches(h, i, chain)
    {
      var at := i;    // entries at or above it are consumed
      for k := 0 to |chain|
        invariant Matches(h, i, chain) <==> Matches(h, at, chain[k..])
      {
        assert chain[k..][0] == chain[k] && chain[k..][1..] == chain[k + 1..];
        var closest := Closest(h, at);
        if chain[k].FromMv? {
          if closest.Some? && h[closest.value].Data? {
            if closest.value != chain[k].version.tx || chain[k].version.incarnation != h[closest.value].incarnation {
              return false;
            }
          } else {
            return false;
          }
        } else if closest.Some? {
          return false;
        }
        at := if closest.Some? then closest.value else 0;
      }
      ok := true;
    }

    /** MvMemory::validate_read_locations. */
    method ValidateReadLocations(i: nat) returns (ok: bool)
      requires Valid() && i < lastRead.Length
      ensures ok <==> ValidReads(data, i, lastRead[i])
    {
      var rs := lastRead[i];
      var todo := rs.Keys;
      while todo != {}
        invariant todo <= rs.Keys && forall l :: l in rs && l !in todo ==> ValidAt(data, l, i, rs[l])
      {
        var l :| l in todo;
        if l in data {
          var matches := ChainMatches(data[l], i, rs[l]);
          if !matches { return false; }
        } else if |rs[l]| != 1 || rs[l][|rs[l]| - 1] != FromStorage {
          return false;
        }
        todo := todo - {l};
      }
      ok := true;
    }

    /** MvMemory::add_lazy_addresses. */
    method AddLazyAddresses(addresses: seq<Address>)
      modifies this`lazyAddresses
      ensures lazyAddresses == old(lazyAddresses) + set a | a in addresses
    {
      for k := 0 to |addresses|
        invariant lazyAddresses == old(lazyAddresses) + set a | a in addresses[..k]
      {
        lazyAddresses := lazyAddresses + {addresses[k]};
        assert addresses[..k + 1] == addresses[..k] + [addresses[k]];
      }
      assert addresses[..|addresses|] == addresses;
    }

    /** MvMemory::consume_lazy_addresses. */
    method ConsumeLazyAddresses() returns (addresses: set<Address>)
      modifies this`lazyAddresses
      ensures addresses == old(lazyAddresses) && lazyAddresses == {}
    {
      addresses, lazyAddresses := lazyAddresses, {};
    }

    /** MvMemory::new: an ESTIMATE for every expected write. */
    constructor (blockSize: nat, estimates: map<Location, set<nat>>, lazyAddresses: set<Address>)
      ensures Valid() && fresh(lastRead) && fresh(lastWrite)
      ensures Value() == Memory.Initial(blockSize, estimates) && this.lazyAddresses == lazyAddresses
    {
      lastRead := new ReadSet[blockSize](_ => map[]);
      lastWrite := new seq<Location>[blockSize](_ => []);
      data := map[];
      this.lazyAddresses := lazyAddresses;
      new;
      assert forall i :: 0 <= i < blockSize ==> Elements(lastWrite[i]) == {};
      assert Value().lastWrite == seq(blockSize, _ => {});
      ghost var empty := Value().lastWrite;
      var todo := estimates.Keys;
      while todo != {}
        invariant todo <= estimates.Keys && data.Keys == estimates.Keys - todo
        invariant forall l :: l in data ==> data[l] == Memory.Initial(blockSize, estimates).data[l]
        invariant Valid() && Value().lastRead == seq(blockSize, _ => map[]) && Value().lastWrite == empty
        invariant this.lazyAddresses == lazyAddresses
      {
        var l :| l in todo;
        data := data[l := map i | i in estimates[l] :: Estimate];
        todo := todo - {l};
      }
      assert data == Memory.Initial(blockSize, estimates).data;
    }
  }
}
