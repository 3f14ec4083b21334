/** The multi-version memory as a value: its single-location updates, and what a whole record and a
    whole conversion make of it. */
module Memory {
  import opened Types
  import opened Reads

  /** Entries by location, and the last read set and written locations of each transaction. */
  datatype Mem = Mem(data: MvData, lastRead: seq<ReadSet>, lastWrite: seq<set<Location>>)

  function EntryOf(data: MvData, l: Location, i: nat): Option<MemoryEntry> {
    if l in data && i in data[l] then Some(data[l][i]) else None
  }

  /** MvMemory::new. */
  function Initial(n: nat, estimates: map<Location, set<nat>>): Mem {
    Mem(map l | l in estimates :: (map i | i in estimates[l] :: Estimate),
        seq(n, _ => map[]), seq(n, _ => {}))
  }

  // ---- Single-location updates ----

  function PutEntry(data: MvData, l: Location, i: nat, e: MemoryEntry): MvData {
    data[l := At(data, l)[i := e]]
  }

  function DropEntry(data: MvData, l: Location, i: nat): MvData {
    if l in data then data[l := data[l] - {i}] else data
  }

  /** convert_writes_to_estimates touches only locations that have an entry map. */
  function MarkEntry(data: MvData, l: Location, i: nat): MvData {
    if l in data then PutEntry(data, l, i, Estimate) else data
  }

  lemma UpdateEntries(data: MvData, l: Location, i: nat, e: MemoryEntry, k: Location, j: nat)
    ensures EntryOf(PutEntry(data, l, i, e), k, j) == if k == l && j == i then Some(e) else EntryOf(data, k, j)
    ensures EntryOf(DropEntry(data, l, i), k, j) == if k == l && j == i then None else EntryOf(data, k, j)
    ensures EntryOf(data, l, i).Some? ==> MarkEntry(data, l, i) == PutEntry(data, l, i, Estimate)
  {
  }

  // ---- Whole operations ----

  /** Exactly the entries of transaction v.tx become the new write set. */
  function Rewritten(data: MvData, v: Version, before: set<Location>, ws: WriteSet): MvData {
    map l | l in data.Keys + ws.Keys ::
      if l in ws then At(data, l)[v.tx := Data(v.incarnation, ws[l])]
      else if l in before then data[l] - {v.tx}
      else data[l]
  }

  function Record(m: Mem, v: Version, rs: ReadSet, ws: WriteSet): Mem
    requires v.tx < |m.lastRead| == |m.lastWrite|
  {
    Mem(Rewritten(m.data, v, m.lastWrite[v.tx], ws),
        m.lastRead[v.tx := rs],
        m.lastWrite[v.tx := ws.Keys])
  }

  function ConvertWritesToEstimates(m: Mem, i: nat): Mem
    requires i < |m.lastWrite|
  {
    m.(data := map l | l in m.data :: if l in m.lastWrite[i] then m.data[l][i := Estimate] else m.data[l])
  }
}
