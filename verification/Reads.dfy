/** Reading a location of the multi-version memory on behalf of transaction i, the origin chain a
    read leaves behind, and the validation of such a chain against a later memory. */
module Reads {
  import opened Types
  import opened Accounts

  /** Lazy deltas met on the way, newest first, and the absolute value below them; None: storage. */
  datatype Trace = Trace(deltas: seq<Delta>, base: Option<MemoryValue>)

  datatype Walked =
    | Found(origins: seq<Origin>, trace: Trace)
    | Estimated(seen: seq<Origin>, on: nat)
    | Destroyed
    | Invalid(seen: seq<Origin>)

  const STORAGE_ONLY: Walked := Found([FromStorage], Trace([], None))

  function DeltaOf(v: MemoryValue): Delta
    requires v.LazyRecipient? || v.LazySender?
  {
    if v.LazyRecipient? then Credit(v.addition) else Debit(v.subtraction)
  }

  function Beyond(o: Origin, d: Delta, rest: Walked): Walked {
    match rest
    case Found(os, t) => Found([o] + os, Trace([d] + t.deltas, t.base))
    case Estimated(os, on) => Estimated([o] + os, on)
    case Invalid(os) => Invalid([o] + os)
    case Destroyed => Destroyed
  }

  /** Visit the entries below i from the newest to the oldest. Account reads go through lazy deltas
      down to an absolute value or storage; slot and code reads stop at the first entry. A code read
      treats an ESTIMATE as "go to storage". */
  function Walk(l: Location, h: Entries, i: nat): Walked
    decreases i
  {
    if i == 0 then STORAGE_ONLY
    else if i - 1 !in h then Walk(l, h, i - 1)
    else
      match h[i - 1]
      case Estimate => if l.CodeAt? then STORAGE_ONLY else Estimated([], i - 1)
      case Data(incarnation, value) =>
        var o := FromMv(Version(i - 1, incarnation));
        if IsLazy(l, value) then Beyond(o, DeltaOf(value), Walk(l, h, i - 1))
        else if IsAbsolute(l, value) then Found([o], Trace([], Some(value)))
        else if l.CodeAt? then (if value.SelfDestructed? then Destroyed else STORAGE_ONLY)
        else Invalid(if l.AccountAt? then [o] else [])
  }

  /** The value a transaction sees. */
  function Resolve(cs: ChainState, l: Location, t: Trace): ReadValue {
    match l
    case AccountAt(a) =>
      AccountValue(Settle(t.deltas,
                          if t.base.Some? && t.base.value.Basic? then Some(t.base.value.account)
                          else cs.Account(a)))
    case CodeAt(a) =>
      CodeValue(if t.base.Some? && t.base.value.CodeHash? then Some(t.base.value.hash) else cs.Code(a))
    case SlotAt(a, k) =>
      SlotValue(if t.base.Some? && t.base.value.Storage? then t.base.value.word else cs.Slot(a, k))
  }

  datatype ReadOutcome =
    | Ok(origins: seq<Origin>, value: ReadValue)
    | Inconsistent
    | Blocking(on: nat)
    | Fallback
    | BadType

  /** The check of a repeated read against the origins of the first one, `prev`. An account walk that
      ends at an absolute value compares only the origins it met; other reads compare the last one. */
  predicate Consistent(l: Location, prev: seq<Origin>, origins: seq<Origin>)
    requires prev != [] && origins != []
  {
    if l.AccountAt? then
      if origins[|origins| - 1].FromStorage? then origins == prev else origins <= prev
    else
      prev[|prev| - 1] == origins[|origins| - 1]
  }

  lemma {:induction false} WalkNonEmpty(l: Location, h: Entries, i: nat)
    ensures Walk(l, h, i).Found? ==> Walk(l, h, i).origins != []
    decreases i
  {
    if i > 0 { WalkNonEmpty(l, h, i - 1); }
  }

  /** One read, tracked in the read set of the attempt: `prev` is [] on the first read of l. */
  function ReadLocation(cs: ChainState, l: Location, h: Entries, i: nat, prev: seq<Origin>): ReadOutcome
  {
    match Walk(l, h, i)
    case Destroyed => Fallback
    case Invalid(seen) => if prev == [] || seen <= prev then BadType else Inconsistent
    case Estimated(seen, on) => if prev == [] || seen <= prev then Blocking(on) else Inconsistent
    case Found(origins, trace) =>
      WalkNonEmpty(l, h, i);
      if prev == [] then Ok(origins, Resolve(cs, l, trace))
      else if Consistent(l, prev, origins) then Ok(prev, Resolve(cs, l, trace))
      else Inconsistent
  }

  // ---- Validation ----

  /** The iterator's next_back below i. */
  function Closest(h: Entries, i: nat): (c: Option<nat>)
    ensures c.Some? ==> c.value < i && c.value in h && forall k :: c.value < k < i ==> k !in h
    ensures c.None? ==> forall k :: 0 <= k < i ==> k !in h
    decreases i
  {
    if i == 0 then None else if i - 1 in h then Some(i - 1) else Closest(h, i - 1)
  }

  /** The loop of validate_read_locations over one location that has an entry map. */
  predicate Matches(h: Entries, i: nat, chain: seq<Origin>)
    decreases |chain|
  {
    chain == [] ||
    match Closest(h, i)
    case None => chain[0].FromStorage? && Matches(h, 0, chain[1..])
    case Some(c) =>
      && chain[0].FromMv?
      && h[c].Data?
      && chain[0].version == Version(c, h[c].incarnation)
      && Matches(h, c, chain[1..])
  }

  type MvData = map<Location, Entries>

  function At(data: MvData, l: Location): Entries {
    if l in data then data[l] else map[]
  }

  predicate ValidAt(data: MvData, l: Location, i: nat, chain: seq<Origin>) {
    if l in data then Matches(data[l], i, chain) else chain == [FromStorage]
  }

  /** validate_read_locations. */
  ghost predicate ValidReads(data: MvData, i: nat, rs: ReadSet) {
    forall l :: l in rs ==> ValidAt(data, l, i, rs[l])
  }

  // ---- Chains against the log of everything ever recorded ----

  /** What each version has ever recorded. */
  type Written = map<Version, WriteSet>

  /** A chain that some walk could have produced for transaction i. */
  ghost predicate ChainOk(l: Location, chain: seq<Origin>, i: nat, log: Written)
    decreases |chain|
  {
    && chain != []
    && match chain[0]
       case FromStorage => |chain| == 1
       case FromMv(v) =>
         && v.tx < i
         && v in log
         && l in log[v]
         && if IsLazy(l, log[v][l]) then ChainOk(l, chain[1..], v.tx, log)
            else IsAbsolute(l, log[v][l]) && |chain| == 1
  }

  ghost function TraceOf(l: Location, chain: seq<Origin>, i: nat, log: Written): Trace
    requires ChainOk(l, chain, i, log)
    decreases |chain|
  {
    match chain[0]
    case FromStorage => Trace([], None)
    case FromMv(v) =>
      var value := log[v][l];
      if IsLazy(l, value) then
        var rest := TraceOf(l, chain[1..], v.tx, log);
        Trace([DeltaOf(value)] + rest.deltas, rest.base)
      else Trace([], Some(value))
  }

  /** Every value stored at l was recorded by the version it carries. */
  ghost predicate Logged(l: Location, h: Entries, log: Written) {
    forall j :: j in h && h[j].Data? ==>
      && Version(j, h[j].incarnation) in log
      && l in log[Version(j, h[j].incarnation)]
      && log[Version(j, h[j].incarnation)][l] == h[j].value
  }

  ghost predicate Extends(log: Written, log': Written) {
    forall v :: v in log ==> v in log' && log'[v] == log[v]
  }

  lemma {:induction false} ChainExtends(l: Location, chain: seq<Origin>, i: nat, log: Written, log': Written)
    requires ChainOk(l, chain, i, log) && Extends(log, log')
    ensures ChainOk(l, chain, i, log')
    ensures TraceOf(l, chain, i, log') == TraceOf(l, chain, i, log)
    decreases |chain|
  {
    if chain[0].FromMv? && IsLazy(l, log[chain[0].version][l]) {
      ChainExtends(l, chain[1..], chain[0].version.tx, log, log');
    }
  }

  lemma {:induction false} ChainWider(l: Location, chain: seq<Origin>, i: nat, i': nat, log: Written)
    requires ChainOk(l, chain, i, log) && i <= i'
    ensures ChainOk(l, chain, i', log)
    ensures TraceOf(l, chain, i', log) == TraceOf(l, chain, i, log)
  {
  }

  /** A successful walk leaves a chain whose logged meaning is the walk's own. */
  lemma {:induction false} WalkLeavesChain(l: Location, h: Entries, i: nat, log: Written)
    requires Logged(l, h, log)
    requires Walk(l, h, i).Found?
    ensures ChainOk(l, Walk(l, h, i).origins, i, log)
    ensures TraceOf(l, Walk(l, h, i).origins, i, log) == Walk(l, h, i).trace
    decreases i
  {
    if i > 0 {
      if i - 1 !in h {
        WalkLeavesChain(l, h, i - 1, log);
        ChainWider(l, Walk(l, h, i - 1).origins, i - 1, i, log);
      } else if h[i - 1].Data? && IsLazy(l, h[i - 1].value) {
        WalkLeavesChain(l, h, i - 1, log);
        assert Walk(l, h, i).origins[1..] == Walk(l, h, i - 1).origins;
      }
    }
  }

  /** A consistent repeated read met exactly the origins of the first read, so it returned the same
      value whatever happened to the memory in between. */
  lemma {:induction false} PrefixChainEqual(l: Location, c: seq<Origin>, prev: seq<Origin>, i: nat, i': nat,
                                            log: Written)
    requires ChainOk(l, c, i, log) && ChainOk(l, prev, i', log)
    requires Consistent(l, prev, c)
    ensures c == prev
    decreases |c|
  {
    if l.AccountAt? && c <= prev && c[0].FromMv? && IsLazy(l, log[c[0].version][l]) {
      assert prev[0] == c[0];
      assert c[1..] <= prev[1..];
      PrefixChainEqual(l, c[1..], prev[1..], c[0].version.tx, c[0].version.tx, log);
    }
  }

  lemma RepeatedReadSame(cs: ChainState, l: Location, h: Entries, i: nat, prev: seq<Origin>, log: Written)
    requires Logged(l, h, log)
    requires prev != [] && ChainOk(l, prev, i, log)
    requires ReadLocation(cs, l, h, i, prev).Ok?
    ensures ReadLocation(cs, l, h, i, prev) == Ok(prev, Resolve(cs, l, TraceOf(l, prev, i, log)))
    ensures Walk(l, h, i).Found? && Walk(l, h, i).origins == prev
  {
    WalkLeavesChain(l, h, i, log);
    PrefixChainEqual(l, Walk(l, h, i).origins, prev, i, i, log);
  }

  // ---- Validation refines re-reading ----

  lemma {:induction false} WalkSkips(l: Location, h: Entries, i: nat)
    ensures Walk(l, h, i) ==
            match Closest(h, i) case None => STORAGE_ONLY case Some(c) => Walk(l, h, c + 1)
    decreases i
  {
    if i > 0 && i - 1 !in h { WalkSkips(l, h, i - 1); }
  }

  /** A chain that still validates is exactly what a fresh walk would find, with the same meaning. */
  lemma {:induction false} ValidMeansRereads(l: Location, h: Entries, i: nat, chain: seq<Origin>, log: Written)
    requires Logged(l, h, log) && ChainOk(l, chain, i, log)
    requires Matches(h, i, chain)
    ensures Walk(l, h, i) == Found(chain, TraceOf(l, chain, i, log))
    decreases |chain|
  {
    WalkSkips(l, h, i);
    var c := Closest(h, i);
    if c.Some? && IsLazy(l, h[c.value].value) {
      ValidMeansRereads(l, h, c.value, chain[1..], log);
      assert chain == [chain[0]] + chain[1..];
    }
  }

  /** The entry next to transaction i is a value that a read of l can use. */
  predicate Readable(l: Location, h: Entries, i: nat) {
    var c := Closest(h, i);
    c.None? || (h[c.value].Data? && (IsAbsolute(l, h[c.value].value) || IsLazy(l, h[c.value].value)))
  }

  /** Conversely, what a fresh walk finds validates, except for a code read that went to storage past
      an ESTIMATE or a value of another kind. */
  lemma {:induction false} RereadsMeansValid(l: Location, h: Entries, i: nat)
    requires Walk(l, h, i).Found?
    ensures Matches(h, i, Walk(l, h, i).origins) <==> (l.CodeAt? ==> Readable(l, h, i))
    decreases i
  {
    WalkSkips(l, h, i);
    var c := Closest(h, i);
    if c.Some? && h[c.value].Data? && IsLazy(l, h[c.value].value) {
      assert Walk(l, h, i).origins[1..] == Walk(l, h, c.value).origins;
      RereadsMeansValid(l, h, c.value);
    }
  }

  /** For account and slot reads validation succeeds exactly when a fresh walk finds the same origins; for
      a code read it may fail although the walk does. Either way what validates reads the same value. */
  lemma ValidExactlyRereads(cs: ChainState, l: Location, h: Entries, i: nat, chain: seq<Origin>, log: Written)
    requires Logged(l, h, log) && ChainOk(l, chain, i, log)
    ensures var w := Walk(l, h, i);
            && (Matches(h, i, chain) <==> w.Found? && w.origins == chain && (l.CodeAt? ==> Readable(l, h, i)))
            && (Matches(h, i, chain) ==> Resolve(cs, l, w.trace) == Resolve(cs, l, TraceOf(l, chain, i, log)))
  {
    if Matches(h, i, chain) { ValidMeansRereads(l, h, i, chain, log); }
    if Walk(l, h, i).Found? { RereadsMeansValid(l, h, i); }
  }

  // ---- Frames ----

  ghost predicate SameBelow(h: Entries, h': Entries, i: nat) {
    forall j :: 0 <= j < i ==> (j in h <==> j in h') && (j in h ==> h[j] == h'[j])
  }

  lemma ClosestUnique(h: Entries, i: nat, c: nat)
    requires c < i && c in h && forall k :: c < k < i ==> k !in h
    ensures Closest(h, i) == Some(c)
  {
  }

  lemma {:induction false} MatchesFrame(h: Entries, h': Entries, i: nat, chain: seq<Origin>)
    requires SameBelow(h, h', i)
    ensures Matches(h, i, chain) == Matches(h', i, chain)
    decreases |chain|
  {
    if chain != [] {
      var c := Closest(h, i);
      if c.Some? {
        ClosestUnique(h', i, c.value);
        MatchesFrame(h, h', c.value, chain[1..]);
      } else {
        assert Closest(h', i).None?;
        MatchesFrame(h, h', 0, chain[1..]);
      }
    }
  }

  /** Replacing or removing an ESTIMATE never invalidates a chain: none that validates meets it. */
  lemma {:induction false} EstimateGoneKeepsValid(h: Entries, h': Entries, j: nat, i: nat, chain: seq<Origin>)
    requires j in h && h[j].Estimate? && j < i
    requires forall k :: k != j ==> (k in h <==> k in h') && (k in h ==> h[k] == h'[k])
    requires Matches(h, i, chain)
    ensures Matches(h', i, chain)
    decreases |chain|
  {
    if chain != [] {
      var c := Closest(h, i).value;
      assert c > j;
      ClosestUnique(h', i, c);
      if chain[1..] != [] { EstimateGoneKeepsValid(h, h', j, c, chain[1..]); }
    }
  }

  /** Without an entry map only [FromStorage] validates, and the same holds for an empty one. */
  lemma ValidAtIsMatches(data: MvData, l: Location, i: nat, chain: seq<Origin>, log: Written)
    requires ChainOk(l, chain, i, log)
    ensures ValidAt(data, l, i, chain) == Matches(At(data, l), i, chain)
  {
    if l !in data {
      assert Closest(map[], i).None?;
      if chain[0].FromStorage? { assert chain[1..] == []; }
    }
  }
}
