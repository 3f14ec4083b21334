/** What a read returns, said of the entries alone: where it stops, which transaction it blocks on, when it
    falls back, when a repeated read is inconsistent, and the value it sees. */
module ReadLaws {
  import opened Types
  import opened Accounts
  import opened Reads

  // ---- Where a read stops ----

  /** A delta that an account read goes through. */
  predicate IsDelta(l: Location, e: MemoryEntry) {
    e.Data? && IsLazy(l, e.value)
  }

  /** Strictly between c and i there are only deltas. */
  ghost predicate DeltasBetween(l: Location, h: Entries, c: int, i: nat) {
    forall k :: c < k < i && k in h ==> IsDelta(l, h[k])
  }

  /** The newest entry below i that is no delta, if there is one. */
  ghost predicate StopsAt(l: Location, h: Entries, i: nat, stop: Option<nat>) {
    match stop
    case None => DeltasBetween(l, h, -1, i)
    case Some(c) => c < i && c in h && !IsDelta(l, h[c]) && DeltasBetween(l, h, c, i)
  }

  function OriginOf(h: Entries, c: nat): Origin
    requires c in h && h[c].Data?
  {
    FromMv(Version(c, h[c].incarnation))
  }

  /** The origins of the data of transactions from lo on below i, newest first. */
  function Met(h: Entries, lo: nat, i: nat): seq<Origin>
    decreases i
  {
    if i <= lo then []
    else (if i - 1 in h && h[i - 1].Data? then [OriginOf(h, i - 1)] else []) + Met(h, lo, i - 1)
  }

  /** The deltas of transactions from lo on below i, newest first. */
  function Deltas(l: Location, h: Entries, lo: nat, i: nat): seq<Delta>
    decreases i
  {
    if i <= lo then []
    else (if i - 1 in h && IsDelta(l, h[i - 1]) then [DeltaOf(h[i - 1].value)] else []) + Deltas(l, h, lo, i - 1)
  }

  function Above(stop: Option<nat>): nat {
    if stop.Some? then stop.value + 1 else 0
  }

  lemma {:induction false} StopExists(l: Location, h: Entries, i: nat) returns (stop: Option<nat>)
    ensures StopsAt(l, h, i, stop)
    decreases i
  {
    if i == 0 {
      stop := None;
    } else if i - 1 in h && !IsDelta(l, h[i - 1]) {
      stop := Some(i - 1);
    } else {
      stop := StopExists(l, h, i - 1);
    }
  }

  lemma StopUnique(l: Location, h: Entries, i: nat, c: Option<nat>, d: Option<nat>)
    requires StopsAt(l, h, i, c) && StopsAt(l, h, i, d)
    ensures c == d
  {
  }

  /** What a walk makes of the entry it stops at. */
  function AtStop(l: Location, h: Entries, stop: Option<nat>): Walked
    requires stop.Some? ==> stop.value in h && !IsDelta(l, h[stop.value])
  {
    match stop
    case None => STORAGE_ONLY
    case Some(c) => Walk(l, h, c + 1)
  }

  /** The walk that already met these origins and deltas, and goes on to find `rest`. */
  function Resume(os: seq<Origin>, ds: seq<Delta>, rest: Walked): Walked {
    match rest
    case Found(o, t) => Found(os + o, Trace(ds + t.deltas, t.base))
    case Estimated(o, on) => Estimated(os + o, on)
    case Invalid(o) => Invalid(os + o)
    case Destroyed => Destroyed
  }

  lemma ResumeBeyond(o: Origin, d: Delta, os: seq<Origin>, ds: seq<Delta>, rest: Walked)
    ensures Beyond(o, d, Resume(os, ds, rest)) == Resume([o] + os, [d] + ds, rest)
  {
    match rest
    case Found(x, t) =>
      assert [o] + (os + x) == [o] + os + x && [d] + (ds + t.deltas) == [d] + ds + t.deltas;
    case Estimated(x, _) => assert [o] + (os + x) == [o] + os + x;
    case Invalid(x) => assert [o] + (os + x) == [o] + os + x;
    case Destroyed =>
  }

  /** The walk down to the entry it stops at, or to storage. */
  function Through(l: Location, h: Entries, lo: nat, i: nat, rest: Walked): Walked {
    Resume(Met(h, lo, i), Deltas(l, h, lo, i), rest)
  }

  lemma ThroughNext(l: Location, h: Entries, lo: nat, i: nat, rest: Walked)
    requires lo < i && (i - 1 in h ==> IsDelta(l, h[i - 1])) && Walk(l, h, i - 1) == Through(l, h, lo, i - 1, rest)
    ensures Walk(l, h, i) == Through(l, h, lo, i, rest)
  {
    if i - 1 in h {
      ResumeBeyond(OriginOf(h, i - 1), DeltaOf(h[i - 1].value), Met(h, lo, i - 1), Deltas(l, h, lo, i - 1), rest);
    } else {
      assert Met(h, lo, i) == Met(h, lo, i - 1) && Deltas(l, h, lo, i) == Deltas(l, h, lo, i - 1);
    }
  }

  lemma {:induction false} WalkStops(l: Location, h: Entries, i: nat, stop: Option<nat>)
    requires StopsAt(l, h, i, stop)
    ensures Walk(l, h, i) == Through(l, h, Above(stop), i, AtStop(l, h, stop))
    decreases i
  {
    if i == Above(stop) {
      assert Through(l, h, i, i, AtStop(l, h, stop)) == AtStop(l, h, stop);
    } else {
      WalkStops(l, h, i - 1, stop);
      ThroughNext(l, h, Above(stop), i, AtStop(l, h, stop));
    }
  }

  // ---- What a read returns ----

  /** An account read that finds only deltas evaluates them on the account in storage. */
  lemma AccountFromStorage(cs: ChainState, a: Address, h: Entries, i: nat, prev: seq<Origin>)
    requires StopsAt(AccountAt(a), h, i, None)
    ensures var os := Met(h, 0, i) + [FromStorage];
            ReadLocation(cs, AccountAt(a), h, i, prev) ==
            if prev == [] || prev == os then
              Ok(os, AccountValue(Settle(Deltas(AccountAt(a), h, 0, i), cs.Account(a))))
            else Inconsistent
  {
    WalkStops(AccountAt(a), h, i, None);
    var ds := Deltas(AccountAt(a), h, 0, i);
    assert ds + [] == ds;
  }

  /** One that stops at an ESTIMATE blocks on its transaction. */
  lemma AccountBlocks(cs: ChainState, a: Address, h: Entries, i: nat, prev: seq<Origin>, c: nat)
    requires StopsAt(AccountAt(a), h, i, Some(c)) && h[c].Estimate?
    ensures ReadLocation(cs, AccountAt(a), h, i, prev) ==
            if prev == [] || Met(h, c + 1, i) <= prev then Blocking(c) else Inconsistent
  {
    WalkStops(AccountAt(a), h, i, Some(c));
    var os := Met(h, c + 1, i);
    assert os + [] == os;
  }

  /** One that stops at data evaluates the deltas on the account there, or finds a value of another kind. */
  lemma AccountFromEntry(cs: ChainState, a: Address, h: Entries, i: nat, prev: seq<Origin>, c: nat)
    requires StopsAt(AccountAt(a), h, i, Some(c)) && h[c].Data?
    ensures var os := Met(h, c + 1, i) + [OriginOf(h, c)];
            ReadLocation(cs, AccountAt(a), h, i, prev) ==
            if prev != [] && !(os <= prev) then Inconsistent
            else if !h[c].value.Basic? then BadType
            else Ok(if prev == [] then os else prev,
                    AccountValue(Settle(Deltas(AccountAt(a), h, c + 1, i), Some(h[c].value.account))))
  {
    WalkStops(AccountAt(a), h, i, Some(c));
    var ds := Deltas(AccountAt(a), h, c + 1, i);
    assert ds + [] == ds;
  }

  lemma {:induction false} NothingMet(l: Location, h: Entries, lo: nat, i: nat)
    requires forall k :: lo <= k < i ==> k !in h
    ensures Met(h, lo, i) == [] && Deltas(l, h, lo, i) == []
    decreases i
  {
    if i > lo { NothingMet(l, h, lo, i - 1); }
  }

  /** The origin that a slot or code read compares with the last one of an earlier read. */
  predicate Repeats(prev: seq<Origin>, o: Origin) {
    prev == [] || prev[|prev| - 1] == o
  }

  function Returns(prev: seq<Origin>, o: Origin, value: ReadValue): ReadOutcome {
    if !Repeats(prev, o) then Inconsistent else Ok(if prev == [] then [o] else prev, value)
  }

  /** A slot read returns the newest word below i, or storage; it blocks on an ESTIMATE. */
  lemma SlotRead(cs: ChainState, a: Address, k: U256, h: Entries, i: nat, prev: seq<Origin>, stop: Option<nat>)
    requires StopsAt(SlotAt(a, k), h, i, stop)
    ensures ReadLocation(cs, SlotAt(a, k), h, i, prev) ==
            match stop
            case None => Returns(prev, FromStorage, SlotValue(cs.Slot(a, k)))
            case Some(c) =>
              if h[c].Estimate? then Blocking(c)
              else if h[c].value.Storage? then Returns(prev, OriginOf(h, c), SlotValue(h[c].value.word))
              else BadType
  {
    WalkStops(SlotAt(a, k), h, i, stop);
    NothingMet(SlotAt(a, k), h, Above(stop), i);
  }

  /** A code read returns the newest code below i, falls back on a self-destructed account, and goes to storage
      past anything else, an ESTIMATE included. */
  lemma CodeRead(cs: ChainState, a: Address, h: Entries, i: nat, prev: seq<Origin>, stop: Option<nat>)
    requires StopsAt(CodeAt(a), h, i, stop)
    ensures ReadLocation(cs, CodeAt(a), h, i, prev) ==
            if stop.Some? && h[stop.value].Data? && h[stop.value].value.SelfDestructed? then Fallback
            else if stop.Some? && h[stop.value].Data? && h[stop.value].value.CodeHash? then
              Returns(prev, OriginOf(h, stop.value), CodeValue(Some(h[stop.value].value.hash)))
            else Returns(prev, FromStorage, CodeValue(cs.Code(a)))
  {
    WalkStops(CodeAt(a), h, i, stop);
    NothingMet(CodeAt(a), h, Above(stop), i);
  }

  // ---- Reads that find no value ----

  /** The read comes to an ESTIMATE of transaction `on`, so far in step with the first read. */
  ghost predicate MeetsEstimate(l: Location, h: Entries, i: nat, prev: seq<Origin>, on: nat) {
    && !l.CodeAt? && StopsAt(l, h, i, Some(on)) && h[on].Estimate?
    && (prev == [] || Met(h, on + 1, i) <= prev)
  }

  /** The read of a code location comes to a self-destructed account. */
  ghost predicate MeetsDestroyed(l: Location, h: Entries, i: nat) {
    l.CodeAt? && exists c: nat :: StopsAt(l, h, i, Some(c)) && h[c].Data? && h[c].value.SelfDestructed?
  }

  /** The read comes to a value of another kind; an account read so far in step with the first one. */
  ghost predicate MeetsWrongKind(l: Location, h: Entries, i: nat, prev: seq<Origin>) {
    !l.CodeAt? && exists c: nat ::
      && StopsAt(l, h, i, Some(c)) && h[c].Data? && !IsAbsolute(l, h[c].value)
      && (l.AccountAt? && prev != [] ==> Met(h, c + 1, i) + [OriginOf(h, c)] <= prev)
  }

  /** What a read that stops there meets is not what the first read met. A slot or code read compares only
      the value it would return, an account read everything it comes to. */
  ghost predicate Departs(l: Location, h: Entries, i: nat, prev: seq<Origin>, stop: Option<nat>)
    requires stop.Some? ==> stop.value in h
  {
    prev != [] &&
    var met := Met(h, Above(stop), i);
    match stop
    case None => if l.AccountAt? then prev != met + [FromStorage] else !Repeats(prev, FromStorage)
    case Some(c) =>
      if l.AccountAt? then !((if h[c].Data? then met + [OriginOf(h, c)] else met) <= prev)
      else if h[c].Data? && IsAbsolute(l, h[c].value) then !Repeats(prev, OriginOf(h, c))
      else l.CodeAt? && !(h[c].Data? && h[c].value.SelfDestructed?) && !Repeats(prev, FromStorage)
  }

  ghost predicate MeetsOther(l: Location, h: Entries, i: nat, prev: seq<Origin>) {
    exists stop: Option<nat> :: StopsAt(l, h, i, stop) && Departs(l, h, i, prev, stop)
  }

  /** A read blocks on the transaction whose ESTIMATE it comes to, falls back on a self-destructed account,
      fails on a value of another kind and is inconsistent when it meets something else than the first read,
      and each only then. */
  ghost predicate FailsAsMet(r: ReadOutcome, l: Location, h: Entries, i: nat, prev: seq<Origin>) {
    && (forall on: nat :: r == Blocking(on) <==> MeetsEstimate(l, h, i, prev, on))
    && (r.Fallback? <==> MeetsDestroyed(l, h, i))
    && (r.BadType? <==> MeetsWrongKind(l, h, i, prev))
    && (r.Inconsistent? <==> MeetsOther(l, h, i, prev))
  }

  lemma AccountFails(cs: ChainState, a: Address, h: Entries, i: nat, prev: seq<Origin>, stop: Option<nat>)
    requires StopsAt(AccountAt(a), h, i, stop)
    ensures FailsAsMet(ReadLocation(cs, AccountAt(a), h, i, prev), AccountAt(a), h, i, prev)
  {
    forall d: Option<nat> | StopsAt(AccountAt(a), h, i, d) { StopUnique(AccountAt(a), h, i, stop, d); }
    if stop.None? {
      AccountFromStorage(cs, a, h, i, prev);
    } else if h[stop.value].Estimate? {
      AccountBlocks(cs, a, h, i, prev, stop.value);
    } else {
      AccountFromEntry(cs, a, h, i, prev, stop.value);
    }
  }

  lemma SlotFails(cs: ChainState, a: Address, k: U256, h: Entries, i: nat, prev: seq<Origin>, stop: Option<nat>)
    requires StopsAt(SlotAt(a, k), h, i, stop)
    ensures FailsAsMet(ReadLocation(cs, SlotAt(a, k), h, i, prev), SlotAt(a, k), h, i, prev)
  {
    forall d: Option<nat> | StopsAt(SlotAt(a, k), h, i, d) { StopUnique(SlotAt(a, k), h, i, stop, d); }
    SlotRead(cs, a, k, h, i, prev, stop);
    NothingMet(SlotAt(a, k), h, Above(stop), i);
  }

  lemma CodeFails(cs: ChainState, a: Address, h: Entries, i: nat, prev: seq<Origin>, stop: Option<nat>)
    requires StopsAt(CodeAt(a), h, i, stop)
    ensures FailsAsMet(ReadLocation(cs, CodeAt(a), h, i, prev), CodeAt(a), h, i, prev)
  {
    forall d: Option<nat> | StopsAt(CodeAt(a), h, i, d) { StopUnique(CodeAt(a), h, i, stop, d); }
    CodeRead(cs, a, h, i, prev, stop);
  }

  lemma FailsExactly(cs: ChainState, l: Location, h: Entries, i: nat, prev: seq<Origin>)
    ensures FailsAsMet(ReadLocation(cs, l, h, i, prev), l, h, i, prev)
  {
    var stop := StopExists(l, h, i);
    match l
    case AccountAt(a) => AccountFails(cs, a, h, i, prev, stop);
    case SlotAt(a, k) => SlotFails(cs, a, k, h, i, prev, stop);
    case CodeAt(a) => CodeFails(cs, a, h, i, prev, stop);
  }
}
