/**
 Loading the address manager (`AddrManImpl::Unserialize`): whatever the file says, the tables
 either end up in step or are refused; and a file written from tables in step gives back the
 same tables, up to the numbering of the entries.
*/
module AddrLoad {
  import opened Common
  import opened AddrTables
  import opened AddrCheck
  import opened AddrFile

  // ----- what holds of tables that are being loaded

  ghost predicate BackOk(info: Infos, addr: map<Service, Id>) {
    forall s {:trigger MappedBack(info, addr, s)} :: s in addr ==> MappedBack(info, addr, s)
  }

  ghost predicate LooseEntry(info: Infos, n: Id)
    requires n in info
  {
    info[n].lastTry == 0 && info[n].refCount <= NEW_BUCKETS_PER_ADDRESS && (info[n].inTried ==> info[n].refCount == 0)
  }

  ghost predicate LooseEntries(info: Infos) {
    forall n {:trigger LooseEntry(info, n)} :: n in info ==> LooseEntry(info, n)
  }

  /** In step, except that several entries may have the same address, that entries may be in no
      slot, and that times may be anything. */
  ghost predicate LooseTables(place: Placement, t: Tables) {
    && RandomOk(t.info, t.random) && BackOk(t.info, t.addr) && IdsOk(t.info, t.idCount)
    && NewOk(place, t.info, t.news) && TriedOk(place, t.info, t.tried)
    && CountsOk(t.info, {}, t.count) && LooseEntries(t.info)
  }

  /** `LooseTables`, to be carried along without looking inside. */
  ghost predicate Loose(place: Placement, t: Tables) {
    forall b {:trigger Unfold(b)} :: Unfold(b) ==> LooseTables(place, t)
  }

  // ----- entries appended

  lemma {:induction false} AppendedIndexes(info: Infos, addr: map<Service, Id>, random: seq<Id>, id: Id, x: AddrInfo)
    requires RandomOk(info, random) && BackOk(info, addr) && IdsOk(info, id) && x.randomPos == |random|
    ensures RandomOk(info[id := x], random + [id]) && BackOk(info[id := x], addr[x.service := id])
    ensures IdsOk(info[id := x], id + 1)
  {
    var info', random', addr' := info[id := x], random + [id], addr[x.service := id];
    forall i | 0 <= i < |random'| ensures PlacedAt(info', random', i) {
      if i < |random| {
        assert PlacedAt(info, random, i);
      }
    }
    forall m | m in info' ensures Placed(info', random', m) {
      if m != id {
        assert Placed(info, random, m);
      }
    }
    forall s | s in addr' ensures MappedBack(info', addr', s) {
      if s != x.service {
        assert MappedBack(info, addr, s);
      }
    }
  }

  lemma {:induction false} AppendedEntries(info: Infos, id: Id, x: AddrInfo)
    requires LooseEntries(info) && x.lastTry == 0 && x.refCount == 0
    ensures LooseEntries(info[id := x])
  {
    var info' := info[id := x];
    forall n | n in info' ensures LooseEntry(info', n) {
      if n != id {
        assert LooseEntry(info, n);
      }
    }
  }

  lemma {:induction false} LooseCreated(place: Placement, t: Tables, x: AddrInfo)
    requires Loose(place, t) && x.randomPos == |t.random| && x.lastTry == 0 && x.refCount == 0 && !x.inTried
    ensures Loose(place, Created(t, x)) && t.idCount !in t.info
  {
    assert Unfold(true);
    var n := t.idCount;
    assert n !in t.info;
    AppendedIndexes(t.info, t.addr, t.random, n, x);
    CreatedNew(place, t.info, t.news, n, x);
    CreatedTried(place, t.info, t.tried, n, x);
    CreatedCounts(t.info, t.count, n, x);
    AppendedEntries(t.info, n, x);
  }

  /** A tried entry appended and put into its slot. */
  function Entered(t: Tables, x: AddrInfo, s: Slot): Tables {
    t.(idCount := t.idCount + 1, info := t.info[t.idCount := x], addr := t.addr[x.service := t.idCount],
       random := t.random + [t.idCount], tried := t.tried[s := t.idCount], count := t.count.AddTried(x.service.addr.network, 1))
  }

  lemma {:induction false} EnteredTried(place: Placement, info: Infos, tried: map<Slot, Id>, n: Id, x: AddrInfo)
    requires TriedOk(place, info, tried) && n !in info && x.inTried && place.TriedSlot(x.service) !in tried
    ensures TriedOk(place, info[n := x], tried[place.TriedSlot(x.service) := n])
  {
    var info', tried' := info[n := x], tried[place.TriedSlot(x.service) := n];
    forall m | m in info' ensures TriedEntryOk(place, info', tried', m) {
      if m != n {
        assert TriedEntryOk(place, info, tried, m);
      }
    }
    forall s | s in tried' ensures TriedSlotOk(place, info', tried', s) {
      if s in tried {
        assert TriedSlotOk(place, info, tried, s);
      }
    }
  }

  lemma {:induction false} LooseEntered(place: Placement, t: Tables, x: AddrInfo)
    requires Loose(place, t) && x.randomPos == |t.random| && x.lastTry == 0 && x.refCount == 0 && x.inTried
    requires place.TriedSlot(x.service) !in t.tried
    ensures Loose(place, Entered(t, x, place.TriedSlot(x.service))) && t.idCount !in t.info
  {
    assert Unfold(true);
    var n := t.idCount;
    assert n !in t.info;
    AppendedIndexes(t.info, t.addr, t.random, n, x);
    CreatedNew(place, t.info, t.news, n, x);
    EnteredTried(place, t.info, t.tried, n, x);
    TriedCounts(t.info, t.count, n, x);
    AppendedEntries(t.info, n, x);
  }

  // ----- slots filled

  lemma {:induction false} FilledIndexes(info: Infos, addr: map<Service, Id>, random: seq<Id>, n: Id, x: AddrInfo)
    requires RandomOk(info, random) && BackOk(info, addr) && n in info && Kindred(info[n], x)
    ensures RandomOk(info[n := x], random) && BackOk(info[n := x], addr)
  {
    var info' := info[n := x];
    forall m | m in info' ensures Placed(info', random, m) {
      assert Placed(info, random, m);
    }
    forall i | 0 <= i < |random| ensures PlacedAt(info', random, i) {
      assert PlacedAt(info, random, i);
    }
    forall s | s in addr ensures MappedBack(info', addr, s) {
      assert MappedBack(info, addr, s);
    }
  }

  lemma {:induction false} LooseFilled(place: Placement, t: Tables, s: Slot, n: Id)
    requires Loose(place, t) && s !in t.news && n in t.info && !t.info[n].inTried && t.info[n].refCount < NEW_BUCKETS_PER_ADDRESS
    requires s.bucket < NEW_BUCKET_COUNT && s == place.NewSlot(t.info[n].service, s.bucket)
    ensures Loose(place, Filled(t, s, n))
  {
    assert Unfold(true);
    var x := t.info[n].(refCount := t.info[n].refCount + 1);
    FilledOk(place, t.info, t.news, s, n);
    FilledIndexes(t.info, t.addr, t.random, n, x);
    KindredTried(place, t.info, t.tried, n, x);
    KindredCounts(t.info, t.count, {}, n, x);
    var info' := t.info[n := x];
    forall m | m in info' ensures LooseEntry(info', m) {
      assert LooseEntry(t.info, m);
    }
  }

  // ----- entries removed

  lemma {:induction false} LooseSwapped(place: Placement, t: Tables, p1: nat, p2: nat)
    requires Loose(place, t) && p1 < |t.random| && p2 < |t.random| && p1 != p2
    ensures t.random[p1] in t.info && t.random[p2] in t.info
    ensures Loose(place, Swapped(t, p1, p2)) && OnlyPlaces(t.info, Swapped(t, p1, p2).info)
  {
    assert Unfold(true);
    SwappedRandom(t.info, t.random, p1, p2);
    var info' := Swapped(t, p1, p2).info;
    SameSlotsKeep(place, t.info, info', t.news, t.tried);
    SameTablesCount(t.info, info', t.count, {});
    forall s | s in t.addr ensures MappedBack(info', t.addr, s) {
      assert MappedBack(t.info, t.addr, s);
    }
    forall n | n in info' ensures LooseEntry(info', n) {
      assert LooseEntry(t.info, n);
    }
  }

  lemma {:induction false} RemovedLast(info: Infos, addr: map<Service, Id>, random: seq<Id>, n: Id)
    requires RandomOk(info, random) && BackOk(info, addr) && n in info && random != [] && random[|random| - 1] == n
    ensures RandomOk(info - {n}, random[..|random| - 1]) && BackOk(info - {n}, addr - {info[n].service})
  {
    var info', random', addr' := info - {n}, random[..|random| - 1], addr - {info[n].service};
    assert PlacedAt(info, random, |random| - 1);
    forall i | 0 <= i < |random'| ensures PlacedAt(info', random', i) {
      assert PlacedAt(info, random, i);
    }
    forall m | m in info' ensures Placed(info', random', m) {
      assert Placed(info, random, m);
    }
    forall s | s in addr' ensures MappedBack(info', addr', s) {
      assert MappedBack(info, addr, s);
    }
  }

  lemma {:induction false} LooseRemoved(place: Placement, t: Tables, n: Id)
    requires Loose(place, t) && n in t.info && !t.info[n].inTried && t.info[n].refCount == 0
    requires t.random != [] && t.random[|t.random| - 1] == n
    ensures Loose(place, Removed(t, n))
  {
    assert Unfold(true);
    RemovedLast(t.info, t.addr, t.random, n);
    RemovedNew(place, t.info, t.news, n);
    RemovedTried(place, t.info, t.tried, n);
    RemovedCounts(t.info, t.count, {}, n);
    var info' := t.info - {n};
    forall m | m in info' ensures LooseEntry(info', m) {
      assert LooseEntry(t.info, m);
    }
  }

  // ----- the steps

  /** Entries numbered from zero. */
  ghost predicate LoadedAs(info: Infos, xs: seq<AddrInfo>) {
    && (forall n: nat :: n in info <==> n < |xs|)
    && (forall n :: n in info ==> info[n] == xs[n])
  }

  ghost function NewInfos(es: seq<DiskEntry>): seq<AddrInfo> {
    seq(|es|, i requires 0 <= i < |es| => FromDisk(es[i], false, i))
  }

  ghost function TriedInfos(es: seq<DiskEntry>, base: nat): seq<AddrInfo> {
    seq(|es|, i requires 0 <= i < |es| => FromDisk(es[i], true, base + i))
  }

  /** Every address can be found. */
  ghost predicate Known(t: Tables) {
    forall n :: n in t.info ==> t.info[n].service in t.addr
  }

  /** An address is found at its last entry. */
  ghost predicate Latest(t: Tables) {
    forall n :: n in t.info ==> t.info[n].service in t.addr && n <= t.addr[t.info[n].service]
  }

  lemma {:induction false} LatestMore(place: Placement, t: Tables, x: AddrInfo)
    requires Loose(place, t) && Latest(t)
    ensures forall t': Tables {:trigger Latest(t')} :: t'.info == t.info[t.idCount := x] && t'.addr == t.addr[x.service := t.idCount] ==> Latest(t')
  {
    assert Unfold(true);
  }

  lemma {:induction false} NothingLoaded(place: Placement)
    ensures Loose(place, Tables(0, map[], map[], [], Counters(0, 0, map[], map[]), map[], map[]))
  {
    NothingCounted();
  }

  method LoadNew(ghost place: Placement, es: seq<DiskEntry>) returns (t: Tables)
    ensures Loose(place, t) && Known(t) && Latest(t) && t.news == map[] && t.tried == map[]
    ensures LoadedAs(t.info, NewInfos(es)) && t.idCount == |t.random| == |es|
  {
    t := Tables(0, map[], map[], [], Counters(0, 0, map[], map[]), map[], map[]);
    NothingLoaded(place);
    assert NewInfos(es[..0]) == [];
    for n := 0 to |es|
      invariant Loose(place, t) && Known(t) && Latest(t) && t.news == map[] && t.tried == map[]
      invariant LoadedAs(t.info, NewInfos(es[..n])) && t.idCount == |t.random| == n
    {
      var x := FromDisk(es[n], false, |t.random|);
      LooseCreated(place, t, x);
      LatestMore(place, t, x);
      assert es[..n + 1] == es[..n] + [es[n]];
      assert NewInfos(es[..n + 1]) == NewInfos(es[..n]) + [x];
      t := Created(t, x);
    }
    assert es[..|es|] == es;
  }

  /** Valid addresses, each with a tried slot of its own. */
  ghost predicate AllPlaceable(place: Placement, es: seq<DiskEntry>) {
    && (forall j :: 0 <= j < |es| ==> place.valid(es[j].service.addr))
    && (forall i, j :: 0 <= i < j < |es| ==> place.TriedSlot(es[i].service) != place.TriedSlot(es[j].service))
  }

  /** Tried entries loaded after the first `base` ones. */
  ghost predicate TriedLoaded(info0: Infos, info: Infos, base: nat, xs: seq<AddrInfo>) {
    && (forall n :: n in info <==> n in info0 || base <= n < base + |xs|)
    && (forall n :: n in info0 ==> n in info && info[n] == info0[n])
    && (forall n :: base <= n < base + |xs| ==> n in info && info[n] == xs[n - base])
  }

  ghost predicate NewKept(info0: Infos, info: Infos) {
    && (forall n :: n in info0 ==> n in info && info[n] == info0[n])
    && (forall n :: n in info && n !in info0 ==> info[n].inTried)
  }

  lemma {:induction false} SlotFree(place: Placement, t: Tables, info0: Infos, base: nat, es: seq<DiskEntry>, n: nat)
    requires Loose(place, t) && AllPlaceable(place, es) && n < |es| && TriedLoaded(info0, t.info, base, TriedInfos(es[..n], base))
    requires forall m :: m in info0 ==> !info0[m].inTried
    ensures place.TriedSlot(es[n].service) !in t.tried
  {
    assert Unfold(true);
    var s := place.TriedSlot(es[n].service);
    assert s in t.tried ==> TriedSlotOk(place, t.info, t.tried, s);
  }

  lemma {:induction false} TriedLoadedMore(info0: Infos, info: Infos, base: nat, xs: seq<AddrInfo>, x: AddrInfo)
    requires TriedLoaded(info0, info, base, xs) && forall n :: n in info0 ==> n < base
    ensures TriedLoaded(info0, info[base + |xs| := x], base, xs + [x])
  {
  }

  /** A placeable entry finds its slot free and is loaded next. */
  lemma {:induction false} TriedNext(place: Placement, t: Tables, info0: Infos, base: nat, es: seq<DiskEntry>, n: nat)
    requires Loose(place, t) && AllPlaceable(place, es) && n < |es| && TriedLoaded(info0, t.info, base, TriedInfos(es[..n], base))
    requires (forall m :: m in info0 ==> m < base && !info0[m].inTried)
    ensures place.TriedSlot(es[n].service) !in t.tried
    ensures TriedLoaded(info0, t.info[base + n := FromDisk(es[n], true, base + n)], base, TriedInfos(es[..n + 1], base))
  {
    var x := FromDisk(es[n], true, base + n);
    SlotFree(place, t, info0, base, es, n);
    TriedLoadedMore(info0, t.info, base, TriedInfos(es[..n], base), x);
    assert es[..n + 1] == es[..n] + [es[n]];
    assert TriedInfos(es[..n + 1], base) == TriedInfos(es[..n], base) + [x];
  }

  /** The first valid entry of the file with its tried slot. */
  ghost predicate FirstTried(place: Placement, es: seq<DiskEntry>, j: nat) {
    && j < |es| && place.valid(es[j].service.addr)
    && forall i :: 0 <= i < j && place.valid(es[i].service.addr) ==> place.TriedSlot(es[i].service) != place.TriedSlot(es[j].service)
  }

  /** The entry stands in its tried slot. */
  ghost predicate InTried(place: Placement, t: Tables, e: DiskEntry) {
    var s := place.TriedSlot(e.service);
    s in t.tried && t.tried[s] in t.info && Core(t.info[t.tried[s]]) == Core(FromDisk(e, true, 0))
  }

  /** Of the first `n` entries, the first valid one of each slot has been loaded, and no other. */
  ghost predicate TriedTaken(place: Placement, t: Tables, es: seq<DiskEntry>, n: nat)
    requires n <= |es|
  {
    && (forall j {:trigger FirstTried(place, es, j)} :: 0 <= j < n && FirstTried(place, es, j) ==> InTried(place, t, es[j]))
    && (forall s :: s in t.tried ==> SlotClaimed(place, es, n, s))
  }

  ghost predicate SlotClaimed(place: Placement, es: seq<DiskEntry>, n: nat, s: Slot) {
    exists j :: 0 <= j < n && FirstTried(place, es, j) && place.TriedSlot(es[j].service) == s
  }

  lemma {:induction false} FirstOfSlot(place: Placement, es: seq<DiskEntry>, j: nat) returns (i: nat)
    requires j < |es| && place.valid(es[j].service.addr)
    ensures i <= j && FirstTried(place, es, i) && place.TriedSlot(es[i].service) == place.TriedSlot(es[j].service)
  {
    if k: nat :| k < j && place.valid(es[k].service.addr) && place.TriedSlot(es[k].service) == place.TriedSlot(es[j].service) {
      i := FirstOfSlot(place, es, k);
    } else {
      i := j;
    }
  }

  /** A free slot means the entry is the first of its slot. */
  lemma {:induction false} TakenEntered(place: Placement, t: Tables, es: seq<DiskEntry>, n: nat, x: AddrInfo)
    requires n < |es| && TriedTaken(place, t, es, n) && place.valid(es[n].service.addr)
    requires place.TriedSlot(es[n].service) !in t.tried && t.idCount !in t.info && Core(x) == Core(FromDisk(es[n], true, 0))
    ensures TriedTaken(place, Entered(t, x, place.TriedSlot(es[n].service)), es, n + 1)
  {
    var s := place.TriedSlot(es[n].service);
    var t' := Entered(t, x, s);
    var i := FirstOfSlot(place, es, n);
    assert i == n;
    forall r | r in t'.tried ensures SlotClaimed(place, es, n + 1, r) {
      if r != s {
        assert SlotClaimed(place, es, n, r);
      }
    }
  }

  lemma {:induction false} TakenPassed(place: Placement, t: Tables, es: seq<DiskEntry>, n: nat)
    requires n < |es| && TriedTaken(place, t, es, n)
    requires !place.valid(es[n].service.addr) || place.TriedSlot(es[n].service) in t.tried
    ensures TriedTaken(place, t, es, n + 1)
  {
    if place.valid(es[n].service.addr) {
      assert SlotClaimed(place, es, n, place.TriedSlot(es[n].service));
    }
    forall r | r in t.tried ensures SlotClaimed(place, es, n + 1, r) {
      assert SlotClaimed(place, es, n, r);
    }
  }

  /** The tables after the first `n` tried entries of the file. */
  ghost predicate TriedSoFar(place: Placement, t0: Tables, t: Tables, es: seq<DiskEntry>, n: nat)
    requires n <= |es|
  {
    && Loose(place, t) && Known(t) && Latest(t) && t.news == t0.news && NewKept(t0.info, t.info)
    && t.idCount == |t.random| && t0.idCount <= t.idCount && TriedTaken(place, t, es, n)
    && (AllPlaceable(place, es) ==>
          && TriedLoaded(t0.info, t.info, t0.idCount, TriedInfos(es[..n], t0.idCount))
          && t.idCount == t0.idCount + n)
  }

  lemma {:induction false} KnownEntered(t: Tables, x: AddrInfo, s: Slot)
    requires Known(t)
    ensures Known(Entered(t, x, s))
  {
  }

  lemma {:induction false} KeptEntered(info0: Infos, info: Infos, n: Id, x: AddrInfo)
    requires NewKept(info0, info) && n !in info && x.inTried
    ensures NewKept(info0, info[n := x])
  {
  }

  lemma {:induction false} EnterTried(place: Placement, t0: Tables, t: Tables, es: seq<DiskEntry>, n: nat)
    requires n < |es| && TriedSoFar(place, t0, t, es, n) && place.TriedSlot(es[n].service) !in t.tried
    requires place.valid(es[n].service.addr)
    requires forall m :: m in t0.info ==> m < t0.idCount && !t0.info[m].inTried
    ensures TriedSoFar(place, t0, Entered(t, FromDisk(es[n], true, |t.random|), place.TriedSlot(es[n].service)), es, n + 1)
  {
    var x, s := FromDisk(es[n], true, |t.random|), place.TriedSlot(es[n].service);
    LooseEntered(place, t, x);
    LatestMore(place, t, x);
    KnownEntered(t, x, s);
    KeptEntered(t0.info, t.info, t.idCount, x);
    TakenEntered(place, t, es, n, x);
    if AllPlaceable(place, es) {
      TriedNext(place, t, t0.info, t0.idCount, es, n);
    }
  }

  /** An entry passed over is not placeable. */
  lemma {:induction false} PassOver(place: Placement, t0: Tables, t: Tables, es: seq<DiskEntry>, n: nat)
    requires n < |es| && TriedSoFar(place, t0, t, es, n)
    requires !place.valid(es[n].service.addr) || place.TriedSlot(es[n].service) in t.tried
    requires forall m :: m in t0.info ==> m < t0.idCount && !t0.info[m].inTried
    ensures TriedSoFar(place, t0, t, es, n + 1)
  {
    TakenPassed(place, t, es, n);
    if AllPlaceable(place, es) {
      TriedNext(place, t, t0.info, t0.idCount, es, n);
      assert false;
    }
  }

  method LoadTried(place: Placement, t0: Tables, es: seq<DiskEntry>) returns (t: Tables)
    requires Loose(place, t0) && Known(t0) && Latest(t0) && t0.idCount == |t0.random| && t0.tried == map[]
    requires forall m :: m in t0.info ==> m < t0.idCount && !t0.info[m].inTried
    ensures Loose(place, t) && Known(t) && Latest(t) && t.news == t0.news && NewKept(t0.info, t.info)
    ensures TriedTaken(place, t, es, |es|)
    ensures AllPlaceable(place, es) ==> TriedLoaded(t0.info, t.info, t0.idCount, TriedInfos(es, t0.idCount)) && t.idCount == t0.idCount + |es|
  {
    t := t0;
    for n := 0 to |es|
      invariant TriedSoFar(place, t0, t, es, n)
    {
      var e := es[n];
      var s := place.TriedSlot(e.service);
      if place.valid(e.service.addr) && s !in t.tried {
        EnterTried(place, t0, t, es, n);
        t := Entered(t, FromDisk(e, true, |t.random|), s);
      } else {
        PassOver(place, t0, t, es, n);
      }
    }
    assert es[..|es|] == es;
  }

  ghost function PairSlot(place: Placement, info: Infos, x: (nat, int)): Slot
    requires x.1 in info
  {
    place.NewSlot(info[x.1].service, x.0)
  }

  /** The new table that a list of pairs describes. */
  ghost function Wanted(place: Placement, info: Infos, pairs: seq<(nat, int)>): map<Slot, Id>
    requires forall x :: x in pairs ==> x.1 in info
  {
    if pairs == [] then map[] else
      var last := pairs[|pairs| - 1];
      Wanted(place, info, pairs[..|pairs| - 1])[PairSlot(place, info, last) := last.1]
  }

  ghost predicate DistinctSlots(place: Placement, info: Infos, pairs: seq<(nat, int)>)
    requires forall x :: x in pairs ==> x.1 in info
  {
    forall i, j :: 0 <= i < j < |pairs| ==> PairSlot(place, info, pairs[i]) != PairSlot(place, info, pairs[j])
  }

  /** Valid addresses, each pair with a slot of its own, and no address too often. */
  ghost predicate Placeable(place: Placement, info: Infos, pairs: seq<(nat, int)>)
    requires forall x :: x in pairs ==> x.1 in info
  {
    && (forall x :: x in pairs ==> place.valid(info[x.1].service.addr))
    && DistinctSlots(place, info, pairs)
    && (forall n :: n in info ==> |SlotsOf(Wanted(place, info, pairs), n)| <= NEW_BUCKETS_PER_ADDRESS)
  }

  lemma {:induction false} WantedSlots(place: Placement, info: Infos, pairs: seq<(nat, int)>, k: nat, s: Slot) returns (i: nat)
    requires k <= |pairs| && forall x :: x in pairs ==> x.1 in info
    requires s in Wanted(place, info, pairs[..k])
    ensures i < k && PairSlot(place, info, pairs[i]) == s
    decreases k
  {
    assert k > 0;
    assert pairs[..k][..k - 1] == pairs[..k - 1];
    if s == PairSlot(place, info, pairs[k - 1]) {
      i := k - 1;
    } else {
      i := WantedSlots(place, info, pairs, k - 1, s);
    }
  }

  lemma {:induction false} WantedNext(place: Placement, info: Infos, pairs: seq<(nat, int)>, k: nat)
    requires k < |pairs| && forall x :: x in pairs ==> x.1 in info
    ensures Wanted(place, info, pairs[..k + 1]) == Wanted(place, info, pairs[..k])[PairSlot(place, info, pairs[k]) := pairs[k].1]
  {
    assert pairs[..k + 1][..k] == pairs[..k];
  }

  lemma {:induction false} SlotUnused(place: Placement, info: Infos, pairs: seq<(nat, int)>, k: nat)
    requires k < |pairs| && (forall x :: x in pairs ==> x.1 in info) && DistinctSlots(place, info, pairs)
    ensures PairSlot(place, info, pairs[k]) !in Wanted(place, info, pairs[..k])
  {
    if PairSlot(place, info, pairs[k]) in Wanted(place, info, pairs[..k]) {
      var i := WantedSlots(place, info, pairs, k, PairSlot(place, info, pairs[k]));
      assert false;
    }
  }

  /** With distinct slots every pair is found in the described table. */
  lemma {:induction false} WantedAt(place: Placement, info: Infos, pairs: seq<(nat, int)>, i: nat, m: nat)
    requires i < m <= |pairs| && (forall x :: x in pairs ==> x.1 in info) && DistinctSlots(place, info, pairs)
    ensures PairSlot(place, info, pairs[i]) in Wanted(place, info, pairs[..m])
    ensures Wanted(place, info, pairs[..m])[PairSlot(place, info, pairs[i])] == pairs[i].1
    decreases m
  {
    WantedNext(place, info, pairs, m - 1);
    if i < m - 1 {
      WantedAt(place, info, pairs, i, m - 1);
    }
  }

  lemma {:induction false} WantedGrows(place: Placement, info: Infos, pairs: seq<(nat, int)>, k: nat, m: nat, s: Slot)
    requires k <= m <= |pairs| && (forall x :: x in pairs ==> x.1 in info) && DistinctSlots(place, info, pairs)
    requires s in Wanted(place, info, pairs[..k])
    ensures s in Wanted(place, info, pairs[..m]) && Wanted(place, info, pairs[..m])[s] == Wanted(place, info, pairs[..k])[s]
  {
    var i := WantedSlots(place, info, pairs, k, s);
    WantedAt(place, info, pairs, i, k);
    WantedAt(place, info, pairs, i, m);
  }

  /** The next pair finds its slot empty, and its address not yet there too often. */
  lemma {:induction false} PairFits(place: Placement, info: Infos, pairs: seq<(nat, int)>, k: nat)
    requires k < |pairs| && (forall x :: x in pairs ==> x.1 in info) && Placeable(place, info, pairs)
    ensures var news, s, n := Wanted(place, info, pairs[..k]), PairSlot(place, info, pairs[k]), pairs[k].1;
      s !in news && |SlotsOf(news, n)| < NEW_BUCKETS_PER_ADDRESS
  {
    var news, s, n := Wanted(place, info, pairs[..k]), PairSlot(place, info, pairs[k]), pairs[k].1;
    SlotUnused(place, info, pairs, k);
    WantedNext(place, info, pairs, k);
    var all := Wanted(place, info, pairs);
    assert pairs[..|pairs|] == pairs;
    forall r | r in SlotsOf(news[s := n], n) ensures r in SlotsOf(all, n) {
      WantedGrows(place, info, pairs, k + 1, |pairs|, r);
    }
    SlotFilled(news, s, n, n);
    var a, b := SlotsOf(news[s := n], n), SlotsOf(all, n);
    assert b == a + (b - a);
    assert pairs[k] in pairs;
  }

  /** Only reference counts differ. */
  ghost predicate OnlyRefs(info: Infos, info': Infos) {
    && info'.Keys == info.Keys
    && forall n :: n in info ==> info'[n] == info[n].(refCount := info'[n].refCount)
  }

  lemma {:induction false} OnlyRefsMore(info: Infos, info': Infos, n: Id, r: int)
    requires OnlyRefs(info, info') && n in info'
    ensures OnlyRefs(info, info'[n := info'[n].(refCount := r)])
  {
  }

  // ----- where the pairs of a file end up

  /** The slot that an address gets from its own source. */
  ghost function Primary(place: Placement, x: AddrInfo): Slot {
    place.NewSlot(x.service, place.NewBucket(x.service, x.source))
  }

  /** The new table after one more pair: an invalid address or one with eight slots gets nothing; the pair's
      own slot is taken if the file's buckets still count and it is free, else the primary one if that is free. */
  ghost function Placing(place: Placement, info: Infos, news: map<Slot, Id>, pair: (nat, int), restore: bool): map<Slot, Id>
    requires pair.1 in info
  {
    var x, s := info[pair.1], PairSlot(place, info, pair);
    if !place.valid(x.service.addr) || |SlotsOf(news, pair.1)| >= NEW_BUCKETS_PER_ADDRESS then news
    else if restore && s !in news then news[s := pair.1]
    else if Primary(place, x) !in news then news[Primary(place, x) := pair.1]
    else news
  }

  ghost function PlacedBy(place: Placement, info: Infos, pairs: seq<(nat, int)>, restore: bool): map<Slot, Id>
    requires forall x :: x in pairs ==> x.1 in info
  {
    if pairs == [] then map[]
    else Placing(place, info, PlacedBy(place, info, pairs[..|pairs| - 1], restore), pairs[|pairs| - 1], restore)
  }

  lemma {:induction false} PlacedNext(place: Placement, info: Infos, pairs: seq<(nat, int)>, restore: bool, k: nat)
    requires k < |pairs| && forall x :: x in pairs ==> x.1 in info
    ensures PlacedBy(place, info, pairs[..k + 1], restore)
         == Placing(place, info, PlacedBy(place, info, pairs[..k], restore), pairs[k], restore)
  {
    assert pairs[..k + 1][..k] == pairs[..k];
  }

  /** What is placed stays. */
  lemma {:induction false} PlacedStays(place: Placement, info: Infos, pairs: seq<(nat, int)>, restore: bool, k: nat, m: nat, s: Slot)
    requires k <= m <= |pairs| && (forall x :: x in pairs ==> x.1 in info) && s in PlacedBy(place, info, pairs[..k], restore)
    ensures s in PlacedBy(place, info, pairs[..m], restore)
    ensures PlacedBy(place, info, pairs[..m], restore)[s] == PlacedBy(place, info, pairs[..k], restore)[s]
    decreases m
  {
    if k < m {
      PlacedStays(place, info, pairs, restore, k, m - 1, s);
      PlacedNext(place, info, pairs, restore, m - 1);
    }
  }

  /** Every valid address that a pair names has a slot, or finds its primary slot with another; and if the
      file's buckets still count, the pair's slot is taken unless the address has eight slots. */
  lemma {:induction false} EachPairServed(place: Placement, info: Infos, pairs: seq<(nat, int)>, restore: bool, k: nat)
    requires k < |pairs| && (forall x :: x in pairs ==> x.1 in info) && place.valid(info[pairs[k].1].service.addr)
    ensures var news, n := PlacedBy(place, info, pairs, restore), pairs[k].1;
      && (SlotsOf(news, n) != {} || Primary(place, info[n]) in news)
      && (restore ==> PairSlot(place, info, pairs[k]) in news || |SlotsOf(news, n)| >= NEW_BUCKETS_PER_ADDRESS)
  {
    var before, after, news := PlacedBy(place, info, pairs[..k], restore), PlacedBy(place, info, pairs[..k + 1], restore),
      PlacedBy(place, info, pairs, restore);
    var n := pairs[k].1;
    assert pairs[..|pairs|] == pairs;
    PlacedNext(place, info, pairs, restore, k);
    forall s | s in after ensures s in news && news[s] == after[s] {
      PlacedStays(place, info, pairs, restore, k + 1, |pairs|, s);
    }
    var a, b := SlotsOf(after, n), SlotsOf(news, n);
    assert b == a + (b - a);
    if |SlotsOf(before, n)| < NEW_BUCKETS_PER_ADDRESS {
      var s, p := PairSlot(place, info, pairs[k]), Primary(place, info[n]);
      assert (s in news && news[s] == n ==> s in b) && (p in news && news[p] == n ==> p in b);
    }
  }

  // ----- a file whose buckets do not count any more

  ghost predicate FirstClaim(place: Placement, info: Infos, pairs: seq<(nat, int)>, k: nat)
    requires forall x :: x in pairs ==> x.1 in info
  {
    && k < |pairs| && place.valid(info[pairs[k].1].service.addr)
    && forall j :: 0 <= j < k && place.valid(info[pairs[j].1].service.addr) ==>
         Primary(place, info[pairs[j].1]) != Primary(place, info[pairs[k].1])
  }

  /** In the new table so far each address stands at most in its primary slot, and each slot is held by the
      first valid address that claims it. */
  ghost predicate FirstCome(place: Placement, info: Infos, pairs: seq<(nat, int)>, m: nat, news: map<Slot, Id>)
    requires m <= |pairs| && forall x :: x in pairs ==> x.1 in info
  {
    && (forall k {:trigger FirstClaim(place, info, pairs, k)} :: 0 <= k < m && FirstClaim(place, info, pairs, k) ==>
          Primary(place, info[pairs[k].1]) in news && news[Primary(place, info[pairs[k].1])] == pairs[k].1)
    && (forall s :: s in news ==> ClaimedSlot(place, info, pairs, m, s))
    && (forall s :: s in news ==> news[s] in info && s == Primary(place, info[news[s]]))
  }

  ghost predicate ClaimedSlot(place: Placement, info: Infos, pairs: seq<(nat, int)>, m: nat, s: Slot)
    requires forall x :: x in pairs ==> x.1 in info
  {
    exists k :: 0 <= k < m && FirstClaim(place, info, pairs, k) && Primary(place, info[pairs[k].1]) == s
  }

  lemma {:induction false} FirstOfClaim(place: Placement, info: Infos, pairs: seq<(nat, int)>, k: nat) returns (j: nat)
    requires (forall x :: x in pairs ==> x.1 in info) && k < |pairs| && place.valid(info[pairs[k].1].service.addr)
    ensures j <= k && FirstClaim(place, info, pairs, j) && Primary(place, info[pairs[j].1]) == Primary(place, info[pairs[k].1])
  {
    if i: nat :| i < k && place.valid(info[pairs[i].1].service.addr) && Primary(place, info[pairs[i].1]) == Primary(place, info[pairs[k].1]) {
      j := FirstOfClaim(place, info, pairs, i);
    } else {
      j := k;
    }
  }

  lemma {:induction false} OneSlotEach(place: Placement, info: Infos, pairs: seq<(nat, int)>, m: nat, news: map<Slot, Id>, n: Id)
    requires m <= |pairs| && (forall x :: x in pairs ==> x.1 in info) && FirstCome(place, info, pairs, m, news) && n in info
    ensures |SlotsOf(news, n)| <= 1
  {
    var a, b := SlotsOf(news, n), {Primary(place, info[n])};
    assert a <= b;
    assert b == a + (b - a);
  }

  lemma {:induction false} FirstComeNext(place: Placement, info: Infos, pairs: seq<(nat, int)>, m: nat, news: map<Slot, Id>)
    requires m < |pairs| && (forall x :: x in pairs ==> x.1 in info) && FirstCome(place, info, pairs, m, news)
    ensures FirstCome(place, info, pairs, m + 1, Placing(place, info, news, pairs[m], false))
  {
    var n := pairs[m].1;
    var news', p := Placing(place, info, news, pairs[m], false), Primary(place, info[n]);
    OneSlotEach(place, info, pairs, m, news, n);
    if place.valid(info[n].service.addr) {
      var j := FirstOfClaim(place, info, pairs, m);
      assert p in news ==> ClaimedSlot(place, info, pairs, m, p);
      assert p !in news ==> j == m;
    }
    forall s | s in news' ensures ClaimedSlot(place, info, pairs, m + 1, s) {
      if s in news {
        assert ClaimedSlot(place, info, pairs, m, s);
      }
    }
  }

  /** Without the file's buckets, each slot of the new table goes to the first valid address of the file
      whose source leads there. */
  lemma {:induction false} Rebucketed(place: Placement, info: Infos, pairs: seq<(nat, int)>, m: nat)
    requires m <= |pairs| && forall x :: x in pairs ==> x.1 in info
    ensures FirstCome(place, info, pairs, m, PlacedBy(place, info, pairs[..m], false))
  {
    if 0 < m {
      Rebucketed(place, info, pairs, m - 1);
      PlacedNext(place, info, pairs, false, m - 1);
      FirstComeNext(place, info, pairs, m - 1, PlacedBy(place, info, pairs[..m - 1], false));
    }
  }

  /** Enter one pair, or find another place for its address, or give up. */
  method PlaceOne(place: Placement, t0: Tables, pair: (nat, int), restore: bool) returns (t: Tables)
    requires Loose(place, t0) && pair.1 in t0.info && !t0.info[pair.1].inTried && (restore ==> pair.0 < NEW_BUCKET_COUNT)
    ensures Loose(place, t) && t == t0.(info := t.info, news := t.news) && OnlyRefs(t0.info, t.info)
    ensures t.news == Placing(place, t0.info, t0.news, pair, restore)
  {
    t := t0;
    LooseRef(place, t, pair.1);
    var bucket, n := pair.0, pair.1;
    var x := t.info[n];
    if !place.valid(x.service.addr) {
      return;
    }
    if x.refCount >= NEW_BUCKETS_PER_ADDRESS {
      return;
    }
    OnlyRefsMore(t0.info, t.info, n, x.refCount + 1);
    var s := place.NewSlot(x.service, bucket);
    if restore && s !in t.news {
      LooseFilled(place, t, s, n);
      t := Filled(t, s, n);
    } else {
      var primary := place.NewSlot(x.service, place.NewBucket(x.service, x.source));
      if primary !in t.news {
        LooseFilled(place, t, primary, n);
        t := Filled(t, primary, n);
      }
    }
  }

  lemma {:induction false} LooseRef(place: Placement, t: Tables, n: Id)
    requires Loose(place, t) && n in t.info
    ensures t.info[n].refCount == |SlotsOf(t.news, n)|
  {
    assert Unfold(true);
    assert RefCountOk(t.info, t.news, n);
  }

  method PlaceAll(place: Placement, t0: Tables, pairs: seq<(nat, int)>, restore: bool) returns (t: Tables)
    requires Loose(place, t0) && t0.news == map[]
    requires forall x :: x in pairs ==> x.1 in t0.info && !t0.info[x.1].inTried && (restore ==> x.0 < NEW_BUCKET_COUNT)
    ensures Loose(place, t) && t == t0.(info := t.info, news := t.news) && OnlyRefs(t0.info, t.info)
    ensures t.news == PlacedBy(place, t0.info, pairs, restore)
    ensures restore && Placeable(place, t0.info, pairs) ==> t.news == Wanted(place, t0.info, pairs)
  {
    t := t0;
    ghost var ideal := restore && Placeable(place, t0.info, pairs);
    for k := 0 to |pairs|
      invariant Loose(place, t) && t == t0.(info := t.info, news := t.news) && OnlyRefs(t0.info, t.info)
      invariant t.news == PlacedBy(place, t0.info, pairs[..k], restore)
      invariant ideal ==> t.news == Wanted(place, t0.info, pairs[..k])
    {
      var pair := pairs[k];
      assert pair in pairs && pair.1 in t.info.Keys;
      if ideal {
        PairFits(place, t0.info, pairs, k);
        WantedNext(place, t0.info, pairs, k);
        LooseRef(place, t, pair.1);
      }
      PlacedNext(place, t0.info, pairs, restore, k);
      t := PlaceOne(place, t, pair, restore);
    }
    assert pairs[..|pairs|] == pairs;
  }

  // ----- entries in no slot

  method DeleteEntry(ghost place: Placement, t0: Tables, n: Id) returns (t: Tables)
    requires Loose(place, t0) && n in t0.info && !t0.info[n].inTried && t0.info[n].refCount == 0
    ensures Loose(place, t) && OnlyPlaces(t0.info - {n}, t.info)
    ensures t.news == t0.news && t.tried == t0.tried && t.addr == t0.addr - {t0.info[n].service}
  {
    t := t0;
    LoosePlace(place, t, n);
    var p, last := t.info[n].randomPos, |t.random| - 1;
    if p != last {
      LooseSwapped(place, t, p, last);
      t := Swapped(t, p, last);
    }
    LooseRemoved(place, t, n);
    t := Removed(t, n);
  }

  lemma {:induction false} LoosePlace(place: Placement, t: Tables, n: Id)
    requires Loose(place, t) && n in t.info
    ensures Placed(t.info, t.random, n)
  {
    assert Unfold(true);
  }

  predicate Idle(x: AddrInfo) {
    !x.inTried && x.refCount == 0
  }

  /** The entries that stay while those outside `todo` have been looked at. */
  ghost function Active(info: Infos, todo: set<Id>): Infos {
    map n | n in info && (n in todo || !Idle(info[n])) :: info[n]
  }

  /** The addresses of the entries that have gone. */
  ghost function Dropped(info: Infos, todo: set<Id>): set<Service> {
    set n | n in info && n !in todo && Idle(info[n]) :: info[n].service
  }

  lemma {:induction false} DropOne(info: Infos, todo: set<Id>, n: Id)
    requires n in todo && n in info
    ensures Active(info, todo - {n}) == if Idle(info[n]) then Active(info, todo) - {n} else Active(info, todo)
    ensures Dropped(info, todo - {n}) == Dropped(info, todo) + if Idle(info[n]) then {info[n].service} else {}
  {
    forall s | s in Dropped(info, todo) + (if Idle(info[n]) then {info[n].service} else {}) ensures s in Dropped(info, todo - {n}) {
      if s in Dropped(info, todo) {
        var m :| m in info && m !in todo && Idle(info[m]) && info[m].service == s;
        assert m !in todo - {n};
      }
    }
  }

  lemma {:induction false} PlacesTwice(a: Infos, b: Infos, c: Infos, n: Id)
    requires OnlyPlaces(a, b) && OnlyPlaces(b - {n}, c)
    ensures OnlyPlaces(a - {n}, c)
  {
    assert c.Keys == (a - {n}).Keys;
    forall m | m in a - {n} ensures c[m] == a[m].(randomPos := c[m].randomPos) {
      assert m in b.Keys && m in b - {n};
    }
  }

  /** Of the entries outside `todo`, those in no slot have gone with their addresses; everything else is as it was. */
  ghost predicate Pruned(t0: Tables, t: Tables, todo: set<Id>) {
    && OnlyPlaces(Active(t0.info, todo), t.info) && t.news == t0.news && t.tried == t0.tried
    && t.addr == t0.addr - Dropped(t0.info, todo)
    && ((forall n :: n in t0.info ==> !Idle(t0.info[n])) ==> t == t0)
  }

  lemma {:induction false} PrunedStart(t: Tables)
    ensures Pruned(t, t, t.info.Keys)
  {
    assert Active(t.info, t.info.Keys) == t.info && Dropped(t.info, t.info.Keys) == {};
  }

  lemma {:induction false} PrunedPlace(t0: Tables, t: Tables, todo: set<Id>, n: Id)
    requires Pruned(t0, t, todo) && n in todo && n in t0.info
    ensures n in t.info && t.info[n] == t0.info[n].(randomPos := t.info[n].randomPos)
  {
    assert n in Active(t0.info, todo).Keys;
  }

  lemma {:induction false} PrunedStay(t0: Tables, t: Tables, todo: set<Id>, n: Id)
    requires Pruned(t0, t, todo) && n in todo && n in t0.info && !Idle(t0.info[n])
    ensures Pruned(t0, t, todo - {n})
  {
    DropOne(t0.info, todo, n);
  }

  lemma {:induction false} PrunedGone(t0: Tables, t: Tables, t': Tables, todo: set<Id>, n: Id)
    requires Pruned(t0, t, todo) && n in todo && n in t0.info && Idle(t0.info[n])
    requires OnlyPlaces(t.info - {n}, t'.info) && t'.news == t.news && t'.tried == t.tried
    requires t'.addr == t.addr - {t0.info[n].service}
    ensures Pruned(t0, t', todo - {n})
  {
    DropOne(t0.info, todo, n);
    PlacesTwice(Active(t0.info, todo), t.info, t'.info, n);
  }

  lemma {:induction false} PrunedEnd(t0: Tables, t: Tables)
    requires Pruned(t0, t, {})
    ensures forall n :: n in t.info ==> !Idle(t.info[n])
  {
    forall n | n in t.info ensures !Idle(t.info[n]) {
      assert n in Active(t0.info, {}).Keys;
    }
  }

  /** Drop the entries in no slot. */
  method Prune(ghost place: Placement, t0: Tables) returns (t: Tables)
    requires Loose(place, t0)
    ensures Loose(place, t) && Pruned(t0, t, {}) && forall n :: n in t.info ==> !Idle(t.info[n])
  {
    t := t0;
    var todo := t0.info.Keys;
    PrunedStart(t0);
    while todo != {}
      invariant Loose(place, t) && todo <= t0.info.Keys && Pruned(t0, t, todo)
      decreases |todo|
    {
      var n :| n in todo;
      PrunedPlace(t0, t, todo, n);
      if Idle(t.info[n]) {
        ghost var was := t;
        t := DeleteEntry(place, t, n);
        PrunedGone(t0, was, t, todo, n);
      } else {
        PrunedStay(t0, t, todo, n);
      }
      todo := todo - {n};
    }
    PrunedEnd(t0, t);
  }
}
