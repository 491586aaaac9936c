/**
 The tables of the address manager (`addrman.cpp`, `addrman_impl.h`) and what keeps them in
 step: `mapInfo`, `mapAddr`, `vRandom`, `vvNew`, `vvTried` and the counters.

 A bucket array is a map from occupied slots to ids, so that a missing slot stands for -1.
 Hashing and network groups are functions of the address that are otherwise left open.
*/
module AddrTables {
  import opened Common

  const TRIED_BUCKET_COUNT: nat := 256
  const NEW_BUCKET_COUNT: nat := 1024
  const BUCKET_SIZE: nat := 64
  const NEW_BUCKETS_PER_ADDRESS: int := 8

  type Id = nat

  datatype NetAddr = NetAddr(network: nat, bits: nat)

  datatype Service = Service(addr: NetAddr, port: nat)

  /** An address as peers announce it; service flags are a set of bit numbers. */
  datatype Address = Address(service: Service, time: int, services: set<nat>)

  datatype AddrInfo = AddrInfo(
    service: Service, time: int, services: set<nat>, source: NetAddr,
    lastTry: int, lastCountAttempt: int, lastSuccess: int, attempts: int,
    refCount: int, inTried: bool, randomPos: int)

  datatype Slot = Slot(bucket: nat, pos: nat)

  /** The keyed hashes behind buckets and positions, and properties of addresses. */
  datatype Placement = Placement(
    triedHash: Service -> nat,
    newHash: (Service, NetAddr) -> nat,
    posHash: (Service, bool, nat) -> nat,
    routable: NetAddr -> bool,
    valid: NetAddr -> bool,
    netClass: NetAddr -> nat)
  {
    function TriedSlot(s: Service): Slot {
      var bucket := triedHash(s) % TRIED_BUCKET_COUNT;
      Slot(bucket, posHash(s, false, bucket) % BUCKET_SIZE)
    }

    function NewBucket(s: Service, source: NetAddr): nat {
      newHash(s, source) % NEW_BUCKET_COUNT
    }

    /** The one slot of a new bucket in which the address may stand. */
    function NewSlot(s: Service, bucket: nat): Slot {
      Slot(bucket, posHash(s, true, bucket) % BUCKET_SIZE)
    }
  }

  type Infos = map<Id, AddrInfo>

  /** An entry apart from its place in `vRandom` and its count of references, which the tables determine. */
  function Core(x: AddrInfo): AddrInfo {
    x.(randomPos := 0, refCount := 0)
  }

  // ----- the conditions

  /** Position `i` of `vRandom` holds an entry that knows its place. */
  ghost predicate PlacedAt(info: Infos, random: seq<Id>, i: nat)
    requires i < |random|
  {
    random[i] in info && info[random[i]].randomPos == i
  }

  ghost predicate Placed(info: Infos, random: seq<Id>, n: Id)
    requires n in info
  {
    0 <= info[n].randomPos < |random| && random[info[n].randomPos] == n
  }

  /** `vRandom` lists every id once, and every entry knows its place. */
  ghost predicate RandomOk(info: Infos, random: seq<Id>) {
    && (forall i {:trigger PlacedAt(info, random, i)} :: 0 <= i < |random| ==> PlacedAt(info, random, i))
    && (forall n {:trigger Placed(info, random, n)} :: n in info ==> Placed(info, random, n))
  }

  ghost predicate Mapped(info: Infos, addr: map<Service, Id>, n: Id)
    requires n in info
  {
    info[n].service in addr && addr[info[n].service] == n
  }

  ghost predicate MappedBack(info: Infos, addr: map<Service, Id>, s: Service)
    requires s in addr
  {
    addr[s] in info && info[addr[s]].service == s
  }

  /** `mapAddr` leads from each address to its id, and nowhere else. */
  ghost predicate AddrOk(info: Infos, addr: map<Service, Id>) {
    && (forall n {:trigger Mapped(info, addr, n)} :: n in info ==> Mapped(info, addr, n))
    && (forall s {:trigger MappedBack(info, addr, s)} :: s in addr ==> MappedBack(info, addr, s))
  }

  ghost predicate IdsOk(info: Infos, idCount: nat) {
    forall n :: n in info ==> n < idCount
  }

  /** The new slots that hold an id. */
  ghost function SlotsOf(news: map<Slot, Id>, n: Id): set<Slot> {
    set s | s in news && news[s] == n
  }

  ghost predicate NewSlotOk(place: Placement, info: Infos, news: map<Slot, Id>, s: Slot)
    requires s in news
  {
    && s.bucket < NEW_BUCKET_COUNT && news[s] in info && !info[news[s]].inTried
    && s == place.NewSlot(info[news[s]].service, s.bucket)
  }

  ghost predicate RefCountOk(info: Infos, news: map<Slot, Id>, n: Id)
    requires n in info
  {
    info[n].refCount == |SlotsOf(news, n)|
  }

  /** New slots hold addresses that belong there, as often as the reference counts say. */
  ghost predicate NewOk(place: Placement, info: Infos, news: map<Slot, Id>) {
    && (forall s {:trigger NewSlotOk(place, info, news, s)} :: s in news ==> NewSlotOk(place, info, news, s))
    && (forall n {:trigger RefCountOk(info, news, n)} :: n in info ==> RefCountOk(info, news, n))
  }

  ghost predicate TriedSlotOk(place: Placement, info: Infos, tried: map<Slot, Id>, s: Slot)
    requires s in tried
  {
    tried[s] in info && info[tried[s]].inTried && s == place.TriedSlot(info[tried[s]].service)
  }

  ghost predicate TriedEntryOk(place: Placement, info: Infos, tried: map<Slot, Id>, n: Id)
    requires n in info
  {
    info[n].inTried ==> place.TriedSlot(info[n].service) in tried && tried[place.TriedSlot(info[n].service)] == n
  }

  /** Each tried address stands in its own slot, and tried slots hold nothing else. */
  ghost predicate TriedOk(place: Placement, info: Infos, tried: map<Slot, Id>) {
    && (forall s {:trigger TriedSlotOk(place, info, tried, s)} :: s in tried ==> TriedSlotOk(place, info, tried, s))
    && (forall n {:trigger TriedEntryOk(place, info, tried, n)} :: n in info ==> TriedEntryOk(place, info, tried, n))
  }

  /** The state of one entry: in `limbo` while it moves between the tables, `unlisted` while it
      is in no new slot yet. */
  ghost predicate EntryOk(info: Infos, limbo: set<Id>, unlisted: set<Id>, n: Id)
    requires n in info
  {
    var x := info[n];
    && 0 <= x.lastTry && 0 <= x.lastSuccess
    && (if x.inTried then x.refCount == 0 && x.lastSuccess != 0 && n !in limbo
        else if n in limbo then x.refCount == 0
        else x.refCount <= NEW_BUCKETS_PER_ADDRESS && (n in unlisted || 1 <= x.refCount))
  }

  ghost predicate EntriesOk(info: Infos, limbo: set<Id>, unlisted: set<Id>) {
    forall n {:trigger EntryOk(info, limbo, unlisted, n)} :: n in info ==> EntryOk(info, limbo, unlisted, n)
  }

  // ----- counters

  /** Per-network counters; a network without an entry counts as zero. */
  function Count(counts: map<nat, int>, net: nat): int {
    if net in counts then counts[net] else 0
  }

  function Adjust(counts: map<nat, int>, net: nat, d: int): map<nat, int> {
    counts[net := Count(counts, net) + d]
  }

  datatype Counters = Counters(nNew: int, nTried: int, netNew: map<nat, int>, netTried: map<nat, int>) {
    function AddNew(net: nat, d: int): Counters {
      this.(nNew := nNew + d, netNew := Adjust(netNew, net, d))
    }

    function AddTried(net: nat, d: int): Counters {
      this.(nTried := nTried + d, netTried := Adjust(netTried, net, d))
    }
  }

  /** Stands for all networks together. */
  const ANY: int := -1

  /** The entry is counted as tried, or as new unless it is in limbo, on the network. */
  ghost predicate Counted(info: Infos, limbo: set<Id>, tried: bool, net: int, n: Id) {
    && n in info && info[n].inTried == tried && (tried || n !in limbo)
    && (net == ANY || info[n].service.addr.network == net)
  }

  ghost function Members(info: Infos, limbo: set<Id>, tried: bool, net: int): set<Id> {
    set n | n in info && Counted(info, limbo, tried, net, n)
  }

  /** The counters count what is there. */
  ghost predicate CountsOk(info: Infos, limbo: set<Id>, c: Counters) {
    && c.nNew == |Members(info, limbo, false, ANY)|
    && c.nTried == |Members(info, limbo, true, ANY)|
    && (forall net: nat {:trigger Count(c.netNew, net)} :: Count(c.netNew, net) == |Members(info, limbo, false, net)|)
    && (forall net: nat {:trigger Count(c.netTried, net)} :: Count(c.netTried, net) == |Members(info, limbo, true, net)|)
  }

  lemma {:induction false} NothingCounted()
    ensures CountsOk(map[], {}, Counters(0, 0, map[], map[]))
  {
    var none: Infos := map[];
    forall tried, net ensures Members(none, {}, tried, net) == {} {
    }
  }

  ghost function One(b: bool): int {
    if b then 1 else 0
  }

  lemma {:induction false} CardWithout(a: set<Id>, n: Id)
    ensures |a - {n}| == |a| - One(n in a)
  {
    if n in a {
      assert a == (a - {n}) + {n};
    } else {
      assert a == a - {n};
    }
  }

  /** Apart from `n` the entries count the same. */
  ghost predicate CountAlike(info: Infos, limbo: set<Id>, info': Infos, limbo': set<Id>, n: Id) {
    forall m :: m != n ==>
      && (m in info <==> m in info') && (m in limbo <==> m in limbo')
      && (m in info ==> info'[m].inTried == info[m].inTried && info'[m].service == info[m].service)
  }

  lemma {:induction false} MembersStep(
    info: Infos, limbo: set<Id>, info': Infos, limbo': set<Id>, n: Id, tried: bool, net: int)
    requires CountAlike(info, limbo, info', limbo', n)
    ensures |Members(info', limbo', tried, net)|
         == |Members(info, limbo, tried, net)| - One(Counted(info, limbo, tried, net, n)) + One(Counted(info', limbo', tried, net, n))
  {
    var a, a' := Members(info, limbo, tried, net), Members(info', limbo', tried, net);
    forall m | m != n ensures m in a <==> m in a' {
      assert Counted(info, limbo, tried, net, m) <==> Counted(info', limbo', tried, net, m);
    }
    assert a - {n} == a' - {n};
    CardWithout(a, n);
    CardWithout(a', n);
    assert n in a <==> Counted(info, limbo, tried, net, n);
    assert n in a' <==> Counted(info', limbo', tried, net, n);
  }

  /** The counters of one table follow an entry of network `net`. */
  ghost predicate Follow(total: int, nets: map<nat, int>, total': int, nets': map<nat, int>, net: nat, d: int) {
    && total' == total + d
    && forall k: nat {:trigger Count(nets', k)} :: Count(nets', k) == Count(nets, k) + if k == net then d else 0
  }

  /** When one entry changes, the counters follow it. */
  lemma {:induction false} CountsStep(
    info: Infos, limbo: set<Id>, c: Counters, info': Infos, limbo': set<Id>, c': Counters, n: Id, net: nat)
    requires CountsOk(info, limbo, c) && CountAlike(info, limbo, info', limbo', n)
    requires (n in info ==> info[n].service.addr.network == net) && (n in info' ==> info'[n].service.addr.network == net)
    requires Follow(c.nNew, c.netNew, c'.nNew, c'.netNew, net,
                    One(Counted(info', limbo', false, ANY, n)) - One(Counted(info, limbo, false, ANY, n)))
    requires Follow(c.nTried, c.netTried, c'.nTried, c'.netTried, net,
                    One(Counted(info', limbo', true, ANY, n)) - One(Counted(info, limbo, true, ANY, n)))
    ensures CountsOk(info', limbo', c')
  {
    MembersStep(info, limbo, info', limbo', n, false, ANY);
    MembersStep(info, limbo, info', limbo', n, true, ANY);
    forall k: nat ensures Count(c'.netNew, k) == |Members(info', limbo', false, k)| {
      MembersStep(info, limbo, info', limbo', n, false, k);
    }
    forall k: nat ensures Count(c'.netTried, k) == |Members(info', limbo', true, k)| {
      MembersStep(info, limbo, info', limbo', n, true, k);
    }
  }

  // ----- all conditions together

  /** The indexes over all known addresses. */
  datatype Tables = Tables(
    idCount: nat, info: Infos, addr: map<Service, Id>, random: seq<Id>, count: Counters,
    news: map<Slot, Id>, tried: map<Slot, Id>)

  /** What `CheckAddrman` asks for, outside of the entries that are on the move. */
  ghost predicate Consistent(place: Placement, t: Tables, limbo: set<Id>, unlisted: set<Id>) {
    && RandomOk(t.info, t.random) && AddrOk(t.info, t.addr) && IdsOk(t.info, t.idCount)
    && NewOk(place, t.info, t.news) && TriedOk(place, t.info, t.tried)
    && EntriesOk(t.info, limbo, unlisted) && CountsOk(t.info, limbo, t.count)
  }

  /** `Consistent`, to be carried along without looking inside. */
  ghost predicate InStep(place: Placement, t: Tables, limbo: set<Id>, unlisted: set<Id>) {
    forall b {:trigger Unfold(b)} :: Unfold(b) ==> Consistent(place, t, limbo, unlisted)
  }

  /** Entries agree on what the tables depend on. */
  ghost predicate SameTables(info: Infos, info': Infos) {
    && info.Keys == info'.Keys
    && forall n :: n in info ==>
         && info'[n].service == info[n].service && info'[n].inTried == info[n].inTried
         && info'[n].refCount == info[n].refCount
  }

  lemma {:induction false} SameTablesKeep(
    place: Placement, info: Infos, info': Infos, addr: map<Service, Id>, idCount: nat, news: map<Slot, Id>, tried: map<Slot, Id>)
    requires SameTables(info, info') && AddrOk(info, addr) && IdsOk(info, idCount)
    requires NewOk(place, info, news) && TriedOk(place, info, tried)
    ensures AddrOk(info', addr) && IdsOk(info', idCount)
    ensures NewOk(place, info', news) && TriedOk(place, info', tried)
  {
    forall n | n in info' ensures Mapped(info', addr, n) {
      assert Mapped(info, addr, n);
    }
    forall s | s in addr ensures MappedBack(info', addr, s) {
      assert MappedBack(info, addr, s);
    }
    SameSlotsKeep(place, info, info', news, tried);
  }

  lemma {:induction false} SameSlotsKeep(place: Placement, info: Infos, info': Infos, news: map<Slot, Id>, tried: map<Slot, Id>)
    requires SameTables(info, info') && NewOk(place, info, news) && TriedOk(place, info, tried)
    ensures NewOk(place, info', news) && TriedOk(place, info', tried)
  {
    forall n | n in info' ensures RefCountOk(info', news, n) && TriedEntryOk(place, info', tried, n) {
      assert RefCountOk(info, news, n) && TriedEntryOk(place, info, tried, n);
    }
    forall s | s in news ensures NewSlotOk(place, info', news, s) {
      assert NewSlotOk(place, info, news, s);
    }
    forall s | s in tried ensures TriedSlotOk(place, info', tried, s) {
      assert TriedSlotOk(place, info, tried, s);
    }
  }

  lemma {:induction false} SameTablesCount(info: Infos, info': Infos, c: Counters, limbo: set<Id>)
    requires SameTables(info, info') && CountsOk(info, limbo, c)
    ensures CountsOk(info', limbo, c)
  {
    SameMembers(info, info', limbo, false, ANY);
    SameMembers(info, info', limbo, true, ANY);
    forall k: nat ensures Members(info', limbo, false, k) == Members(info, limbo, false, k) {
      SameMembers(info, info', limbo, false, k);
    }
    forall k: nat ensures Members(info', limbo, true, k) == Members(info, limbo, true, k) {
      SameMembers(info, info', limbo, true, k);
    }
  }

  lemma {:induction false} SameMembers(info: Infos, info': Infos, limbo: set<Id>, tried: bool, net: int)
    requires SameTables(info, info')
    ensures Members(info', limbo, tried, net) == Members(info, limbo, tried, net)
  {
    forall n ensures Counted(info', limbo, tried, net, n) <==> Counted(info, limbo, tried, net, n) {
      assert n in info <==> n in info'.Keys;
    }
  }

  // ----- slots of the new table

  lemma {:induction false} SlotCleared(news: map<Slot, Id>, s: Slot, n: Id)
    requires s in news
    ensures |SlotsOf(news - {s}, n)| == |SlotsOf(news, n)| - One(news[s] == n)
  {
    if news[s] == n {
      assert SlotsOf(news, n) == SlotsOf(news - {s}, n) + {s};
    } else {
      assert SlotsOf(news, n) == SlotsOf(news - {s}, n);
    }
  }

  lemma {:induction false} SlotFilled(news: map<Slot, Id>, s: Slot, m: Id, n: Id)
    requires s !in news
    ensures |SlotsOf(news[s := m], n)| == |SlotsOf(news, n)| + One(m == n)
  {
    if m == n {
      assert SlotsOf(news[s := m], n) == SlotsOf(news, n) + {s};
    } else {
      assert SlotsOf(news[s := m], n) == SlotsOf(news, n);
    }
  }

  /** Clearing a slot takes one reference off. */
  lemma {:induction false} ClearedOk(place: Placement, info: Infos, news: map<Slot, Id>, s: Slot)
    requires NewOk(place, info, news) && s in news
    ensures news[s] in info && 0 < info[news[s]].refCount && !info[news[s]].inTried
    ensures var n := news[s]; NewOk(place, info[n := info[n].(refCount := info[n].refCount - 1)], news - {s})
  {
    var n := news[s];
    assert NewSlotOk(place, info, news, s) && RefCountOk(info, news, n);
    assert s in SlotsOf(news, n);
    var info', news' := info[n := info[n].(refCount := info[n].refCount - 1)], news - {s};
    forall m | m in info' ensures RefCountOk(info', news', m) {
      assert RefCountOk(info, news, m);
      SlotCleared(news, s, m);
    }
    forall r | r in news' ensures NewSlotOk(place, info', news', r) {
      assert NewSlotOk(place, info, news, r);
    }
  }

  /** Filling an empty slot where the address belongs adds a reference. */
  lemma {:induction false} FilledOk(place: Placement, info: Infos, news: map<Slot, Id>, s: Slot, n: Id)
    requires NewOk(place, info, news) && s !in news && n in info && !info[n].inTried
    requires s.bucket < NEW_BUCKET_COUNT && s == place.NewSlot(info[n].service, s.bucket)
    ensures NewOk(place, info[n := info[n].(refCount := info[n].refCount + 1)], news[s := n])
  {
    var info', news' := info[n := info[n].(refCount := info[n].refCount + 1)], news[s := n];
    forall m | m in info' ensures RefCountOk(info', news', m) {
      assert RefCountOk(info, news, m);
      SlotFilled(news, s, n, m);
    }
    forall r | r in news' ensures NewSlotOk(place, info', news', r) {
      if r != s {
        assert NewSlotOk(place, info, news, r);
      }
    }
  }

  /** An entry replaced by one with the same address, place in `vRandom` and table. */
  ghost predicate Kindred(x: AddrInfo, y: AddrInfo) {
    x.service == y.service && x.inTried == y.inTried && x.randomPos == y.randomPos
  }

  lemma {:induction false} KindredIndexes(info: Infos, addr: map<Service, Id>, random: seq<Id>, idCount: nat, n: Id, x: AddrInfo)
    requires RandomOk(info, random) && AddrOk(info, addr) && IdsOk(info, idCount) && n in info && Kindred(info[n], x)
    ensures RandomOk(info[n := x], random) && AddrOk(info[n := x], addr) && IdsOk(info[n := x], idCount)
  {
    var info' := info[n := x];
    forall m | m in info' ensures Placed(info', random, m) && Mapped(info', addr, m) {
      assert Placed(info, random, m) && Mapped(info, addr, m);
    }
    forall i | 0 <= i < |random| ensures PlacedAt(info', random, i) {
      assert PlacedAt(info, random, i);
    }
    forall s | s in addr ensures MappedBack(info', addr, s) {
      assert MappedBack(info, addr, s);
    }
  }

  lemma {:induction false} KindredTried(place: Placement, info: Infos, tried: map<Slot, Id>, n: Id, x: AddrInfo)
    requires TriedOk(place, info, tried) && n in info && Kindred(info[n], x)
    ensures TriedOk(place, info[n := x], tried)
  {
    var info' := info[n := x];
    forall m | m in info' ensures TriedEntryOk(place, info', tried, m) {
      assert TriedEntryOk(place, info, tried, m);
    }
    forall s | s in tried ensures TriedSlotOk(place, info', tried, s) {
      assert TriedSlotOk(place, info, tried, s);
    }
  }

  lemma {:induction false} KindredNew(place: Placement, info: Infos, news: map<Slot, Id>, n: Id, x: AddrInfo)
    requires NewOk(place, info, news) && n in info && Kindred(info[n], x) && x.refCount == info[n].refCount
    ensures NewOk(place, info[n := x], news)
  {
    var info' := info[n := x];
    forall m | m in info' ensures RefCountOk(info', news, m) {
      assert RefCountOk(info, news, m);
    }
    forall s | s in news ensures NewSlotOk(place, info', news, s) {
      assert NewSlotOk(place, info, news, s);
    }
  }

  lemma {:induction false} KindredCounts(info: Infos, c: Counters, limbo: set<Id>, n: Id, x: AddrInfo)
    requires CountsOk(info, limbo, c) && n in info && Kindred(info[n], x)
    ensures CountsOk(info[n := x], limbo, c)
  {
    CountsStep(info, limbo, c, info[n := x], limbo, c, n, x.service.addr.network);
  }

  // ----- removing entries

  lemma {:induction false} RemovedIndexes(info: Infos, addr: map<Service, Id>, random: seq<Id>, idCount: nat, n: Id)
    requires RandomOk(info, random) && AddrOk(info, addr) && IdsOk(info, idCount)
    requires n in info && random != [] && random[|random| - 1] == n
    ensures RandomOk(info - {n}, random[..|random| - 1]) && AddrOk(info - {n}, addr - {info[n].service})
    ensures IdsOk(info - {n}, idCount)
  {
    var info', random', addr' := info - {n}, random[..|random| - 1], addr - {info[n].service};
    assert PlacedAt(info, random, |random| - 1);
    forall i | 0 <= i < |random'| ensures PlacedAt(info', random', i) {
      assert PlacedAt(info, random, i);
    }
    forall m | m in info' ensures Placed(info', random', m) && Mapped(info', addr', m) {
      assert Placed(info, random, m) && Mapped(info, addr, m) && Mapped(info, addr, n);
    }
    forall s | s in addr' ensures MappedBack(info', addr', s) {
      assert MappedBack(info, addr, s);
    }
  }

  lemma {:induction false} RemovedNew(place: Placement, info: Infos, news: map<Slot, Id>, n: Id)
    requires NewOk(place, info, news) && n in info && info[n].refCount == 0
    ensures NewOk(place, info - {n}, news)
  {
    assert RefCountOk(info, news, n);
    forall s | s in news ensures NewSlotOk(place, info - {n}, news, s) {
      assert NewSlotOk(place, info, news, s);
      assert news[s] == n ==> s in SlotsOf(news, n);
    }
    forall m | m in info - {n} ensures RefCountOk(info - {n}, news, m) {
      assert RefCountOk(info, news, m);
    }
  }

  lemma {:induction false} RemovedTried(place: Placement, info: Infos, tried: map<Slot, Id>, n: Id)
    requires TriedOk(place, info, tried) && n in info && !info[n].inTried
    ensures TriedOk(place, info - {n}, tried)
  {
    forall m | m in info - {n} ensures TriedEntryOk(place, info - {n}, tried, m) {
      assert TriedEntryOk(place, info, tried, m);
    }
    forall s | s in tried ensures TriedSlotOk(place, info - {n}, tried, s) {
      assert TriedSlotOk(place, info, tried, s);
    }
  }

  lemma {:induction false} RemovedCounts(info: Infos, c: Counters, limbo: set<Id>, n: Id)
    requires CountsOk(info, limbo, c) && n in info && !info[n].inTried && n !in limbo
    ensures CountsOk(info - {n}, limbo, c.AddNew(info[n].service.addr.network, -1))
  {
    var net := info[n].service.addr.network;
    CountsStep(info, limbo, c, info - {n}, limbo, c.AddNew(net, -1), n, net);
  }

  /** The tables without an entry at the end of `vRandom`. */
  function Removed(t: Tables, n: Id): Tables
    requires n in t.info && t.random != []
  {
    var s := t.info[n].service;
    t.(count := t.count.AddNew(s.addr.network, -1), random := t.random[..|t.random| - 1], addr := t.addr - {s}, info := t.info - {n})
  }

  /** An entry that is in no slot, at the end of `vRandom`, can go. */
  lemma {:induction false} RemovedOk(place: Placement, t: Tables, limbo: set<Id>, unlisted: set<Id>, n: Id)
    requires InStep(place, t, limbo, unlisted)
    requires n in t.info && !t.info[n].inTried && t.info[n].refCount == 0 && n !in limbo
    requires t.random != [] && t.random[|t.random| - 1] == n
    ensures InStep(place, Removed(t, n), limbo, unlisted - {n})
  {
    assert Unfold(true);
    RemovedIndexes(t.info, t.addr, t.random, t.idCount, n);
    RemovedNew(place, t.info, t.news, n);
    RemovedTried(place, t.info, t.tried, n);
    RemovedCounts(t.info, t.count, limbo, n);
    var info' := t.info - {n};
    forall m | m in info' ensures EntryOk(info', limbo, unlisted - {n}, m) {
      assert EntryOk(t.info, limbo, unlisted, m);
    }
  }

  // ----- creating entries

  lemma {:induction false} CreatedIndexes(info: Infos, addr: map<Service, Id>, random: seq<Id>, idCount: nat, x: AddrInfo)
    requires RandomOk(info, random) && AddrOk(info, addr) && IdsOk(info, idCount)
    requires x.service !in addr && x.randomPos == |random|
    ensures RandomOk(info[idCount := x], random + [idCount]) && AddrOk(info[idCount := x], addr[x.service := idCount])
    ensures IdsOk(info[idCount := x], idCount + 1)
  {
    var info', random', addr' := info[idCount := x], random + [idCount], addr[x.service := idCount];
    forall i | 0 <= i < |random'| ensures PlacedAt(info', random', i) {
      if i < |random| {
        assert PlacedAt(info, random, i);
      }
    }
    forall m | m in info' ensures Placed(info', random', m) && Mapped(info', addr', m) {
      if m != idCount {
        assert Placed(info, random, m) && Mapped(info, addr, m);
      }
    }
    forall s | s in addr' ensures MappedBack(info', addr', s) {
      if s != x.service {
        assert MappedBack(info, addr, s);
      }
    }
  }

  lemma {:induction false} CreatedNew(place: Placement, info: Infos, news: map<Slot, Id>, n: Id, x: AddrInfo)
    requires NewOk(place, info, news) && n !in info && x.refCount == 0
    ensures NewOk(place, info[n := x], news)
  {
    var info' := info[n := x];
    forall s | s in news ensures news[s] != n && NewSlotOk(place, info', news, s) {
      assert NewSlotOk(place, info, news, s);
    }
    assert SlotsOf(news, n) == {};
    forall m | m in info' ensures RefCountOk(info', news, m) {
      if m != n {
        assert RefCountOk(info, news, m);
      }
    }
  }

  lemma {:induction false} CreatedTried(place: Placement, info: Infos, tried: map<Slot, Id>, n: Id, x: AddrInfo)
    requires TriedOk(place, info, tried) && n !in info && !x.inTried
    ensures TriedOk(place, info[n := x], tried)
  {
    var info' := info[n := x];
    forall m | m in info' ensures TriedEntryOk(place, info', tried, m) {
      if m != n {
        assert TriedEntryOk(place, info, tried, m);
      }
    }
    forall s | s in tried ensures TriedSlotOk(place, info', tried, s) {
      assert TriedSlotOk(place, info, tried, s);
    }
  }

  lemma {:induction false} CreatedCounts(info: Infos, c: Counters, n: Id, x: AddrInfo)
    requires CountsOk(info, {}, c) && n !in info && !x.inTried
    ensures CountsOk(info[n := x], {}, c.AddNew(x.service.addr.network, 1))
  {
    var net := x.service.addr.network;
    CountsStep(info, {}, c, info[n := x], {}, c.AddNew(net, 1), n, net);
  }

  function Created(t: Tables, x: AddrInfo): Tables {
    t.(idCount := t.idCount + 1, info := t.info[t.idCount := x], addr := t.addr[x.service := t.idCount],
       random := t.random + [t.idCount], count := t.count.AddNew(x.service.addr.network, 1))
  }

  /** A new entry, in no slot yet, at the end of `vRandom`. */
  lemma {:induction false} CreatedOk(place: Placement, t: Tables, x: AddrInfo)
    requires InStep(place, t, {}, {})
    requires x.service !in t.addr && x.refCount == 0 && !x.inTried && x.randomPos == |t.random|
    requires 0 <= x.lastTry && 0 <= x.lastSuccess
    ensures InStep(place, Created(t, x), {}, {t.idCount}) && t.idCount !in t.info
  {
    assert Unfold(true);
    var n := t.idCount;
    assert n !in t.info;
    CreatedIndexes(t.info, t.addr, t.random, n, x);
    CreatedNew(place, t.info, t.news, n, x);
    CreatedTried(place, t.info, t.tried, n, x);
    CreatedCounts(t.info, t.count, n, x);
    var info' := t.info[n := x];
    forall m | m in info' ensures EntryOk(info', {}, {n}, m) {
      if m != n {
        assert EntryOk(t.info, {}, {}, m);
      }
    }
  }

  // ----- moving between the tables

  /** A new entry that is in no slot any more stops being counted. */
  lemma {:induction false} IntoLimbo(info: Infos, c: Counters, limbo: set<Id>, unlisted: set<Id>, n: Id)
    requires EntriesOk(info, limbo, unlisted) && CountsOk(info, limbo, c)
    requires n in info && !info[n].inTried && info[n].refCount == 0 && n !in limbo
    ensures EntriesOk(info, limbo + {n}, unlisted - {n})
    ensures CountsOk(info, limbo + {n}, c.AddNew(info[n].service.addr.network, -1))
  {
    var net := info[n].service.addr.network;
    CountsStep(info, limbo, c, info, limbo + {n}, c.AddNew(net, -1), n, net);
    forall m | m in info ensures EntryOk(info, limbo + {n}, unlisted - {n}, m) {
      assert EntryOk(info, limbo, unlisted, m);
    }
  }

  /** Taking an address out of the tried table. */
  lemma {:induction false} EvictedTables(place: Placement, info: Infos, news: map<Slot, Id>, tried: map<Slot, Id>, s: Slot)
    requires NewOk(place, info, news) && TriedOk(place, info, tried) && s in tried
    ensures tried[s] in info && info[tried[s]].inTried
    ensures var n := tried[s]; var info' := info[n := info[n].(inTried := false)];
      NewOk(place, info', news) && TriedOk(place, info', tried - {s})
  {
    var n := tried[s];
    assert TriedSlotOk(place, info, tried, s);
    var info', tried' := info[n := info[n].(inTried := false)], tried - {s};
    forall m | m in info' ensures TriedEntryOk(place, info', tried', m) && RefCountOk(info', news, m) {
      assert TriedEntryOk(place, info, tried, m) && RefCountOk(info, news, m);
    }
    forall r | r in tried' ensures TriedSlotOk(place, info', tried', r) {
      assert TriedSlotOk(place, info, tried, r);
    }
    forall r | r in news ensures NewSlotOk(place, info', news, r) {
      assert NewSlotOk(place, info, news, r);
    }
  }

  lemma {:induction false} EvictedCounts(info: Infos, c: Counters, limbo: set<Id>, unlisted: set<Id>, n: Id)
    requires EntriesOk(info, limbo, unlisted) && CountsOk(info, limbo, c) && n in info && info[n].inTried
    ensures var info' := info[n := info[n].(inTried := false)];
      EntriesOk(info', limbo + {n}, unlisted) && CountsOk(info', limbo + {n}, c.AddTried(info[n].service.addr.network, -1))
  {
    var net := info[n].service.addr.network;
    var info' := info[n := info[n].(inTried := false)];
    assert EntryOk(info, limbo, unlisted, n);
    CountsStep(info, limbo, c, info', limbo + {n}, c.AddTried(net, -1), n, net);
    forall m | m in info' ensures EntryOk(info', limbo + {n}, unlisted, m) {
      assert EntryOk(info, limbo, unlisted, m);
    }
  }

  /** Back in the new table with one reference. */
  lemma {:induction false} OutOfLimbo(info: Infos, c: Counters, limbo: set<Id>, unlisted: set<Id>, n: Id)
    requires EntriesOk(info, limbo, unlisted) && CountsOk(info, limbo, c) && n in info && n in limbo
    ensures var info' := info[n := info[n].(refCount := 1)];
      EntriesOk(info', limbo - {n}, unlisted) && CountsOk(info', limbo - {n}, c.AddNew(info[n].service.addr.network, 1))
  {
    var net := info[n].service.addr.network;
    var info' := info[n := info[n].(refCount := 1)];
    assert EntryOk(info, limbo, unlisted, n);
    CountsStep(info, limbo, c, info', limbo - {n}, c.AddNew(net, 1), n, net);
    forall m | m in info' ensures EntryOk(info', limbo - {n}, unlisted, m) {
      assert EntryOk(info, limbo, unlisted, m);
    }
  }

  /** Into the free slot of the tried table where the address belongs. */
  lemma {:induction false} PromotedTables(place: Placement, info: Infos, news: map<Slot, Id>, tried: map<Slot, Id>, n: Id)
    requires NewOk(place, info, news) && TriedOk(place, info, tried)
    requires n in info && !info[n].inTried && info[n].refCount == 0 && place.TriedSlot(info[n].service) !in tried
    ensures var info' := info[n := info[n].(inTried := true)];
      NewOk(place, info', news) && TriedOk(place, info', tried[place.TriedSlot(info[n].service) := n])
  {
    var info', tried' := info[n := info[n].(inTried := true)], tried[place.TriedSlot(info[n].service) := n];
    assert RefCountOk(info, news, n);
    forall m | m in info' ensures TriedEntryOk(place, info', tried', m) && RefCountOk(info', news, m) {
      assert TriedEntryOk(place, info, tried, m) && RefCountOk(info, news, m);
    }
    forall r | r in tried' ensures TriedSlotOk(place, info', tried', r) {
      if r in tried {
        assert TriedSlotOk(place, info, tried, r);
      }
    }
    forall r | r in news ensures NewSlotOk(place, info', news, r) {
      assert NewSlotOk(place, info, news, r);
      assert news[r] == n ==> r in SlotsOf(news, n);
    }
  }

  lemma {:induction false} PromotedCounts(info: Infos, c: Counters, limbo: set<Id>, unlisted: set<Id>, n: Id)
    requires EntriesOk(info, limbo, unlisted) && CountsOk(info, limbo, c) && n in info && n in limbo
    requires info[n].lastSuccess != 0
    ensures var info' := info[n := info[n].(inTried := true)];
      EntriesOk(info', limbo - {n}, unlisted) && CountsOk(info', limbo - {n}, c.AddTried(info[n].service.addr.network, 1))
  {
    var net := info[n].service.addr.network;
    var info' := info[n := info[n].(inTried := true)];
    assert EntryOk(info, limbo, unlisted, n);
    CountsStep(info, limbo, c, info', limbo - {n}, c.AddTried(net, 1), n, net);
    forall m | m in info' ensures EntryOk(info', limbo - {n}, unlisted, m) {
      assert EntryOk(info, limbo, unlisted, m);
    }
  }

  lemma {:induction false} MovedIndexes(info: Infos, addr: map<Service, Id>, random: seq<Id>, idCount: nat, n: Id, inTried: bool)
    requires RandomOk(info, random) && AddrOk(info, addr) && IdsOk(info, idCount) && n in info
    ensures var info' := info[n := info[n].(inTried := inTried)];
      RandomOk(info', random) && AddrOk(info', addr) && IdsOk(info', idCount)
  {
    var info' := info[n := info[n].(inTried := inTried)];
    forall m | m in info' ensures Placed(info', random, m) && Mapped(info', addr, m) {
      assert Placed(info, random, m) && Mapped(info, addr, m);
    }
    forall i | 0 <= i < |random| ensures PlacedAt(info', random, i) {
      assert PlacedAt(info, random, i);
    }
    forall s | s in addr ensures MappedBack(info', addr, s) {
      assert MappedBack(info, addr, s);
    }
  }

  /** Places in `vRandom` do not matter to the other indexes. */
  ghost predicate OnlyPlaces(info: Infos, info': Infos) {
    && info'.Keys == info.Keys
    && forall n :: n in info ==> info'[n] == info[n].(randomPos := info'[n].randomPos)
  }

  lemma {:induction false} PlacesKeep(place: Placement, t: Tables, info': Infos, random': seq<Id>, limbo: set<Id>, unlisted: set<Id>)
    requires InStep(place, t, limbo, unlisted) && OnlyPlaces(t.info, info') && RandomOk(info', random')
    ensures InStep(place, t.(info := info', random := random'), limbo, unlisted)
  {
    assert Unfold(true);
    SameTablesKeep(place, t.info, info', t.addr, t.idCount, t.news, t.tried);
    SameTablesCount(t.info, info', t.count, limbo);
    forall n | n in info' ensures EntryOk(info', limbo, unlisted, n) {
      assert EntryOk(t.info, limbo, unlisted, n);
    }
  }

  /** `vRandom` and the places of two entries swapped. */
  function Swapped(t: Tables, p1: nat, p2: nat): Tables
    requires p1 < |t.random| && p2 < |t.random| && t.random[p1] in t.info && t.random[p2] in t.info
  {
    var n1, n2 := t.random[p1], t.random[p2];
    t.(info := t.info[n1 := t.info[n1].(randomPos := p2)][n2 := t.info[n2].(randomPos := p1)],
       random := t.random[p1 := n2][p2 := n1])
  }

  lemma {:induction false} SwappedRandom(info: Infos, random: seq<Id>, p1: nat, p2: nat)
    requires RandomOk(info, random) && p1 < |random| && p2 < |random| && p1 != p2
    ensures var n1, n2 := random[p1], random[p2];
      && n1 in info && n2 in info && n1 != n2
      && var info' := info[n1 := info[n1].(randomPos := p2)][n2 := info[n2].(randomPos := p1)];
      RandomOk(info', random[p1 := n2][p2 := n1]) && OnlyPlaces(info, info')
  {
    var n1, n2 := random[p1], random[p2];
    assert PlacedAt(info, random, p1) && PlacedAt(info, random, p2);
    var info' := info[n1 := info[n1].(randomPos := p2)][n2 := info[n2].(randomPos := p1)];
    var random' := random[p1 := n2][p2 := n1];
    forall i | 0 <= i < |random'| ensures PlacedAt(info', random', i) {
      assert PlacedAt(info, random, i);
    }
    forall n | n in info' ensures Placed(info', random', n) {
      assert Placed(info, random, n);
    }
  }

  lemma {:induction false} SwappedOk(place: Placement, t: Tables, p1: nat, p2: nat, limbo: set<Id>, unlisted: set<Id>)
    requires InStep(place, t, limbo, unlisted) && p1 < |t.random| && p2 < |t.random| && p1 != p2
    ensures t.random[p1] in t.info && t.random[p2] in t.info && t.random[p1] != t.random[p2]
    ensures InStep(place, Swapped(t, p1, p2), limbo, unlisted) && OnlyPlaces(t.info, Swapped(t, p1, p2).info)
  {
    assert Unfold(true);
    SwappedRandom(t.info, t.random, p1, p2);
    var t' := Swapped(t, p1, p2);
    PlacesKeep(place, t, t'.info, t'.random, limbo, unlisted);
  }

  /** One slot of the new table cleared. */
  function Cleared(t: Tables, s: Slot): Tables
    requires s in t.news && t.news[s] in t.info
  {
    var n := t.news[s];
    t.(info := t.info[n := t.info[n].(refCount := t.info[n].refCount - 1)], news := t.news - {s})
  }

  lemma {:induction false} ClearedSlot(place: Placement, t: Tables, limbo: set<Id>, unlisted: set<Id>, s: Slot)
    requires InStep(place, t, limbo, unlisted) && s in t.news
    ensures t.news[s] in t.info && 0 < t.info[t.news[s]].refCount && !t.info[t.news[s]].inTried && t.news[s] !in limbo
    ensures InStep(place, Cleared(t, s), limbo, unlisted + {t.news[s]})
  {
    assert Unfold(true);
    var n := t.news[s];
    ClearedOk(place, t.info, t.news, s);
    assert EntryOk(t.info, limbo, unlisted, n);
    var x := t.info[n].(refCount := t.info[n].refCount - 1);
    KindredIndexes(t.info, t.addr, t.random, t.idCount, n, x);
    KindredTried(place, t.info, t.tried, n, x);
    KindredCounts(t.info, t.count, limbo, n, x);
    var info' := t.info[n := x];
    forall m | m in info' ensures EntryOk(info', limbo, unlisted + {n}, m) {
      assert EntryOk(t.info, limbo, unlisted, m);
    }
  }

  /** An empty slot of the new table filled with an entry that belongs there. */
  function Filled(t: Tables, s: Slot, n: Id): Tables
    requires n in t.info
  {
    t.(info := t.info[n := t.info[n].(refCount := t.info[n].refCount + 1)], news := t.news[s := n])
  }

  lemma {:induction false} FilledSlot(place: Placement, t: Tables, s: Slot, n: Id)
    requires InStep(place, t, {}, {n}) && s !in t.news && n in t.info && !t.info[n].inTried
    requires t.info[n].refCount < NEW_BUCKETS_PER_ADDRESS
    requires s.bucket < NEW_BUCKET_COUNT && s == place.NewSlot(t.info[n].service, s.bucket)
    ensures InStep(place, Filled(t, s, n), {}, {})
  {
    assert Unfold(true);
    FilledOk(place, t.info, t.news, s, n);
    assert RefCountOk(t.info, t.news, n);
    var x := t.info[n].(refCount := t.info[n].refCount + 1);
    KindredIndexes(t.info, t.addr, t.random, t.idCount, n, x);
    KindredTried(place, t.info, t.tried, n, x);
    KindredCounts(t.info, t.count, {}, n, x);
    var info' := t.info[n := x];
    forall m | m in info' ensures EntryOk(info', {}, {}, m) {
      assert EntryOk(t.info, {}, {n}, m);
    }
  }

  /** Times that the consistency check accepts: none before the epoch, and a success for a tried entry. */
  predicate TimesOk(x: AddrInfo) {
    0 <= x.lastTry && 0 <= x.lastSuccess && (x.inTried ==> x.lastSuccess != 0)
  }

  /** An entry changed in what the tables do not depend on: all stays in step exactly if its times are right. */
  lemma {:induction false} UpdatedOk(place: Placement, t: Tables, n: Id, x: AddrInfo)
    requires InStep(place, t, {}, {}) && n in t.info && Kindred(t.info[n], x) && x.refCount == t.info[n].refCount
    ensures InStep(place, t.(info := t.info[n := x]), {}, {}) <==> TimesOk(x)
  {
    assert Unfold(true);
    KindredIndexes(t.info, t.addr, t.random, t.idCount, n, x);
    KindredNew(place, t.info, t.news, n, x);
    KindredTried(place, t.info, t.tried, n, x);
    KindredCounts(t.info, t.count, {}, n, x);
    var info' := t.info[n := x];
    assert EntryOk(t.info, {}, {}, n);
    forall m | m in info' && m != n ensures EntryOk(info', {}, {}, m) {
      assert EntryOk(t.info, {}, {}, m);
    }
    assert EntryOk(info', {}, {}, n) <==> TimesOk(x);
  }

  /** An entry that is in a slot need not be excused. */
  lemma {:induction false} ForgetUnlisted(place: Placement, t: Tables, limbo: set<Id>, unlisted: set<Id>, n: Id)
    requires InStep(place, t, limbo, unlisted + {n})
    requires n in t.info && !t.info[n].inTried && n !in limbo && n !in unlisted ==> 1 <= t.info[n].refCount
    ensures InStep(place, t, limbo, unlisted)
  {
    assert Unfold(true);
    forall m | m in t.info ensures EntryOk(t.info, limbo, unlisted, m) {
      assert EntryOk(t.info, limbo, unlisted + {n}, m);
    }
  }

  lemma {:induction false} MoreUnlisted(place: Placement, t: Tables, limbo: set<Id>, unlisted: set<Id>, more: set<Id>)
    requires InStep(place, t, limbo, unlisted) && unlisted <= more
    ensures InStep(place, t, limbo, more)
  {
    assert Unfold(true);
    forall m | m in t.info ensures EntryOk(t.info, limbo, more, m) {
      assert EntryOk(t.info, limbo, unlisted, m);
    }
  }

  function Evicted(t: Tables, s: Slot): Tables
    requires s in t.tried && t.tried[s] in t.info
  {
    var n := t.tried[s];
    t.(info := t.info[n := t.info[n].(inTried := false)], tried := t.tried - {s},
       count := t.count.AddTried(t.info[n].service.addr.network, -1))
  }

  lemma {:induction false} EvictedOk(place: Placement, t: Tables, limbo: set<Id>, s: Slot)
    requires InStep(place, t, limbo, {}) && s in t.tried
    ensures t.tried[s] in t.info && t.info[t.tried[s]].inTried && t.tried[s] !in limbo
    ensures InStep(place, Evicted(t, s), limbo + {t.tried[s]}, {})
  {
    assert Unfold(true);
    var n := t.tried[s];
    EvictedTables(place, t.info, t.news, t.tried, s);
    assert EntryOk(t.info, limbo, {}, n);
    EvictedCounts(t.info, t.count, limbo, {}, n);
    MovedIndexes(t.info, t.addr, t.random, t.idCount, n, false);
  }

  function Relisted(t: Tables, n: Id, s: Slot): Tables
    requires n in t.info
  {
    t.(info := t.info[n := t.info[n].(refCount := 1)], news := t.news[s := n],
       count := t.count.AddNew(t.info[n].service.addr.network, 1))
  }

  lemma {:induction false} RelistedOk(place: Placement, t: Tables, limbo: set<Id>, n: Id, s: Slot)
    requires InStep(place, t, limbo, {}) && n in t.info && n in limbo && s !in t.news
    requires s.bucket < NEW_BUCKET_COUNT && s == place.NewSlot(t.info[n].service, s.bucket)
    ensures InStep(place, Relisted(t, n, s), limbo - {n}, {})
  {
    assert Unfold(true);
    assert EntryOk(t.info, limbo, {}, n);
    FilledOk(place, t.info, t.news, s, n);
    OutOfLimbo(t.info, t.count, limbo, {}, n);
    KindredIndexes(t.info, t.addr, t.random, t.idCount, n, t.info[n].(refCount := 1));
    KindredTried(place, t.info, t.tried, n, t.info[n].(refCount := 1));
  }

  function Promoted(t: Tables, n: Id, s: Slot): Tables
    requires n in t.info
  {
    t.(info := t.info[n := t.info[n].(inTried := true)], tried := t.tried[s := n],
       count := t.count.AddTried(t.info[n].service.addr.network, 1))
  }

  lemma {:induction false} PromotedOk(place: Placement, t: Tables, n: Id)
    requires InStep(place, t, {n}, {}) && n in t.info && t.info[n].lastSuccess != 0
    requires place.TriedSlot(t.info[n].service) !in t.tried
    ensures InStep(place, Promoted(t, n, place.TriedSlot(t.info[n].service)), {}, {})
  {
    assert Unfold(true);
    assert EntryOk(t.info, {n}, {}, n) && {n} - {n} == {};
    PromotedTables(place, t.info, t.news, t.tried, n);
    PromotedCounts(t.info, t.count, {n}, {}, n);
    MovedIndexes(t.info, t.addr, t.random, t.idCount, n, true);
  }

  lemma {:induction false} LimboOk(place: Placement, t: Tables, n: Id)
    requires InStep(place, t, {}, {n}) && n in t.info && !t.info[n].inTried && t.info[n].refCount == 0
    ensures InStep(place, t.(count := t.count.AddNew(t.info[n].service.addr.network, -1)), {n}, {})
  {
    assert Unfold(true);
    IntoLimbo(t.info, t.count, {}, {n}, n);
    assert {} + {n} == {n} && {n} - {n} == {};
  }

  /** What holds of one entry of tables that are in step. */
  lemma {:induction false} EntryFacts(place: Placement, t: Tables, limbo: set<Id>, unlisted: set<Id>, n: Id)
    requires InStep(place, t, limbo, unlisted) && n in t.info
    ensures EntryOk(t.info, limbo, unlisted, n) && n < t.idCount
  {
    assert Unfold(true);
  }

  lemma {:induction false} PlaceFacts(place: Placement, t: Tables, limbo: set<Id>, unlisted: set<Id>, n: Id)
    requires InStep(place, t, limbo, unlisted) && n in t.info
    ensures Placed(t.info, t.random, n)
  {
    assert Unfold(true);
  }

  lemma {:induction false} AddressFacts(place: Placement, t: Tables, limbo: set<Id>, unlisted: set<Id>, s: Service)
    requires InStep(place, t, limbo, unlisted) && s in t.addr
    ensures t.addr[s] in t.info && t.info[t.addr[s]].service == s
  {
    assert Unfold(true);
    assert MappedBack(t.info, t.addr, s);
  }
}
