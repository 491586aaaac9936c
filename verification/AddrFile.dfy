/**
 The address manager on disk (`AddrManImpl::Serialize` and the reading half of `Unserialize`).

 A file is a list of items: integers, 256-bit words and address records.  How an item becomes
 bytes is left out.  `mapInfo` is visited in an arbitrary order.
*/
module AddrFile {
  import opened Common
  import opened AddrTables
  import opened AddrCheck

  const FILE_FORMAT: int := 4
  const V1_DETERMINISTIC: int := 1
  const V2_ASMAP: int := 2
  const INCOMPATIBILITY_BASE: int := 32

  /** The fields of an entry that are kept. */
  datatype DiskEntry = DiskEntry(service: Service, time: int, services: set<nat>, source: NetAddr, lastSuccess: int, attempts: int)

  datatype Item = Number(value: int) | Digest(word: nat) | Record(entry: DiskEntry)

  function ToDisk(x: AddrInfo): DiskEntry {
    DiskEntry(x.service, x.time, x.services, x.source, x.lastSuccess, x.attempts)
  }

  /** The other fields start over. */
  function FromDisk(e: DiskEntry, inTried: bool, randomPos: int): AddrInfo {
    AddrInfo(e.service, e.time, e.services, e.source, 0, 0, e.lastSuccess, e.attempts, 0, inTried, randomPos)
  }

  /** Exclusive or with 2^30. */
  function Toggle(n: int): int {
    if n % 0x8000_0000 >= 0x4000_0000 then n - 0x4000_0000 else n + 0x4000_0000
  }

  // ----- the layout

  ghost function Header(key: nat, nNew: int, nTried: int): seq<Item> {
    [Number(FILE_FORMAT), Number(INCOMPATIBILITY_BASE + FILE_FORMAT), Digest(key),
     Number(nNew), Number(nTried), Number(Toggle(NEW_BUCKET_COUNT))]
  }

  ghost function Records(es: seq<DiskEntry>): seq<Item> {
    seq(|es|, i requires 0 <= i < |es| => Record(es[i]))
  }

  ghost function Numbers(b: seq<int>): seq<Item> {
    seq(|b|, i requires 0 <= i < |b| => Number(b[i]))
  }

  ghost function BucketItems(bs: seq<seq<int>>): seq<Item> {
    if bs == [] then [] else [Number(|bs[0]|)] + Numbers(bs[0]) + BucketItems(bs[1..])
  }

  ghost function Stream(key: nat, news: seq<DiskEntry>, tried: seq<DiskEntry>, bs: seq<seq<int>>, asmap: nat): seq<Item> {
    Header(key, |news|, |tried|) + Records(news) + Records(tried) + BucketItems(bs) + [Digest(asmap)]
  }

  ghost function OnDisk(info: Infos, ids: seq<Id>): seq<DiskEntry>
    requires forall n :: n in ids ==> n in info
  {
    seq(|ids|, i requires 0 <= i < |ids| => ToDisk(info[ids[i]]))
  }

  /** The position of an id in a list. */
  ghost function IndexOf(ids: seq<Id>, n: Id): nat {
    if ids == [] || ids[0] == n then 0 else 1 + IndexOf(ids[1..], n)
  }

  /** The occupied slots of a bucket up to a position. */
  ghost function BucketSlots(news: map<Slot, Id>, b: nat, k: nat): seq<Slot> {
    if k == 0 then [] else BucketSlots(news, b, k - 1) + if Slot(b, k - 1) in news then [Slot(b, k - 1)] else []
  }

  ghost function Indices(news: map<Slot, Id>, ids: seq<Id>, slots: seq<Slot>): seq<int> {
    seq(|slots|, i requires 0 <= i < |slots| => if slots[i] in news then IndexOf(ids, news[slots[i]]) else 0)
  }

  ghost function Buckets(news: map<Slot, Id>, ids: seq<Id>, m: nat): seq<seq<int>> {
    seq(m, b requires 0 <= b < m => Indices(news, ids, BucketSlots(news, b, BUCKET_SIZE)))
  }

  ghost function NewIds(info: Infos): set<Id> {
    set n | n in info && info[n].refCount != 0
  }

  ghost function TriedIds(info: Infos): set<Id> {
    set n | n in info && info[n].inTried
  }

  /** The file for some tables, with the entries in the order of the two lists. */
  ghost predicate Written(s: seq<Item>, t: Tables, key: nat, asmap: nat, newIds: seq<Id>, triedIds: seq<Id>) {
    && Lists(newIds, NewIds(t.info)) && Lists(triedIds, TriedIds(t.info))
    && s == Stream(key, OnDisk(t.info, newIds), OnDisk(t.info, triedIds), Buckets(t.news, newIds, NEW_BUCKET_COUNT), asmap)
  }

  // ----- writing

  lemma {:induction false} IndexFound(ids: seq<Id>, n: Id)
    requires n in ids
    ensures IndexOf(ids, n) < |ids| && ids[IndexOf(ids, n)] == n
    decreases |ids|
  {
    if ids[0] != n {
      IndexFound(ids[1..], n);
    }
  }

  lemma {:induction false} IndexStays(ids: seq<Id>, m: Id, n: Id)
    requires n in ids
    ensures IndexOf(ids + [m], n) == IndexOf(ids, n)
    decreases |ids|
  {
    if ids[0] != n {
      assert (ids + [m])[1..] == ids[1..] + [m];
      IndexStays(ids[1..], m, n);
    }
  }

  lemma {:induction false} IndexLast(ids: seq<Id>, n: Id)
    requires n !in ids
    ensures IndexOf(ids + [n], n) == |ids|
    decreases |ids|
  {
    if ids != [] {
      assert (ids + [n])[1..] == ids[1..] + [n];
      IndexLast(ids[1..], n);
    }
  }

  lemma {:induction false} ListsMore(ids: seq<Id>, a: set<Id>, n: Id)
    requires Lists(ids, a) && n !in a
    ensures Lists(ids + [n], a + {n})
  {
    forall m ensures m in ids + [n] <==> m in a + {n} {
    }
    assert forall i :: 0 <= i < |ids| ==> ids[i] in ids;
  }

  /** The ids in some order. */
  method ListKeys(info: Infos) returns (order: seq<Id>)
    ensures Lists(order, info.Keys)
  {
    order := [];
    var todo := info.Keys;
    while todo != {}
      invariant todo <= info.Keys && Lists(order, info.Keys - todo)
      decreases |todo|
    {
      var n :| n in todo;
      ListsMore(order, info.Keys - todo, n);
      assert info.Keys - (todo - {n}) == info.Keys - todo + {n};
      order := order + [n];
      todo := todo - {n};
    }
    assert info.Keys - {} == info.Keys;
  }

  ghost predicate NumberedBy(unk: map<Id, int>, ids: seq<Id>) {
    forall n :: n in ids ==> n in unk && unk[n] == IndexOf(ids, n)
  }

  lemma {:induction false} NumberMore(unk: map<Id, int>, ids: seq<Id>, n: Id)
    requires NumberedBy(unk, ids) && n !in ids
    ensures NumberedBy(unk[n := |ids|], ids + [n]) && NumberedBy(unk[n := |ids|], ids)
  {
    forall m | m in ids + [n] ensures m in unk[n := |ids|] && unk[n := |ids|][m] == IndexOf(ids + [n], m) {
      if m == n {
        IndexLast(ids, n);
      } else {
        IndexStays(ids, n, m);
      }
    }
  }

  ghost function Among(order: seq<Id>, k: nat, a: set<Id>): set<Id>
    requires k <= |order|
  {
    set n | n in order[..k] && n in a
  }

  /** One more id visited. */
  lemma {:induction false} AmongNext(order: seq<Id>, k: nat, a: set<Id>, all: set<Id>)
    requires k < |order| && Lists(order, all)
    ensures order[k] !in Among(order, k, a)
    ensures Among(order, k + 1, a) == if order[k] in a then Among(order, k, a) + {order[k]} else Among(order, k, a)
  {
    assert order[..k + 1] == order[..k] + [order[k]];
  }

  lemma {:induction false} AmongAll(order: seq<Id>, a: set<Id>, all: set<Id>)
    requires Lists(order, all) && a <= all
    ensures Among(order, |order|, a) == a
  {
    assert order[..|order|] == order;
  }

  lemma {:induction false} NotFull(ids: seq<Id>, order: seq<Id>, k: nat, a: set<Id>)
    requires k < |order| && Lists(ids, Among(order, k, a)) && order[k] in a && order[k] !in Among(order, k, a)
    ensures |ids| < |a|
  {
    var b := Among(order, k, a);
    ListCount(ids, b);
    assert b + {order[k]} <= a;
    assert a == b + {order[k]} + (a - b - {order[k]});
  }

  lemma {:induction false} OnDiskMore(info: Infos, ids: seq<Id>, n: Id)
    requires (forall m :: m in ids ==> m in info) && n in info
    ensures forall m :: m in ids + [n] ==> m in info
    ensures Records(OnDisk(info, ids + [n])) == Records(OnDisk(info, ids)) + [Record(ToDisk(info[n]))]
  {
  }

  /** The new entries, and a number for each id. */
  method WriteNew(t: Tables, order: seq<Id>) returns (s: seq<Item>, unk: map<Id, int>, ghost ids: seq<Id>)
    requires Lists(order, t.info.Keys) && t.count.nNew == |NewIds(t.info)|
    ensures Lists(ids, NewIds(t.info)) && s == Records(OnDisk(t.info, ids)) && NumberedBy(unk, ids)
  {
    s, unk, ids := [], map[], [];
    var nIds := 0;
    ghost var a := NewIds(t.info);
    for k := 0 to |order|
      invariant Lists(ids, Among(order, k, a)) && nIds == |ids|
      invariant (forall m :: m in ids ==> m in t.info) && s == Records(OnDisk(t.info, ids))
      invariant NumberedBy(unk, ids)
    {
      var n := order[k];
      assert n in order;
      AmongNext(order, k, a, t.info.Keys);
      NumberMore(unk, ids, n);
      unk := unk[n := nIds];
      if t.info[n].refCount != 0 {
        NotFull(ids, order, k, a);
        assert nIds != t.count.nNew;
        OnDiskMore(t.info, ids, n);
        ListsMore(ids, Among(order, k, a), n);
        s := s + [Record(ToDisk(t.info[n]))];
        ids := ids + [n];
        nIds := nIds + 1;
      }
    }
    AmongAll(order, a, t.info.Keys);
  }

  method WriteTried(t: Tables, order: seq<Id>) returns (s: seq<Item>, ghost ids: seq<Id>)
    requires Lists(order, t.info.Keys) && t.count.nTried == |TriedIds(t.info)|
    ensures Lists(ids, TriedIds(t.info)) && s == Records(OnDisk(t.info, ids))
  {
    s, ids := [], [];
    var nIds := 0;
    ghost var a := TriedIds(t.info);
    for k := 0 to |order|
      invariant Lists(ids, Among(order, k, a)) && nIds == |ids|
      invariant (forall m :: m in ids ==> m in t.info) && s == Records(OnDisk(t.info, ids))
    {
      var n := order[k];
      assert n in order;
      AmongNext(order, k, a, t.info.Keys);
      if t.info[n].inTried {
        NotFull(ids, order, k, a);
        assert nIds != t.count.nTried;
        OnDiskMore(t.info, ids, n);
        ListsMore(ids, Among(order, k, a), n);
        s := s + [Record(ToDisk(t.info[n]))];
        ids := ids + [n];
        nIds := nIds + 1;
      }
    }
    AmongAll(order, a, t.info.Keys);
  }

  lemma {:induction false} BucketItemsMore(bs: seq<seq<int>>, b: seq<int>)
    ensures BucketItems(bs + [b]) == BucketItems(bs) + ([Number(|b|)] + Numbers(b))
    decreases |bs|
  {
    if bs == [] {
      assert bs + [b] == [b] && [b][1..] == [];
    } else {
      assert (bs + [b])[1..] == bs[1..] + [b];
      BucketItemsMore(bs[1..], b);
    }
  }

  lemma {:induction false} BucketsMore(news: map<Slot, Id>, ids: seq<Id>, m: nat)
    ensures Buckets(news, ids, m + 1) == Buckets(news, ids, m) + [Indices(news, ids, BucketSlots(news, m, BUCKET_SIZE))]
  {
  }

  ghost predicate Numbered(news: map<Slot, Id>, ids: seq<Id>) {
    forall s :: s in news ==> news[s] in ids
  }

  lemma {:induction false} IndicesMore(news: map<Slot, Id>, ids: seq<Id>, slots: seq<Slot>, s: Slot)
    requires s in news
    ensures Numbers(Indices(news, ids, slots + [s])) == Numbers(Indices(news, ids, slots)) + [Number(IndexOf(ids, news[s]))]
  {
    assert Indices(news, ids, slots + [s]) == Indices(news, ids, slots) + [IndexOf(ids, news[s])];
  }

  method WriteBucket(news: map<Slot, Id>, unk: map<Id, int>, ghost ids: seq<Id>, b: nat) returns (s: seq<Item>)
    requires NumberedBy(unk, ids) && Numbered(news, ids)
    ensures var v := Indices(news, ids, BucketSlots(news, b, BUCKET_SIZE)); s == [Number(|v|)] + Numbers(v)
  {
    var nSize := 0;
    for i := 0 to BUCKET_SIZE
      invariant nSize == |BucketSlots(news, b, i)|
    {
      if Slot(b, i) in news {
        nSize := nSize + 1;
      }
    }
    s := [Number(nSize)];
    for i := 0 to BUCKET_SIZE
      invariant s == [Number(nSize)] + Numbers(Indices(news, ids, BucketSlots(news, b, i)))
    {
      if Slot(b, i) in news {
        IndicesMore(news, ids, BucketSlots(news, b, i), Slot(b, i));
        s := s + [Number(unk[news[Slot(b, i)]])];
      }
    }
  }

  method WriteBuckets(news: map<Slot, Id>, unk: map<Id, int>, ghost ids: seq<Id>) returns (s: seq<Item>)
    requires NumberedBy(unk, ids) && Numbered(news, ids)
    ensures s == BucketItems(Buckets(news, ids, NEW_BUCKET_COUNT))
  {
    s := [];
    for b := 0 to NEW_BUCKET_COUNT
      invariant s == BucketItems(Buckets(news, ids, b))
    {
      var one := WriteBucket(news, unk, ids, b);
      BucketItemsMore(Buckets(news, ids, b), Indices(news, ids, BucketSlots(news, b, BUCKET_SIZE)));
      BucketsMore(news, ids, b);
      s := s + one;
    }
  }

  lemma {:induction false} InStepCounts(place: Placement, t: Tables)
    requires InStep(place, t, {}, {})
    ensures NewIds(t.info) == Members(t.info, {}, false, ANY) && t.count.nNew == |NewIds(t.info)|
    ensures TriedIds(t.info) == Members(t.info, {}, true, ANY) && t.count.nTried == |TriedIds(t.info)|
    ensures forall s :: s in t.news ==> t.news[s] in NewIds(t.info)
  {
    assert Unfold(true);
    forall n ensures n in NewIds(t.info) <==> n in Members(t.info, {}, false, ANY) {
      if n in t.info {
        assert EntryOk(t.info, {}, {}, n);
      }
    }
    forall n ensures n in TriedIds(t.info) <==> n in Members(t.info, {}, true, ANY) {
    }
    forall s | s in t.news ensures t.news[s] in NewIds(t.info) {
      assert NewSlotOk(place, t.info, t.news, s) && EntryOk(t.info, {}, {}, t.news[s]);
    }
  }

  method Serialize(ghost place: Placement, t: Tables, key: nat, asmap: nat) returns (s: seq<Item>)
    requires InStep(place, t, {}, {})
    ensures exists newIds, triedIds :: Written(s, t, key, asmap, newIds, triedIds)
  {
    InStepCounts(place, t);
    var order := ListKeys(t.info);
    var news, unk, newIds := WriteNew(t, order);
    var tried, triedIds := WriteTried(t, order);
    var buckets := WriteBuckets(t.news, unk, newIds);
    s := [Number(FILE_FORMAT), Number(INCOMPATIBILITY_BASE + FILE_FORMAT), Digest(key),
          Number(t.count.nNew), Number(t.count.nTried), Number(Toggle(NEW_BUCKET_COUNT))];
    s := s + news + tried + buckets + [Digest(asmap)];
    ListCount(newIds, NewIds(t.info));
    ListCount(triedIds, TriedIds(t.info));
    assert Written(s, t, key, asmap, newIds, triedIds);
  }

  // ----- reading

  /** What a file says; entries of buckets are pairs of a bucket and the number of a new entry. */
  datatype Disk = Disk(key: nat, uBuckets: int, news: seq<DiskEntry>, tried: seq<DiskEntry>, pairs: seq<(nat, int)>, asmap: nat)

  ghost predicate AllNumbers(s: seq<Item>, lo: nat, hi: nat)
    requires hi <= |s|
  {
    forall i :: lo <= i < hi ==> s[i].Number?
  }

  function AtLeastZero(n: int): nat {
    if n < 0 then 0 else n
  }

  /** The pairs of one bucket; numbers that belong to no entry are dropped. */
  ghost function PairsIn(s: seq<Item>, lo: nat, hi: nat, b: nat, nNew: int): seq<(nat, int)>
    requires lo <= hi <= |s| && AllNumbers(s, lo, hi)
    decreases hi
  {
    if lo == hi then [] else
      PairsIn(s, lo, hi - 1, b, nNew) + if 0 <= s[hi - 1].value < nNew then [(b, s[hi - 1].value)] else []
  }

  /** Buckets `b` to `u`, and where they end. */
  ghost function Scan(s: seq<Item>, pos: nat, b: nat, u: int, nNew: int): Option<(seq<(nat, int)>, nat)>
    requires pos <= |s|
    decreases |s| - pos
  {
    if b >= u then Some(([], pos))
    else if pos == |s| || !s[pos].Number? then None
    else
      var end := pos + 1 + AtLeastZero(s[pos].value);
      if end > |s| || !AllNumbers(s, pos + 1, end) then None
      else
        Prefixed(PairsIn(s, pos + 1, end, b, nNew), Scan(s, end, b + 1, u, nNew))
  }

  ghost function Prefixed(pairs: seq<(nat, int)>, rest: Option<(seq<(nat, int)>, nat)>): Option<(seq<(nat, int)>, nat)> {
    if rest.None? then None else Some((pairs + rest.value.0, rest.value.1))
  }

  lemma {:induction false} PrefixedTwice(p: seq<(nat, int)>, q: seq<(nat, int)>, rest: Option<(seq<(nat, int)>, nat)>)
    ensures Prefixed(p, Prefixed(q, rest)) == Prefixed(p + q, rest) && Prefixed([], rest) == rest
  {
    if rest.Some? {
      assert p + (q + rest.value.0) == p + q + rest.value.0 && [] + rest.value.0 == rest.value.0;
    }
  }

  lemma {:induction false} ScanStep(s: seq<Item>, pos: nat, b: nat, u: int, nNew: int, end: nat)
    requires b < u && pos < |s| && s[pos].Number? && end == pos + 1 + AtLeastZero(s[pos].value) <= |s| && AllNumbers(s, pos + 1, end)
    ensures Scan(s, pos, b, u, nNew) == Prefixed(PairsIn(s, pos + 1, end, b, nNew), Scan(s, end, b + 1, u, nNew))
  {
  }

  method ReadBucket(s: seq<Item>, pos: nat, b: nat, nNew: int) returns (ok: bool, pairs: seq<(nat, int)>, end: nat)
    requires pos < |s| && s[pos].Number?
    ensures ok <==> pos + 1 + AtLeastZero(s[pos].value) <= |s| && AllNumbers(s, pos + 1, pos + 1 + AtLeastZero(s[pos].value))
    ensures ok ==> end == pos + 1 + AtLeastZero(s[pos].value) && pairs == PairsIn(s, pos + 1, end, b, nNew)
  {
    pairs := [];
    end := pos + 1;
    var n := 0;
    while n < s[pos].value
      invariant 0 <= n <= AtLeastZero(s[pos].value) && end == pos + 1 + n <= |s| && AllNumbers(s, pos + 1, end)
      invariant pairs == PairsIn(s, pos + 1, end, b, nNew)
    {
      if end == |s| || !s[end].Number? {
        return false, [], end;
      }
      var index := s[end].value;
      end := end + 1;
      if 0 <= index < nNew {
        pairs := pairs + [(b, index)];
      }
      n := n + 1;
    }
    ok := true;
  }

  method ReadBuckets(s: seq<Item>, start: nat, u: int, nNew: int) returns (r: Option<(seq<(nat, int)>, nat)>)
    requires start <= |s|
    ensures r == Scan(s, start, 0, u, nNew)
  {
    var pos, b, pairs := start, 0, [];
    PrefixedTwice([], [], Scan(s, start, 0, u, nNew));
    while b < u
      invariant pos <= |s|
      invariant Scan(s, start, 0, u, nNew) == Prefixed(pairs, Scan(s, pos, b, u, nNew))
      decreases |s| - pos
    {
      if pos == |s| || !s[pos].Number? {
        return None;
      }
      var ok, some, end := ReadBucket(s, pos, b, nNew);
      if !ok {
        return None;
      }
      ScanStep(s, pos, b, u, nNew, end);
      PrefixedTwice(pairs, some, Scan(s, end, b + 1, u, nNew));
      pos, b, pairs := end, b + 1, pairs + some;
    }
    assert pairs + [] == pairs;
    return Some((pairs, pos));
  }

  function EntryOf(x: Item): DiskEntry {
    if x.Record? then x.entry else DiskEntry(Service(NetAddr(0, 0), 0), 0, {}, NetAddr(0, 0), 0, 0)
  }

  ghost function Entries(s: seq<Item>): seq<DiskEntry> {
    seq(|s|, i requires 0 <= i < |s| => EntryOf(s[i]))
  }

  ghost function RecordsAt(s: seq<Item>, pos: nat, n: nat): Option<seq<DiskEntry>> {
    if pos + n <= |s| && forall i :: pos <= i < pos + n ==> s[i].Record? then Some(Entries(s[pos..pos + n])) else None
  }

  method ReadRecords(s: seq<Item>, pos: nat, n: nat) returns (r: Option<seq<DiskEntry>>)
    requires pos <= |s|
    ensures r == RecordsAt(s, pos, n)
  {
    var es := [];
    for k := 0 to n
      invariant pos + k <= |s| && es == Entries(s[pos..pos + k])
      invariant forall i :: pos <= i < pos + k ==> s[i].Record?
    {
      if pos + k == |s| || !s[pos + k].Record? {
        assert pos <= pos + k < pos + n;
        return None;
      }
      assert s[pos..pos + k + 1] == s[pos..pos + k] + [s[pos + k]];
      es := es + [s[pos + k].entry];
    }
    return Some(es);
  }

  /** The header has a known format and sizes that the tables can hold. */
  predicate HeaderOk(s: seq<Item>) {
    && |s| >= 6 && s[0].Number? && s[1].Number? && s[2].Digest? && s[3].Number? && s[4].Number? && s[5].Number?
    && INCOMPATIBILITY_BASE <= s[1].value && s[1].value - INCOMPATIBILITY_BASE <= FILE_FORMAT
    && 0 <= s[3].value <= NEW_BUCKET_COUNT * BUCKET_SIZE && 0 <= s[4].value <= TRIED_BUCKET_COUNT * BUCKET_SIZE
  }

  /** What a file says, if it can be read. */
  ghost function Parsed(s: seq<Item>): Option<Disk> {
    if !HeaderOk(s) then None else
      var format, nNew, nTried := s[0].value, s[3].value, s[4].value;
      var u := if format >= V1_DETERMINISTIC then Toggle(s[5].value) else s[5].value;
      var news, tried := RecordsAt(s, 6, nNew), RecordsAt(s, 6 + nNew, nTried);
      if news.None? || tried.None? then None else
        var buckets := Scan(s, 6 + nNew + nTried, 0, u, nNew);
        if buckets.None? then None else
          var end := buckets.value.1;
          if format < V2_ASMAP then Some(Disk(s[2].word, u, news.value, tried.value, buckets.value.0, 0))
          else if end < |s| && s[end].Digest? then
            Some(Disk(s[2].word, u, news.value, tried.value, buckets.value.0, s[end].word))
          else None
  }

  /** Read a file; nothing is returned where the code throws. */
  method Parse(s: seq<Item>) returns (r: Option<Disk>)
    ensures r == Parsed(s)
  {
    if !HeaderOk(s) {
      return None;
    }
    var format, key, nNew, nTried, u := s[0].value, s[2].word, s[3].value, s[4].value, s[5].value;
    if format >= V1_DETERMINISTIC {
      u := Toggle(u);
    }
    var news := ReadRecords(s, 6, nNew);
    if news.None? {
      return None;
    }
    var tried := ReadRecords(s, 6 + nNew, nTried);
    if tried.None? {
      return None;
    }
    var buckets := ReadBuckets(s, 6 + nNew + nTried, u, nNew);
    if buckets.None? {
      return None;
    }
    var asmap := 0;
    if format >= V2_ASMAP {
      var end := buckets.value.1;
      if end >= |s| || !s[end].Digest? {
        return None;
      }
      asmap := s[end].word;
    }
    return Some(Disk(key, u, news.value, tried.value, buckets.value.0, asmap));
  }

  /** The pairs name new entries and buckets that the file has. */
  ghost predicate Proper(d: Disk) {
    forall x :: x in d.pairs ==> x.0 < AtLeastZero(d.uBuckets) && 0 <= x.1 < |d.news|
  }

  ghost function PairsOf(v: seq<int>, b: nat, nNew: int): seq<(nat, int)> {
    if v == [] then [] else
      PairsOf(v[..|v| - 1], b, nNew) + if 0 <= v[|v| - 1] < nNew then [(b, v[|v| - 1])] else []
  }

  /** The pairs of buckets `b` and up. */
  ghost function PairsFrom(bs: seq<seq<int>>, b: nat, nNew: int): seq<(nat, int)>
    requires b <= |bs|
    decreases |bs| - b
  {
    if b == |bs| then [] else PairsOf(bs[b], b, nNew) + PairsFrom(bs, b + 1, nNew)
  }

  lemma {:induction false} PairsInProper(s: seq<Item>, lo: nat, hi: nat, b: nat, nNew: int)
    requires lo <= hi <= |s| && AllNumbers(s, lo, hi)
    ensures forall x :: x in PairsIn(s, lo, hi, b, nNew) ==> x.0 == b && 0 <= x.1 < nNew
    decreases hi
  {
    if lo < hi {
      PairsInProper(s, lo, hi - 1, b, nNew);
    }
  }

  lemma {:induction false} ScanProper(s: seq<Item>, pos: nat, b: nat, u: int, nNew: int)
    requires pos <= |s| && Scan(s, pos, b, u, nNew).Some?
    ensures forall x :: x in Scan(s, pos, b, u, nNew).value.0 ==> x.0 < AtLeastZero(u) && 0 <= x.1 < nNew
    decreases |s| - pos
  {
    if b < u {
      var end := pos + 1 + AtLeastZero(s[pos].value);
      ScanProper(s, end, b + 1, u, nNew);
      PairsInProper(s, pos + 1, end, b, nNew);
    }
  }

  lemma {:induction false} ParsedProper(s: seq<Item>)
    requires Parsed(s).Some?
    ensures Proper(Parsed(s).value)
  {
    var format, nNew, nTried := s[0].value, s[3].value, s[4].value;
    var u := if format >= V1_DETERMINISTIC then Toggle(s[5].value) else s[5].value;
    ScanProper(s, 6 + nNew + nTried, 0, u, nNew);
  }

  // ----- reading what was written

  lemma {:induction false} PairsWritten(s: seq<Item>, lo: nat, v: seq<int>, k: nat, b: nat, nNew: int)
    requires k <= |v| && lo + |v| <= |s| && forall i :: 0 <= i < |v| ==> s[lo + i] == Number(v[i])
    ensures AllNumbers(s, lo, lo + k) && PairsIn(s, lo, lo + k, b, nNew) == PairsOf(v[..k], b, nNew)
    decreases k
  {
    forall i | lo <= i < lo + k ensures s[i].Number? {
      assert s[lo + (i - lo)] == Number(v[i - lo]);
    }
    if k > 0 {
      PairsWritten(s, lo, v, k - 1, b, nNew);
      assert v[..k][..k - 1] == v[..k - 1];
      assert s[lo + (k - 1)] == Number(v[k - 1]);
    }
  }

  lemma {:induction false} Middle<T>(s: seq<T>, a: seq<T>, b: seq<T>, c: seq<T>)
    requires s == a + b + c
    ensures |a| + |b| <= |s| && s[|a|..|a| + |b|] == b
  {
  }

  lemma {:induction false} BucketWritten(s: seq<Item>, pos: nat, v: seq<int>, rest: seq<Item>)
    requires var items := [Number(|v|)] + Numbers(v) + rest; pos + |items| <= |s| && s[pos..pos + |items|] == items
    ensures s[pos] == Number(|v|) && forall i :: 0 <= i < |v| ==> s[pos + 1 + i] == Number(v[i])
    ensures s[pos + 1 + |v|..pos + 1 + |v| + |rest|] == rest
  {
    var items := [Number(|v|)] + Numbers(v) + rest;
    forall i | 0 <= i < |items| ensures s[pos + i] == items[i] {
      assert s[pos..pos + |items|][i] == items[i];
    }
    assert s[pos + 0] == items[0];
    forall i | 0 <= i < |v| ensures s[pos + 1 + i] == Number(v[i]) {
      assert s[pos + (1 + i)] == items[1 + i];
    }
    var end := pos + 1 + |v|;
    forall i | 0 <= i < |rest| ensures s[end..end + |rest|][i] == rest[i] {
      assert s[pos + (1 + |v| + i)] == items[1 + |v| + i];
    }
  }

  /** The outcome of `Scan`, to be carried along without looking inside. */
  ghost predicate ScansTo(s: seq<Item>, pos: nat, b: nat, u: int, nNew: int, pairs: seq<(nat, int)>, end: nat) {
    pos <= |s| && forall x {:trigger Unfold(x)} :: Unfold(x) ==> Scan(s, pos, b, u, nNew) == Some((pairs, end))
  }

  lemma {:induction false} ScanBucket(s: seq<Item>, pos: nat, v: seq<int>, b: nat, u: int, nNew: int, pairs: seq<(nat, int)>, end: nat)
    requires b < u && pos + 1 + |v| <= |s| && s[pos] == Number(|v|) && forall i :: 0 <= i < |v| ==> s[pos + 1 + i] == Number(v[i])
    requires ScansTo(s, pos + 1 + |v|, b + 1, u, nNew, pairs, end)
    ensures ScansTo(s, pos, b, u, nNew, PairsOf(v, b, nNew) + pairs, end)
  {
    assert Unfold(true);
    PairsWritten(s, pos + 1, v, |v|, b, nNew);
    assert v[..|v|] == v;
    ScanStep(s, pos, b, u, nNew, pos + 1 + |v|);
  }

  /** A list of items stands at a position. */
  ghost predicate StandsAt(s: seq<Item>, pos: nat, items: seq<Item>) {
    pos + |items| <= |s| && s[pos..pos + |items|] == items
  }

  lemma {:induction false} BucketItemsFront(bs: seq<seq<int>>, b: nat)
    requires b < |bs|
    ensures BucketItems(bs[b..]) == [Number(|bs[b]|)] + Numbers(bs[b]) + BucketItems(bs[b + 1..])
  {
    assert bs[b..][0] == bs[b] && bs[b..][1..] == bs[b + 1..];
  }

  lemma {:induction false} ScanWritten(s: seq<Item>, pos: nat, bs: seq<seq<int>>, b: nat, nNew: int, items: seq<Item>)
    requires b <= |bs| && items == BucketItems(bs[b..]) && StandsAt(s, pos, items)
    ensures ScansTo(s, pos, b, |bs|, nNew, PairsFrom(bs, b, nNew), pos + |items|)
    decreases |bs| - b
  {
    if b < |bs| {
      var v, rest := bs[b], BucketItems(bs[b + 1..]);
      BucketItemsFront(bs, b);
      BucketWritten(s, pos, v, rest);
      ScanWritten(s, pos + 1 + |v|, bs, b + 1, nNew, rest);
      ScanBucket(s, pos, v, b, |bs|, nNew, PairsFrom(bs, b + 1, nNew), pos + |items|);
    } else {
      assert bs[b..] == [];
    }
  }

  lemma {:induction false} RecordsWritten(s: seq<Item>, pos: nat, es: seq<DiskEntry>)
    requires pos + |es| <= |s| && s[pos..pos + |es|] == Records(es)
    ensures RecordsAt(s, pos, |es|) == Some(es)
  {
    forall i | pos <= i < pos + |es| ensures s[i] == Record(es[i - pos]) {
      assert s[i] == s[pos..pos + |es|][i - pos];
    }
    assert Entries(Records(es)) == es;
  }

  /** Where the parts of a file stand. */
  ghost predicate HasParts(s: seq<Item>, key: nat, news: seq<DiskEntry>, tried: seq<DiskEntry>, items: seq<Item>, asmap: nat) {
    var n, m, k := |news|, |tried|, |items|;
    && |s| == 6 + n + m + k + 1
    && s[0] == Number(FILE_FORMAT) && s[1] == Number(INCOMPATIBILITY_BASE + FILE_FORMAT) && s[2] == Digest(key)
    && s[3] == Number(n) && s[4] == Number(m) && s[5] == Number(Toggle(NEW_BUCKET_COUNT))
    && s[6..6 + n] == Records(news) && s[6 + n..6 + n + m] == Records(tried)
    && s[6 + n + m..6 + n + m + k] == items && s[6 + n + m + k] == Digest(asmap)
  }

  lemma {:induction false} StreamParts(key: nat, news: seq<DiskEntry>, tried: seq<DiskEntry>, bs: seq<seq<int>>, asmap: nat)
    ensures HasParts(Stream(key, news, tried, bs, asmap), key, news, tried, BucketItems(bs), asmap)
  {
    var h, r1, r2, b, last := Header(key, |news|, |tried|), Records(news), Records(tried), BucketItems(bs), [Digest(asmap)];
    FiveParts(h, r1, r2, b, last);
  }

  lemma {:induction false} FiveParts<T>(h: seq<T>, r1: seq<T>, r2: seq<T>, b: seq<T>, last: seq<T>)
    ensures var s, n, m, k := h + r1 + r2 + b + last, |h| + |r1|, |h| + |r1| + |r2|, |h| + |r1| + |r2| + |b|;
      && |s| == k + |last| && (forall i :: 0 <= i < |h| ==> s[i] == h[i])
      && s[|h|..n] == r1 && s[n..m] == r2 && s[m..k] == b && (forall i :: k <= i < |s| ==> s[i] == last[i - k])
  {
    var s := h + r1 + r2 + b + last;
    assert s == h + r1 + (r2 + b + last);
    Middle(s, h, r1, r2 + b + last);
    assert s == (h + r1) + r2 + (b + last);
    Middle(s, h + r1, r2, b + last);
    Middle(s, h + r1 + r2, b, last);
  }

  lemma {:induction false} ParsedParts(s: seq<Item>, key: nat, news: seq<DiskEntry>, tried: seq<DiskEntry>,
                                       items: seq<Item>, asmap: nat, pairs: seq<(nat, int)>)
    requires HasParts(s, key, news, tried, items, asmap)
    requires |news| <= NEW_BUCKET_COUNT * BUCKET_SIZE && |tried| <= TRIED_BUCKET_COUNT * BUCKET_SIZE
    requires ScansTo(s, 6 + |news| + |tried|, 0, NEW_BUCKET_COUNT, |news|, pairs, 6 + |news| + |tried| + |items|)
    ensures Parsed(s) == Some(Disk(key, NEW_BUCKET_COUNT, news, tried, pairs, asmap))
  {
    RecordsWritten(s, 6, news);
    RecordsWritten(s, 6 + |news|, tried);
    assert Unfold(true);
    assert Toggle(Toggle(NEW_BUCKET_COUNT)) == NEW_BUCKET_COUNT;
  }

  lemma {:induction false} ParsedWhole(s: seq<Item>, key: nat, news: seq<DiskEntry>, tried: seq<DiskEntry>,
                                       bs: seq<seq<int>>, items: seq<Item>, asmap: nat)
    requires HasParts(s, key, news, tried, items, asmap) && items == BucketItems(bs[0..]) && |bs| == NEW_BUCKET_COUNT
    requires |news| <= NEW_BUCKET_COUNT * BUCKET_SIZE && |tried| <= TRIED_BUCKET_COUNT * BUCKET_SIZE
    ensures Parsed(s) == Some(Disk(key, NEW_BUCKET_COUNT, news, tried, PairsFrom(bs, 0, |news|), asmap))
  {
    ScanWritten(s, 6 + |news| + |tried|, bs, 0, |news|, items);
    ParsedParts(s, key, news, tried, items, asmap, PairsFrom(bs, 0, |news|));
  }

  /** Reading a written file gives back what was written. */
  lemma {:induction false} ParsedStream(key: nat, news: seq<DiskEntry>, tried: seq<DiskEntry>, bs: seq<seq<int>>, asmap: nat)
    requires |bs| == NEW_BUCKET_COUNT
    requires |news| <= NEW_BUCKET_COUNT * BUCKET_SIZE && |tried| <= TRIED_BUCKET_COUNT * BUCKET_SIZE
    ensures Parsed(Stream(key, news, tried, bs, asmap))
         == Some(Disk(key, NEW_BUCKET_COUNT, news, tried, PairsFrom(bs, 0, |news|), asmap))
  {
    StreamParts(key, news, tried, bs, asmap);
    assert bs[0..] == bs;
    ParsedWhole(Stream(key, news, tried, bs, asmap), key, news, tried, bs, BucketItems(bs), asmap);
  }
}
