/**
 What loading does with a file that was written from tables in step: the same tables, with the
 entries numbered in the order of the file.  `Unserialize` puts this beside what loading makes of
 any file (`AddrLoaded`).
*/
module AddrRoundTrip {
  import opened Common
  import opened AddrTables
  import opened AddrCheck
  import opened AddrFile
  import opened AddrLoad
  import opened AddrLoaded

  /** A map to ids, with every id replaced by its number. */
  ghost predicate Through<K(!new)>(m': map<K, Id>, m: map<K, Id>, ids: seq<Id>) {
    forall k :: (k in m' <==> k in m) && (k in m ==> m'[k] < |ids| && ids[m'[k]] == m[k])
  }

  /** The fields that are kept; the others start over. */
  function Kept(x: AddrInfo, randomPos: int): AddrInfo {
    x.(lastTry := 0, lastCountAttempt := 0, randomPos := randomPos)
  }

  ghost predicate SameInfo(info: Infos, info': Infos, ids: seq<Id>) {
    && Lists(ids, info.Keys) && (forall i: nat :: i in info' <==> i < |ids|)
    && (forall i :: 0 <= i < |ids| ==> ids[i] in info && info'[i] == Kept(info[ids[i]], i))
  }

  ghost predicate SameCounts(c: Counters, c': Counters) {
    && c'.nNew == c.nNew && c'.nTried == c.nTried
    && forall net: nat :: Count(c'.netNew, net) == Count(c.netNew, net) && Count(c'.netTried, net) == Count(c.netTried, net)
  }

  /** The same tables, with entry `ids[i]` numbered `i`. */
  ghost predicate Renumbered(t: Tables, t': Tables, ids: seq<Id>) {
    && SameInfo(t.info, t'.info, ids) && t'.idCount == |ids|
    && |t'.random| == |ids| && (forall i :: 0 <= i < |ids| ==> t'.random[i] == i)
    && Through(t'.addr, t.addr, ids) && Through(t'.news, t.news, ids) && Through(t'.tried, t.tried, ids)
    && SameCounts(t.count, t'.count)
  }

  // ----- the file is not too long

  ghost function Row(b: nat, k: nat): (r: set<Slot>)
    ensures |r| == k && forall s :: s in r <==> s.bucket == b && s.pos < k
  {
    if k == 0 then {} else Row(b, k - 1) + {Slot(b, k - 1)}
  }

  ghost function Grid(m: nat): (r: set<Slot>)
    ensures |r| == m * BUCKET_SIZE && forall s :: s in r <==> s.bucket < m && s.pos < BUCKET_SIZE
  {
    if m == 0 then {} else Grid(m - 1) + Row(m - 1, BUCKET_SIZE)
  }

  /** A table has at least as many slots in use as there are ids in it. */
  lemma {:induction false} FewIds(m: map<Slot, Id>, ids: set<Id>)
    requires forall n :: n in ids ==> exists s :: s in m && m[s] == n
    ensures |ids| <= |m.Keys|
    decreases |ids|
  {
    if ids != {} {
      var n :| n in ids;
      var s :| s in m && m[s] == n;
      forall k | k in ids - {n} ensures exists r :: r in m - {s} && (m - {s})[r] == k {
        var r :| r in m && m[r] == k;
        assert r in m - {s};
      }
      FewIds(m - {s}, ids - {n});
      assert m.Keys == (m - {s}).Keys + {s};
    }
  }

  lemma {:induction false} SlotRoom(m: map<Slot, Id>, buckets: nat)
    requires forall s :: s in m ==> s.bucket < buckets && s.pos < BUCKET_SIZE
    ensures |m.Keys| <= buckets * BUCKET_SIZE
  {
    var g := Grid(buckets);
    assert m.Keys <= g;
    assert g == m.Keys + (g - m.Keys);
  }

  lemma {:induction false} RoomForAll(place: Placement, t: Tables)
    requires InStep(place, t, {}, {})
    ensures |NewIds(t.info)| <= NEW_BUCKET_COUNT * BUCKET_SIZE && |TriedIds(t.info)| <= TRIED_BUCKET_COUNT * BUCKET_SIZE
    ensures forall s :: s in t.news ==> s.bucket < NEW_BUCKET_COUNT && s.pos < BUCKET_SIZE
  {
    assert Unfold(true);
    forall n | n in NewIds(t.info) ensures exists s :: s in t.news && t.news[s] == n {
      assert RefCountOk(t.info, t.news, n);
      var s :| s in SlotsOf(t.news, n);
    }
    forall n | n in TriedIds(t.info) ensures exists s :: s in t.tried && t.tried[s] == n {
      assert TriedEntryOk(place, t.info, t.tried, n);
    }
    FewIds(t.news, NewIds(t.info));
    FewIds(t.tried, TriedIds(t.info));
    forall s | s in t.news ensures s.bucket < NEW_BUCKET_COUNT && s.pos < BUCKET_SIZE {
      assert NewSlotOk(place, t.info, t.news, s);
    }
    forall s | s in t.tried ensures s.bucket < TRIED_BUCKET_COUNT && s.pos < BUCKET_SIZE {
      assert TriedSlotOk(place, t.info, t.tried, s);
    }
    SlotRoom(t.news, NEW_BUCKET_COUNT);
    SlotRoom(t.tried, TRIED_BUCKET_COUNT);
  }

  // ----- the slots in the order of the file

  ghost function SlotsFrom(news: map<Slot, Id>, b: nat): seq<Slot>
    requires b <= NEW_BUCKET_COUNT
    decreases NEW_BUCKET_COUNT - b
  {
    if b == NEW_BUCKET_COUNT then [] else BucketSlots(news, b, BUCKET_SIZE) + SlotsFrom(news, b + 1)
  }

  ghost predicate Distinct(slots: seq<Slot>) {
    forall i, j :: 0 <= i < j < |slots| ==> slots[i] != slots[j]
  }

  lemma {:induction false} BucketSlotsAre(news: map<Slot, Id>, b: nat, k: nat)
    ensures forall s :: s in BucketSlots(news, b, k) <==> s in news && s.bucket == b && s.pos < k
    ensures Distinct(BucketSlots(news, b, k))
    decreases k
  {
    if k > 0 {
      BucketSlotsAre(news, b, k - 1);
      var prev := BucketSlots(news, b, k - 1);
      assert forall i :: 0 <= i < |prev| ==> prev[i] in prev;
    }
  }

  lemma {:induction false} SlotsFromAre(news: map<Slot, Id>, b: nat)
    requires b <= NEW_BUCKET_COUNT
    ensures forall s :: s in SlotsFrom(news, b) <==> s in news && b <= s.bucket < NEW_BUCKET_COUNT && s.pos < BUCKET_SIZE
    ensures Distinct(SlotsFrom(news, b))
    decreases NEW_BUCKET_COUNT - b
  {
    if b < NEW_BUCKET_COUNT {
      SlotsFromAre(news, b + 1);
      BucketSlotsAre(news, b, BUCKET_SIZE);
      var one, rest := BucketSlots(news, b, BUCKET_SIZE), SlotsFrom(news, b + 1);
      assert forall i :: 0 <= i < |one| ==> one[i] in one;
      assert forall i :: 0 <= i < |rest| ==> rest[i] in rest;
    }
  }

  ghost function PairsFor(news: map<Slot, Id>, ids: seq<Id>, slots: seq<Slot>): seq<(nat, int)>
    requires forall s :: s in slots ==> s in news
  {
    seq(|slots|, i requires 0 <= i < |slots| => assert slots[i] in slots; (slots[i].bucket, IndexOf(ids, news[slots[i]])))
  }

  lemma {:induction false} PairsOfSlots(news: map<Slot, Id>, ids: seq<Id>, slots: seq<Slot>, b: nat, k: nat)
    requires k <= |slots| && forall s :: s in slots ==> s in news && s.bucket == b && news[s] in ids
    ensures PairsOf(Indices(news, ids, slots)[..k], b, |ids|) == PairsFor(news, ids, slots)[..k]
    decreases k
  {
    if k > 0 {
      PairsOfSlots(news, ids, slots, b, k - 1);
      var v, p := Indices(news, ids, slots), PairsFor(news, ids, slots);
      assert slots[k - 1] in slots;
      IndexFound(ids, news[slots[k - 1]]);
      assert v[..k][..k - 1] == v[..k - 1];
      assert p[..k] == p[..k - 1] + [p[k - 1]];
    }
  }

  lemma {:induction false} PairsForConcat(news: map<Slot, Id>, ids: seq<Id>, one: seq<Slot>, rest: seq<Slot>)
    requires forall s :: s in one || s in rest ==> s in news
    ensures forall s :: s in one + rest ==> s in news
    ensures PairsFor(news, ids, one + rest) == PairsFor(news, ids, one) + PairsFor(news, ids, rest)
  {
  }

  lemma {:induction false} BucketPairs(news: map<Slot, Id>, ids: seq<Id>, slots: seq<Slot>, b: nat)
    requires forall s :: s in slots ==> s in news && s.bucket == b && news[s] in ids
    ensures PairsOf(Indices(news, ids, slots), b, |ids|) == PairsFor(news, ids, slots)
  {
    PairsOfSlots(news, ids, slots, b, |slots|);
    var v, p := Indices(news, ids, slots), PairsFor(news, ids, slots);
    assert v[..|slots|] == v && p[..|slots|] == p;
  }

  lemma {:induction false} BucketAt(news: map<Slot, Id>, ids: seq<Id>, b: nat, m: nat)
    requires b < m
    ensures Buckets(news, ids, m)[b] == Indices(news, ids, BucketSlots(news, b, BUCKET_SIZE))
  {
  }

  lemma {:induction false} PairsFromSlots(news: map<Slot, Id>, ids: seq<Id>, bs: seq<seq<int>>, b: nat)
    requires b <= NEW_BUCKET_COUNT && Numbered(news, ids) && bs == Buckets(news, ids, NEW_BUCKET_COUNT)
    ensures forall s :: s in SlotsFrom(news, b) ==> s in news
    ensures PairsFrom(bs, b, |ids|) == PairsFor(news, ids, SlotsFrom(news, b))
    decreases NEW_BUCKET_COUNT - b
  {
    SlotsFromAre(news, b);
    if b < NEW_BUCKET_COUNT {
      PairsFromSlots(news, ids, bs, b + 1);
      BucketSlotsAre(news, b, BUCKET_SIZE);
      var one, rest := BucketSlots(news, b, BUCKET_SIZE), SlotsFrom(news, b + 1);
      BucketPairs(news, ids, one, b);
      BucketAt(news, ids, b, NEW_BUCKET_COUNT);
      PairsForConcat(news, ids, one, rest);
    }
  }

  // ----- the entries after loading

  /** As `Kept`, in no slot yet. */
  function Reset(x: AddrInfo, randomPos: int): AddrInfo {
    Kept(x, randomPos).(refCount := 0)
  }

  ghost predicate ResetAs(info: Infos, info': Infos, ids: seq<Id>) {
    && Lists(ids, info.Keys) && (forall i: nat :: i in info' <==> i < |ids|)
    && (forall i :: 0 <= i < |ids| ==> ids[i] in info && info'[i] == Reset(info[ids[i]], i))
  }

  lemma {:induction false} IdsList(place: Placement, t: Tables, newIds: seq<Id>, triedIds: seq<Id>)
    requires InStep(place, t, {}, {}) && Lists(newIds, NewIds(t.info)) && Lists(triedIds, TriedIds(t.info))
    ensures Lists(newIds + triedIds, t.info.Keys)
    ensures forall n :: n in newIds ==> n in t.info && !t.info[n].inTried
    ensures forall n :: n in triedIds ==> n in t.info && t.info[n].inTried && t.info[n].refCount == 0
  {
    forall n | n in t.info ensures t.info[n].inTried <==> t.info[n].refCount == 0 {
      EntryFacts(place, t, {}, {}, n);
    }
    assert forall i :: 0 <= i < |newIds| ==> newIds[i] in newIds;
    assert forall i :: 0 <= i < |triedIds| ==> triedIds[i] in triedIds;
    forall n ensures n in newIds + triedIds <==> n in t.info.Keys {
    }
  }

  lemma {:induction false} NewReset(info: Infos, ids: seq<Id>, a: Infos, i: nat)
    requires (forall n :: n in ids ==> n in info && !info[n].inTried) && LoadedAs(a, NewInfos(OnDisk(info, ids))) && i < |ids|
    ensures ids[i] in info && i in a && a[i] == Reset(info[ids[i]], i)
  {
    assert ids[i] in ids;
  }

  lemma {:induction false} TriedReset(info: Infos, ids: seq<Id>, base: nat, xs: seq<AddrInfo>, i: nat)
    requires forall n :: n in ids ==> n in info && info[n].inTried && info[n].refCount == 0
    requires xs == TriedInfos(OnDisk(info, ids), base) && i < |ids|
    ensures ids[i] in info && xs[i] == Reset(info[ids[i]], base + i)
  {
    assert ids[i] in ids;
  }

  lemma {:induction false} ResetAt(info: Infos, newIds: seq<Id>, triedIds: seq<Id>, a: Infos, b: Infos, i: nat)
    requires forall n :: n in newIds ==> n in info && !info[n].inTried
    requires forall n :: n in triedIds ==> n in info && info[n].inTried && info[n].refCount == 0
    requires LoadedAs(a, NewInfos(OnDisk(info, newIds))) && i < |newIds + triedIds|
    requires TriedLoaded(a, b, |newIds|, TriedInfos(OnDisk(info, triedIds), |newIds|))
    ensures (newIds + triedIds)[i] in info && i in b && b[i] == Reset(info[(newIds + triedIds)[i]], i)
  {
    var k, xs := |newIds|, TriedInfos(OnDisk(info, triedIds), |newIds|);
    if i < k {
      NewReset(info, newIds, a, i);
    } else {
      TriedReset(info, triedIds, k, xs, i - k);
      assert b[i] == xs[i - k];
    }
  }

  lemma {:induction false} LoadedReset(place: Placement, t: Tables, newIds: seq<Id>, triedIds: seq<Id>, a: Infos, b: Infos)
    requires InStep(place, t, {}, {}) && Lists(newIds, NewIds(t.info)) && Lists(triedIds, TriedIds(t.info))
    requires LoadedAs(a, NewInfos(OnDisk(t.info, newIds)))
    requires TriedLoaded(a, b, |newIds|, TriedInfos(OnDisk(t.info, triedIds), |newIds|))
    ensures ResetAs(t.info, b, newIds + triedIds)
  {
    IdsList(place, t, newIds, triedIds);
    var ids := newIds + triedIds;
    forall i | 0 <= i < |ids| ensures ids[i] in t.info && i in b && b[i] == Reset(t.info[ids[i]], i) {
      ResetAt(t.info, newIds, triedIds, a, b, i);
    }
  }

  /** Tried addresses of tables in step have slots of their own. */
  lemma {:induction false} TriedPlaceable(place: Placement, t: Tables, ids: seq<Id>)
    requires InStep(place, t, {}, {}) && Lists(ids, TriedIds(t.info)) && AllValid(place, t.info)
    ensures AllPlaceable(place, OnDisk(t.info, ids))
  {
    assert Unfold(true);
    var es := OnDisk(t.info, ids);
    forall j | 0 <= j < |es| ensures ids[j] in t.info && t.info[ids[j]].inTried && es[j].service == t.info[ids[j]].service {
      assert ids[j] in ids;
    }
    forall i, j | 0 <= i < j < |es| ensures place.TriedSlot(es[i].service) != place.TriedSlot(es[j].service) {
      assert TriedEntryOk(place, t.info, t.tried, ids[i]) && TriedEntryOk(place, t.info, t.tried, ids[j]);
    }
  }

  ghost predicate AllValid(place: Placement, info: Infos) {
    forall n :: n in info ==> place.valid(info[n].service.addr)
  }

  // ----- the new table after loading

  ghost predicate SlotsMatch(place: Placement, info: Infos, pairs: seq<(nat, int)>, slots: seq<Slot>) {
    && |pairs| == |slots| && (forall x :: x in pairs ==> x.1 in info)
    && (forall k :: 0 <= k < |pairs| ==> PairSlot(place, info, pairs[k]) == slots[k])
  }

  /** The pairs of a written file lead back to the slots they were written for. */
  lemma {:induction false} PairsLeadBack(place: Placement, t: Tables, info': Infos, newIds: seq<Id>, ids: seq<Id>, slots: seq<Slot>)
    requires InStep(place, t, {}, {}) && ResetAs(t.info, info', ids) && newIds <= ids && Numbered(t.news, newIds)
    requires forall s :: s in slots ==> s in t.news
    ensures SlotsMatch(place, info', PairsFor(t.news, newIds, slots), slots)
    ensures forall x :: x in PairsFor(t.news, newIds, slots) ==> x.0 < NEW_BUCKET_COUNT && 0 <= x.1 < |newIds|
  {
    assert Unfold(true);
    var pairs := PairsFor(t.news, newIds, slots);
    forall k | 0 <= k < |pairs|
      ensures 0 <= pairs[k].1 < |newIds| && pairs[k].1 in info' && PairSlot(place, info', pairs[k]) == slots[k] && pairs[k].0 < NEW_BUCKET_COUNT
    {
      var s := slots[k];
      assert s in slots && NewSlotOk(place, t.info, t.news, s);
      IndexFound(newIds, t.news[s]);
      assert ids[pairs[k].1] == t.news[s];
    }
  }

  lemma {:induction false} MatchDistinct(place: Placement, info: Infos, pairs: seq<(nat, int)>, slots: seq<Slot>)
    requires SlotsMatch(place, info, pairs, slots) && Distinct(slots)
    ensures DistinctSlots(place, info, pairs)
  {
  }

  lemma {:induction false} WantedThrough(place: Placement, t: Tables, info': Infos, newIds: seq<Id>, ids: seq<Id>, slots: seq<Slot>)
    requires forall s :: s in slots <==> s in t.news
    requires SlotsMatch(place, info', PairsFor(t.news, newIds, slots), slots) && Distinct(slots)
    requires Numbered(t.news, newIds) && newIds <= ids
    ensures Through(Wanted(place, info', PairsFor(t.news, newIds, slots)), t.news, ids)
  {
    var pairs := PairsFor(t.news, newIds, slots);
    var w := Wanted(place, info', pairs);
    assert pairs[..|pairs|] == pairs;
    MatchDistinct(place, info', pairs, slots);
    forall s | s in w ensures s in t.news {
      var i := WantedSlots(place, info', pairs, |pairs|, s);
      assert slots[i] in slots;
    }
    forall s | s in t.news ensures s in w && w[s] < |ids| && ids[w[s]] == t.news[s] {
      assert s in slots;
      var i :| 0 <= i < |slots| && slots[i] == s;
      WantedAt(place, info', pairs, i, |pairs|);
      IndexFound(newIds, t.news[s]);
    }
  }

  lemma {:induction false} SlotsThrough(m': map<Slot, Id>, m: map<Slot, Id>, ids: seq<Id>, a: set<Id>, i: nat)
    requires Through(m', m, ids) && Lists(ids, a) && i < |ids|
    ensures SlotsOf(m', i) == SlotsOf(m, ids[i])
  {
    forall s ensures s in SlotsOf(m', i) <==> s in SlotsOf(m, ids[i]) {
      if s in m && m[s] == ids[i] {
        assert ids[m'[s]] == ids[i];
      }
    }
  }

  /** Every pair of a written file can be entered. */
  lemma {:induction false} WrittenPlaceable(place: Placement, t: Tables, info': Infos, newIds: seq<Id>, ids: seq<Id>, slots: seq<Slot>)
    requires InStep(place, t, {}, {}) && AllValid(place, t.info) && ResetAs(t.info, info', ids)
    requires forall s :: s in slots <==> s in t.news
    requires SlotsMatch(place, info', PairsFor(t.news, newIds, slots), slots) && Distinct(slots)
    requires Through(Wanted(place, info', PairsFor(t.news, newIds, slots)), t.news, ids)
    ensures Placeable(place, info', PairsFor(t.news, newIds, slots))
  {
    var pairs := PairsFor(t.news, newIds, slots);
    MatchDistinct(place, info', pairs, slots);
    forall n | n in info' ensures place.valid(info'[n].service.addr) && |SlotsOf(Wanted(place, info', pairs), n)| <= NEW_BUCKETS_PER_ADDRESS {
      SlotsThrough(Wanted(place, info', pairs), t.news, ids, t.info.Keys, n);
      FewSlots(place, t, ids[n]);
    }
  }

  lemma {:induction false} FewSlots(place: Placement, t: Tables, n: Id)
    requires InStep(place, t, {}, {}) && n in t.info
    ensures t.info[n].refCount == |SlotsOf(t.news, n)| <= NEW_BUCKETS_PER_ADDRESS
  {
    assert Unfold(true);
    assert RefCountOk(t.info, t.news, n) && EntryOk(t.info, {}, {}, n);
  }

  // ----- the loaded tables

  /** The tables after all entries and pairs of a written file. */
  ghost predicate Rebuilt(place: Placement, t: Tables, info': Infos, t': Tables, ids: seq<Id>) {
    && InStep(place, t, {}, {}) && Loose(place, t') && Known(t') && ResetAs(t.info, info', ids)
    && OnlyRefs(info', t'.info) && Through(t'.news, t.news, ids) && t'.idCount == |ids|
  }

  lemma {:induction false} RebuiltInfo(place: Placement, t: Tables, info': Infos, t': Tables, ids: seq<Id>)
    requires Rebuilt(place, t, info', t', ids)
    ensures SameInfo(t.info, t'.info, ids)
  {
    forall i: nat ensures i in t'.info <==> i < |ids| {
      assert i in t'.info.Keys <==> i in info'.Keys;
    }
    forall i | 0 <= i < |ids| ensures t'.info[i] == Kept(t.info[ids[i]], i) {
      LooseRef(place, t', i);
      SlotsThrough(t'.news, t.news, ids, t.info.Keys, i);
      FewSlots(place, t, ids[i]);
      assert i in info';
    }
  }

  lemma {:induction false} RebuiltRandom(info: Infos, info': Infos, random: seq<Id>, ids: seq<Id>)
    requires SameInfo(info, info', ids) && RandomOk(info', random)
    ensures |random| == |ids| && forall i :: 0 <= i < |ids| ==> random[i] == i
  {
    forall p | 0 <= p < |random| ensures random[p] == p && p < |ids| {
      assert PlacedAt(info', random, p);
    }
    if random != [] {
      assert random[|random| - 1] == |random| - 1;
    }
    if ids != [] {
      assert Placed(info', random, |ids| - 1);
    }
  }

  lemma {:induction false} IndexIn(ids: seq<Id>, a: set<Id>, n: Id) returns (i: nat)
    requires Lists(ids, a) && n in a
    ensures i < |ids| && ids[i] == n
  {
    assert n in ids;
    i :| 0 <= i < |ids| && ids[i] == n;
  }

  lemma {:induction false} RebuiltAddr(info: Infos, info': Infos, addr: map<Service, Id>, addr': map<Service, Id>, ids: seq<Id>)
    requires SameInfo(info, info', ids) && AddrOk(info, addr) && BackOk(info', addr')
    requires forall n :: n in info' ==> info'[n].service in addr'
    ensures Through(addr', addr, ids)
  {
    forall s | s in addr' ensures s in addr && addr'[s] < |ids| && ids[addr'[s]] == addr[s] {
      assert MappedBack(info', addr', s);
      assert Mapped(info, addr, ids[addr'[s]]);
    }
    forall s | s in addr ensures s in addr' {
      assert MappedBack(info, addr, s);
      var i := IndexIn(ids, info.Keys, addr[s]);
      assert info'[i].service == s;
    }
  }

  lemma {:induction false} RebuiltTried(place: Placement, info: Infos, info': Infos, tried: map<Slot, Id>, tried': map<Slot, Id>, ids: seq<Id>)
    requires SameInfo(info, info', ids) && TriedOk(place, info, tried) && TriedOk(place, info', tried')
    ensures Through(tried', tried, ids)
  {
    forall s | s in tried' ensures s in tried && tried'[s] < |ids| && ids[tried'[s]] == tried[s] {
      assert TriedSlotOk(place, info', tried', s);
      assert TriedEntryOk(place, info, tried, ids[tried'[s]]);
    }
    forall s | s in tried ensures s in tried' {
      assert TriedSlotOk(place, info, tried, s);
      var i := IndexIn(ids, info.Keys, tried[s]);
      assert TriedEntryOk(place, info', tried', i);
    }
  }

  ghost function Images(ids: seq<Id>, a: set<Id>): set<Id> {
    set i | i in a && i < |ids| :: ids[i]
  }

  lemma {:induction false} ImageCount(ids: seq<Id>, all: set<Id>, a: set<Id>)
    requires Lists(ids, all) && forall i :: i in a ==> i < |ids|
    ensures |Images(ids, a)| == |a|
    decreases |a|
  {
    if a == {} {
      assert Images(ids, a) == {};
    } else {
      var i :| i in a;
      ImageCount(ids, all, a - {i});
      assert Images(ids, a) == Images(ids, a - {i}) + {ids[i]};
      assert ids[i] !in Images(ids, a - {i});
    }
  }

  lemma {:induction false} MembersRenumbered(info: Infos, info': Infos, ids: seq<Id>, tried: bool, net: int)
    requires SameInfo(info, info', ids)
    ensures |Members(info', {}, tried, net)| == |Members(info, {}, tried, net)|
  {
    var a', a := Members(info', {}, tried, net), Members(info, {}, tried, net);
    forall i | 0 <= i < |ids| ensures i in a' <==> ids[i] in a {
      assert Counted(info', {}, tried, net, i) <==> Counted(info, {}, tried, net, ids[i]);
    }
    forall n ensures n in Images(ids, a') <==> n in a {
      if n in a {
        var i := IndexIn(ids, info.Keys, n);
        assert i in a';
      }
    }
    assert Images(ids, a') == a;
    ImageCount(ids, info.Keys, a');
  }

  lemma {:induction false} RebuiltCounts(info: Infos, info': Infos, c: Counters, c': Counters, ids: seq<Id>)
    requires SameInfo(info, info', ids) && CountsOk(info, {}, c) && CountsOk(info', {}, c')
    ensures SameCounts(c, c')
  {
    MembersRenumbered(info, info', ids, false, ANY);
    MembersRenumbered(info, info', ids, true, ANY);
    forall net: nat ensures Count(c'.netNew, net) == Count(c.netNew, net) && Count(c'.netTried, net) == Count(c.netTried, net) {
      MembersRenumbered(info, info', ids, false, net);
      MembersRenumbered(info, info', ids, true, net);
    }
  }

  lemma {:induction false} RebuiltRenumbered(place: Placement, t: Tables, info': Infos, t': Tables, ids: seq<Id>)
    requires Rebuilt(place, t, info', t', ids)
    ensures Renumbered(t, t', ids)
  {
    RebuiltInfo(place, t, info', t', ids);
    assert Unfold(true);
    RebuiltRandom(t.info, t'.info, t'.random, ids);
    RebuiltAddr(t.info, t'.info, t.addr, t'.addr, ids);
    RebuiltTried(place, t.info, t'.info, t.tried, t'.tried, ids);
    RebuiltCounts(t.info, t'.info, t.count, t'.count, ids);
  }

  lemma {:induction false} MappedFacts(place: Placement, t: Tables, n: Id)
    requires InStep(place, t, {}, {}) && n in t.info
    ensures Mapped(t.info, t.addr, n)
  {
    assert Unfold(true);
  }

  lemma {:induction false} RebuiltEntry(place: Placement, t: Tables, t': Tables, ids: seq<Id>, i: Id)
    requires InStep(place, t, {}, {}) && SameInfo(t.info, t'.info, ids) && Through(t'.addr, t.addr, ids) && i in t'.info
    ensures Mapped(t'.info, t'.addr, i) && EntryOk(t'.info, {}, {}, i) && !Idle(t'.info[i])
  {
    MappedFacts(place, t, ids[i]);
    EntryFacts(place, t, {}, {}, ids[i]);
    assert ids[t'.addr[t'.info[i].service]] == ids[i];
  }

  lemma {:induction false} LooseStrict(place: Placement, t: Tables)
    requires Loose(place, t) && forall n {:trigger Mapped(t.info, t.addr, n)} :: n in t.info ==> Mapped(t.info, t.addr, n)
    requires EntriesOk(t.info, {}, {})
    ensures InStep(place, t, {}, {})
  {
    assert Unfold(true);
  }

  lemma {:induction false} RebuiltInStep(place: Placement, t: Tables, info': Infos, t': Tables, ids: seq<Id>)
    requires Rebuilt(place, t, info', t', ids)
    ensures InStep(place, t', {}, {}) && forall n :: n in t'.info ==> !Idle(t'.info[n])
  {
    RebuiltRenumbered(place, t, info', t', ids);
    forall i | i in t'.info ensures Mapped(t'.info, t'.addr, i) && EntryOk(t'.info, {}, {}, i) && !Idle(t'.info[i]) {
      RebuiltEntry(place, t, t', ids, i);
    }
    LooseStrict(place, t');
  }

  // ----- loading

  datatype Result = Failed | Loaded(key: nat, t: Tables)

  lemma {:induction false} LooseArray(place: Placement, t: Tables)
    requires Loose(place, t)
    ensures InArray(t.news)
  {
    assert Unfold(true);
    forall s | s in t.news ensures s.bucket < NEW_BUCKET_COUNT && s.pos < BUCKET_SIZE {
      assert NewSlotOk(place, t.info, t.news, s);
    }
  }

  /** What a written file says. */
  lemma {:induction false} WrittenParsed(place: Placement, s: seq<Item>, t: Tables, key: nat, asmap: nat, newIds: seq<Id>, triedIds: seq<Id>)
    requires Written(s, t, key, asmap, newIds, triedIds) && InStep(place, t, {}, {})
    ensures var slots := SlotsFrom(t.news, 0);
      && (forall r :: r in slots <==> r in t.news) && Distinct(slots) && Numbered(t.news, newIds)
      && Parsed(s) == Some(Disk(key, NEW_BUCKET_COUNT, OnDisk(t.info, newIds), OnDisk(t.info, triedIds), PairsFor(t.news, newIds, slots), asmap))
  {
    RoomForAll(place, t);
    InStepCounts(place, t);
    ListCount(newIds, NewIds(t.info));
    ListCount(triedIds, TriedIds(t.info));
    var bs := Buckets(t.news, newIds, NEW_BUCKET_COUNT);
    ParsedStream(key, OnDisk(t.info, newIds), OnDisk(t.info, triedIds), bs, asmap);
    SlotsFromAre(t.news, 0);
    PairsFromSlots(t.news, newIds, bs, 0);
  }

  /** What the steps of loading say of tables that the file was written from. */
  lemma {:induction false} StepsRebuild(place: Placement, t: Tables, newIds: seq<Id>, triedIds: seq<Id>,
                                        a: Tables, b: Tables, c: Tables, pairs: seq<(nat, int)>)
    requires InStep(place, t, {}, {}) && AllValid(place, t.info)
    requires Lists(newIds, NewIds(t.info)) && Lists(triedIds, TriedIds(t.info))
    requires LoadedAs(a.info, NewInfos(OnDisk(t.info, newIds))) && a.idCount == |newIds|
    requires AllPlaceable(place, OnDisk(t.info, triedIds)) ==>
      TriedLoaded(a.info, b.info, a.idCount, TriedInfos(OnDisk(t.info, triedIds), a.idCount)) && b.idCount == a.idCount + |triedIds|
    requires Known(b) && Loose(place, c) && c == b.(info := c.info, news := c.news) && OnlyRefs(b.info, c.info)
    requires var slots := SlotsFrom(t.news, 0);
      (forall r :: r in slots <==> r in t.news) && Distinct(slots) && Numbered(t.news, newIds) && pairs == PairsFor(t.news, newIds, slots)
    requires forall x :: x in pairs ==> x.1 in b.info
    requires Placeable(place, b.info, pairs) ==> c.news == Wanted(place, b.info, pairs)
    ensures Rebuilt(place, t, b.info, c, newIds + triedIds)
  {
    var ids, slots := newIds + triedIds, SlotsFrom(t.news, 0);
    TriedPlaceable(place, t, triedIds);
    LoadedReset(place, t, newIds, triedIds, a.info, b.info);
    PairsLeadBack(place, t, b.info, newIds, ids, slots);
    WantedThrough(place, t, b.info, newIds, ids, slots);
    WrittenPlaceable(place, t, b.info, newIds, ids, slots);
    RefsKnown(b, c);
  }

  lemma {:induction false} RefsKnown(b: Tables, c: Tables)
    requires Known(b) && OnlyRefs(b.info, c.info) && c.addr == b.addr
    ensures Known(c)
  {
    forall n | n in c.info ensures c.info[n].service in c.addr {
      assert n in b.info.Keys;
    }
  }

  /** The file was written from these tables, with these parameters, and all its addresses are valid. */
  ghost predicate WrittenFrom(s: seq<Item>, placeOf: nat -> Placement, asmap: nat, t: Tables, key: nat, newIds: seq<Id>, triedIds: seq<Id>) {
    && Written(s, t, key, asmap, newIds, triedIds) && key != 0
    && InStep(placeOf(key), t, {}, {}) && AllValid(placeOf(key), t.info)
  }

  /** What the steps made of the file, should it have been written from some tables. */
  ghost predicate Restored(s: seq<Item>, placeOf: nat -> Placement, asmap: nat, d: Disk, info': Infos, c: Tables) {
    forall t, key, newIds, triedIds {:trigger WrittenFrom(s, placeOf, asmap, t, key, newIds, triedIds)} ::
      WrittenFrom(s, placeOf, asmap, t, key, newIds, triedIds) ==>
      d.key == key && Rebuilt(placeOf(key), t, info', c, newIds + triedIds)
  }

  predicate Restores(d: Disk, asmap: nat) {
    d.uBuckets == NEW_BUCKET_COUNT && d.asmap == asmap
  }

  /** All steps before the unused entries are dropped. */
  method Fill(s: seq<Item>, placeOf: nat -> Placement, asmap: nat, d: Disk) returns (c: Tables, ghost b: Tables)
    requires Parsed(s) == Some(d)
    ensures Proper(d) && AddrLoaded.Filled(placeOf(d.key), d, Restores(d, asmap), b, c) && Restored(s, placeOf, asmap, d, b.info, c)
  {
    var place := placeOf(d.key);
    var a := LoadNew(place, d.news);
    var loaded := LoadTried(place, a, d.tried);
    ParsedProper(s);
    forall x | x in d.pairs ensures x.1 in loaded.info && !loaded.info[x.1].inTried {
      assert x.1 in a.info;
    }
    c := PlaceAll(place, loaded, d.pairs, Restores(d, asmap));
    b := loaded;
    EntriesLoaded(d, a, b);
    forall t, key, newIds, triedIds | WrittenFrom(s, placeOf, asmap, t, key, newIds, triedIds)
      ensures d.key == key && Rebuilt(placeOf(key), t, b.info, c, newIds + triedIds)
    {
      WrittenParsed(placeOf(key), s, t, key, asmap, newIds, triedIds);
      StepsRebuild(placeOf(key), t, newIds, triedIds, a, b, c, d.pairs);
    }
  }

  lemma {:induction false} EntriesLoaded(d: Disk, a: Tables, b: Tables)
    requires LoadedAs(a.info, NewInfos(d.news)) && NewKept(a.info, b.info)
    ensures forall n: nat :: n in b.info && !b.info[n].inTried <==> n < |d.news|
    ensures forall n :: 0 <= n < |d.news| ==> n in b.info && b.info[n] == FromDisk(d.news[n], false, n)
  {
    forall n: nat
      ensures n in b.info && !b.info[n].inTried <==> n < |d.news|
      ensures n < |d.news| ==> n in b.info && b.info[n] == FromDisk(d.news[n], false, n)
    {
      assert n in a.info <==> n < |NewInfos(d.news)|;
      if n in a.info {
        assert a.info[n] == NewInfos(d.news)[n];
      }
    }
  }

  lemma {:induction false} RebuiltAccepted(place: Placement, t: Tables, info': Infos, c: Tables, ids: seq<Id>, key: nat)
    requires Rebuilt(place, t, info', c, ids) && key != 0
    ensures Renumbered(t, c, ids) && Checked(place, c, key) && forall n :: n in c.info ==> !Idle(c.info[n])
  {
    RebuiltRenumbered(place, t, info', c, ids);
    RebuiltInStep(place, t, info', c, ids);
    InStepChecked(place, c, key);
    forall n | n in c.info ensures !Idle(c.info[n]) {
      EntryFacts(place, c, {}, {}, n);
    }
  }

  /** Load a file; `built` are the tables that it describes.  They are refused exactly if the key is zero or the
      file is not clean, and are in step otherwise; what was written from tables in step is loaded as the same tables. */
  method Unserialize(s: seq<Item>, placeOf: nat -> Placement, asmap: nat) returns (r: Result, ghost built: Tables)
    ensures Parsed(s).None? ==> r.Failed?
    ensures Parsed(s).Some? ==>
      var d := Parsed(s).value;
      && Proper(d) && LoadedFrom(placeOf(d.key), d, Restores(d, asmap), built)
      && r == if d.key != 0 && Clean(placeOf(d.key), d, Restores(d, asmap)) then Loaded(d.key, built) else Failed
    ensures r.Loaded? ==> r.key != 0 && InStep(placeOf(r.key), r.t, {}, {})
    ensures forall t, key, newIds, triedIds :: WrittenFrom(s, placeOf, asmap, t, key, newIds, triedIds) ==>
      r.Loaded? && r.key == key && Renumbered(t, r.t, newIds + triedIds)
  {
    var file := Parse(s);
    if file.None? {
      forall t, key, newIds, triedIds ensures !WrittenFrom(s, placeOf, asmap, t, key, newIds, triedIds) {
        if WrittenFrom(s, placeOf, asmap, t, key, newIds, triedIds) {
          WrittenParsed(placeOf(key), s, t, key, asmap, newIds, triedIds);
          assert false;
        }
      }
      built := Tables(0, map[], map[], [], Counters(0, 0, map[], map[]), map[], map[]);
      return Failed, built;
    }
    var d := file.value;
    var place := placeOf(d.key);
    var c, b := Fill(s, placeOf, asmap, d);
    var t' := Prune(place, c);
    built := t';
    AcceptedIffClean(place, d, Restores(d, asmap), b, c, t');
    LooseArray(place, t');
    var code := CheckAddrman(place, t', d.key);
    forall t, key, newIds, triedIds | WrittenFrom(s, placeOf, asmap, t, key, newIds, triedIds)
      ensures code == 0 && d.key == key && Renumbered(t, t', newIds + triedIds)
    {
      assert Rebuilt(place, t, b.info, c, newIds + triedIds);
      RebuiltAccepted(place, t, b.info, c, newIds + triedIds, d.key);
    }
    if code != 0 {
      return Failed, built;
    }
    LooseChecked(place, t', d.key);
    return Loaded(d.key, t'), built;
  }

  /** Loading what was saved gives back the same tables up to renumbering. */
  method SaveThenLoad(t: Tables, placeOf: nat -> Placement, key: nat, asmap: nat) returns (r: Result)
    requires key != 0 && InStep(placeOf(key), t, {}, {}) && AllValid(placeOf(key), t.info)
    ensures r.Loaded? && r.key == key && exists ids :: Renumbered(t, r.t, ids)
  {
    var s := Serialize(placeOf(key), t, key, asmap);
    ghost var newIds, triedIds :| Written(s, t, key, asmap, newIds, triedIds);
    assert WrittenFrom(s, placeOf, asmap, t, key, newIds, triedIds);
    ghost var built;
    r, built := Unserialize(s, placeOf, asmap);
    assert Renumbered(t, r.t, newIds + triedIds);
  }
}
