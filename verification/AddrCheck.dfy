/**
 The consistency check of the address manager (`AddrManImpl::CheckAddrman`): what it accepts,
 and how that compares with the tables being in step.

 The order in which entries and slots are visited is left open, as it only decides which of
 several faults is reported.
*/
module AddrCheck {
  import opened Common
  import opened AddrTables

  /** The networks of all entries. */
  ghost function Networks(info: Infos): set<nat> {
    set n | n in info :: info[n].service.addr.network
  }

  function CountedNetworks(c: Counters): set<nat> {
    c.netNew.Keys + c.netTried.Keys
  }

  /** What the check asks of one entry. */
  ghost predicate EntryChecked(t: Tables, n: Id)
    requires n in t.info
  {
    var x := t.info[n];
    && (if x.inTried then x.lastSuccess != 0 && x.refCount == 0 else 1 <= x.refCount <= NEW_BUCKETS_PER_ADDRESS)
    && Mapped(t.info, t.addr, n) && Placed(t.info, t.random, n) && 0 <= x.lastTry && 0 <= x.lastSuccess
  }

  ghost predicate TotalsChecked(info: Infos, c: Counters) {
    c.nNew == |Members(info, {}, false, ANY)| && c.nTried == |Members(info, {}, true, ANY)|
  }

  ghost predicate NetworkChecked(info: Infos, c: Counters, net: nat) {
    Count(c.netNew, net) == |Members(info, {}, false, net)| && Count(c.netTried, net) == |Members(info, {}, true, net)|
  }

  /** Only networks that have a counter are compared. */
  ghost predicate NetworksChecked(info: Infos, c: Counters) {
    && |Networks(info)| <= |CountedNetworks(c)|
    && forall net {:trigger NetworkChecked(info, c, net)} :: net in CountedNetworks(c) ==> NetworkChecked(info, c, net)
  }

  /** What `CheckAddrman` accepts. */
  ghost predicate Checked(place: Placement, t: Tables, key: nat) {
    && |t.random| == t.count.nTried + t.count.nNew
    && (forall n {:trigger EntryChecked(t, n)} :: n in t.info ==> EntryChecked(t, n))
    && TotalsChecked(t.info, t.count)
    && TriedOk(place, t.info, t.tried) && NewOk(place, t.info, t.news)
    && key != 0 && NetworksChecked(t.info, t.count)
  }

  // ----- entries

  ghost function Part(info: Infos, done: set<Id>): Infos {
    map n | n in info && n in done :: info[n]
  }

  lemma {:induction false} TriedCounts(info: Infos, c: Counters, n: Id, x: AddrInfo)
    requires CountsOk(info, {}, c) && n !in info && x.inTried
    ensures CountsOk(info[n := x], {}, c.AddTried(x.service.addr.network, 1))
  {
    var net := x.service.addr.network;
    CountsStep(info, {}, c, info[n := x], {}, c.AddTried(net, 1), n, net);
  }

  /** One more entry counted. */
  function Tally(local: Counters, x: AddrInfo): Counters {
    if x.inTried then local.AddTried(x.service.addr.network, 1) else local.AddNew(x.service.addr.network, 1)
  }

  ghost predicate TalliedPart(info: Infos, done: set<Id>, local: Counters) {
    CountsOk(Part(info, done), {}, local) && CountedNetworks(local) == Networks(Part(info, done))
  }

  /** `TalliedPart`, to be carried along without looking inside. */
  ghost predicate Tallied(info: Infos, done: set<Id>, local: Counters) {
    forall b {:trigger Unfold(b)} :: Unfold(b) ==> TalliedPart(info, done, local)
  }

  lemma {:induction false} TallyNone(info: Infos)
    ensures Tallied(info, {}, Counters(0, 0, map[], map[]))
  {
    assert Part(info, {}) == map[];
    NothingCounted();
  }

  lemma {:induction false} TallyOne(info: Infos, done: set<Id>, local: Counters, n: Id)
    requires Tallied(info, done, local) && n in info && n !in done
    ensures Tallied(info, done + {n}, Tally(local, info[n]))
  {
    assert Unfold(true);
    var part, x := Part(info, done), info[n];
    assert Part(info, done + {n}) == part[n := x];
    if x.inTried {
      TriedCounts(part, local, n, x);
    } else {
      CreatedCounts(part, local, n, x);
    }
    NetworkAdded(part, n, x);
  }

  lemma {:induction false} NetworkAdded(info: Infos, n: Id, x: AddrInfo)
    requires n !in info
    ensures Networks(info[n := x]) == Networks(info) + {x.service.addr.network}
  {
    var info' := info[n := x];
    assert x.service.addr.network in Networks(info') by {
      assert n in info' && info'[n] == x;
    }
    forall net | net in Networks(info) ensures net in Networks(info') {
      var m :| m in info && info[m].service.addr.network == net;
      assert m in info' && info'[m] == info[m];
    }
  }

  ghost predicate FirstPass(t: Tables, done: set<Id>, setTried: set<Id>, mapNew: map<Id, int>) {
    && setTried == (set n | n in done && n in t.info && t.info[n].inTried)
    && mapNew.Keys == (set n | n in done && n in t.info && !t.info[n].inTried)
    && forall n :: n in mapNew ==> mapNew[n] == t.info[n].refCount
  }

  lemma {:induction false} FirstNext(t: Tables, done: set<Id>, setTried: set<Id>, mapNew: map<Id, int>, n: Id)
    requires FirstPass(t, done, setTried, mapNew) && n in t.info && n !in done
    ensures t.info[n].inTried ==> FirstPass(t, done + {n}, setTried + {n}, mapNew)
    ensures !t.info[n].inTried ==> FirstPass(t, done + {n}, setTried, mapNew[n := t.info[n].refCount])
  {
  }

  /** The code for an entry, zero if it is in order. */
  method CheckEntry(t: Tables, n: Id) returns (code: int)
    requires n in t.info
    ensures code == 0 <==> EntryChecked(t, n)
  {
    var x := t.info[n];
    if x.inTried {
      if x.lastSuccess == 0 {
        return -1;
      }
      if x.refCount != 0 {
        return -2;
      }
    } else {
      if x.refCount < 0 || x.refCount > NEW_BUCKETS_PER_ADDRESS {
        return -3;
      }
      if x.refCount == 0 {
        return -4;
      }
    }
    if x.service !in t.addr || t.addr[x.service] != n {
      return -5;
    }
    if x.randomPos < 0 || x.randomPos >= |t.random| || t.random[x.randomPos] != n {
      return -14;
    }
    if x.lastTry < 0 {
      return -6;
    }
    if x.lastSuccess < 0 {
      return -8;
    }
    return 0;
  }

  method CheckEntries(t: Tables) returns (code: int, setTried: set<Id>, mapNew: map<Id, int>, local: Counters)
    ensures code == 0 <==> forall n :: n in t.info ==> EntryChecked(t, n)
    ensures code == 0 ==> FirstPass(t, t.info.Keys, setTried, mapNew) && Tallied(t.info, t.info.Keys, local)
  {
    setTried, mapNew, local := {}, map[], Counters(0, 0, map[], map[]);
    var todo := t.info.Keys;
    TallyNone(t.info);
    assert t.info.Keys - todo == {};
    while todo != {}
      invariant todo <= t.info.Keys
      invariant forall n :: n in t.info && n !in todo ==> EntryChecked(t, n)
      invariant FirstPass(t, t.info.Keys - todo, setTried, mapNew) && Tallied(t.info, t.info.Keys - todo, local)
      decreases |todo|
    {
      var n :| n in todo;
      code := CheckEntry(t, n);
      if code != 0 {
        return;
      }
      var x := t.info[n];
      TallyOne(t.info, t.info.Keys - todo, local, n);
      FirstNext(t, t.info.Keys - todo, setTried, mapNew, n);
      assert t.info.Keys - (todo - {n}) == t.info.Keys - todo + {n};
      if x.inTried {
        setTried := setTried + {n};
      } else {
        mapNew := mapNew[n := x.refCount];
      }
      local := Tally(local, x);
      todo := todo - {n};
    }
    assert t.info.Keys - {} == t.info.Keys;
    code := 0;
  }

  // ----- tried slots

  ghost predicate SecondPass(place: Placement, t: Tables, done: set<Slot>, setTried: set<Id>) {
    && (forall s :: s in done ==> s in t.tried && TriedSlotOk(place, t.info, t.tried, s))
    && setTried == (set n | n in t.info && t.info[n].inTried && !exists s :: s in done && s in t.tried && t.tried[s] == n)
  }

  lemma {:induction false} TriedTwice(place: Placement, t: Tables, done: set<Slot>, setTried: set<Id>, s: Slot)
    requires SecondPass(place, t, done, setTried) && s in t.tried && s !in done && t.tried[s] !in setTried
    ensures !TriedSlotOk(place, t.info, t.tried, s)
  {
  }

  lemma {:induction false} TriedNext(place: Placement, t: Tables, done: set<Slot>, setTried: set<Id>, s: Slot)
    requires SecondPass(place, t, done, setTried) && s in t.tried && TriedSlotOk(place, t.info, t.tried, s)
    ensures SecondPass(place, t, done + {s}, setTried - {t.tried[s]})
  {
    var left := setTried - {t.tried[s]};
    forall n | n in t.info && t.info[n].inTried
      ensures n in left <==> !exists r :: r in done + {s} && r in t.tried && t.tried[r] == n
    {
      if n in left {
        assert n in setTried && n != t.tried[s];
      } else if n == t.tried[s] {
        assert s in done + {s};
      } else {
        assert n !in setTried;
        var r :| r in done && r in t.tried && t.tried[r] == n;
        assert r in done + {s};
      }
    }
  }

  method CheckTriedSlots(place: Placement, t: Tables, listed: set<Id>) returns (code: int, setTried: set<Id>)
    requires listed == (set n | n in t.info && t.info[n].inTried)
    ensures code == 0 <==> forall s :: s in t.tried ==> TriedSlotOk(place, t.info, t.tried, s)
    ensures code == 0 ==> SecondPass(place, t, t.tried.Keys, setTried)
  {
    setTried := listed;
    var todo := t.tried.Keys;
    while todo != {}
      invariant todo <= t.tried.Keys
      invariant SecondPass(place, t, t.tried.Keys - todo, setTried)
      decreases |todo|
    {
      var s :| s in todo;
      var n := t.tried[s];
      if n !in setTried {
        TriedTwice(place, t, t.tried.Keys - todo, setTried, s);
        return -11, setTried;
      }
      var right := place.TriedSlot(t.info[n].service);
      if right.bucket != s.bucket {
        return -17, setTried;
      }
      if right.pos != s.pos {
        return -18, setTried;
      }
      TriedNext(place, t, t.tried.Keys - todo, setTried, s);
      assert t.tried.Keys - (todo - {s}) == t.tried.Keys - todo + {s};
      setTried := setTried - {n};
      todo := todo - {s};
    }
    assert t.tried.Keys - {} == t.tried.Keys;
    code := 0;
  }

  lemma {:induction false} TriedComplete(place: Placement, t: Tables, setTried: set<Id>)
    requires SecondPass(place, t, t.tried.Keys, setTried)
    ensures setTried == {} <==> TriedOk(place, t.info, t.tried)
  {
    if setTried == {} {
      forall n | n in t.info ensures TriedEntryOk(place, t.info, t.tried, n) {
        if t.info[n].inTried {
          assert n !in setTried;
          var s :| s in t.tried.Keys && s in t.tried && t.tried[s] == n;
          assert TriedSlotOk(place, t.info, t.tried, s);
        }
      }
    } else {
      var n :| n in setTried;
      assert !TriedEntryOk(place, t.info, t.tried, n);
    }
  }

  // ----- new slots

  ghost function PartOf(news: map<Slot, Id>, done: set<Slot>): map<Slot, Id> {
    map s | s in news && s in done :: news[s]
  }

  function Left(mapNew: map<Id, int>, n: Id): int {
    if n in mapNew then mapNew[n] else 0
  }

  /** What is left of each reference count after some slots. */
  ghost predicate CountedDown(place: Placement, t: Tables, done: set<Slot>, mapNew: map<Id, int>) {
    && (forall s :: s in done ==> s in t.news && NewSlotOk(place, t.info, t.news, s))
    && (forall n :: n in mapNew ==> n in t.info && !t.info[n].inTried && 0 < mapNew[n])
    && (forall n {:trigger Left(mapNew, n)} :: n in t.info && !t.info[n].inTried ==>
          Left(mapNew, n) == t.info[n].refCount - |SlotsOf(PartOf(t.news, done), n)|)
  }

  /** `CountedDown`, to be carried along without looking inside. */
  ghost predicate ThirdPass(place: Placement, t: Tables, done: set<Slot>, mapNew: map<Id, int>) {
    forall b {:trigger Unfold(b)} :: Unfold(b) ==> CountedDown(place, t, done, mapNew)
  }

  lemma {:induction false} NewKnown(place: Placement, t: Tables, done: set<Slot>, mapNew: map<Id, int>, n: Id)
    requires ThirdPass(place, t, done, mapNew) && n in mapNew
    ensures n in t.info && !t.info[n].inTried && 0 < mapNew[n]
  {
    assert Unfold(true);
  }

  lemma {:induction false} SlotsGrow(news: map<Slot, Id>, done: set<Slot>, s: Slot, n: Id)
    requires s in news && s !in done
    ensures |SlotsOf(PartOf(news, done + {s}), n)| == |SlotsOf(PartOf(news, done), n)| + One(news[s] == n)
  {
    var part := PartOf(news, done);
    assert PartOf(news, done + {s}) == part[s := news[s]];
    SlotFilled(part, s, news[s], n);
  }

  lemma {:induction false} SlotsWithin(news: map<Slot, Id>, done: set<Slot>, n: Id)
    ensures SlotsOf(PartOf(news, done), n) <= SlotsOf(news, n)
    ensures |SlotsOf(PartOf(news, done), n)| <= |SlotsOf(news, n)|
  {
    var a, b := SlotsOf(PartOf(news, done), n), SlotsOf(news, n);
    assert a <= b;
    assert b == a + (b - a);
  }

  lemma {:induction false} NewTooOften(place: Placement, t: Tables, done: set<Slot>, mapNew: map<Id, int>, s: Slot)
    requires ThirdPass(place, t, done, mapNew) && s in t.news && s !in done && t.news[s] !in mapNew
    ensures !NewOk(place, t.info, t.news)
  {
    assert Unfold(true);
    var n := t.news[s];
    if n in t.info && !t.info[n].inTried {
      assert Left(mapNew, n) == 0;
      SlotsGrow(t.news, done, s, n);
      SlotsWithin(t.news, done + {s}, n);
      assert !RefCountOk(t.info, t.news, n);
    } else {
      assert !NewSlotOk(place, t.info, t.news, s);
    }
  }

  function Less(mapNew: map<Id, int>, n: Id): map<Id, int>
    requires n in mapNew
  {
    if mapNew[n] == 1 then mapNew - {n} else mapNew[n := mapNew[n] - 1]
  }

  lemma {:induction false} NewNext(place: Placement, t: Tables, done: set<Slot>, mapNew: map<Id, int>, s: Slot)
    requires ThirdPass(place, t, done, mapNew) && s in t.news && s !in done && t.news[s] in mapNew
    requires NewSlotOk(place, t.info, t.news, s)
    ensures ThirdPass(place, t, done + {s}, Less(mapNew, t.news[s]))
  {
    assert Unfold(true);
    var mapNew' := Less(mapNew, t.news[s]);
    forall n | n in t.info && !t.info[n].inTried
      ensures Left(mapNew', n) == t.info[n].refCount - |SlotsOf(PartOf(t.news, done + {s}), n)|
    {
      assert Left(mapNew, n) == t.info[n].refCount - |SlotsOf(PartOf(t.news, done), n)|;
      SlotsGrow(t.news, done, s, n);
    }
  }

  /** The slots of the array. */
  ghost predicate InArray(news: map<Slot, Id>) {
    forall s :: s in news ==> s.bucket < NEW_BUCKET_COUNT && s.pos < BUCKET_SIZE
  }

  method CheckNewSlots(place: Placement, t: Tables, counts: map<Id, int>) returns (code: int, mapNew: map<Id, int>)
    requires ThirdPass(place, t, {}, counts) && InArray(t.news)
    ensures code == 0 ==> ThirdPass(place, t, t.news.Keys, mapNew)
    ensures code != 0 ==> !NewOk(place, t.info, t.news)
  {
    mapNew := counts;
    var todo := t.news.Keys;
    assert t.news.Keys - todo == {};
    while todo != {}
      invariant todo <= t.news.Keys
      invariant ThirdPass(place, t, t.news.Keys - todo, mapNew)
      decreases |todo|
    {
      var s :| s in todo;
      var n := t.news[s];
      if n !in mapNew {
        NewTooOften(place, t, t.news.Keys - todo, mapNew, s);
        return -12, mapNew;
      }
      NewKnown(place, t, t.news.Keys - todo, mapNew, n);
      if place.NewSlot(t.info[n].service, s.bucket).pos != s.pos {
        assert !NewSlotOk(place, t.info, t.news, s);
        return -19, mapNew;
      }
      NewNext(place, t, t.news.Keys - todo, mapNew, s);
      assert t.news.Keys - (todo - {s}) == t.news.Keys - todo + {s};
      mapNew := mapNew[n := mapNew[n] - 1];
      if mapNew[n] == 0 {
        mapNew := mapNew - {n};
      }
      todo := todo - {s};
    }
    assert t.news.Keys - {} == t.news.Keys;
    code := 0;
  }

  lemma {:induction false} NewComplete(place: Placement, t: Tables, mapNew: map<Id, int>)
    requires ThirdPass(place, t, t.news.Keys, mapNew)
    requires forall n :: n in t.info && t.info[n].inTried ==> t.info[n].refCount == 0
    ensures mapNew == map[] <==> NewOk(place, t.info, t.news)
  {
    assert Unfold(true);
    assert PartOf(t.news, t.news.Keys) == t.news;
    if mapNew == map[] {
      forall n | n in t.info ensures RefCountOk(t.info, t.news, n) {
        if t.info[n].inTried {
          forall s | s in t.news ensures t.news[s] != n {
            assert s in t.news.Keys && NewSlotOk(place, t.info, t.news, s);
          }
          assert SlotsOf(t.news, n) == {};
        } else {
          assert Left(mapNew, n) == 0;
        }
      }
      forall s | s in t.news ensures NewSlotOk(place, t.info, t.news, s) {
        assert s in t.news.Keys;
      }
    } else {
      var n :| n in mapNew;
      assert Left(mapNew, n) == mapNew[n];
      assert !RefCountOk(t.info, t.news, n);
    }
  }

  // ----- the whole check

  ghost predicate EntriesChecked(t: Tables) {
    forall n {:trigger EntryChecked(t, n)} :: n in t.info ==> EntryChecked(t, n)
  }

  lemma {:induction false} PassesStart(place: Placement, t: Tables, setTried: set<Id>, mapNew: map<Id, int>)
    requires FirstPass(t, t.info.Keys, setTried, mapNew) && EntriesChecked(t)
    ensures ThirdPass(place, t, {}, mapNew)
    ensures setTried == (set n | n in t.info && t.info[n].inTried)
    ensures setTried == Members(t.info, {}, true, ANY) && mapNew.Keys == Members(t.info, {}, false, ANY)
  {
    forall n | n in t.info && !t.info[n].inTried
      ensures n in mapNew && Left(mapNew, n) == t.info[n].refCount - |SlotsOf(PartOf(t.news, {}), n)|
    {
      assert n in mapNew.Keys;
      assert SlotsOf(PartOf(t.news, {}), n) == {};
    }
    forall n | n in mapNew ensures n in t.info && !t.info[n].inTried && 0 < mapNew[n] {
      assert n in mapNew.Keys && EntryChecked(t, n);
    }
    forall n ensures n in setTried <==> n in Members(t.info, {}, true, ANY) {
    }
    forall n ensures n in mapNew.Keys <==> n in Members(t.info, {}, false, ANY) {
    }
  }

  lemma {:induction false} LocalCounts(t: Tables, local: Counters)
    requires Tallied(t.info, t.info.Keys, local)
    ensures CountsOk(t.info, {}, local) && CountedNetworks(local) == Networks(t.info)
  {
    assert Unfold(true);
    assert Part(t.info, t.info.Keys) == t.info;
  }

  method CheckNetworks(t: Tables, local: Counters) returns (code: int)
    requires Tallied(t.info, t.info.Keys, local)
    ensures code == 0 <==> NetworksChecked(t.info, t.count)
  {
    LocalCounts(t, local);
    if |CountedNetworks(t.count)| < |CountedNetworks(local)| {
      return -20;
    }
    var todo := CountedNetworks(t.count);
    while todo != {}
      invariant todo <= CountedNetworks(t.count)
      invariant forall net :: net in CountedNetworks(t.count) && net !in todo ==> NetworkChecked(t.info, t.count, net)
      decreases |todo|
    {
      var net :| net in todo;
      if Count(local.netNew, net) != Count(t.count.netNew, net) || Count(local.netTried, net) != Count(t.count.netTried, net) {
        assert !NetworkChecked(t.info, t.count, net);
        return -21;
      }
      todo := todo - {net};
    }
    return 0;
  }

  method CheckSlots(place: Placement, t: Tables, listed: set<Id>, counts: map<Id, int>) returns (code: int)
    requires listed == (set n | n in t.info && t.info[n].inTried)
    requires ThirdPass(place, t, {}, counts) && InArray(t.news) && EntriesChecked(t)
    ensures code == 0 <==> TriedOk(place, t.info, t.tried) && NewOk(place, t.info, t.news)
  {
    var setTried, mapNew;
    code, setTried := CheckTriedSlots(place, t, listed);
    if code != 0 {
      return;
    }
    TriedComplete(place, t, setTried);
    code, mapNew := CheckNewSlots(place, t, counts);
    if code != 0 {
      return;
    }
    forall n | n in t.info && t.info[n].inTried ensures t.info[n].refCount == 0 {
      assert EntryChecked(t, n);
    }
    NewComplete(place, t, mapNew);
    if setTried != {} {
      return -13;
    }
    if mapNew != map[] {
      return -15;
    }
  }

  method CheckAddrman(place: Placement, t: Tables, key: nat) returns (code: int)
    requires InArray(t.news)
    ensures code == 0 <==> Checked(place, t, key)
  {
    if |t.random| != t.count.nTried + t.count.nNew {
      return -7;
    }
    var setTried, mapNew, local;
    code, setTried, mapNew, local := CheckEntries(t);
    if code != 0 {
      return;
    }
    PassesStart(place, t, setTried, mapNew);
    if |setTried| != t.count.nTried {
      return -9;
    }
    if |mapNew.Keys| != t.count.nNew {
      return -10;
    }
    code := CheckSlots(place, t, setTried, mapNew);
    if code != 0 {
      return;
    }
    if key == 0 {
      return -16;
    }
    code := CheckNetworks(t, local);
  }

  // ----- the check and the tables being in step

  ghost predicate Lists(ids: seq<Id>, a: set<Id>) {
    && (forall i, j :: 0 <= i < j < |ids| ==> ids[i] != ids[j])
    && (forall n :: n in ids <==> n in a)
  }

  lemma {:induction false} ListCount(ids: seq<Id>, a: set<Id>)
    requires Lists(ids, a)
    ensures |ids| == |a|
    decreases |ids|
  {
    if ids == [] {
      assert a == {};
    } else {
      var rest := ids[1..];
      assert ids == [ids[0]] + rest;
      assert ids[0] in ids;
      forall n ensures n in rest <==> n in a - {ids[0]} {
        if n in rest {
          var i :| 0 <= i < |rest| && rest[i] == n;
          assert ids[i + 1] == n;
        }
      }
      ListCount(rest, a - {ids[0]});
    }
  }

  lemma {:induction false} RandomLists(info: Infos, random: seq<Id>)
    requires RandomOk(info, random)
    ensures Lists(random, info.Keys) && |random| == |info.Keys|
  {
    forall i, j | 0 <= i < j < |random| ensures random[i] != random[j] {
      assert PlacedAt(info, random, i) && PlacedAt(info, random, j);
    }
    forall n ensures n in random <==> n in info.Keys {
      if n in random {
        var i :| 0 <= i < |random| && random[i] == n;
        assert PlacedAt(info, random, i);
      }
      if n in info {
        assert Placed(info, random, n);
      }
    }
    ListCount(random, info.Keys);
  }

  lemma {:induction false} AllMembers(info: Infos)
    ensures |info.Keys| == |Members(info, {}, true, ANY)| + |Members(info, {}, false, ANY)|
  {
    var a, b := Members(info, {}, true, ANY), Members(info, {}, false, ANY);
    forall n ensures n in info.Keys <==> n in a || n in b {
      assert n in info ==> Counted(info, {}, info[n].inTried, ANY, n);
    }
    assert info.Keys == a + b && a !! b;
  }

  lemma {:induction false} PresentCounted(info: Infos, c: Counters)
    requires CountsOk(info, {}, c)
    ensures Networks(info) <= CountedNetworks(c)
  {
    forall net | net in Networks(info) ensures net in CountedNetworks(c) {
      var n :| n in info && info[n].service.addr.network == net;
      assert Counted(info, {}, info[n].inTried, net, n);
      assert n in Members(info, {}, info[n].inTried, net);
      assert Count(c.netNew, net) == |Members(info, {}, false, net)|;
      assert Count(c.netTried, net) == |Members(info, {}, true, net)|;
    }
  }

  lemma {:induction false} Subset(a: set<nat>, b: set<nat>)
    requires a <= b
    ensures |a| <= |b| && (|a| == |b| ==> a == b)
  {
    assert b == a + (b - a);
  }

  /** Tables that are in step pass the check. */
  lemma {:induction false} InStepChecked(place: Placement, t: Tables, key: nat)
    requires InStep(place, t, {}, {}) && key != 0
    ensures Checked(place, t, key)
  {
    assert Unfold(true);
    RandomLists(t.info, t.random);
    AllMembers(t.info);
    forall n | n in t.info ensures EntryChecked(t, n) {
      assert EntryOk(t.info, {}, {}, n) && Mapped(t.info, t.addr, n) && Placed(t.info, t.random, n);
    }
    PresentCounted(t.info, t.count);
    Subset(Networks(t.info), CountedNetworks(t.count));
    forall net | net in CountedNetworks(t.count) ensures NetworkChecked(t.info, t.count, net) {
      assert Count(t.count.netNew, net) == |Members(t.info, {}, false, net)|;
      assert Count(t.count.netTried, net) == |Members(t.info, {}, true, net)|;
    }
  }

  /** What the check does not look at. */
  ghost predicate Overlooked(t: Tables) {
    && (forall s {:trigger MappedBack(t.info, t.addr, s)} :: s in t.addr ==> MappedBack(t.info, t.addr, s))
    && IdsOk(t.info, t.idCount) && Networks(t.info) <= CountedNetworks(t.count)
  }

  lemma {:induction false} PlacesCovered(info: Infos, random: seq<Id>)
    requires |random| == |info.Keys| && forall n :: n in info ==> Placed(info, random, n)
    ensures RandomOk(info, random)
  {
    forall i | 0 <= i < |random| ensures PlacedAt(info, random, i) {
      var n := SomeoneAt(info, random, i);
      assert Placed(info, random, n);
    }
  }

  ghost function PlacesOf(info: Infos, ids: set<Id>): set<int> {
    set n | n in ids && n in info :: info[n].randomPos
  }

  /** Distinct entries have distinct places. */
  lemma {:induction false} PlaceCount(info: Infos, random: seq<Id>, ids: set<Id>)
    requires ids <= info.Keys && forall n :: n in info ==> Placed(info, random, n)
    ensures |PlacesOf(info, ids)| == |ids|
    decreases |ids|
  {
    if ids == {} {
      assert PlacesOf(info, ids) == {};
    } else {
      var n :| n in ids;
      PlaceCount(info, random, ids - {n});
      assert Placed(info, random, n);
      forall m | m in ids - {n} ensures info[m].randomPos != info[n].randomPos {
        assert Placed(info, random, m);
      }
      assert PlacesOf(info, ids) == PlacesOf(info, ids - {n}) + {info[n].randomPos};
    }
  }

  lemma {:induction false} SomeoneAt(info: Infos, random: seq<Id>, i: nat) returns (n: Id)
    requires |random| == |info.Keys| && forall n :: n in info ==> Placed(info, random, n)
    requires i < |random|
    ensures n in info && info[n].randomPos == i
  {
    PlaceCount(info, random, info.Keys);
    var p, all := PlacesOf(info, info.Keys), Below(|random|);
    forall k | k in p ensures k in all {
      var m :| m in info.Keys && m in info && info[m].randomPos == k;
      assert Placed(info, random, m);
    }
    assert all == p + (all - p);
    assert i in p;
    n :| n in info.Keys && n in info && info[n].randomPos == i;
  }

  ghost function Below(k: nat): (r: set<int>)
    ensures |r| == k && forall i :: i in r <==> 0 <= i < k
  {
    if k == 0 then {} else Below(k - 1) + {k - 1}
  }

  lemma {:induction false} NetworkAbsent(info: Infos, c: Counters, net: nat)
    requires net !in CountedNetworks(c) && net !in Networks(info)
    ensures NetworkChecked(info, c, net)
  {
    forall tried, n | n in info ensures !Counted(info, {}, tried, net, n) {
      assert info[n].service.addr.network in Networks(info);
    }
    assert Members(info, {}, false, net) == {} && Members(info, {}, true, net) == {};
  }

  lemma {:induction false} NetworkEither(info: Infos, c: Counters, net: nat)
    requires NetworksChecked(info, c) && Networks(info) <= CountedNetworks(c)
    ensures Count(c.netNew, net) == |Members(info, {}, false, net)|
    ensures Count(c.netTried, net) == |Members(info, {}, true, net)|
  {
    if net in CountedNetworks(c) {
      assert NetworkChecked(info, c, net);
    } else {
      NetworkAbsent(info, c, net);
    }
  }

  lemma {:induction false} NetworksCount(info: Infos, c: Counters)
    requires TotalsChecked(info, c) && NetworksChecked(info, c) && Networks(info) <= CountedNetworks(c)
    ensures CountsOk(info, {}, c)
  {
    forall net: nat ensures Count(c.netNew, net) == |Members(info, {}, false, net)| {
      NetworkEither(info, c, net);
    }
    forall net: nat ensures Count(c.netTried, net) == |Members(info, {}, true, net)| {
      NetworkEither(info, c, net);
    }
  }

  /** Passing the check and the overlooked conditions together are the tables being in step. */
  lemma {:induction false} CheckedInStep(place: Placement, t: Tables, key: nat)
    requires key != 0
    ensures InStep(place, t, {}, {}) <==> Checked(place, t, key) && Overlooked(t)
  {
    if InStep(place, t, {}, {}) {
      InStepChecked(place, t, key);
      assert Unfold(true);
      PresentCounted(t.info, t.count);
    }
    if Checked(place, t, key) && Overlooked(t) {
      AllMembers(t.info);
      forall n | n in t.info
        ensures EntryOk(t.info, {}, {}, n) && Mapped(t.info, t.addr, n) && Placed(t.info, t.random, n)
      {
        assert EntryChecked(t, n);
      }
      PlacesCovered(t.info, t.random);
      NetworksCount(t.info, t.count);
    }
  }

  // ----- a discrepancy the check does not see

  /** One address in the new table; the counters know another network only. */
  function Miscounted(place: Placement, s: Service): Tables {
    var x := AddrInfo(s, 0, {}, s.addr, 0, 0, 0, 0, 1, false, 0);
    Tables(1, map[0 := x], map[s := 0], [0], Counters(1, 0, map[s.addr.network + 1 := 0], map[]), map[place.NewSlot(s, 0) := 0], map[])
  }

  lemma {:induction false} MiscountedMembers(place: Placement, s: Service)
    ensures var info, net := Miscounted(place, s).info, s.addr.network;
      && Members(info, {}, false, ANY) == {0} && Members(info, {}, false, net) == {0}
      && Members(info, {}, true, ANY) == {} && Members(info, {}, false, net + 1) == {} && Members(info, {}, true, net + 1) == {}
  {
    var t := Miscounted(place, s);
    assert t.info.Keys == {0};
    assert Counted(t.info, {}, false, ANY, 0) && Counted(t.info, {}, false, s.addr.network, 0);
  }

  /** The check accepts tables whose counters are wrong. */
  lemma {:induction false} CheckMisses(place: Placement, s: Service)
    ensures Checked(place, Miscounted(place, s), 1) && !InStep(place, Miscounted(place, s), {}, {})
  {
    var t, net := Miscounted(place, s), s.addr.network;
    MiscountedMembers(place, s);
    assert EntryChecked(t, 0);
    assert SlotsOf(t.news, 0) == {place.NewSlot(s, 0)};
    assert Networks(t.info) == {net} by {
      assert 0 in t.info && t.info[0].service.addr.network == net;
    }
    assert CountedNetworks(t.count) == {net + 1};
    assert NetworkChecked(t.info, t.count, net + 1);
    assert Count(t.count.netNew, net) == 0 && |Members(t.info, {}, false, net)| == 1;
    assert Unfold(true) && !Consistent(place, t, {}, {});
  }
}
