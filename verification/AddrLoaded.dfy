/**
 What loading makes of any file (`AddrManImpl::Unserialize`): which entries are kept, in which
 slots they stand, and exactly when the loaded tables are refused.
*/
module AddrLoaded {
  import opened Common
  import opened AddrTables
  import opened AddrCheck
  import opened AddrFile
  import opened AddrLoad

  // ----- the tables that a file describes

  ghost function FileInfos(d: Disk): Infos {
    map n: nat | n < |d.news| :: FromDisk(d.news[n], false, n)
  }

  /** The new table of a file; with `restore` its buckets still count. */
  ghost function FileNews(place: Placement, d: Disk, restore: bool): map<Slot, Id>
    requires Proper(d)
  {
    PlacedBy(place, FileInfos(d), d.pairs, restore)
  }

  /** An entry of the new table with the number it has in the file, as the file has it. */
  ghost predicate AsInFile(d: Disk, t: Tables, n: Id)
    requires n in t.info
  {
    n < |d.news| && Core(t.info[n]) == Core(FromDisk(d.news[n], false, 0))
  }

  /** The tables that a file is loaded as: the new table is the one the file describes and its entries are kept
      if they have a slot there; the first valid tried entry for each slot is kept; nothing else is. */
  ghost predicate LoadedFrom(place: Placement, d: Disk, restore: bool, t: Tables)
    requires Proper(d)
  {
    && Loose(place, t) && t.news == FileNews(place, d, restore) && TriedTaken(place, t, d.tried, |d.tried|)
    && (forall n: nat :: n in t.info && !t.info[n].inTried <==> KeptNew(d, t.news, n))
    && (forall n :: n in t.info && !t.info[n].inTried ==> AsInFile(d, t, n))
  }

  ghost predicate KeptNew(d: Disk, news: map<Slot, Id>, n: Id) {
    n < |d.news| && SlotsOf(news, n) != {}
  }

  /** A valid address that the file names in some bucket is kept, unless another has its primary slot. */
  lemma {:induction false} NamedKept(place: Placement, d: Disk, restore: bool, t: Tables, k: nat)
    requires Proper(d) && LoadedFrom(place, d, restore, t) && k < |d.pairs|
    requires var e := d.news[d.pairs[k].1]; place.valid(e.service.addr)
    ensures var n, e := d.pairs[k].1, d.news[d.pairs[k].1];
      || (n in t.info && !t.info[n].inTried && t.info[n].service == e.service)
      || (var s := place.NewSlot(e.service, place.NewBucket(e.service, e.source)); s in t.news && t.news[s] != n)
  {
    var n: nat := d.pairs[k].1;
    var s := Primary(place, FileInfos(d)[n]);
    EachPairServed(place, FileInfos(d), d.pairs, restore, k);
    assert KeptNew(d, t.news, n) <==> SlotsOf(t.news, n) != {};
    assert s in t.news && t.news[s] == n ==> s in SlotsOf(t.news, n);
  }

  // ----- from the steps of loading to the file

  lemma {:induction false} PlacedSame(place: Placement, info: Infos, info': Infos, pairs: seq<(nat, int)>, restore: bool)
    requires forall x :: x in pairs ==> x.1 in info && x.1 in info'
    requires forall x :: x in pairs ==> info'[x.1].service == info[x.1].service && info'[x.1].source == info[x.1].source
    ensures PlacedBy(place, info', pairs, restore) == PlacedBy(place, info, pairs, restore)
  {
    if pairs != [] {
      var k := |pairs| - 1;
      assert forall x :: x in pairs[..k] ==> x in pairs;
      assert pairs[k] in pairs;
      PlacedSame(place, info, info', pairs[..k], restore);
    }
  }

  /** The steps before the unused entries are dropped. */
  ghost predicate Filled(place: Placement, d: Disk, restore: bool, b: Tables, c: Tables)
    requires Proper(d)
  {
    && (forall n: nat :: n in b.info && !b.info[n].inTried <==> n < |d.news|)
    && (forall n :: 0 <= n < |d.news| ==> n in b.info && b.info[n] == FromDisk(d.news[n], false, n))
    && TriedTaken(place, b, d.tried, |d.tried|) && Latest(b)
    && c == b.(info := c.info, news := c.news) && OnlyRefs(b.info, c.info) && Loose(place, c)
    && (forall x :: x in d.pairs ==> x.1 in b.info) && c.news == PlacedBy(place, b.info, d.pairs, restore)
  }

  lemma {:induction false} NewsAsInFile(place: Placement, d: Disk, restore: bool, b: Tables, c: Tables)
    requires Proper(d) && Filled(place, d, restore, b, c)
    ensures c.news == FileNews(place, d, restore)
  {
    PlacedSame(place, FileInfos(d), b.info, d.pairs, restore);
  }

  /** An entry of the pruned tables, as it was before. */
  lemma {:induction false} EntryKept(place: Placement, c: Tables, t: Tables, n: Id)
    requires Loose(place, c) && Pruned(c, t, {})
    ensures n in t.info <==> n in c.info && !(!c.info[n].inTried && SlotsOf(c.news, n) == {})
    ensures n in t.info ==> Core(t.info[n]) == Core(c.info[n])
  {
    assert n in t.info <==> n in Active(c.info, {}).Keys;
    if n in c.info {
      LooseRef(place, c, n);
    }
  }

  lemma {:induction false} RefsCore(b: Infos, c: Infos, n: Id)
    requires OnlyRefs(b, c)
    ensures (n in c <==> n in b) && (n in b ==> Core(c[n]) == Core(b[n]))
  {
    assert n in c.Keys <==> n in b.Keys;
  }

  lemma {:induction false} TriedKept(place: Placement, d: Disk, restore: bool, b: Tables, c: Tables, t: Tables)
    requires Proper(d) && Filled(place, d, restore, b, c) && Pruned(c, t, {})
    ensures TriedTaken(place, t, d.tried, |d.tried|)
  {
    forall j | 0 <= j < |d.tried| && FirstTried(place, d.tried, j) ensures InTried(place, t, d.tried[j]) {
      var m := b.tried[place.TriedSlot(d.tried[j].service)];
      RefsCore(b.info, c.info, m);
      assert c.info[m].inTried == Core(c.info[m]).inTried;
      EntryKept(place, c, t, m);
    }
  }

  lemma {:induction false} StepsLoad(place: Placement, d: Disk, restore: bool, b: Tables, c: Tables, t: Tables)
    requires Proper(d) && Filled(place, d, restore, b, c) && Pruned(c, t, {}) && Loose(place, t)
    ensures LoadedFrom(place, d, restore, t)
  {
    NewsAsInFile(place, d, restore, b, c);
    TriedKept(place, d, restore, b, c, t);
    forall n: nat
      ensures n in t.info && !t.info[n].inTried <==> KeptNew(d, t.news, n)
      ensures n in t.info && !t.info[n].inTried ==> AsInFile(d, t, n)
    {
      RefsCore(b.info, c.info, n);
      EntryKept(place, c, t, n);
      if n in c.info {
        assert Core(c.info[n]).inTried == c.info[n].inTried && Core(b.info[n]).inTried == b.info[n].inTried;
      }
      if n in t.info {
        assert Core(t.info[n]).inTried == t.info[n].inTried;
      }
    }
  }

  // ----- when the loaded tables are refused

  /** After the check, loaded tables are in step. */
  lemma {:induction false} LooseChecked(place: Placement, t: Tables, key: nat)
    requires Loose(place, t) && Checked(place, t, key)
    ensures InStep(place, t, {}, {})
  {
    assert Overlooked(t) by {
      assert Unfold(true);
      PresentCounted(t.info, t.count);
    }
    CheckedInStep(place, t, key);
  }

  /** The entry can be found by its address, and its times are right. */
  ghost predicate EntrySound(t: Tables, n: Id)
    requires n in t.info
  {
    Mapped(t.info, t.addr, n) && TimesOk(t.info[n])
  }

  ghost predicate Sound(t: Tables) {
    forall n {:trigger EntrySound(t, n)} :: n in t.info ==> EntrySound(t, n)
  }

  lemma {:induction false} SoundInStep(place: Placement, t: Tables)
    requires Loose(place, t) && Sound(t) && forall n :: n in t.info ==> !Idle(t.info[n])
    ensures InStep(place, t, {}, {})
  {
    assert Unfold(true);
    forall n | n in t.info ensures Mapped(t.info, t.addr, n) && EntryOk(t.info, {}, {}, n) {
      assert EntrySound(t, n) && LooseEntry(t.info, n) && RefCountOk(t.info, t.news, n);
    }
  }

  /** Loaded tables are accepted exactly if the key is not zero and all entries are sound. */
  lemma {:induction false} AcceptedIff(place: Placement, t: Tables, key: nat)
    requires Loose(place, t) && forall n :: n in t.info ==> !Idle(t.info[n])
    ensures Checked(place, t, key) <==> key != 0 && Sound(t)
  {
    if Checked(place, t, key) {
      forall n | n in t.info ensures EntrySound(t, n) {
        assert EntryChecked(t, n);
      }
    }
    if key != 0 && Sound(t) {
      SoundInStep(place, t);
      InStepChecked(place, t, key);
    }
  }

  // ----- the same in terms of the file

  /** No other entry had the address of the entry. */
  ghost predicate Alone(c: Infos, n: Id)
    requires n in c
  {
    forall m :: m in c && m != n ==> c[m].service != c[n].service
  }

  lemma {:induction false} BackFacts(place: Placement, c: Tables, s: Service)
    requires Loose(place, c) && s in c.addr
    ensures c.addr[s] in c.info && c.info[c.addr[s]].service == s
  {
    assert Unfold(true);
    assert MappedBack(c.info, c.addr, s);
  }

  /** An entry that no other shares its address with can be found. */
  lemma {:induction false} AloneMapped(place: Placement, b: Tables, c: Tables, t: Tables, n: Id)
    requires Loose(place, c) && Latest(b) && c.addr == b.addr && OnlyRefs(b.info, c.info) && Pruned(c, t, {})
    requires n in t.info && n in c.info && Alone(c.info, n)
    ensures Mapped(t.info, t.addr, n)
  {
    EntryKept(place, c, t, n);
    RefsCore(b.info, c.info, n);
    var s := c.info[n].service;
    assert Core(t.info[n]).service == Core(c.info[n]).service == Core(b.info[n]).service == s;
    BackFacts(place, c, s);
    LooseRef(place, c, n);
    assert c.addr[s] == n && !Idle(c.info[n]) && s !in Dropped(c.info, {});
  }

  /** An entry that shares its address with another makes one of them not to be found. */
  lemma {:induction false} SharedUnmapped(place: Placement, c: Tables, t: Tables, n: Id, m: Id)
    requires Loose(place, c) && Pruned(c, t, {}) && n in t.info && m in c.info && m != n && n in c.info
    requires c.info[m].service == c.info[n].service
    ensures !Mapped(t.info, t.addr, n) || (m in t.info && !Mapped(t.info, t.addr, m))
  {
    EntryKept(place, c, t, n);
    EntryKept(place, c, t, m);
    LooseRef(place, c, m);
    assert Core(t.info[n]).service == Core(c.info[n]).service;
    if m in t.info {
      assert Core(t.info[m]).service == Core(c.info[m]).service;
    } else {
      assert c.info[m].service in Dropped(c.info, {});
    }
  }

  /** All kept entries are sound exactly if none shared its address and all times are right. */
  lemma {:induction false} SoundIffAlone(place: Placement, b: Tables, c: Tables, t: Tables)
    requires Loose(place, c) && Latest(b) && c.addr == b.addr && OnlyRefs(b.info, c.info) && Pruned(c, t, {})
    ensures Sound(t) <==> forall n :: n in t.info ==> n in c.info && Alone(c.info, n) && TimesOk(t.info[n])
  {
    forall n | n in t.info ensures n in c.info {
      EntryKept(place, c, t, n);
    }
    if Sound(t) {
      forall n | n in t.info ensures Alone(c.info, n) && TimesOk(t.info[n]) {
        assert EntrySound(t, n);
        forall m | m in c.info && m != n ensures c.info[m].service != c.info[n].service {
          assert m in t.info ==> EntrySound(t, m);
          if c.info[m].service == c.info[n].service {
            SharedUnmapped(place, c, t, n, m);
            assert false;
          }
        }
      }
    }
    if forall n :: n in t.info ==> n in c.info && Alone(c.info, n) && TimesOk(t.info[n]) {
      forall n | n in t.info ensures EntrySound(t, n) {
        AloneMapped(place, b, c, t, n);
      }
    }
  }

  /** An entry of the new table has no other entry's address, and no success before the epoch. */
  ghost predicate NewSound(place: Placement, d: Disk, n: nat)
    requires n < |d.news|
  {
    && 0 <= d.news[n].lastSuccess
    && (forall m :: 0 <= m < |d.news| && m != n ==> d.news[m].service != d.news[n].service)
    && (forall j: nat {:trigger FirstTried(place, d.tried, j)} :: FirstTried(place, d.tried, j) ==> d.tried[j].service != d.news[n].service)
  }

  /** A tried entry has no new entry's address, and a success after the epoch. */
  ghost predicate TriedSound(d: Disk, j: nat)
    requires j < |d.tried|
  {
    0 < d.tried[j].lastSuccess && forall m :: 0 <= m < |d.news| ==> d.news[m].service != d.tried[j].service
  }

  /** What a file must say for its tables to be accepted: every entry that is kept is sound. */
  ghost predicate Clean(place: Placement, d: Disk, restore: bool)
    requires Proper(d)
  {
    && (forall n: nat :: KeptNew(d, FileNews(place, d, restore), n) ==> NewSound(place, d, n))
    && (forall j: nat {:trigger FirstTried(place, d.tried, j)} :: FirstTried(place, d.tried, j) ==> TriedSound(d, j))
  }

  /** A tried entry comes from the file. */
  lemma {:induction false} TriedSource(place: Placement, d: Disk, restore: bool, b: Tables, c: Tables, m: Id) returns (j: nat)
    requires Proper(d) && Filled(place, d, restore, b, c) && m in c.info && c.info[m].inTried
    ensures FirstTried(place, d.tried, j) && Core(c.info[m]) == Core(FromDisk(d.tried[j], true, 0))
    ensures place.TriedSlot(c.info[m].service) in c.tried && c.tried[place.TriedSlot(c.info[m].service)] == m
  {
    TriedPlace(place, c, m);
    var s := place.TriedSlot(c.info[m].service);
    assert SlotClaimed(place, d.tried, |d.tried|, s);
    j :| 0 <= j < |d.tried| && FirstTried(place, d.tried, j) && place.TriedSlot(d.tried[j].service) == s;
    assert InTried(place, b, d.tried[j]);
    RefsCore(b.info, c.info, m);
  }

  lemma {:induction false} TriedPlace(place: Placement, c: Tables, m: Id)
    requires Loose(place, c) && m in c.info && c.info[m].inTried
    ensures place.TriedSlot(c.info[m].service) in c.tried && c.tried[place.TriedSlot(c.info[m].service)] == m
  {
    assert Unfold(true);
    assert TriedEntryOk(place, c.info, c.tried, m);
  }

  lemma {:induction false} TriedTarget(place: Placement, d: Disk, restore: bool, b: Tables, c: Tables, j: nat) returns (m: Id)
    requires Proper(d) && Filled(place, d, restore, b, c) && FirstTried(place, d.tried, j)
    ensures m in c.info && c.info[m].inTried && Core(c.info[m]) == Core(FromDisk(d.tried[j], true, 0))
  {
    m := b.tried[place.TriedSlot(d.tried[j].service)];
    assert InTried(place, b, d.tried[j]);
    RefsCore(b.info, c.info, m);
    assert Core(c.info[m]).inTried == c.info[m].inTried;
  }

  lemma {:induction false} NewSource(place: Placement, d: Disk, restore: bool, b: Tables, c: Tables, m: Id)
    requires Proper(d) && Filled(place, d, restore, b, c)
    ensures m in c.info && !c.info[m].inTried <==> m < |d.news|
    ensures m < |d.news| ==> Core(c.info[m]) == Core(FromDisk(d.news[m], false, 0)) && c.info[m].service == d.news[m].service
  {
    RefsCore(b.info, c.info, m);
    if m in c.info {
      assert Core(c.info[m]).inTried == c.info[m].inTried && Core(c.info[m]).service == c.info[m].service;
      assert Core(b.info[m]).inTried == b.info[m].inTried;
    }
  }

  lemma {:induction false} CleanAlone(place: Placement, d: Disk, restore: bool, b: Tables, c: Tables, t: Tables, n: Id)
    requires Proper(d) && Filled(place, d, restore, b, c) && Pruned(c, t, {}) && LoadedFrom(place, d, restore, t)
    requires Clean(place, d, restore) && n in t.info
    ensures n in c.info && Alone(c.info, n) && TimesOk(t.info[n])
  {
    EntryKept(place, c, t, n);
    NewSource(place, d, restore, b, c, n);
    assert Core(t.info[n]).inTried == Core(c.info[n]).inTried == t.info[n].inTried;
    assert Core(t.info[n]).lastSuccess == t.info[n].lastSuccess && Core(t.info[n]).lastTry == t.info[n].lastTry;
    var i := 0;
    if t.info[n].inTried {
      i := TriedSource(place, d, restore, b, c, n);
    } else {
      assert KeptNew(d, t.news, n);
    }
    forall m | m in c.info && m != n ensures c.info[m].service != c.info[n].service {
      assert Core(c.info[m]).service == c.info[m].service && Core(c.info[n]).service == c.info[n].service;
      NewSource(place, d, restore, b, c, m);
      if c.info[m].inTried {
        var j := TriedSource(place, d, restore, b, c, m);
      }
    }
  }

  lemma {:induction false} AloneClean(place: Placement, d: Disk, restore: bool, b: Tables, c: Tables, t: Tables)
    requires Proper(d) && Filled(place, d, restore, b, c) && Pruned(c, t, {}) && LoadedFrom(place, d, restore, t)
    requires forall n :: n in t.info ==> n in c.info && Alone(c.info, n) && TimesOk(t.info[n])
    ensures Clean(place, d, restore)
  {
    forall n: nat | KeptNew(d, FileNews(place, d, restore), n) ensures NewSound(place, d, n) {
      NewFree(place, d, restore, b, c, t, n);
    }
    forall j: nat | FirstTried(place, d.tried, j) ensures TriedSound(d, j) {
      TriedFree(place, d, restore, b, c, t, j);
    }
  }

  lemma {:induction false} NewFree(place: Placement, d: Disk, restore: bool, b: Tables, c: Tables, t: Tables, n: Id)
    requires Proper(d) && Filled(place, d, restore, b, c) && LoadedFrom(place, d, restore, t)
    requires KeptNew(d, t.news, n) && n in c.info && Alone(c.info, n) && n in t.info && TimesOk(t.info[n])
    ensures NewSound(place, d, n)
  {
    assert AsInFile(d, t, n) && Core(t.info[n]).lastSuccess == t.info[n].lastSuccess;
    NewSource(place, d, restore, b, c, n);
    forall m | 0 <= m < |d.news| && m != n ensures d.news[m].service != d.news[n].service {
      NewSource(place, d, restore, b, c, m);
    }
    forall j: nat | FirstTried(place, d.tried, j) ensures d.tried[j].service != d.news[n].service {
      var m := TriedTarget(place, d, restore, b, c, j);
      assert Core(c.info[m]).service == c.info[m].service;
    }
  }

  lemma {:induction false} TriedFree(place: Placement, d: Disk, restore: bool, b: Tables, c: Tables, t: Tables, j: nat)
    requires Proper(d) && Filled(place, d, restore, b, c) && Pruned(c, t, {}) && FirstTried(place, d.tried, j)
    requires forall n :: n in t.info ==> n in c.info && Alone(c.info, n) && TimesOk(t.info[n])
    ensures TriedSound(d, j)
  {
    var n := TriedTarget(place, d, restore, b, c, j);
    EntryKept(place, c, t, n);
    assert Core(t.info[n]).lastSuccess == t.info[n].lastSuccess && Core(t.info[n]).inTried == t.info[n].inTried;
    assert Core(c.info[n]).service == c.info[n].service;
    forall m | 0 <= m < |d.news| ensures d.news[m].service != d.tried[j].service {
      NewSource(place, d, restore, b, c, m);
    }
  }

  /** The loaded tables are accepted exactly if the key is not zero and the file is clean. */
  lemma {:induction false} AcceptedIffClean(place: Placement, d: Disk, restore: bool, b: Tables, c: Tables, t: Tables)
    requires Proper(d) && Filled(place, d, restore, b, c) && Pruned(c, t, {}) && Loose(place, t)
    requires forall n :: n in t.info ==> !Idle(t.info[n])
    ensures LoadedFrom(place, d, restore, t)
    ensures Checked(place, t, d.key) <==> d.key != 0 && Clean(place, d, restore)
  {
    StepsLoad(place, d, restore, b, c, t);
    AcceptedIff(place, t, d.key);
    SoundIffAlone(place, b, c, t);
    if Clean(place, d, restore) {
      forall n | n in t.info ensures n in c.info && Alone(c.info, n) && TimesOk(t.info[n]) {
        CleanAlone(place, d, restore, b, c, t, n);
      }
    }
    if forall n :: n in t.info ==> n in c.info && Alone(c.info, n) && TimesOk(t.info[n]) {
      AloneClean(place, d, restore, b, c, t);
    }
  }
}
