/**
 The address manager (`addrman.cpp`): every operation keeps the tables in step.

 The clock and the random choices are parameters or left open.  Log output is left out.
*/
module AddrMan {
  import opened Common
  import opened AddrTables
  import opened BitSets

  const HORIZON: int := 30 * 24 * 3600
  const RETRIES: int := 3
  const MAX_FAILURES: int := 10
  const MIN_FAIL: int := 7 * 24 * 3600
  const REPLACEMENT: int := 4 * 3600
  const TRIED_COLLISION_SIZE: nat := 10
  const TEST_WINDOW: int := 40 * 60

  /** Whether an entry is bad enough to be dropped. */
  predicate IsTerrible(x: AddrInfo, now: int) {
    if now - x.lastTry <= 60 then false
    else
      || x.time > now + 600
      || now - x.time > HORIZON
      || (x.lastSuccess == 0 && x.attempts >= RETRIES)
      || (now - x.lastSuccess > MIN_FAIL && x.attempts >= MAX_FAILURES)
  }

  /** Not tried within the last minute; and announced for a time more than ten minutes ahead, or not within
      30 days, or never reached in three or more attempts, or not reached within a week in ten or more. */
  ghost predicate Terrible(x: AddrInfo, now: int) {
    && x.lastTry < now - 60
    && !(now - 2592000 <= x.time <= now + 600 && (x.lastSuccess != 0 || x.attempts < 3)
         && (now - 604800 <= x.lastSuccess || x.attempts < 10))
  }

  lemma {:induction false} TerribleMeans(x: AddrInfo, now: int)
    ensures IsTerrible(x, now) <==> Terrible(x, now)
  {
  }

  /** Entries may be gone, or have other places and reference counts; nothing else differs. */
  ghost predicate Shrinks(info: Infos, info': Infos) {
    forall n :: n in info' ==>
      n in info && info'[n] == info[n].(randomPos := info'[n].randomPos, refCount := info'[n].refCount)
  }

  /** There are no new entries, and those outside `others` are what they were. */
  ghost predicate Keeps(info: Infos, info': Infos, others: set<Id>) {
    forall n :: n in info' && n !in others ==> n in info && Core(info'[n]) == Core(info[n])
  }

  /** Ids that remain stand for the addresses they stood for. */
  ghost predicate SameAddresses(info: Infos, info': Infos) {
    forall n :: n in info' ==> n in info && info'[n].service == info[n].service
  }

  class AddrManImpl {
    const place: Placement
    var t: Tables
    var lastGood: int
    var collisions: set<Id>

    ghost predicate Holds(limbo: set<Id>, unlisted: set<Id>)
      reads this
    {
      InStep(place, t, limbo, unlisted)
    }

    /** Pending collisions: at most ten ids, each gone or up against an occupied tried slot. */
    ghost predicate CollisionsOk()
      reads this
    {
      |collisions| <= TRIED_COLLISION_SIZE && Pending(place, t, collisions)
    }

    ghost predicate Valid()
      reads this
    {
      Holds({}, {}) && CollisionsOk()
    }

    constructor (p: Placement)
      ensures Valid() && place == p && t.info == map[] && collisions == {}
    {
      place := p;
      t := Tables(0, map[], map[], [], Counters(0, 0, map[], map[]), map[], map[]);
      lastGood, collisions := 1, {};
      new;
      NothingCounted();
    }

    method Find(s: Service) returns (found: bool, n: Id)
      requires Holds({}, {})
      ensures found <==> s in t.addr
      ensures found ==> n == t.addr[s] && n in t.info && t.info[n].service == s
    {
      if s in t.addr {
        AddressFacts(place, t, {}, {}, s);
        return true, t.addr[s];
      }
      return false, 0;
    }

    /** A new entry, in no bucket yet. */
    method Create(a: Address, source: NetAddr) returns (n: Id)
      requires Holds({}, {}) && a.service !in t.addr
      modifies this`t
      ensures Holds({}, {n}) && n == old(t).idCount && n !in old(t).info
      ensures t == Created(old(t), AddrInfo(a.service, a.time, a.services, source, 0, 0, 0, 0, 0, false, |old(t).random|))
    {
      n := t.idCount;
      var x := AddrInfo(a.service, a.time, a.services, source, 0, 0, 0, 0, 0, false, |t.random|);
      CreatedOk(place, t, x);
      t := t.(idCount := t.idCount + 1, info := t.info[n := x], addr := t.addr[a.service := n]);
      t := t.(random := t.random + [n], count := t.count.AddNew(a.service.addr.network, 1));
    }

    method SwapRandom(p1: nat, p2: nat, ghost limbo: set<Id>, ghost unlisted: set<Id>)
      requires Holds(limbo, unlisted) && p1 < |t.random| && p2 < |t.random|
      modifies this`t
      ensures Holds(limbo, unlisted) && OnlyPlaces(old(t).info, t.info)
      ensures t == old(t).(info := t.info, random := old(t).random[p1 := old(t).random[p2]][p2 := old(t).random[p1]])
    {
      if p1 == p2 {
        return;
      }
      var n1, n2 := t.random[p1], t.random[p2];
      SwappedOk(place, t, p1, p2, limbo, unlisted);
      t := t.(info := t.info[n1 := t.info[n1].(randomPos := p2)][n2 := t.info[n2].(randomPos := p1)]);
      t := t.(random := t.random[p1 := n2][p2 := n1]);
    }

    /** Delete an entry that is in neither table. */
    method Delete(n: Id, ghost limbo: set<Id>, ghost unlisted: set<Id>)
      requires Holds(limbo, unlisted) && n in t.info && !t.info[n].inTried && t.info[n].refCount == 0 && n !in limbo
      modifies this`t
      ensures Holds(limbo, unlisted - {n}) && OnlyPlaces(old(t).info - {n}, t.info)
      ensures t.idCount == old(t).idCount && t.news == old(t).news && t.tried == old(t).tried
    {
      PlaceFacts(place, t, limbo, unlisted, n);
      SwapRandom(t.info[n].randomPos, |t.random| - 1, limbo, unlisted);
      RemovedOk(place, t, limbo, unlisted, n);
      var s := t.info[n].service;
      t := t.(count := t.count.AddNew(s.addr.network, -1), random := t.random[..|t.random| - 1],
              addr := t.addr - {s}, info := t.info - {n});
    }

    /** Clear a slot of the new table; an entry that was only there is deleted. */
    method ClearNew(s: Slot, ghost limbo: set<Id>, ghost unlisted: set<Id>)
      requires Holds(limbo, unlisted)
      modifies this`t
      ensures Holds(limbo, unlisted) && t.news == old(t).news - {s} && Shrinks(old(t).info, t.info)
      ensures t.idCount == old(t).idCount && t.tried == old(t).tried
      ensures forall m :: m in old(t).info && !(s in old(t).news && m == old(t).news[s]) ==>
        m in t.info && t.info[m] == old(t).info[m].(randomPos := t.info[m].randomPos)
    {
      if s in t.news {
        var n := t.news[s];
        ClearedSlot(place, t, limbo, unlisted, s);
        t := t.(info := t.info[n := t.info[n].(refCount := t.info[n].refCount - 1)], news := t.news - {s});
        if t.info[n].refCount == 0 {
          Delete(n, limbo, unlisted + {n});
          MoreUnlisted(place, t, limbo, (unlisted + {n}) - {n}, unlisted);
        } else {
          ForgetUnlisted(place, t, limbo, unlisted, n);
        }
      } else {
        assert t.news - {s} == t.news;
      }
    }

    /** Take an entry out of all new buckets. */
    method LeaveNew(n: Id)
      requires Holds({}, {}) && n in t.info && !t.info[n].inTried
      modifies this`t
      ensures Holds({}, {n}) && t == old(t).(info := old(t).info[n := old(t).info[n].(refCount := 0)], news := t.news)
      ensures t.news == WithoutId(old(t).news, n)
    {
      ghost var was := t;
      var start := place.NewBucket(t.info[n].service, t.info[n].source);
      var i := 0;
      MoreUnlisted(place, t, {}, {}, {n});
      assert t.info == was.info[n := was.info[n].(refCount := t.info[n].refCount)];
      while i < NEW_BUCKET_COUNT
        invariant i <= NEW_BUCKET_COUNT && Holds({}, {n}) && n in t.info
        invariant t == was.(info := was.info[n := was.info[n].(refCount := t.info[n].refCount)], news := t.news)
        invariant AwayFrom(place, t.news, was.info[n].service, n, start, i) && OnlyGone(was.news, t.news, n)
      {
        var bucket := (start + i) % NEW_BUCKET_COUNT;
        var s := place.NewSlot(t.info[n].service, bucket);
        if s in t.news && t.news[s] == n {
          AwayFromMore(place, t.news, was.info[n].service, n, start, i, s);
          ClearedSlot(place, t, {}, {n}, s);
          assert {n} + {n} == {n};
          t := t.(info := t.info[n := t.info[n].(refCount := t.info[n].refCount - 1)], news := t.news - {s});
          if t.info[n].refCount == 0 {
            AllGone(place, was.news, t, n);
            return;
          }
        }
        AwayFromNext(place, t.news, was.info[n].service, n, start, i);
        i := i + 1;
      }
      AllBucketsLeft(place, t, n, start);
      AllGone(place, was.news, t, n);
    }

    /** Take the address in a slot out of the tried table. */
    method TakeOut(s: Slot, ghost n: Id) returns (o: Id)
      requires Holds({n}, {}) && s in t.tried
      modifies this`t
      ensures o == old(t).tried[s] && o in old(t).info && old(t).info[o].inTried && t == Evicted(old(t), s)
      ensures Holds({n} + {o}, {}) && n != o
    {
      EvictedOk(place, t, {n}, s);
      o := t.tried[s];
      t := t.(info := t.info[o := t.info[o].(inTried := false)], tried := t.tried - {s},
              count := t.count.AddTried(t.info[o].service.addr.network, -1));
    }

    /** Enter an address that is in no table into an empty slot of the new table. */
    method PutBack(o: Id, u: Slot, ghost limbo: set<Id>)
      requires Holds(limbo, {}) && o in limbo && o in t.info && u !in t.news
      requires u.bucket < NEW_BUCKET_COUNT && u == place.NewSlot(t.info[o].service, u.bucket)
      modifies this`t
      ensures Holds(limbo - {o}, {}) && t == Relisted(old(t), o, u)
    {
      RelistedOk(place, t, limbo, o, u);
      t := t.(info := t.info[o := t.info[o].(refCount := 1)], news := t.news[u := o],
              count := t.count.AddNew(t.info[o].service.addr.network, 1));
    }

    /** Move the address in a tried slot back to its new bucket, clearing its place there. */
    method Evict(s: Slot, ghost n: Id)
      requires Holds({n}, {}) && s in t.tried && n in t.info
      modifies this`t
      ensures Holds({n}, {}) && t.tried == old(t).tried - {s} && t.idCount == old(t).idCount
      ensures SameAddresses(old(t).info, t.info)
      ensures n in t.info && t.info[n] == old(t).info[n].(randomPos := t.info[n].randomPos)
      ensures BackInNew(place, old(t), t, old(t).tried[s], old(t).news) && Keeps(old(t).info, t.info, {old(t).tried[s]})
    {
      ghost var was := t.info;
      var o := TakeOut(s, n);
      var service := t.info[o].service;
      var u := place.NewSlot(service, place.NewBucket(service, t.info[o].source));
      LimboSlotless(place, t, {n} + {o}, u);
      ClearNew(u, {n} + {o}, {});
      ghost var cleared := t.info;
      PutBack(o, u, {n} + {o});
      assert ({n} + {o}) - {o} == {n};
      EvictedAddresses(was, o, cleared, 1);
      EvictedKeeps(was, o, cleared, 1);
      Refill(old(t).news, u, o);
    }

    /** Take an entry out of the new table altogether. */
    method Withdraw(n: Id)
      requires Holds({}, {}) && n in t.info && !t.info[n].inTried
      modifies this`t
      ensures Holds({n}, {}) && n in t.info && t.info == old(t).info[n := old(t).info[n].(refCount := 0)]
      ensures t.tried == old(t).tried && t.idCount == old(t).idCount && t.news == WithoutId(old(t).news, n)
    {
      LeaveNew(n);
      LimboOk(place, t, n);
      t := t.(count := t.count.AddNew(t.info[n].service.addr.network, -1));
    }

    /** Put an entry that is in no table into its free slot of the tried table. */
    method Promote(n: Id)
      requires Holds({n}, {}) && n in t.info && t.info[n].lastSuccess != 0 && place.TriedSlot(t.info[n].service) !in t.tried
      modifies this`t
      ensures Holds({}, {}) && t == Promoted(old(t), n, place.TriedSlot(old(t).info[n].service))
    {
      PromotedOk(place, t, n);
      t := t.(info := t.info[n := t.info[n].(inTried := true)], tried := t.tried[place.TriedSlot(t.info[n].service) := n],
              count := t.count.AddTried(t.info[n].service.addr.network, 1));
    }

    /** Move an entry from the new table to its slot in the tried table. */
    method MakeTried(n: Id)
      requires Holds({}, {}) && n in t.info && !t.info[n].inTried && t.info[n].lastSuccess != 0
      modifies this`t
      ensures Holds({}, {}) && SameAddresses(old(t).info, t.info) && n in t.info && t.info[n].inTried
      ensures t.info[n] == old(t).info[n].(refCount := 0, inTried := true, randomPos := t.info[n].randomPos)
      ensures t.tried == old(t).tried[place.TriedSlot(t.info[n].service) := n] && t.idCount == old(t).idCount
      ensures MovedToTried(place, old(t), t, n, old(t).info[n])
    {
      Refill(t.tried, place.TriedSlot(t.info[n].service), n);
      Withdraw(n);
      var s := place.TriedSlot(t.info[n].service);
      if s in t.tried {
        Evict(s, n);
      }
      Promote(n);
    }

    // ----- adding addresses

    /** Time and services of a known address follow a new announcement. */
    method Refresh(n: Id, a: Address, penalty: int, now: int)
      requires Holds({}, {}) && n in t.info
      modifies this`t
      ensures Holds({}, {}) && t == old(t).(info := old(t).info[n := Refreshed(old(t).info[n], a, penalty, now)])
    {
      var x := t.info[n];
      var interval := if now - a.time < 24 * 3600 then 3600 else 24 * 3600;
      if x.time < a.time - interval - penalty {
        x := x.(time := Max(0, a.time - penalty));
      }
      x := x.(services := x.services + a.services);
      EntryFacts(place, t, {}, {}, n);
      UpdatedOk(place, t, n, x);
      t := t.(info := t.info[n := x]);
    }

    /** Take over a slot of the new table. */
    method Insert(n: Id, s: Slot)
      requires Holds({}, {n}) && n in t.info && !t.info[n].inTried && t.info[n].refCount < NEW_BUCKETS_PER_ADDRESS
      requires s.bucket < NEW_BUCKET_COUNT && s == place.NewSlot(t.info[n].service, s.bucket)
      requires s in t.news ==> t.news[s] != n
      modifies this`t
      ensures Holds({}, {}) && t.tried == old(t).tried && t.idCount == old(t).idCount && SameAddresses(old(t).info, t.info)
      ensures n in t.info && t.news == old(t).news[s := n] && t.info[n].refCount == old(t).info[n].refCount + 1
      ensures Keeps(old(t).info, t.info, {})
    {
      ClearNew(s, {}, {n});
      FilledSlot(place, t, s, n);
      ReferredKeeps(old(t).info, t.info, n, t.info[n].refCount + 1);
      t := Filled(t, s, n);
      Refill(old(t).news, s, n);
    }

    /** An entry that got no slot goes again, unless it has others. */
    method GiveUp(n: Id)
      requires Holds({}, {n}) && n in t.info && !t.info[n].inTried
      modifies this`t
      ensures Holds({}, {}) && t.tried == old(t).tried && t.idCount == old(t).idCount && SameAddresses(old(t).info, t.info)
      ensures t.news == old(t).news && (n in t.info <==> old(t).info[n].refCount != 0) && Keeps(old(t).info, t.info, {})
      ensures old(t).info[n].refCount != 0 ==> t == old(t)
    {
      if t.info[n].refCount == 0 {
        Delete(n, {}, {n});
        assert {n} - {n} == {};
      } else {
        OwnCount(place, t, n);
        assert {} + {n} == {n};
        ForgetUnlisted(place, t, {}, {}, n);
      }
    }

    /** Enter an address into one of its new slots, if the slot is free or its holder can go. */
    method List(n: Id, source: NetAddr, now: int) returns (inserted: bool)
      requires Holds({}, {n}) && n in t.info && !t.info[n].inTried && t.info[n].refCount < NEW_BUCKETS_PER_ADDRESS
      modifies this`t
      ensures Holds({}, {}) && t.tried == old(t).tried && t.idCount == old(t).idCount && SameAddresses(old(t).info, t.info)
      ensures Keeps(old(t).info, t.info, {}) && (!inserted && old(t).info[n].refCount != 0 ==> t == old(t))
      ensures var s := place.NewSlot(old(t).info[n].service, place.NewBucket(old(t).info[n].service, source));
        && (inserted <==> Yields(old(t).info, old(t).news, s, n, old(t).info[n].refCount, now))
        && if inserted then t.news == old(t).news[s := n] && n in t.info && t.info[n].refCount == old(t).info[n].refCount + 1
           else t.news == old(t).news && (n in t.info <==> old(t).info[n].refCount != 0)
    {
      var service := t.info[n].service;
      var s := place.NewSlot(service, place.NewBucket(service, source));
      inserted := s !in t.news;
      if !inserted && t.news[s] != n {
        ClearedSlot(place, t, {}, {n}, s);
        var existing := t.info[t.news[s]];
        TerribleMeans(existing, now);
        inserted := IsTerrible(existing, now) || (existing.refCount > 1 && t.info[n].refCount == 0);
      }
      if inserted {
        Insert(n, s);
      } else {
        GiveUp(n);
      }
    }

    /** Find or create the entry of an announced address, and see whether it gets another slot. */
    method Enroll(a: Address, source: NetAddr, penalty: int, now: int, lucky: bool) returns (goOn: bool, n: Id)
      requires Holds({}, {})
      modifies this`t
      ensures Follows(old(t), t) && t.tried == old(t).tried && t.news == old(t).news
      ensures !goOn ==> Holds({}, {})
      ensures goOn ==> Holds({}, {n}) && n in t.info && t.info[n].service == a.service
      ensures goOn ==> !t.info[n].inTried && t.info[n].refCount < NEW_BUCKETS_PER_ADDRESS
      ensures a.service in old(t).addr ==>
        && n == old(t).addr[a.service] && n in old(t).info
        && var x := Refreshed(old(t).info[n], a, penalty, now);
        && t == old(t).(info := old(t).info[n := x])
        && (goOn <==> x.time < a.time && !x.inTried && x.refCount < NEW_BUCKETS_PER_ADDRESS && (x.refCount == 0 || lucky))
      ensures Enrolled(old(t), t, n) && (n in old(t).info <==> a.service in old(t).addr)
      ensures a.service !in old(t).addr ==>
        && goOn && n == old(t).idCount
        && t == Created(old(t), AddrInfo(a.service, Max(0, a.time - penalty), a.services, source, 0, 0, 0, 0, 0, false, |old(t).random|))
    {
      var found;
      found, n := Find(a.service);
      if found {
        Refresh(n, a, penalty, now);
        EntryFacts(place, t, {}, {}, n);
        if a.time <= t.info[n].time || t.info[n].inTried || t.info[n].refCount == NEW_BUCKETS_PER_ADDRESS
           || (t.info[n].refCount > 0 && !lucky) {
          return false, n;
        }
        MoreUnlisted(place, t, {}, {}, {n});
      } else {
        n := Create(a, source);
        SetTime(n, Max(0, a.time - penalty));
      }
      goOn := true;
    }

    /** Add one address to the new table; `lucky` is the outcome of the random test. */
    method AddSingle(a: Address, source: NetAddr, timePenalty: int, now: int, lucky: bool) returns (inserted: bool)
      requires Valid()
      modifies this`t
      ensures Valid() && t.tried == old(t).tried && Follows(old(t), t)
      ensures inserted <==> Welcome(place, old(t), a, source, Penalty(a, source, timePenalty), now, lucky)
      ensures if inserted then Listed(place, old(t), t, a.service, source) && Entered(old(t), t, a, source, Penalty(a, source, timePenalty), now)
        else Unmoved(place, old(t), t, a, Penalty(a, source, timePenalty), now)
    {
      if !place.routable(a.service.addr) {
        KeepsAll(t.info);
        return false;
      }
      var goOn, n := Enroll(a, source, if a.service.addr == source then 0 else timePenalty, now, lucky);
      StillPending(place, old(t), t, collisions);
      if !goOn {
        return false;
      }
      ghost var enrolled := t;
      EnrolledFacts(place, old(t), t, n, place.NewSlot(a.service, place.NewBucket(a.service, source)), now);
      inserted := List(n, source, now);
      StillPending(place, enrolled, t, collisions);
      if inserted {
        IdFacts(place, t, {}, {}, n);
        ListedFacts(old(t), enrolled, t, n, a, source, Penalty(a, source, timePenalty), now);
      } else {
        UnlistedFacts(place, old(t), enrolled, t, n, a, Penalty(a, source, timePenalty), now);
      }
    }

    /** A new entry's time. */
    method SetTime(n: Id, time: int)
      requires Holds({}, {n}) && n in t.info
      modifies this`t
      ensures Holds({}, {n}) && t == old(t).(info := old(t).info[n := old(t).info[n].(time := time)])
    {
      RetimedOk(place, t, n, time);
      t := t.(info := t.info[n := t.info[n].(time := time)]);
    }

    /** Add a batch of announced addresses; `history` keeps the tables before, between and after them. */
    method Add(addresses: seq<Address>, source: NetAddr, timePenalty: int, now: int, luck: seq<bool>)
      returns (added: bool, ghost history: seq<Tables>)
      requires Valid() && |luck| == |addresses|
      modifies this`t
      ensures Valid() && t.tried == old(t).tried && Follows(old(t), t) && (!added ==> t.news == old(t).news)
      ensures |history| == |addresses| + 1 && history[0] == old(t) && history[|addresses|] == t
      ensures forall i :: 0 <= i < |addresses| ==> AdditionAt(place, history, addresses, source, timePenalty, now, luck, i)
      ensures added <==> exists i :: ListedAt(place, history, addresses, source, i)
    {
      added, history := false, [t];
      BatchStart(place, t, addresses, source, timePenalty, now, luck);
      for i := 0 to |addresses|
        invariant Valid() && Batch(place, old(t), t, history, addresses, i, source, timePenalty, now, luck, added)
      {
        ghost var before := t;
        var inserted := AddSingle(addresses[i], source, timePenalty, now, luck[i]);
        BatchMore(place, old(t), before, t, history, addresses, i, source, timePenalty, now, luck, added, inserted);
        history := history + [t];
        added := added || inserted;
      }
      BatchEnd(place, old(t), t, history, addresses, source, timePenalty, now, luck, added);
    }

    // ----- statistics

    /** Replace an entry by one that differs only in statistics. */
    method SetStatistics(n: Id, x: AddrInfo)
      requires Valid() && n in t.info && Kindred(t.info[n], x) && x.refCount == t.info[n].refCount
      modifies this`t
      ensures Valid() <==> TimesOk(x)
      ensures t == old(t).(info := old(t).info[n := x]) && Follows(old(t), t)
    {
      UpdatedOk(place, t, n, x);
      var now := t.(info := t.info[n := x]);
      EntryFacts(place, t, {}, {}, n);
      StillPending(place, t, now, collisions);
      t := now;
    }

    /** Note an attempt to connect; only a time before the epoch puts the tables out of step. */
    method Attempt(s: Service, countFailure: bool, time: int)
      requires Valid()
      modifies this`t
      ensures Valid() <==> s !in old(t).addr || 0 <= time
      ensures Follows(old(t), t) && (s !in old(t).addr ==> t == old(t))
      ensures s in old(t).addr ==> var n := old(t).addr[s];
        n in old(t).info && var x := old(t).info[n]; t == old(t).(info := old(t).info[n := Tried(x, countFailure && x.lastCountAttempt < lastGood, time)])
    {
      var found, n := Find(s);
      if found {
        EntryFacts(place, t, {}, {}, n);
        var x := t.info[n].(lastTry := time);
        if countFailure && x.lastCountAttempt < lastGood {
          x := x.(lastCountAttempt := time, attempts := x.attempts + 1);
        }
        SetStatistics(n, x);
      }
    }

    method Connected(s: Service, time: int)
      requires Valid()
      modifies this`t
      ensures Valid() && Follows(old(t), t) && (s !in old(t).addr ==> t == old(t))
      ensures s in old(t).addr ==> var n := old(t).addr[s];
        n in old(t).info && var x := old(t).info[n]; t == old(t).(info := old(t).info[n := if time - x.time > 20 * 60 then x.(time := time) else x])
    {
      var found, n := Find(s);
      if found {
        EntryFacts(place, t, {}, {}, n);
        if time - t.info[n].time > 20 * 60 {
          SetStatistics(n, t.info[n].(time := time));
        }
      }
    }

    method SetServices(s: Service, services: set<nat>)
      requires Valid()
      modifies this`t
      ensures Valid() && Follows(old(t), t) && (s !in old(t).addr ==> t == old(t))
      ensures s in old(t).addr ==> var n := old(t).addr[s];
        n in old(t).info && var x := old(t).info[n]; t == old(t).(info := old(t).info[n := x.(services := services)])
    {
      var found, n := Find(s);
      if found {
        EntryFacts(place, t, {}, {}, n);
        SetStatistics(n, t.info[n].(services := services));
      }
    }

    // ----- successful connections

    /** Mark an address good: move it to the tried table, or note the collision. */
    method MarkGood(s: Service, testBeforeEvict: bool, time: int) returns (moved: bool)
      requires Valid() && 0 < time
      modifies this`t, this`lastGood, this`collisions
      ensures Valid() && Follows(old(t), t) && old(collisions) <= collisions && (!testBeforeEvict ==> collisions == old(collisions))
      ensures lastGood == time && (s !in old(t).addr ==> !moved && t == old(t) && collisions == old(collisions))
      ensures s in old(t).addr ==> var n := old(t).addr[s];
        && n in old(t).info
        && (if moved then MovedToTried(place, old(t), t, n, Reached(old(t).info[n], time))
            else t == old(t).(info := old(t).info[n := Reached(old(t).info[n], time)]))
        && (moved <==> !old(t).info[n].inTried && !(testBeforeEvict && place.TriedSlot(s) in old(t).tried))
        && collisions == if !moved && !old(t).info[n].inTried && |old(collisions)| < TRIED_COLLISION_SIZE then old(collisions) + {n} else old(collisions)
      ensures moved ==> s in old(t).addr && s in t.addr && t.addr[s] == old(t).addr[s]
      ensures testBeforeEvict ==> forall slot :: slot in old(t).tried ==> slot in t.tried && t.tried[slot] == old(t).tried[slot]
    {
      lastGood := time;
      var found, n := Find(s);
      if !found {
        return false;
      }
      EntryFacts(place, t, {}, {}, n);
      SetStatistics(n, t.info[n].(lastSuccess := time, lastTry := time, attempts := 0));
      if t.info[n].inTried {
        return false;
      }
      var slot := place.TriedSlot(t.info[n].service);
      if testBeforeEvict && slot in t.tried {
        if |collisions| < TRIED_COLLISION_SIZE {
          EntryFacts(place, t, {}, {}, n);
          collisions := collisions + {n};
        }
        return false;
      }
      ghost var marked := t;
      MakeTried(n);
      StillPending(place, marked, t, collisions);
      IdFacts(place, t, {}, {}, n);
      MarkedThenMoved(place, old(t), marked, t, n, old(t).info[n], time);
      moved := true;
    }

    // ----- collisions in the tried table

    /** Decide one pending collision: keep waiting, drop it, or replace the old address. */
    method ResolveOne(n: Id, now: int) returns (erase: bool)
      requires Valid() && n in collisions && 0 < now
      modifies this`t, this`lastGood, this`collisions
      ensures Valid() && Follows(old(t), t) && collisions == old(collisions)
      ensures erase <==> Refused(place, old(t), n, now) || Wins(place, old(t), n, now)
      ensures ResolvedTo(place, old(t), t, n, now)
      ensures lastGood == if Wins(place, old(t), n, now) then now else old(lastGood)
    {
      if n !in t.info {
        return true;
      }
      IdFacts(place, t, {}, {}, n);
      var info := t.info[n];
      if !place.valid(info.service.addr) {
        return true;
      }
      var slot := place.TriedSlot(info.service);
      if slot in t.tried {
        TriedFacts(place, t, slot);
        var o := t.info[t.tried[slot]];
        if now - o.lastSuccess < REPLACEMENT {
          return true;
        } else if now - o.lastTry < REPLACEMENT {
          if now - o.lastTry > 60 {
            var _ := MarkGood(info.service, false, now);
            return true;
          }
        } else if now - info.lastSuccess > TEST_WINDOW {
          var _ := MarkGood(info.service, false, now);
          return true;
        }
        return false;
      } else {
        // The code would mark the address good; a pending collision never finds its slot empty.
        assert false;
      }
    }

    /** Go through the pending collisions, listed in `ids`, in order of id; `trail` keeps the tables before,
        between and after them. */
    method ResolveCollisions(now: int) returns (ghost ids: seq<Id>, ghost trail: seq<Tables>)
      requires Valid() && 0 < now
      modifies this`t, this`lastGood, this`collisions
      ensures Valid() && Follows(old(t), t) && collisions <= old(collisions)
      ensures InOrder(ids) && forall n :: n in ids <==> n in old(collisions)
      ensures |trail| == |ids| + 1 && trail[0] == old(t) && trail[|ids|] == t
      ensures forall i :: 0 <= i < |ids| ==> Resolved(place, trail, ids, now, collisions, t, i)
    {
      var todo := collisions;
      ids, trail := [], [t];
      while todo != {}
        invariant Valid() && Follows(old(t), t) && collisions <= old(collisions) && todo <= collisions
        invariant |trail| == |ids| + 1 && trail[0] == old(t) && trail[|ids|] == t
        invariant InOrder(ids) && Visited(ids, todo, old(collisions))
        invariant forall i :: 0 <= i < |ids| ==> Resolved(place, trail, ids, now, collisions, t, i)
        decreases |todo|
      {
        var n := First(todo);
        ghost var before, pending := t, collisions;
        var erase := ResolveOne(n, now);
        FollowsOn(old(t), before, t);
        if erase {
          Smaller(collisions, collisions - {n});
          collisions := collisions - {n};
        }
        OneMoreVisited(ids, todo, old(collisions), n);
        OneMoreResolved(place, trail, ids, now, pending, collisions, before, t, n);
        ids, trail, todo := ids + [n], trail + [t], todo - {n};
      }
    }

    /** The tried address that a pending collision would replace; the slot it stands in is never empty. */
    method SelectTriedCollision() returns (found: bool, o: Id)
      requires Valid()
      modifies this`collisions
      ensures Valid() && collisions <= old(collisions)
      ensures found ==> o in t.info && t.info[o].inTried && UpAgainst(place, t, collisions, o)
      ensures found ==> collisions == old(collisions)
      ensures !found && old(collisions) != {} ==> exists n :: n in old(collisions) && n !in t.info && collisions == old(collisions) - {n}
      ensures old(collisions) != {} && (forall n :: n in old(collisions) ==> n in t.info) ==> found
    {
      if collisions == {} {
        return false, 0;
      }
      var n :| n in collisions;
      if n !in t.info {
        Smaller(collisions, collisions - {n});
        collisions := collisions - {n};
        return false, 0;
      }
      var slot := place.TriedSlot(t.info[n].service);
      TriedFacts(place, t, slot);
      found, o := true, t.tried[slot];
    }

    /** Bring a random id from position `n` on to position `n`. */
    method Draw(n: nat)
      requires Valid() && n < |t.random|
      modifies this`t
      ensures Valid() && OnlyPlaces(old(t).info, t.info) && t == old(t).(info := t.info, random := t.random)
      ensures |t.random| == |old(t).random| && t.random[..n] == old(t).random[..n] && t.random[n] in t.info
    {
      var pos :| n <= pos < |t.random|;
      SwapRandom(n, pos, {}, {});
      StillPending(place, old(t), t, collisions);
      PositionFacts(place, t, n);
    }

    /** Go through a shuffled `vRandom` until enough addresses pass; `n` ids are gone through. */
    method Gather(nodes: nat, network: Option<nat>, filtered: bool, now: int) returns (out: seq<Address>, ghost n: nat)
      requires Valid()
      modifies this`t
      ensures Valid() && OnlyPlaces(old(t).info, t.info) && t == old(t).(info := t.info, random := t.random)
      ensures |t.random| == |old(t).random| && n <= |t.random| && |out| <= nodes && (n == |t.random| || |out| >= nodes)
      ensures out == Select(place, t.info, t.random[..n], network, filtered, now)
    {
      out := [];
      var k := 0;
      ghost var was := t;
      while k < |t.random| && |out| < nodes
        invariant k <= |t.random| == |was.random| && |out| <= nodes
        invariant Valid() && OnlyPlaces(was.info, t.info) && t == was.(info := t.info, random := t.random)
        invariant out == Select(place, t.info, t.random[..k], network, filtered, now)
        decreases |was.random| - k
      {
        ghost var before := t.info;
        Draw(k);
        SameSelection(place, before, t.info, t.random[..k], network, filtered, now);
        SelectStep(place, t.info, t.random, k, network, filtered, now);
        var x := t.info[t.random[k]];
        if Passes(place, x, network, filtered, now) {
          out := out + [Address(x.service, x.time, x.services)];
        }
        k := k + 1;
      }
      n := k;
    }

    /** Random addresses: a partial shuffle of `vRandom`, with bad entries skipped. */
    method GetAddr(maxAddresses: nat, maxPct: nat, network: Option<nat>, filtered: bool, now: int) returns (out: seq<Address>)
      requires Valid()
      modifies this`t
      ensures Valid() && OnlyPlaces(old(t).info, t.info) && t == old(t).(info := t.info, random := t.random)
      ensures |out| <= Wanted(|t.random|, maxAddresses, maxPct)
      ensures (maxAddresses != 0 ==> |out| <= maxAddresses) && (maxPct != 0 ==> 100 * |out| <= maxPct * |t.random|)
      ensures forall a :: a in out ==> HandedOut(place, t.info, network, filtered, now, a)
      ensures forall i, j :: 0 <= i < j < |out| ==> out[i].service != out[j].service
      ensures IsSelection(place, t.info, t.random, network, filtered, now, out, Wanted(|t.random|, maxAddresses, maxPct))
    {
      WantedBounds(|t.random|, maxAddresses, maxPct);
      ghost var n;
      out, n := Gather(Wanted(|t.random|, maxAddresses, maxPct), network, filtered, now);
      SelectMeaning(place, t.info, t.random[..n], network, filtered, now);
      SelectOnce(place, t, n, network, filtered, now);
    }

    ghost function Whole(): State
      reads this
    {
      State(t, lastGood, collisions)
    }

    method Do(op: Operation)
      requires Valid() && Legal(op)
      modifies this`t, this`lastGood, this`collisions
      ensures Valid() && Follows(old(t), t) && Effect(place, op, old(Whole()), Whole())
    {
      match op
      case Announce(a, source, penalty, now, lucky) => var _ := AddSingle(a, source, penalty, now, lucky);
      case Good(s, time) => var _ := MarkGood(s, true, time);
      case Try(s, countFailure, time) => Attempt(s, countFailure, time);
      case Disconnect(s, time) => Connected(s, time);
      case Offer(s, services) => SetServices(s, services);
      case Resolve(now) =>
        ghost var ids, trail := ResolveCollisions(now);
        assert Resolution(place, old(t), t, old(collisions), collisions, now, ids, trail);
      case SelectCollision => var _, _ := SelectTriedCollision();
      case Pick(maxAddresses, maxPct, network, filtered, now) =>
        var _ := GetAddr(maxAddresses, maxPct, network, filtered, now);
        SamePlaces(place, old(t), t);
    }

    /** Every run of operations keeps all tables in step and every occupied tried slot occupied; `states` are the
        states before, between and after them. */
    method Run(ops: seq<Operation>) returns (ghost states: seq<State>)
      requires Valid() && forall i :: 0 <= i < |ops| ==> Legal(ops[i])
      modifies this`t, this`lastGood, this`collisions
      ensures Valid() && Follows(old(t), t)
      ensures |states| == |ops| + 1 && states[0] == old(Whole()) && states[|ops|] == Whole()
      ensures forall i :: 0 <= i < |ops| ==> Effect(place, ops[i], states[i], states[i + 1])
    {
      states := [Whole()];
      for i := 0 to |ops|
        invariant Valid() && Follows(old(t), t)
        invariant |states| == i + 1 && states[0] == old(Whole()) && states[i] == Whole()
        invariant forall j :: 0 <= j < i ==> Effect(place, ops[j], states[j], states[j + 1])
      {
        ghost var before := t;
        Do(ops[i]);
        FollowsOn(old(t), before, t);
        states := states + [Whole()];
      }
    }
  }

  // ----- operations

  datatype Operation =
    | Announce(address: Address, source: NetAddr, timePenalty: int, now: int, lucky: bool)
    | Good(service: Service, time: int)
    | Try(service: Service, countFailure: bool, time: int)
    | Disconnect(service: Service, time: int)
    | Offer(service: Service, services: set<nat>)
    | Resolve(now: int)
    | SelectCollision
    | Pick(maxAddresses: nat, maxPct: nat, network: Option<nat>, filtered: bool, now: int)

  datatype State = State(t: Tables, lastGood: int, collisions: set<Id>)

  /** All pending ids have been gone through, with the tables of `trail` in between. */
  ghost predicate Resolution(
    place: Placement, t: Tables, t': Tables, collisions: set<Id>, collisions': set<Id>, now: int, ids: seq<Id>, trail: seq<Tables>)
  {
    && collisions' <= collisions && InOrder(ids) && (forall n :: n in ids <==> n in collisions)
    && |trail| == |ids| + 1 && trail[0] == t && trail[|ids|] == t'
    && forall i :: 0 <= i < |ids| ==> Resolved(place, trail, ids, now, collisions', t', i)
  }

  /** What marking an address good does. */
  ghost predicate Marked(place: Placement, s: Service, time: int, a: State, b: State) {
    && b.lastGood == time
    && if s !in a.t.addr || a.t.addr[s] !in a.t.info then b.t == a.t && b.collisions == a.collisions
       else
         var n, x := a.t.addr[s], Reached(a.t.info[a.t.addr[s]], time);
         if x.inTried then b.t == a.t.(info := a.t.info[n := x]) && b.collisions == a.collisions
         else if place.TriedSlot(s) !in a.t.tried then MovedToTried(place, a.t, b.t, n, x) && b.collisions == a.collisions
         else
           && b.t == a.t.(info := a.t.info[n := x])
           && b.collisions == if |a.collisions| < TRIED_COLLISION_SIZE then a.collisions + {n} else a.collisions
  }

  /** The entry of a known address is replaced by `x`; nothing else happens. */
  ghost predicate OneEntry(s: Service, f: AddrInfo -> AddrInfo, a: State, b: State) {
    && b.lastGood == a.lastGood && b.collisions == a.collisions
    && b.t == if s in a.t.addr && a.t.addr[s] in a.t.info
              then a.t.(info := a.t.info[a.t.addr[s] := f(a.t.info[a.t.addr[s]])]) else a.t
  }

  /** What an operation does to the whole state. */
  ghost predicate Effect(place: Placement, op: Operation, a: State, b: State) {
    match op
    case Announce(x, source, timePenalty, now, lucky) =>
      var penalty := Penalty(x, source, timePenalty);
      && b.lastGood == a.lastGood && b.collisions == a.collisions && b.t.tried == a.t.tried
      && if Welcome(place, a.t, x, source, penalty, now, lucky)
         then Listed(place, a.t, b.t, x.service, source) && Entered(a.t, b.t, x, source, penalty, now)
         else Unmoved(place, a.t, b.t, x, penalty, now)
    case Good(s, time) => Marked(place, s, time, a, b)
    case Try(s, countFailure, time) =>
      OneEntry(s, (x: AddrInfo) => Tried(x, countFailure && x.lastCountAttempt < a.lastGood, time), a, b)
    case Disconnect(s, time) => OneEntry(s, (x: AddrInfo) => if time - x.time > 20 * 60 then x.(time := time) else x, a, b)
    case Offer(s, services) => OneEntry(s, (x: AddrInfo) => x.(services := services), a, b)
    case Resolve(now) => exists ids, trail :: Resolution(place, a.t, b.t, a.collisions, b.collisions, now, ids, trail)
    case SelectCollision =>
      && b.t == a.t && b.lastGood == a.lastGood
      && (b.collisions == a.collisions || exists n :: n in a.collisions && n !in a.t.info && b.collisions == a.collisions - {n})
    case Pick(_, _, _, _, _) =>
      && OnlyPlaces(a.t.info, b.t.info) && b.t == a.t.(info := b.t.info, random := b.t.random)
      && b.lastGood == a.lastGood && b.collisions == a.collisions
  }

  /** Times of connections lie after the epoch. */
  predicate Legal(op: Operation) {
    match op
    case Good(_, time) => 0 < time
    case Try(_, _, time) => 0 <= time
    case Resolve(now) => 0 < now
    case _ => true
  }

  // ----- what GetAddr selects

  function Min(x: nat, y: nat): nat {
    if x < y then x else y
  }

  /** How many addresses are asked for; 0 stands for no limit. */
  function Wanted(size: nat, maxAddresses: nat, maxPct: nat): nat {
    var some := if maxPct != 0 then Min(maxPct, 100) * size / 100 else size;
    if maxAddresses != 0 then Min(some, maxAddresses) else some
  }

  /** The number wanted is within all limits, and the largest that is. */
  lemma {:induction false} WantedBounds(size: nat, maxAddresses: nat, maxPct: nat)
    ensures Within(Wanted(size, maxAddresses, maxPct), size, maxAddresses, maxPct)
    ensures forall w: nat :: Within(w, size, maxAddresses, maxPct) ==> w <= Wanted(size, maxAddresses, maxPct)
    ensures maxPct != 0 ==> 100 * Wanted(size, maxAddresses, maxPct) <= maxPct * size
  {
    var pct := Min(maxPct, 100);
    AtMostProduct(pct, 100, size);
    AtMostProduct(pct, maxPct, size);
  }

  ghost predicate Within(w: nat, size: nat, maxAddresses: nat, maxPct: nat) {
    w <= size && (maxAddresses != 0 ==> w <= maxAddresses) && (maxPct != 0 ==> 100 * w <= Min(maxPct, 100) * size)
  }

  lemma {:induction false} AtMostProduct(x: nat, y: nat, z: nat)
    requires x <= y
    ensures x * z <= y * z
  {
  }

  predicate Passes(place: Placement, x: AddrInfo, network: Option<nat>, filtered: bool, now: int) {
    && (network.Some? ==> place.netClass(x.service.addr) == network.value)
    && !(IsTerrible(x, now) && filtered)
  }

  /** The addresses of the listed ids that pass, in order. */
  ghost function Select(place: Placement, info: Infos, ids: seq<Id>, network: Option<nat>, filtered: bool, now: int): seq<Address> {
    if ids == [] then []
    else
      var n := ids[|ids| - 1];
      var rest := Select(place, info, ids[..|ids| - 1], network, filtered, now);
      if n in info && Passes(place, info[n], network, filtered, now)
      then rest + [Address(info[n].service, info[n].time, info[n].services)] else rest
  }

  /** All that pass among the first ids of `vRandom`, up to the number wanted or the end. */
  ghost predicate IsSelection(
    place: Placement, info: Infos, random: seq<Id>, network: Option<nat>, filtered: bool, now: int, out: seq<Address>, wanted: nat)
  {
    exists n {:trigger random[..n]} :: 0 <= n <= |random|
      && out == Select(place, info, random[..n], network, filtered, now) && (n == |random| || |out| >= wanted)
  }

  /** An address as its entry has it, of the asked network, and not a terrible one if those are left out. */
  ghost predicate HandedOut(place: Placement, info: Infos, network: Option<nat>, filtered: bool, now: int, a: Address) {
    && (network.Some? ==> place.netClass(a.service.addr) == network.value)
    && exists n :: n in info && a == Address(info[n].service, info[n].time, info[n].services) && (filtered ==> !Terrible(info[n], now))
  }

  lemma {:induction false} SelectMeaning(place: Placement, info: Infos, ids: seq<Id>, network: Option<nat>, filtered: bool, now: int)
    ensures forall a :: a in Select(place, info, ids, network, filtered, now) ==> HandedOut(place, info, network, filtered, now, a)
  {
    if ids != [] {
      var n := ids[|ids| - 1];
      SelectMeaning(place, info, ids[..|ids| - 1], network, filtered, now);
      if n in info {
        TerribleMeans(info[n], now);
      }
      if n in info && Passes(place, info[n], network, filtered, now) {
        assert HandedOut(place, info, network, filtered, now, Address(info[n].service, info[n].time, info[n].services));
      }
    }
  }

  /** An address of the selection belongs to one of the ids gone through. */
  lemma {:induction false} SelectFrom(
    place: Placement, info: Infos, ids: seq<Id>, network: Option<nat>, filtered: bool, now: int, a: Address) returns (k: nat)
    requires a in Select(place, info, ids, network, filtered, now)
    ensures k < |ids| && ids[k] in info && a.service == info[ids[k]].service
  {
    k := |ids| - 1;
    if a in Select(place, info, ids[..k], network, filtered, now) {
      k := SelectFrom(place, info, ids[..k], network, filtered, now, a);
    }
  }

  /** No address is handed out twice. */
  lemma {:induction false} SelectOnce(place: Placement, t: Tables, n: nat, network: Option<nat>, filtered: bool, now: int)
    requires InStep(place, t, {}, {}) && n <= |t.random|
    ensures var out := Select(place, t.info, t.random[..n], network, filtered, now);
      forall i, j :: 0 <= i < j < |out| ==> out[i].service != out[j].service
  {
    if 0 < n {
      SelectOnce(place, t, n - 1, network, filtered, now);
      PositionFacts(place, t, n - 1);
      SelectStep(place, t.info, t.random, n - 1, network, filtered, now);
      var before := Select(place, t.info, t.random[..n - 1], network, filtered, now);
      forall i | 0 <= i < |before| ensures before[i].service != t.info[t.random[n - 1]].service {
        var k := SelectFrom(place, t.info, t.random[..n - 1], network, filtered, now, before[i]);
        PositionsDiffer(place, t, k, n - 1);
      }
    }
  }

  lemma {:induction false} PositionsDiffer(place: Placement, t: Tables, i: nat, j: nat)
    requires InStep(place, t, {}, {}) && i < j < |t.random|
    ensures t.random[i] in t.info && t.random[j] in t.info && t.info[t.random[i]].service != t.info[t.random[j]].service
  {
    assert Unfold(true);
    assert PlacedAt(t.info, t.random, i) && PlacedAt(t.info, t.random, j);
    assert Mapped(t.info, t.addr, t.random[i]) && Mapped(t.info, t.addr, t.random[j]);
  }

  lemma {:induction false} SameSelection(
    place: Placement, info: Infos, info': Infos, ids: seq<Id>, network: Option<nat>, filtered: bool, now: int)
    requires OnlyPlaces(info, info')
    ensures Select(place, info', ids, network, filtered, now) == Select(place, info, ids, network, filtered, now)
  {
    if ids != [] {
      SameSelection(place, info, info', ids[..|ids| - 1], network, filtered, now);
      assert ids[|ids| - 1] in info <==> ids[|ids| - 1] in info'.Keys;
    }
  }

  lemma {:induction false} SelectStep(
    place: Placement, info: Infos, random: seq<Id>, n: nat, network: Option<nat>, filtered: bool, now: int)
    requires n < |random| && random[n] in info
    ensures var x := info[random[n]];
      Select(place, info, random[..n + 1], network, filtered, now) == Select(place, info, random[..n], network, filtered, now)
        + if Passes(place, x, network, filtered, now) then [Address(x.service, x.time, x.services)] else []
  {
    assert random[..n + 1][..n] == random[..n];
  }

  lemma {:induction false} PositionFacts(place: Placement, t: Tables, i: nat)
    requires InStep(place, t, {}, {}) && i < |t.random|
    ensures t.random[i] in t.info
  {
    assert Unfold(true);
    assert PlacedAt(t.info, t.random, i);
  }

  // ----- lemmas

  /** What an attempt to connect changes. */
  function Tried(x: AddrInfo, counts: bool, time: int): AddrInfo {
    var y := x.(lastTry := time);
    if counts then y.(lastCountAttempt := time, attempts := x.attempts + 1) else y
  }

  /** What a successful connection changes: not the time, which would show who is connected. */
  function Reached(x: AddrInfo, time: int): AddrInfo {
    x.(lastSuccess := time, lastTry := time, attempts := 0)
  }

  lemma {:induction false} MarkedThenMoved(place: Placement, t: Tables, t1: Tables, t2: Tables, n: Id, x: AddrInfo, time: int)
    requires InStep(place, t, {}, {}) && n in t.info && t.info[n] == x && !x.inTried
    requires t1 == t.(info := t.info[n := Reached(x, time)]) && MovedToTried(place, t1, t2, n, Reached(x, time))
    ensures MovedToTried(place, t, t2, n, Reached(x, time))
  {
    var s := place.TriedSlot(x.service);
    if s in t.tried {
      TriedFacts(place, t, s);
    }
  }

  /** What a new announcement of a known address changes: the time, only forward and by more than an hour, and
      the services, which it adds. */
  function Refreshed(x: AddrInfo, a: Address, penalty: int, now: int): (r: AddrInfo)
    ensures r.time == x.time || r.time > x.time + 3600
    ensures r == x.(time := r.time, services := x.services + a.services)
  {
    var interval := if now - a.time < 24 * 3600 then 3600 else 24 * 3600;
    x.(time := if x.time < a.time - interval - penalty then Max(0, a.time - penalty) else x.time,
       services := x.services + a.services)
  }

  lemma {:induction false} OwnCount(place: Placement, t: Tables, n: Id)
    requires InStep(place, t, {}, {n}) && n in t.info && t.info[n].refCount != 0
    ensures 0 < t.info[n].refCount
  {
    assert Unfold(true);
    assert RefCountOk(t.info, t.news, n);
  }

  /** The new slots of all other entries. */
  function WithoutId(news: map<Slot, Id>, n: Id): map<Slot, Id> {
    map s | s in news && news[s] != n :: news[s]
  }

  /** Only slots of `n` have been cleared. */
  ghost predicate OnlyGone(news: map<Slot, Id>, news': map<Slot, Id>, n: Id) {
    && (forall s :: s in news' ==> s in news && news'[s] == news[s])
    && (forall s :: s in news && news[s] != n ==> s in news')
  }

  lemma {:induction false} AllGone(place: Placement, news: map<Slot, Id>, t: Tables, n: Id)
    requires InStep(place, t, {}, {n}) && n in t.info && t.info[n].refCount == 0 && OnlyGone(news, t.news, n)
    ensures t.news == WithoutId(news, n)
  {
    assert Unfold(true);
    assert RefCountOk(t.info, t.news, n);
    forall s | s in t.news ensures t.news[s] != n {
      assert t.news[s] == n ==> s in SlotsOf(t.news, n);
    }
  }

  /** Bucket number `k` from `start` on does not hold the entry. */
  ghost predicate LeftBucket(place: Placement, news: map<Slot, Id>, a: Service, n: Id, start: nat, k: nat) {
    var s := place.NewSlot(a, (start + k) % NEW_BUCKET_COUNT); s in news ==> news[s] != n
  }

  /** The first `i` buckets from `start` on do not hold the entry. */
  ghost predicate AwayFrom(place: Placement, news: map<Slot, Id>, a: Service, n: Id, start: nat, i: nat) {
    forall k {:trigger LeftBucket(place, news, a, n, start, k)} :: 0 <= k < i ==> LeftBucket(place, news, a, n, start, k)
  }

  lemma {:induction false} AwayFromMore(place: Placement, news: map<Slot, Id>, a: Service, n: Id, start: nat, i: nat, s: Slot)
    requires AwayFrom(place, news, a, n, start, i)
    ensures AwayFrom(place, news - {s}, a, n, start, i)
  {
    forall k | 0 <= k < i ensures LeftBucket(place, news - {s}, a, n, start, k) {
      assert LeftBucket(place, news, a, n, start, k);
    }
  }

  lemma {:induction false} AwayFromNext(place: Placement, news: map<Slot, Id>, a: Service, n: Id, start: nat, i: nat)
    requires AwayFrom(place, news, a, n, start, i) && LeftBucket(place, news, a, n, start, i)
    ensures AwayFrom(place, news, a, n, start, i + 1)
  {
  }

  lemma {:induction false} AllBucketsLeft(place: Placement, t: Tables, n: Id, start: nat)
    requires InStep(place, t, {}, {n}) && n in t.info
    requires AwayFrom(place, t.news, t.info[n].service, n, start, NEW_BUCKET_COUNT)
    ensures t.info[n].refCount == 0
  {
    assert Unfold(true);
    forall s | s in t.news ensures t.news[s] != n {
      assert NewSlotOk(place, t.info, t.news, s);
      var k := (s.bucket - start) % NEW_BUCKET_COUNT;
      assert (start + k) % NEW_BUCKET_COUNT == s.bucket;
      assert LeftBucket(place, t.news, t.info[n].service, n, start, k);
    }
    assert SlotsOf(t.news, n) == {};
    assert RefCountOk(t.info, t.news, n);
  }

  /** Entries in limbo are in no new slot. */
  lemma {:induction false} LimboSlotless(place: Placement, t: Tables, limbo: set<Id>, s: Slot)
    requires InStep(place, t, limbo, {})
    ensures s in t.news ==> t.news[s] !in limbo
  {
    assert Unfold(true);
    if s in t.news {
      ClearedSlot(place, t, limbo, {}, s);
    }
  }

  lemma {:induction false} EvictedAddresses(info: Infos, o: Id, cleared: Infos, refs: int)
    requires o in info && o in cleared && Shrinks(info[o := info[o].(inTried := false)], cleared)
    ensures SameAddresses(info, cleared[o := cleared[o].(refCount := refs)])
  {
  }

  lemma {:induction false} EvictedKeeps(info: Infos, o: Id, cleared: Infos, refs: int)
    requires o in info && o in cleared && Shrinks(info[o := info[o].(inTried := false)], cleared)
    ensures Keeps(info, cleared[o := cleared[o].(refCount := refs)], {o})
    ensures Core(cleared[o]) == Core(info[o]).(inTried := false)
  {
  }

  lemma {:induction false} ReferredKeeps(info: Infos, info': Infos, n: Id, refs: int)
    requires Shrinks(info, info') && n in info'
    ensures Keeps(info, info'[n := info'[n].(refCount := refs)], {})
    ensures SameAddresses(info, info'[n := info'[n].(refCount := refs)])
  {
  }

  /** The entry stands in its tried slot as `x`; what stood there before is back in the new table. */
  ghost predicate MovedToTried(place: Placement, t: Tables, t': Tables, n: Id, x: AddrInfo) {
    var s := place.TriedSlot(x.service);
    && n in t'.info && Core(t'.info[n]) == Core(x).(inTried := true) && t'.tried == t.tried[s := n]
    && if s in t.tried then BackInNew(place, t, t', t.tried[s], WithoutId(t.news, n)) && Keeps(t.info, t'.info, {n, t.tried[s]})
       else t'.news == WithoutId(t.news, n) && Keeps(t.info, t'.info, {n})
  }

  lemma {:induction false} Refill(news: map<Slot, Id>, s: Slot, n: Id)
    ensures (news - {s})[s := n] == news[s := n]
  {
  }

  /** An address evicted from the tried table stands in one new slot, the one its source gives it,
      whose former holder has lost it. */
  ghost predicate BackInNew(place: Placement, t: Tables, t': Tables, o: Id, news: map<Slot, Id>) {
    && o in t.info && o in t'.info && Core(t'.info[o]) == Core(t.info[o]).(inTried := false) && t'.info[o].refCount == 1
    && var x := t.info[o]; t'.news == news[place.NewSlot(x.service, place.NewBucket(x.service, x.source)) := o]
  }

  /** Pending ids are old, and each is gone or up against an occupied tried slot. */
  ghost predicate Pending(place: Placement, t: Tables, collisions: set<Id>) {
    forall n :: n in collisions ==> n < t.idCount && (n in t.info ==> place.TriedSlot(t.info[n].service) in t.tried)
  }

  /** The address in the slot has not been reached for a while, and has either failed a recent
      test or not been tested during the whole test window. */
  ghost predicate Beaten(place: Placement, t: Tables, n: Id, now: int)
    requires n in t.info
  {
    var s := place.TriedSlot(t.info[n].service);
    && s in t.tried && t.tried[s] in t.info
    && var o := t.info[t.tried[s]];
    && now - o.lastSuccess >= REPLACEMENT
    && if now - o.lastTry < REPLACEMENT then now - o.lastTry > 60 else now - t.info[n].lastSuccess > TEST_WINDOW
  }

  /** The opponent has been reached within the last four hours. */
  ghost predicate OpponentReached(place: Placement, t: Tables, n: Id, now: int)
    requires n in t.info
  {
    var s := place.TriedSlot(t.info[n].service);
    s in t.tried && t.tried[s] in t.info && now - t.info[t.tried[s]].lastSuccess < 4 * 3600
  }

  /** A pending id is dropped: it is gone or no longer valid, or its opponent is alive. */
  ghost predicate Refused(place: Placement, t: Tables, n: Id, now: int) {
    n !in t.info || !place.valid(t.info[n].service.addr) || OpponentReached(place, t, n, now)
  }

  /** A pending id takes the slot. */
  ghost predicate Wins(place: Placement, t: Tables, n: Id, now: int) {
    n in t.info && place.valid(t.info[n].service.addr) && Beaten(place, t, n, now)
  }

  /** The tables after one pending id has been decided, or not. */
  ghost predicate ResolvedTo(place: Placement, t: Tables, t': Tables, n: Id, now: int) {
    if !Wins(place, t, n, now) then t' == t
    else if t.info[n].inTried then t' == t.(info := t.info[n := Reached(t.info[n], now)])
    else MovedToTried(place, t, t', n, Reached(t.info[n], now))
  }

  /** The id stands in its tried slot as an address reached at `now`. */
  ghost predicate Stands(place: Placement, t: Tables, n: Id, now: int) {
    && n in t.info && t.info[n].inTried && t.info[n].lastSuccess == now
    && var s := place.TriedSlot(t.info[n].service); s in t.tried && t.tried[s] == n
  }

  /** A pending id at its turn: undecided it stays pending; refused it goes; and if it wins, it goes and still
      stands in its slot at the end, in `t`. */
  ghost predicate Resolved(
    place: Placement, trail: seq<Tables>, ids: seq<Id>, now: int, collisions: set<Id>, t: Tables, i: nat)
  {
    && i < |ids| && i + 1 < |trail| && ResolvedTo(place, trail[i], trail[i + 1], ids[i], now)
    && (ids[i] !in collisions <==> Refused(place, trail[i], ids[i], now) || Wins(place, trail[i], ids[i], now))
    && (Wins(place, trail[i], ids[i], now) ==> Stands(place, t, ids[i], now))
  }

  ghost predicate InOrder(ids: seq<Id>) {
    forall i, j :: 0 <= i < j < |ids| ==> ids[i] < ids[j]
  }

  /** All of `all` but `todo` have been visited, and they come first. */
  ghost predicate Visited(ids: seq<Id>, todo: set<Id>, all: set<Id>) {
    && todo <= all && (forall n :: n in ids <==> n in all && n !in todo)
    && (forall i, n :: 0 <= i < |ids| && n in todo ==> ids[i] < n)
  }

  lemma {:induction false} OneMoreVisited(ids: seq<Id>, todo: set<Id>, all: set<Id>, n: Id)
    requires InOrder(ids) && Visited(ids, todo, all) && n in todo && forall m :: m in todo ==> n <= m
    ensures InOrder(ids + [n]) && Visited(ids + [n], todo - {n}, all) && n !in ids
  {
  }

  /** The winner of a slot stands there as just reached. */
  lemma {:induction false} WinnerStands(place: Placement, t: Tables, t': Tables, n: Id, now: int)
    requires InStep(place, t, {}, {}) && Wins(place, t, n, now) && ResolvedTo(place, t, t', n, now)
    ensures Stands(place, t', n, now)
  {
    assert Unfold(true);
    assert TriedEntryOk(place, t.info, t.tried, n);
  }

  /** Whoever stands in a slot as just reached keeps it. */
  lemma {:induction false} StillStands(place: Placement, t: Tables, t': Tables, n: Id, now: int, m: Id)
    requires InStep(place, t, {}, {}) && InStep(place, t', {}, {}) && ResolvedTo(place, t, t', n, now) && Stands(place, t, m, now)
    ensures Stands(place, t', m, now)
  {
    if Wins(place, t, n, now) {
      var s, u := place.TriedSlot(t.info[n].service), place.TriedSlot(t.info[m].service);
      assert t.tried[s] != m && s != u;
      if !t.info[n].inTried {
        TriedFacts(place, t', u);
      }
    }
  }

  lemma {:induction false} OneMoreResolved(
    place: Placement, trail: seq<Tables>, ids: seq<Id>, now: int, collisions: set<Id>, collisions': set<Id>,
    t: Tables, t': Tables, n: Id)
    requires |trail| == |ids| + 1 && trail[|ids|] == t && InStep(place, t, {}, {}) && InStep(place, t', {}, {})
    requires ResolvedTo(place, t, t', n, now) && n !in ids && n in collisions
    requires collisions' == if Refused(place, t, n, now) || Wins(place, t, n, now) then collisions - {n} else collisions
    requires forall i :: 0 <= i < |ids| ==> Resolved(place, trail, ids, now, collisions, t, i)
    ensures forall i :: 0 <= i < |ids + [n]| ==> Resolved(place, trail + [t'], ids + [n], now, collisions', t', i)
  {
    var trail', ids' := trail + [t'], ids + [n];
    forall i | 0 <= i < |ids'| ensures Resolved(place, trail', ids', now, collisions', t', i) {
      assert trail'[i] == trail[i];
      if i < |ids| {
        assert Resolved(place, trail, ids, now, collisions, t, i);
        assert trail'[i + 1] == trail[i + 1] && ids'[i] == ids[i] && ids[i] in ids;
        if Wins(place, trail[i], ids[i], now) {
          StillStands(place, t, t', n, now, ids[i]);
        }
      } else if Wins(place, t, n, now) {
        WinnerStands(place, t, t', n, now);
      }
    }
  }

  /** Some pending address belongs into the tried slot of `o`. */
  ghost predicate UpAgainst(place: Placement, t: Tables, collisions: set<Id>, o: Id)
    requires o in t.info
  {
    exists n :: n in collisions && n in t.info && place.TriedSlot(t.info[n].service) == place.TriedSlot(t.info[o].service)
  }

  /** Old ids keep their addresses and tried slots stay occupied. */
  ghost predicate Follows(t: Tables, t': Tables) {
    && t.idCount <= t'.idCount && t.tried.Keys <= t'.tried.Keys
    && forall n :: n in t'.info && n < t.idCount ==> n in t.info && t'.info[n].service == t.info[n].service
  }

  lemma {:induction false} StillPending(place: Placement, t: Tables, t': Tables, collisions: set<Id>)
    requires Pending(place, t, collisions) && Follows(t, t')
    ensures Pending(place, t', collisions)
  {
    forall n | n in collisions && n in t'.info ensures place.TriedSlot(t'.info[n].service) in t'.tried {
      assert place.TriedSlot(t.info[n].service) in t.tried.Keys;
    }
  }

  // ----- what an announcement does

  function Penalty(a: Address, source: NetAddr, timePenalty: int): int {
    if a.service.addr == source then 0 else timePenalty
  }

  /** The slot is free, or another entry stands there that is terrible, or that has other slots while
      the newcomer has none. */
  ghost predicate Yields(info: Infos, news: map<Slot, Id>, s: Slot, n: Id, refCount: int, now: int) {
    s in news ==>
      && news[s] != n && news[s] in info
      && (Terrible(info[news[s]], now) || (1 < info[news[s]].refCount && refCount == 0))
  }

  /** The entry of an announced address, before it gets a slot. */
  ghost function Announced(t: Tables, a: Address, source: NetAddr, penalty: int, now: int): AddrInfo {
    if a.service in t.addr && t.addr[a.service] in t.info then Refreshed(t.info[t.addr[a.service]], a, penalty, now)
    else AddrInfo(a.service, Max(0, a.time - penalty), a.services, source, 0, 0, 0, 0, 0, false, |t.random|)
  }

  /** Whether an announced address gets a slot: it is routable; it is unknown, or the news is newer than what
      is known, it is not tried, has fewer than eight slots, and has none or is lucky; and its slot yields. */
  ghost predicate Welcome(place: Placement, t: Tables, a: Address, source: NetAddr, penalty: int, now: int, lucky: bool) {
    var x, s := Announced(t, a, source, penalty, now), place.NewSlot(a.service, place.NewBucket(a.service, source));
    && place.routable(a.service.addr)
    && (a.service in t.addr ==> x.time < a.time && !x.inTried && x.refCount < NEW_BUCKETS_PER_ADDRESS && (x.refCount == 0 || lucky))
    && Yields(t.info, t.news, s, if a.service in t.addr then t.addr[a.service] else t.idCount, x.refCount, now)
  }

  /** The address has its entry, with one slot more, and all other entries are what they were. */
  ghost predicate Entered(t: Tables, t': Tables, a: Address, source: NetAddr, penalty: int, now: int) {
    && a.service in t'.addr && t'.addr[a.service] in t'.info
    && var n, x := t'.addr[a.service], Announced(t, a, source, penalty, now);
    && n == (if a.service in t.addr then t.addr[a.service] else t.idCount)
    && Core(t'.info[n]) == Core(x) && t'.info[n].refCount == x.refCount + 1 && Keeps(t.info, t'.info, {n})
  }

  /** No slot changed; at most the entry of a known address was refreshed. */
  ghost predicate Unmoved(place: Placement, t: Tables, t': Tables, a: Address, penalty: int, now: int) {
    && t'.news == t.news && Keeps(t.info, t'.info, if a.service in t.addr then {t.addr[a.service]} else {})
    && (!place.routable(a.service.addr) ==> t' == t)
    && (place.routable(a.service.addr) && a.service in t.addr ==>
          && t.addr[a.service] in t.info
          && t' == t.(info := t.info[t.addr[a.service] := Refreshed(t.info[t.addr[a.service]], a, penalty, now)]))
  }

  lemma {:induction false} KeepsAll(info: Infos)
    ensures Keeps(info, info, {})
  {
  }

  /** The tables after the announced address has been enrolled as `n`. */
  ghost predicate Enrolled(t: Tables, t': Tables, n: Id) {
    t'.news == t.news && n in t'.info && t'.info == t.info[n := t'.info[n]]
  }

  /** Another entry's slot looks the same after the announced address has been enrolled, and a known entry has slots. */
  lemma {:induction false} EnrolledFacts(place: Placement, t: Tables, t': Tables, n: Id, s: Slot, now: int)
    requires InStep(place, t, {}, {}) && Enrolled(t, t', n) && (n in t.info ==> t'.info[n].refCount == t.info[n].refCount)
    requires !t'.info[n].inTried && (n in t.info ==> !t.info[n].inTried)
    ensures Yields(t'.info, t'.news, s, n, t'.info[n].refCount, now) <==> Yields(t.info, t.news, s, n, t'.info[n].refCount, now)
    ensures n in t.info ==> t'.info[n].refCount != 0
  {
    assert Unfold(true);
    if s in t.news {
      assert NewSlotOk(place, t.info, t.news, s);
    }
    if n in t.info {
      assert EntryOk(t.info, {}, {}, n);
    }
  }

  lemma {:induction false} ListedFacts(
    t: Tables, t1: Tables, t2: Tables, n: Id, a: Address, source: NetAddr, penalty: int, now: int)
    requires Enrolled(t, t1, n) && n == (if a.service in t.addr then t.addr[a.service] else t.idCount)
    requires Core(t1.info[n]) == Core(Announced(t, a, source, penalty, now))
    requires t1.info[n].refCount == Announced(t, a, source, penalty, now).refCount
    requires n in t2.info && Keeps(t1.info, t2.info, {}) && t2.info[n].refCount == t1.info[n].refCount + 1
    requires a.service in t2.addr && t2.addr[a.service] == n
    ensures Entered(t, t2, a, source, penalty, now)
  {
  }

  lemma {:induction false} UnlistedFacts(
    place: Placement, t: Tables, t1: Tables, t2: Tables, n: Id, a: Address, penalty: int, now: int)
    requires Enrolled(t, t1, n) && place.routable(a.service.addr) && t2.news == t.news
    requires Keeps(t1.info, t2.info, {}) && (a.service !in t.addr ==> n !in t2.info)
    requires a.service in t.addr ==>
      && n == t.addr[a.service] && n in t.info && t2 == t1
      && t1 == t.(info := t.info[n := Refreshed(t.info[n], a, penalty, now)])
    ensures Unmoved(place, t, t2, a, penalty, now)
  {
  }

  /** The slot has come to hold the id. */
  ghost predicate NewlyAt(t: Tables, t': Tables, s: Slot, n: Id) {
    s in t'.news && t'.news[s] == n && !(s in t.news && t.news[s] == n)
  }

  /** The service has newly come to stand in the slot the source gives it, and nothing else moved. */
  ghost predicate Listed(place: Placement, t: Tables, t': Tables, a: Service, source: NetAddr) {
    && a in t'.addr
    && var s := place.NewSlot(a, place.NewBucket(a, source));
       t'.news == t.news[s := t'.addr[a]] && NewlyAt(t, t', s, t'.addr[a])
  }

  /** Address `i` of a batch was listed, between the tables before and after it. */
  ghost predicate ListedAt(place: Placement, history: seq<Tables>, addresses: seq<Address>, source: NetAddr, i: nat) {
    i < |addresses| && i + 1 < |history| && Listed(place, history[i], history[i + 1], addresses[i].service, source)
  }

  ghost predicate Unlisted(history: seq<Tables>, i: nat) {
    i + 1 < |history| && history[i + 1].news == history[i].news
  }

  /** Address `i` of a batch was listed if it was welcome, and changed no slot otherwise. */
  ghost predicate AdditionAt(
    place: Placement, history: seq<Tables>, addresses: seq<Address>, source: NetAddr, penalty: int, now: int, luck: seq<bool>, i: nat)
  {
    && i < |addresses| == |luck| && i + 1 < |history|
    && if Welcome(place, history[i], addresses[i], source, Penalty(addresses[i], source, penalty), now, luck[i])
       then ListedAt(place, history, addresses, source, i) else Unlisted(history, i)
  }

  /** What happened to the addresses of a batch; `added` says if any was listed. */
  ghost predicate Additions(
    place: Placement, history: seq<Tables>, addresses: seq<Address>, source: NetAddr, penalty: int, now: int, luck: seq<bool>, added: bool)
  {
    && |history| == |addresses| + 1
    && (forall i :: 0 <= i < |addresses| ==> AdditionAt(place, history, addresses, source, penalty, now, luck, i))
    && (added <==> exists i :: ListedAt(place, history, addresses, source, i))
  }

  lemma {:induction false} SameAddition(
    place: Placement, history: seq<Tables>, t: Tables, addresses: seq<Address>, i: nat, source: NetAddr, penalty: int, now: int,
    luck: seq<bool>, j: nat)
    requires j < i < |addresses| == |luck| && |history| == i + 1
    ensures ListedAt(place, history + [t], addresses[..i + 1], source, j) == ListedAt(place, history, addresses[..i], source, j)
    ensures AdditionAt(place, history + [t], addresses[..i + 1], source, penalty, now, luck[..i + 1], j)
         == AdditionAt(place, history, addresses[..i], source, penalty, now, luck[..i], j)
  {
    var h := history + [t];
    assert h[j] == history[j] && h[j + 1] == history[j + 1];
    assert addresses[..i + 1][j] == addresses[..i][j] && luck[..i + 1][j] == luck[..i][j];
  }

  lemma {:induction false} LastAddition(
    place: Placement, history: seq<Tables>, t: Tables, addresses: seq<Address>, i: nat, source: NetAddr, penalty: int, now: int,
    luck: seq<bool>, inserted: bool)
    requires i < |addresses| == |luck| && |history| == i + 1
    requires inserted <==> Welcome(place, history[i], addresses[i], source, Penalty(addresses[i], source, penalty), now, luck[i])
    requires if inserted then Listed(place, history[i], t, addresses[i].service, source) else t.news == history[i].news
    ensures AdditionAt(place, history + [t], addresses[..i + 1], source, penalty, now, luck[..i + 1], i)
    ensures ListedAt(place, history + [t], addresses[..i + 1], source, i) == inserted
  {
    var h := history + [t];
    assert h[i] == history[i] && h[i + 1] == t && addresses[..i + 1][i] == addresses[i] && luck[..i + 1][i] == luck[i];
  }

  lemma {:induction false} OneMoreAddition(
    place: Placement, history: seq<Tables>, t: Tables, addresses: seq<Address>, i: nat, source: NetAddr, penalty: int, now: int,
    luck: seq<bool>, added: bool, inserted: bool)
    requires i < |addresses| == |luck| && Additions(place, history, addresses[..i], source, penalty, now, luck[..i], added)
    requires inserted <==> Welcome(place, history[i], addresses[i], source, Penalty(addresses[i], source, penalty), now, luck[i])
    requires if inserted then Listed(place, history[i], t, addresses[i].service, source) else t.news == history[i].news
    ensures Additions(place, history + [t], addresses[..i + 1], source, penalty, now, luck[..i + 1], added || inserted)
  {
    var h, as_, ls := history + [t], addresses[..i + 1], luck[..i + 1];
    forall j: nat | j < i
      ensures AdditionAt(place, h, as_, source, penalty, now, ls, j)
      ensures ListedAt(place, h, as_, source, j) == ListedAt(place, history, addresses[..i], source, j)
    {
      SameAddition(place, history, t, addresses, i, source, penalty, now, luck, j);
      assert AdditionAt(place, history, addresses[..i], source, penalty, now, luck[..i], j);
    }
    LastAddition(place, history, t, addresses, i, source, penalty, now, luck, inserted);
    if added {
      var j: nat :| ListedAt(place, history, addresses[..i], source, j);
      assert ListedAt(place, h, as_, source, j);
    }
  }

  /** A batch so far, from the tables `t0` to `t`. */
  ghost predicate Batch(
    place: Placement, t0: Tables, t: Tables, history: seq<Tables>, addresses: seq<Address>, i: nat, source: NetAddr, penalty: int,
    now: int, luck: seq<bool>, added: bool)
  {
    && i <= |addresses| == |luck| && t.tried == t0.tried && Follows(t0, t) && (!added ==> t.news == t0.news)
    && |history| == i + 1 && history[0] == t0 && history[i] == t
    && Additions(place, history, addresses[..i], source, penalty, now, luck[..i], added)
  }

  lemma {:induction false} BatchStart(
    place: Placement, t: Tables, addresses: seq<Address>, source: NetAddr, penalty: int, now: int, luck: seq<bool>)
    requires |luck| == |addresses|
    ensures Batch(place, t, t, [t], addresses, 0, source, penalty, now, luck, false)
  {
  }

  lemma {:induction false} BatchEnd(
    place: Placement, t0: Tables, t: Tables, history: seq<Tables>, addresses: seq<Address>, source: NetAddr, penalty: int,
    now: int, luck: seq<bool>, added: bool)
    requires Batch(place, t0, t, history, addresses, |addresses|, source, penalty, now, luck, added)
    ensures Additions(place, history, addresses, source, penalty, now, luck, added)
  {
    assert addresses[..|addresses|] == addresses && luck[..|addresses|] == luck;
  }

  lemma {:induction false} BatchMore(
    place: Placement, t0: Tables, t: Tables, t': Tables, history: seq<Tables>, addresses: seq<Address>, i: nat, source: NetAddr,
    penalty: int, now: int, luck: seq<bool>, added: bool, inserted: bool)
    requires i < |addresses| == |luck|
    requires Batch(place, t0, t, history, addresses, i, source, penalty, now, luck, added)
    requires t'.tried == t.tried && Follows(t, t')
    requires inserted <==> Welcome(place, t, addresses[i], source, Penalty(addresses[i], source, penalty), now, luck[i])
    requires if inserted then Listed(place, t, t', addresses[i].service, source) else t'.news == t.news
    ensures Batch(place, t0, t', history + [t'], addresses, i + 1, source, penalty, now, luck, added || inserted)
  {
    FollowsOn(t0, t, t');
    OneMoreAddition(place, history, t', addresses, i, source, penalty, now, luck, added, inserted);
  }

  lemma {:induction false} RetimedOk(place: Placement, t: Tables, n: Id, time: int)
    requires InStep(place, t, {}, {n}) && n in t.info
    ensures InStep(place, t.(info := t.info[n := t.info[n].(time := time)]), {}, {n})
  {
    assert Unfold(true);
    var x := t.info[n].(time := time);
    KindredIndexes(t.info, t.addr, t.random, t.idCount, n, x);
    KindredNew(place, t.info, t.news, n, x);
    KindredTried(place, t.info, t.tried, n, x);
    KindredCounts(t.info, t.count, {}, n, x);
    var info' := t.info[n := x];
    forall m | m in info' ensures EntryOk(info', {}, {n}, m) {
      assert EntryOk(t.info, {}, {n}, m);
    }
  }

  lemma {:induction false} IdFacts(place: Placement, t: Tables, limbo: set<Id>, unlisted: set<Id>, n: Id)
    requires InStep(place, t, limbo, unlisted) && n in t.info
    ensures t.info[n].service in t.addr && t.addr[t.info[n].service] == n
  {
    assert Unfold(true);
    assert Mapped(t.info, t.addr, n);
  }

  lemma {:induction false} FollowsOn(t: Tables, t': Tables, t'': Tables)
    requires Follows(t, t') && Follows(t', t'')
    ensures Follows(t, t'')
  {
  }

  lemma {:induction false} Smaller(a: set<Id>, b: set<Id>)
    requires b <= a
    ensures |b| <= |a|
  {
    assert a == b + (a - b);
  }

  lemma {:induction false} TriedFacts(place: Placement, t: Tables, s: Slot)
    requires InStep(place, t, {}, {}) && s in t.tried
    ensures t.tried[s] in t.info && t.info[t.tried[s]].inTried && s == place.TriedSlot(t.info[t.tried[s]].service)
  {
    assert Unfold(true);
    assert TriedSlotOk(place, t.info, t.tried, s);
  }

  lemma {:induction false} SamePlaces(place: Placement, t: Tables, t': Tables)
    requires OnlyPlaces(t.info, t'.info) && t' == t.(info := t'.info, random := t'.random)
    ensures Follows(t, t')
  {
    assert forall n :: n in t'.info <==> n in t.info.Keys;
  }
}
