/**
 The stack of write-back caches over the coins database (`coins.cpp`, `coins.h`, `txdb.cpp`).

 Level 0 is the database; level `k > 0` is the cache whose base is level `k - 1`.  A cache
 entry is DIRTY when the base may hold something else, and FRESH when the base holds no
 unspent coin.  The list of flagged entries, which the cursor walks, is kept as a sequence.
*/
module Coins {
  import opened Common

  datatype OutPoint = OutPoint(hash: nat, n: nat)

  datatype Coin = Coin(value: int, script: seq<bv8>, height: nat, coinbase: bool)

  const OP_RETURN: bv8 := 0x6a
  const MAX_SCRIPT_SIZE := 10000

  predicate Unspendable(script: seq<bv8>) {
    (script != [] && script[0] == OP_RETURN) || |script| > MAX_SCRIPT_SIZE
  }

  /** A cached coin, `None` once it is spent, with its flags. */
  datatype Entry = Entry(coin: Option<Coin>, isDirty: bool, isFresh: bool) {
    predicate Flagged() {
      isDirty || isFresh
    }
  }

  /** A cache: its map and the outpoints of its flagged entries in list order. */
  datatype Level = Level(coins: map<OutPoint, Entry>, flagged: seq<OutPoint>)

  const EMPTY_CACHE := Level(map[], [])

  // ----- changes of one cache

  function Without(list: seq<OutPoint>, o: OutPoint): seq<OutPoint> {
    if list == [] then []
    else if list[0] == o then Without(list[1..], o)
    else [list[0]] + Without(list[1..], o)
  }

  lemma {:induction false} WithoutMeaning(list: seq<OutPoint>, o: OutPoint)
    ensures forall x :: x in Without(list, o) <==> x in list && x != o
    ensures NoDup(list) ==> NoDup(Without(list, o))
    ensures |Without(list, o)| <= |list|
  {
    if list != [] {
      WithoutMeaning(list[1..], o);
      if NoDup(list) {
        assert list[0] !in list[1..];
      }
      assert forall x :: x in list <==> x == list[0] || x in list[1..];
    }
  }

  /** Put an entry; it joins the list when it becomes flagged, and leaves it when it is clean. */
  function Put(l: Level, o: OutPoint, e: Entry): Level {
    var was := o in l.coins && l.coins[o].Flagged();
    Level(l.coins[o := e],
          if e.Flagged() then (if was then l.flagged else l.flagged + [o])
          else (if was then Without(l.flagged, o) else l.flagged))
  }

  function Erase(l: Level, o: OutPoint): Level {
    Level(l.coins - {o}, if o in l.coins && l.coins[o].Flagged() then Without(l.flagged, o) else l.flagged)
  }

  /** The list holds exactly the flagged entries, each once. */
  ghost predicate ListOk(l: Level) {
    && NoDup(l.flagged)
    && forall o :: o in l.flagged <==> o in l.coins && l.coins[o].Flagged()
  }

  lemma {:induction false} PutListOk(l: Level, o: OutPoint, e: Entry)
    requires ListOk(l)
    ensures ListOk(Put(l, o, e))
  {
    WithoutMeaning(l.flagged, o);
  }

  lemma {:induction false} EraseListOk(l: Level, o: OutPoint)
    requires ListOk(l)
    ensures ListOk(Erase(l, o))
  {
    WithoutMeaning(l.flagged, o);
  }

  // ----- the view of each level

  ghost function Lookup(db: map<OutPoint, Coin>, o: OutPoint): Option<Coin> {
    if o in db then Some(db[o]) else None
  }

  /** What a cache shows at `o` when its base shows `base`. */
  ghost function Through(l: Level, o: OutPoint, base: Option<Coin>): Option<Coin> {
    if o in l.coins then l.coins[o].coin else base
  }

  /** What level `k` shows at `o`. */
  ghost function View(db: map<OutPoint, Coin>, levels: seq<Level>, k: nat, o: OutPoint): Option<Coin>
    requires k <= |levels|
  {
    if k == 0 then Lookup(db, o) else Through(levels[k - 1], o, View(db, levels, k - 1, o))
  }

  /** An entry over a base that shows `base`: what its flags mean. */
  ghost predicate EntryOk(e: Entry, base: Option<Coin>) {
    && (e.isFresh ==> base.None? && e.coin.Some?)
    && (!e.isDirty ==> e.coin.Some? && base == e.coin)
  }

  /** All entries of a cache are in order over level `base`. */
  ghost predicate EntriesOk(l: Level, db: map<OutPoint, Coin>, levels: seq<Level>, base: nat)
    requires base <= |levels|
  {
    forall o :: o in l.coins ==> EntryOk(l.coins[o], View(db, levels, base, o))
  }

  ghost predicate LevelOk(db: map<OutPoint, Coin>, levels: seq<Level>, k: nat)
    requires 0 < k <= |levels|
  {
    ListOk(levels[k - 1]) && EntriesOk(levels[k - 1], db, levels, k - 1)
  }

  ghost predicate StackOk(db: map<OutPoint, Coin>, levels: seq<Level>) {
    forall k {:trigger LevelOk(db, levels, k)} :: 0 < k <= |levels| ==> LevelOk(db, levels, k)
  }

  ghost predicate SameViews(db: map<OutPoint, Coin>, levels: seq<Level>, db': map<OutPoint, Coin>, levels': seq<Level>) {
    && |levels| == |levels'|
    && forall k, o {:trigger View(db', levels', k, o)} :: 0 <= k <= |levels| ==>
         View(db', levels', k, o) == View(db, levels, k, o)
  }

  /** Levels that agree show the same above a level that shows the same. */
  lemma {:induction false} ViewAbove(
    db: map<OutPoint, Coin>, levels: seq<Level>, db': map<OutPoint, Coin>, levels': seq<Level>, j: nat, k: nat, o: OutPoint)
    requires j <= k <= |levels| == |levels'| && View(db, levels, j, o) == View(db', levels', j, o)
    requires forall i :: j <= i < k ==> levels[i] == levels'[i]
    ensures View(db, levels, k, o) == View(db', levels', k, o)
  {
    if j < k {
      ViewAbove(db, levels, db', levels', j, k - 1, o);
    }
  }

  lemma {:induction false} ViewBelow(db: map<OutPoint, Coin>, levels: seq<Level>, levels': seq<Level>, k: nat, o: OutPoint)
    requires k <= |levels| && k <= |levels'| && levels[..k] == levels'[..k]
    ensures View(db, levels, k, o) == View(db, levels', k, o)
  {
    if k > 0 {
      assert levels[k - 1] == levels[..k][k - 1] == levels'[k - 1];
      assert levels[..k - 1] == levels[..k][..k - 1] == levels'[..k - 1];
      ViewBelow(db, levels, levels', k - 1, o);
    }
  }

  /** Replacing the cache at level `k`: every other level shows what it did if level `k` does. */
  lemma {:induction false} ReplaceLevel(db: map<OutPoint, Coin>, levels: seq<Level>, k: nat, l: Level, j: nat, o: OutPoint)
    requires 0 < k <= |levels| && j <= |levels|
    requires j >= k ==> Through(l, o, View(db, levels, k - 1, o)) == View(db, levels, k, o)
    ensures View(db, levels[k - 1 := l], j, o) == View(db, levels, j, o)
  {
    var levels' := levels[k - 1 := l];
    if j < k {
      ViewBelow(db, levels, levels', j, o);
    } else {
      ViewBelow(db, levels, levels', k - 1, o);
      ViewAbove(db, levels, db, levels', k, j, o);
    }
  }

  /** A cache that shows the same as before, with entries in order, keeps the whole stack. */
  lemma {:induction false} SameLevel(db: map<OutPoint, Coin>, levels: seq<Level>, k: nat, l: Level)
    requires 0 < k <= |levels| && StackOk(db, levels) && ListOk(l)
    requires forall o :: Through(l, o, View(db, levels, k - 1, o)) == View(db, levels, k, o)
    requires EntriesOk(l, db, levels, k - 1)
    ensures StackOk(db, levels[k - 1 := l]) && SameViews(db, levels, db, levels[k - 1 := l])
  {
    var levels' := levels[k - 1 := l];
    forall j, o | 0 <= j <= |levels| ensures View(db, levels', j, o) == View(db, levels, j, o) {
      ReplaceLevel(db, levels, k, l, j, o);
    }
    forall j | 0 < j <= |levels| ensures LevelOk(db, levels', j) {
      assert LevelOk(db, levels, j);
    }
  }

  /** The top cache replaced: lower levels show what they did, and the new one alone decides if all is in order. */
  lemma {:induction false} TopLevel(db: map<OutPoint, Coin>, levels: seq<Level>, l: Level)
    requires levels != [] && StackOk(db, levels)
    ensures StackOk(db, levels[|levels| - 1 := l]) <==> ListOk(l) && EntriesOk(l, db, levels, |levels| - 1)
    ensures forall j, o {:trigger View(db, levels[|levels| - 1 := l], j, o)} :: 0 <= j < |levels| ==>
      View(db, levels[|levels| - 1 := l], j, o) == View(db, levels, j, o)
    ensures forall o {:trigger View(db, levels[|levels| - 1 := l], |levels|, o)} ::
      View(db, levels[|levels| - 1 := l], |levels|, o) == Through(l, o, View(db, levels, |levels| - 1, o))
  {
    var levels' := levels[|levels| - 1 := l];
    forall j, o | 0 <= j < |levels| ensures View(db, levels', j, o) == View(db, levels, j, o) {
      ReplaceLevel(db, levels, |levels|, l, j, o);
    }
    forall j | 0 < j < |levels| ensures LevelOk(db, levels', j) {
      assert LevelOk(db, levels, j);
    }
    assert LevelOk(db, levels', |levels|) <==> ListOk(l) && EntriesOk(l, db, levels, |levels| - 1);
  }

  // ----- reading through

  /** A clean copy of what the base shows changes no view. */
  lemma {:induction false} FetchedLevel(db: map<OutPoint, Coin>, levels: seq<Level>, k: nat, o: OutPoint, coin: Coin)
    requires 0 < k <= |levels| && StackOk(db, levels) && o !in levels[k - 1].coins
    requires View(db, levels, k - 1, o) == Some(coin)
    ensures var l := Put(levels[k - 1], o, Entry(Some(coin), false, false));
      StackOk(db, levels[k - 1 := l]) && SameViews(db, levels, db, levels[k - 1 := l])
  {
    assert LevelOk(db, levels, k);
    PutListOk(levels[k - 1], o, Entry(Some(coin), false, false));
    SameLevel(db, levels, k, Put(levels[k - 1], o, Entry(Some(coin), false, false)));
  }

  // ----- adding and spending

  /** The cache after adding a coin; without `overwrite` a coin that is not DIRTY becomes FRESH. */
  function WithCoin(l: Level, o: OutPoint, coin: Coin, overwrite: bool): Level {
    var was := if o in l.coins then l.coins[o] else Entry(None, false, false);
    Put(l, o, Entry(Some(coin), true, was.isFresh || (!overwrite && !was.isDirty)))
  }

  /** Adding keeps the entries in order exactly when a coin taken for new is new to the base. */
  lemma {:induction false} WithCoinOk(l: Level, o: OutPoint, coin: Coin, overwrite: bool, db: map<OutPoint, Coin>, levels: seq<Level>, base: nat)
    requires base <= |levels| && ListOk(l) && EntriesOk(l, db, levels, base)
    requires !overwrite && o in l.coins ==> l.coins[o].coin.None?
    ensures ListOk(WithCoin(l, o, coin, overwrite))
    ensures EntriesOk(WithCoin(l, o, coin, overwrite), db, levels, base)
       <==> (overwrite || o in l.coins || View(db, levels, base, o) == None)
  {
    var was := if o in l.coins then l.coins[o] else Entry(None, false, false);
    var e := Entry(Some(coin), true, was.isFresh || (!overwrite && !was.isDirty));
    PutListOk(l, o, e);
    assert WithCoin(l, o, coin, overwrite).coins[o] == e;
    if o in l.coins {
      assert EntryOk(l.coins[o], View(db, levels, base, o));
    }
  }

  /** The cache after spending: a FRESH coin disappears, any other stays as a spent DIRTY entry. */
  function WithoutCoin(l: Level, o: OutPoint): Level
    requires o in l.coins
  {
    if l.coins[o].isFresh then Erase(l, o) else Put(l, o, Entry(None, true, false))
  }

  lemma {:induction false} WithoutCoinOk(l: Level, o: OutPoint, db: map<OutPoint, Coin>, levels: seq<Level>, base: nat)
    requires base <= |levels| && ListOk(l) && EntriesOk(l, db, levels, base) && o in l.coins
    ensures ListOk(WithoutCoin(l, o)) && EntriesOk(WithoutCoin(l, o), db, levels, base)
    ensures Through(WithoutCoin(l, o), o, View(db, levels, base, o)) == None
    ensures forall p :: p != o ==> (p in WithoutCoin(l, o).coins <==> p in l.coins)
    ensures forall p :: p != o && p in l.coins ==> WithoutCoin(l, o).coins[p] == l.coins[p]
  {
    EraseListOk(l, o);
    PutListOk(l, o, Entry(None, true, false));
  }

  /** A coin wrongly taken for new comes back when it is spent. */
  lemma {:induction false} MisappliedFresh(l: Level, o: OutPoint, coin: Coin, base: Coin)
    requires o !in l.coins
    ensures var spent := WithoutCoin(WithCoin(l, o, coin, false), o);
      Through(spent, o, Some(base)) == Some(base)
  {
  }

  // ----- writing a cache to its base

  /** Write one flagged entry to a cache; `None` stands for the misapplied FRESH flag error. */
  function WriteEntry(l: Level, o: OutPoint, e: Entry): Option<Level> {
    if !e.isDirty then Some(l)
    else if o !in l.coins then
      if e.isFresh && e.coin.None? then Some(l) else Some(Put(l, o, Entry(e.coin, true, e.isFresh)))
    else
      var us := l.coins[o];
      if e.isFresh && us.coin.Some? then None
      else if us.isFresh && e.coin.None? then Some(Erase(l, o))
      else Some(Put(l, o, Entry(e.coin, true, us.isFresh)))
  }

  /** An entry in order is written without error, and then the base shows its coin. */
  lemma {:induction false} WriteEntryOk(l: Level, o: OutPoint, e: Entry, below: Option<Coin>)
    requires ListOk(l) && EntryOk(e, Through(l, o, below)) && (o in l.coins ==> EntryOk(l.coins[o], below))
    ensures WriteEntry(l, o, e).Some?
    ensures var l' := WriteEntry(l, o, e).value;
      && ListOk(l') && Through(l', o, below) == e.coin && (o in l'.coins ==> EntryOk(l'.coins[o], below))
      && (forall p :: p != o ==> (p in l'.coins <==> p in l.coins))
      && (forall p :: p != o && p in l.coins ==> l'.coins[p] == l.coins[p])
  {
    EraseListOk(l, o);
    PutListOk(l, o, Entry(e.coin, true, e.isFresh));
    PutListOk(l, o, Entry(e.coin, true, o in l.coins && l.coins[o].isFresh));
  }

  /** What is written to the database for one flagged entry. */
  function WriteCoin(db: map<OutPoint, Coin>, o: OutPoint, e: Entry): map<OutPoint, Coin> {
    if !e.isDirty then db
    else if e.coin.None? then db - {o}
    else db[o := e.coin.value]
  }

  /** After the cursor has passed an entry of a cache that is kept: spent ones go, others are clean. */
  function Passed(l: Level, o: OutPoint): Level
    requires o in l.coins
  {
    if l.coins[o].coin.None? then Erase(l, o) else Put(l, o, l.coins[o].(isDirty := false, isFresh := false))
  }

  // ----- the cursor over the flagged entries

  /** The child cache when the cursor has passed the entries in `done`. */
  ghost predicate CursorAt(child: Level, now: Level, done: set<OutPoint>, willErase: bool) {
    if willErase then now == child
    else
      && ListOk(now)
      && (forall o :: o in now.coins <==> o in child.coins && !(o in done && child.coins[o].coin.None?))
      && (forall o :: o in now.coins ==>
            now.coins[o] == if o in done then Entry(child.coins[o].coin, false, false) else child.coins[o])
  }

  ghost function FlaggedSet(l: Level): set<OutPoint> {
    set o | o in l.coins && l.coins[o].Flagged()
  }

  lemma {:induction false} PassedOk(l: Level, o: OutPoint)
    requires ListOk(l) && o in l.coins
    ensures ListOk(Passed(l, o))
    ensures o in Passed(l, o).coins <==> l.coins[o].coin.Some?
    ensures o in Passed(l, o).coins ==> Passed(l, o).coins[o] == Entry(l.coins[o].coin, false, false)
    ensures forall p :: p != o ==> (p in Passed(l, o).coins <==> p in l.coins)
    ensures forall p :: p != o && p in l.coins ==> Passed(l, o).coins[p] == l.coins[p]
  {
    EraseListOk(l, o);
    PutListOk(l, o, l.coins[o].(isDirty := false, isFresh := false));
  }

  lemma {:induction false} CursorStep(child: Level, now: Level, done: set<OutPoint>, o: OutPoint, willErase: bool)
    requires CursorAt(child, now, done, willErase) && o in child.coins && o !in done
    ensures o in now.coins && now.coins[o] == child.coins[o]
    ensures CursorAt(child, if willErase then now else Passed(now, o), done + {o}, willErase)
  {
    if !willErase {
      PassedOk(now, o);
    }
  }

  lemma {:induction false} NonEmpty(list: seq<OutPoint>)
    ensures list == [] || exists o :: o in list
  {
    if list != [] {
      assert list[0] in list;
    }
  }

  ghost function Walked(list: seq<OutPoint>, i: nat): set<OutPoint>
    requires i <= |list|
  {
    set o | o in list[..i]
  }

  /** Past the last entry nothing is flagged any more. */
  lemma {:induction false} CursorEnd(child: Level, now: Level)
    requires CursorAt(child, now, FlaggedSet(child), false)
    ensures now.flagged == []
    ensures forall o :: o in now.coins <==> o in child.coins && (child.coins[o].coin.Some? || !child.coins[o].Flagged())
    ensures forall o :: o in now.coins ==> now.coins[o] == Entry(child.coins[o].coin, false, false)
  {
    forall o | o in now.coins ensures now.coins[o] == Entry(child.coins[o].coin, false, false) {
      assert child.coins[o].Flagged() <==> o in FlaggedSet(child);
    }
    NonEmpty(now.flagged);
  }

  /** The list enumerates the flagged entries; each comes once. */
  lemma {:induction false} ListStep(l: Level, i: nat, done: set<OutPoint>)
    requires ListOk(l) && i <= |l.flagged| && done == Walked(l.flagged, i)
    ensures i == |l.flagged| ==> done == FlaggedSet(l)
    ensures i < |l.flagged| ==>
      && l.flagged[i] in l.coins && l.flagged[i] !in done
      && done + {l.flagged[i]} == Walked(l.flagged, i + 1)
  {
    if i < |l.flagged| {
      assert l.flagged[..i + 1] == l.flagged[..i] + [l.flagged[i]];
      assert l.flagged[i] in l.flagged;
    } else {
      assert l.flagged[..i] == l.flagged;
    }
  }

  /** The base when the entries in `done` have been written to it. */
  ghost predicate WrittenAt(child: Level, us: Level, now: Level, done: set<OutPoint>, below: OutPoint -> Option<Coin>) {
    && ListOk(now)
    && (forall o :: o in now.coins ==> EntryOk(now.coins[o], below(o)))
    && (forall o :: o in done ==> o in child.coins && Through(now, o, below(o)) == child.coins[o].coin)
    && (forall o :: o !in done ==> (o in now.coins <==> o in us.coins))
    && (forall o :: o !in done && o in us.coins ==> now.coins[o] == us.coins[o])
  }

  /** A cache over another cache over `below`. */
  ghost predicate Stacked(child: Level, us: Level, below: OutPoint -> Option<Coin>) {
    && ListOk(child) && ListOk(us)
    && (forall o :: o in us.coins ==> EntryOk(us.coins[o], below(o)))
    && (forall o :: o in child.coins ==> EntryOk(child.coins[o], Through(us, o, below(o))))
  }

  lemma {:induction false} WrittenStep(
    child: Level, us: Level, now: Level, done: set<OutPoint>, o: OutPoint, below: OutPoint -> Option<Coin>)
    requires Stacked(child, us, below) && o in child.coins && o !in done && WrittenAt(child, us, now, done, below)
    ensures var r := WriteEntry(now, o, child.coins[o]);
      r.Some? && WrittenAt(child, us, r.value, done + {o}, below)
  {
    assert Through(now, o, below(o)) == Through(us, o, below(o));
    WriteEntryOk(now, o, child.coins[o], below(o));
    var l := WriteEntry(now, o, child.coins[o]).value;
    forall p | p != o && p in child.coins ensures Through(l, p, below(p)) == Through(now, p, below(p)) {
    }
  }

  lemma {:induction false} WrittenEnd(child: Level, us: Level, now: Level, below: OutPoint -> Option<Coin>, o: OutPoint)
    requires Stacked(child, us, below) && WrittenAt(child, us, now, FlaggedSet(child), below)
    ensures Through(now, o, below(o)) == Through(child, o, Through(us, o, below(o)))
  {
    if o !in FlaggedSet(child) {
      assert Through(now, o, below(o)) == Through(us, o, below(o));
    }
  }

  /** Write the flagged entries of a child cache to its base cache: the base then shows what the
      child showed, and the error for a misapplied FRESH flag does not come up. */
  method BatchWrite(us: Level, child: Level, willErase: bool, ghost below: OutPoint -> Option<Coin>)
    returns (ok: bool, us': Level, child': Level)
    requires Stacked(child, us, below)
    ensures ok && ListOk(us') && (forall o :: o in us'.coins ==> EntryOk(us'.coins[o], below(o)))
    ensures forall o :: Through(us', o, below(o)) == Through(child, o, Through(us, o, below(o)))
    ensures CursorAt(child, child', FlaggedSet(child), willErase)
  {
    us', child' := us, child;
    var i := 0;
    ghost var done := {};
    while i < |child.flagged|
      invariant i <= |child.flagged| && done == Walked(child.flagged, i)
      invariant WrittenAt(child, us, us', done, below) && CursorAt(child, child', done, willErase)
    {
      var o := child.flagged[i];
      ListStep(child, i, done);
      WrittenStep(child, us, us', done, o, below);
      CursorStep(child, child', done, o, willErase);
      var written := WriteEntry(us', o, child'.coins[o]);
      if written.None? {
        return false, us', child';
      }
      us' := written.value;
      child' := if willErase then child' else Passed(child', o);
      done := done + {o};
      i := i + 1;
    }
    ListStep(child, i, done);
    forall o ensures Through(us', o, below(o)) == Through(child, o, Through(us, o, below(o))) {
      WrittenEnd(child, us, us', below, o);
    }
    ok := true;
  }

  ghost predicate StoredAt(child: Level, db: map<OutPoint, Coin>, now: map<OutPoint, Coin>, done: set<OutPoint>) {
    && (forall o :: o in done ==> o in child.coins && Lookup(now, o) == child.coins[o].coin)
    && (forall o :: o !in done ==> Lookup(now, o) == Lookup(db, o))
  }

  lemma {:induction false} StoredStep(
    child: Level, db: map<OutPoint, Coin>, now: map<OutPoint, Coin>, done: set<OutPoint>, o: OutPoint)
    requires StoredAt(child, db, now, done) && o in child.coins && o !in done
    requires EntryOk(child.coins[o], Lookup(db, o))
    ensures StoredAt(child, db, WriteCoin(now, o, child.coins[o]), done + {o})
  {
  }

  /** Write the flagged entries of the lowest cache to the database. */
  method BatchWriteDb(db: map<OutPoint, Coin>, child: Level, willErase: bool)
    returns (db': map<OutPoint, Coin>, child': Level)
    requires ListOk(child) && forall o :: o in child.coins ==> EntryOk(child.coins[o], Lookup(db, o))
    ensures forall o :: Lookup(db', o) == Through(child, o, Lookup(db, o))
    ensures CursorAt(child, child', FlaggedSet(child), willErase)
  {
    db', child' := db, child;
    var i := 0;
    ghost var done := {};
    while i < |child.flagged|
      invariant i <= |child.flagged| && done == Walked(child.flagged, i)
      invariant StoredAt(child, db, db', done) && CursorAt(child, child', done, willErase)
    {
      var o := child.flagged[i];
      ListStep(child, i, done);
      CursorStep(child, child', done, o, willErase);
      StoredStep(child, db, db', done, o);
      db' := WriteCoin(db', o, child'.coins[o]);
      child' := if willErase then child' else Passed(child', o);
      done := done + {o};
      i := i + 1;
    }
    ListStep(child, i, done);
  }

  lemma {:induction false} PoppedStack(db: map<OutPoint, Coin>, levels: seq<Level>, lower: seq<Level>)
    requires lower <= levels && StackOk(db, levels)
    ensures StackOk(db, lower)
    ensures forall k, p :: 0 <= k <= |lower| ==> View(db, lower, k, p) == View(db, levels, k, p)
  {
    forall k, p | 0 <= k <= |lower| ensures View(db, lower, k, p) == View(db, levels, k, p) {
      assert lower[..k] == levels[..k];
      ViewBelow(db, lower, levels, k, p);
    }
    forall k | 0 < k <= |lower| ensures LevelOk(db, lower, k) {
      assert LevelOk(db, levels, k) && lower[k - 1] == levels[k - 1];
    }
  }

  lemma {:induction false} PushedStack(db: map<OutPoint, Coin>, levels: seq<Level>)
    requires StackOk(db, levels)
    ensures StackOk(db, levels + [EMPTY_CACHE])
    ensures forall k, p :: 0 <= k <= |levels| ==> View(db, levels + [EMPTY_CACHE], k, p) == View(db, levels, k, p)
  {
    var higher := levels + [EMPTY_CACHE];
    forall k, p | 0 <= k <= |levels| ensures View(db, higher, k, p) == View(db, levels, k, p) {
      assert higher[..k] == levels[..k];
      ViewBelow(db, higher, levels, k, p);
    }
    forall k | 0 < k <= |higher| ensures LevelOk(db, higher, k) {
      if k <= |levels| {
        assert LevelOk(db, levels, k) && higher[k - 1] == levels[k - 1];
      }
    }
  }

  /** `View` for use as a function value. */
  ghost function Below(db: map<OutPoint, Coin>, levels: seq<Level>, k: int, o: OutPoint): Option<Coin> {
    if 0 <= k <= |levels| then View(db, levels, k, o) else None
  }

  /** Level `k - 1` shows what level `k` showed; every other level shows what it did. */
  ghost predicate MovedDown(
    db: map<OutPoint, Coin>, levels: seq<Level>, db': map<OutPoint, Coin>, levels': seq<Level>, k: nat)
  {
    && 0 < k <= |levels| == |levels'|
    && forall j, o {:trigger View(db', levels', j, o)} :: 0 <= j <= |levels| ==>
         View(db', levels', j, o) == View(db, levels, if j == k - 1 then k else j, o)
  }

  /** The stack between the write to the base and the end of Flush or Sync. */
  ghost predicate HalfWritten(
    db: map<OutPoint, Coin>, levels: seq<Level>, db': map<OutPoint, Coin>, levels': seq<Level>, k: nat)
  {
    && 0 < k <= |levels| == |levels'| && levels'[k - 1..] == levels[k - 1..]
    && (forall j {:trigger LevelOk(db', levels', j)} :: 0 < j < k ==> LevelOk(db', levels', j))
    && (forall j, o {:trigger View(db', levels', j, o)} :: 0 <= j < k ==>
          View(db', levels', j, o) == View(db, levels, if j == k - 1 then k else j, o))
  }

  lemma {:induction false} WrittenDown(db: map<OutPoint, Coin>, levels: seq<Level>, k: nat, us: Level)
    requires 1 < k <= |levels| && StackOk(db, levels) && ListOk(us) && EntriesOk(us, db, levels, k - 2)
    requires forall o :: Through(us, o, View(db, levels, k - 2, o)) == View(db, levels, k, o)
    ensures HalfWritten(db, levels, db, levels[k - 2 := us], k)
  {
    var levels' := levels[k - 2 := us];
    forall j, o | 0 <= j < k - 1 ensures View(db, levels', j, o) == View(db, levels, j, o) {
      ReplaceLevel(db, levels, k - 1, us, j, o);
    }
    forall j | 0 < j < k ensures LevelOk(db, levels', j) {
      assert LevelOk(db, levels, j);
    }
  }

  lemma {:induction false} AfterWriteViews(
    db: map<OutPoint, Coin>, levels: seq<Level>, db': map<OutPoint, Coin>, levels': seq<Level>, k: nat, l: Level, j: nat, o: OutPoint)
    requires HalfWritten(db, levels, db', levels', k) && j <= |levels|
    requires Through(l, o, View(db', levels', k - 1, o)) == View(db, levels, k, o)
    ensures View(db', levels'[k - 1 := l], j, o) == View(db, levels, if j == k - 1 then k else j, o)
  {
    var final := levels'[k - 1 := l];
    if j < k {
      assert final[..j] == levels'[..j];
      ViewBelow(db', levels', final, j, o);
    } else {
      assert final[..k - 1] == levels'[..k - 1];
      ViewBelow(db', levels', final, k - 1, o);
      assert View(db', final, k, o) == View(db, levels, k, o);
      forall i | k <= i < j ensures final[i] == levels[i] {
        assert levels'[i] == levels'[k - 1..][i - (k - 1)] == levels[i];
      }
      ViewAbove(db, levels, db', final, k, j, o);
    }
  }

  lemma {:induction false} AfterWrite(
    db: map<OutPoint, Coin>, levels: seq<Level>, db': map<OutPoint, Coin>, levels': seq<Level>, k: nat, l: Level)
    requires StackOk(db, levels) && HalfWritten(db, levels, db', levels', k)
    requires ListOk(l) && EntriesOk(l, db', levels', k - 1)
    requires forall o :: Through(l, o, View(db', levels', k - 1, o)) == View(db, levels, k, o)
    ensures StackOk(db', levels'[k - 1 := l]) && MovedDown(db, levels, db', levels'[k - 1 := l], k)
  {
    var final := levels'[k - 1 := l];
    forall j, o | 0 <= j <= |levels| ensures View(db', final, j, o) == View(db, levels, if j == k - 1 then k else j, o) {
      AfterWriteViews(db, levels, db', levels', k, l, j, o);
    }
    forall j | 0 < j <= |final| ensures LevelOk(db', final, j) {
      if j < k {
        assert LevelOk(db', levels', j);
      } else if j > k {
        assert LevelOk(db, levels, j);
        assert levels'[j - 1] == levels'[k - 1..][j - k] == levels[j - 1];
      }
    }
  }

  lemma {:induction false} SyncedLevel(
    db: map<OutPoint, Coin>, levels: seq<Level>, db': map<OutPoint, Coin>, levels': seq<Level>, k: nat, l: Level)
    requires HalfWritten(db, levels, db', levels', k) && LevelOk(db, levels, k)
    requires CursorAt(levels[k - 1], l, FlaggedSet(levels[k - 1]), false)
    ensures ListOk(l) && EntriesOk(l, db', levels', k - 1)
    ensures forall o :: Through(l, o, View(db', levels', k - 1, o)) == View(db, levels, k, o)
  {
    CursorEnd(levels[k - 1], l);
    forall o | o in l.coins ensures EntryOk(l.coins[o], View(db', levels', k - 1, o)) {
      assert EntryOk(levels[k - 1].coins[o], View(db, levels, k - 1, o));
    }
  }

  /** The top shows `c` at `o`; nothing else differs. */
  ghost predicate OnlyTop(
    db: map<OutPoint, Coin>, levels: seq<Level>, db': map<OutPoint, Coin>, levels': seq<Level>, o: OutPoint, c: Option<Coin>)
  {
    && |levels| == |levels'|
    && forall k, p {:trigger View(db', levels', k, p)} :: 0 <= k <= |levels| ==>
         View(db', levels', k, p) == if k == |levels| && p == o then c else View(db, levels, k, p)
  }

  ghost predicate KeepsUnspent(before: Level, after: Level) {
    forall o :: o in after.coins <==> o in before.coins && before.coins[o].coin.Some?
  }

  // ----- what SanityCheck asserts

  ghost function Attributes(e: Entry): nat {
    (if e.isDirty then 1 else 0) + (if e.isFresh then 2 else 0) + (if e.coin.None? then 4 else 0)
  }

  ghost predicate Sane(l: Level) {
    forall o :: o in l.coins ==> Attributes(l.coins[o]) !in {2, 4, 7}
  }

  lemma {:induction false} SanityHolds(db: map<OutPoint, Coin>, levels: seq<Level>, k: nat)
    requires StackOk(db, levels) && 0 < k <= |levels|
    ensures Sane(levels[k - 1])
    ensures |levels[k - 1].flagged| == |FlaggedSet(levels[k - 1])|
  {
    assert LevelOk(db, levels, k);
    var l := levels[k - 1];
    CountWalked(l.flagged, |l.flagged|);
    ListStep(l, |l.flagged|, Walked(l.flagged, |l.flagged|));
    forall o | o in l.coins ensures Attributes(l.coins[o]) !in {2, 4, 7} {
      assert EntryOk(l.coins[o], View(db, levels, k - 1, o));
    }
  }

  lemma {:induction false} CountWalked(list: seq<OutPoint>, i: nat)
    requires NoDup(list) && i <= |list|
    ensures |Walked(list, i)| == i
  {
    if i > 0 {
      CountWalked(list, i - 1);
      OneMoreWalked(list, i - 1);
    }
  }

  lemma {:induction false} OneMoreWalked(list: seq<OutPoint>, i: nat)
    requires NoDup(list) && i < |list|
    ensures list[i] !in Walked(list, i) && Walked(list, i + 1) == Walked(list, i) + {list[i]}
  {
  }

  // ----- the reference: one plain map per level

  type Reference = seq<map<OutPoint, Coin>>

  datatype Operation =
    | Get(level: nat, outpoint: OutPoint)
    | Add(outpoint: OutPoint, coin: Coin, overwrite: bool)
    | Spend(outpoint: OutPoint)
    | Uncache(level: nat, outpoint: OutPoint)
    | Flush(level: nat)
    | Sync(level: nat)
    | Push
    | Pop

  /** What callers owe: levels that exist, and no unspent coin where a coin is added as new. */
  ghost predicate Legal(ref: Reference, op: Operation) {
    match op
    case Get(k, _) => k < |ref|
    case Add(o, _, overwrite) => 1 < |ref| && (overwrite || o !in ref[|ref| - 1])
    case Spend(_) => 1 < |ref|
    case Uncache(k, _) => 0 < k < |ref|
    case Flush(k) => 0 < k < |ref|
    case Sync(k) => 0 < k < |ref|
    case Push => 0 < |ref|
    case Pop => 1 < |ref|
  }

  ghost function RefStep(ref: Reference, op: Operation): Reference
    requires Legal(ref, op)
  {
    var n := |ref| - 1;
    match op
    case Add(o, coin, _) => if Unspendable(coin.script) then ref else ref[n := ref[n][o := coin]]
    case Spend(o) => ref[n := ref[n] - {o}]
    case Flush(k) => ref[k - 1 := ref[k]]
    case Sync(k) => ref[k - 1 := ref[k]]
    case Push => ref + [ref[n]]
    case Pop => ref[..n]
    case _ => ref
  }

  ghost function RefAnswer(ref: Reference, op: Operation): Option<Coin>
    requires Legal(ref, op)
  {
    match op
    case Get(k, o) => Lookup(ref[k], o)
    case Spend(o) => Lookup(ref[|ref| - 1], o)
    case _ => None
  }

  ghost predicate LegalRun(ref: Reference, ops: seq<Operation>)
    decreases |ops|
  {
    ops == [] || (Legal(ref, ops[0]) && LegalRun(RefStep(ref, ops[0]), ops[1..]))
  }

  ghost function RefAnswers(ref: Reference, ops: seq<Operation>): seq<Option<Coin>>
    requires LegalRun(ref, ops)
    decreases |ops|
  {
    if ops == [] then [] else [RefAnswer(ref, ops[0])] + RefAnswers(RefStep(ref, ops[0]), ops[1..])
  }

  /** Every level shows exactly the plain map of that level. */
  ghost predicate Agrees(ref: Reference, db: map<OutPoint, Coin>, levels: seq<Level>) {
    && |ref| == |levels| + 1
    && forall k, o {:trigger View(db, levels, k, o)} :: 0 <= k <= |levels| ==> View(db, levels, k, o) == Lookup(ref[k], o)
  }

  class CoinsStack {
    var db: map<OutPoint, Coin>
    var levels: seq<Level>

    ghost predicate Valid()
      reads this
    {
      StackOk(db, levels)
    }

    ghost function Shows(k: nat, o: OutPoint): Option<Coin>
      requires k <= |levels|
      reads this
    {
      View(db, levels, k, o)
    }

    constructor (coins: map<OutPoint, Coin>)
      ensures Valid() && db == coins && levels == []
    {
      db := coins;
      levels := [];
    }

    /** The entry for `o` in the cache at level `k`, copied from its base if need be. */
    method FetchCoin(k: nat, o: OutPoint) returns (found: bool)
      requires Valid() && 0 < k <= |levels|
      modifies this
      ensures Valid() && db == old(db) && SameViews(db, old(levels), db, levels)
      ensures found <==> o in levels[k - 1].coins
      ensures found <==> o in old(levels)[k - 1].coins || old(Shows(k, o)).Some?
      ensures !found ==> Shows(k, o) == None
      ensures levels[k..] == old(levels[k..])
      decreases k, 0
    {
      if o in levels[k - 1].coins {
        return true;
      }
      var coin := GetCoin(k - 1, o);
      assert levels[k - 1] == levels[k - 1..][0] == old(levels[k - 1..])[0];
      assert levels[k..] == levels[k - 1..][1..] == old(levels[k - 1..])[1..];
      if coin.Some? {
        FetchedLevel(db, levels, k, o, coin.value);
        levels := levels[k - 1 := Put(levels[k - 1], o, Entry(coin, false, false))];
      }
      found := coin.Some?;
    }

    /** The unspent coin at `o`, if any; caches on the way are filled. */
    method GetCoin(k: nat, o: OutPoint) returns (coin: Option<Coin>)
      requires Valid() && k <= |levels|
      modifies this
      ensures Valid() && db == old(db) && SameViews(db, old(levels), db, levels)
      ensures coin == old(Shows(k, o))
      ensures levels[k..] == old(levels[k..])
      decreases k, 1
    {
      if k == 0 {
        return if o in db then Some(db[o]) else None;
      }
      var found := FetchCoin(k, o);
      assert View(db, levels, k, o) == old(View(db, levels, k, o));
      coin := if found then levels[k - 1].coins[o].coin else None;
    }

    method HaveCoin(k: nat, o: OutPoint) returns (have: bool)
      requires Valid() && k <= |levels|
      modifies this
      ensures Valid() && db == old(db) && SameViews(db, old(levels), db, levels)
      ensures have <==> old(Shows(k, o)).Some?
    {
      var coin := GetCoin(k, o);
      have := coin.Some?;
    }

    /** Add a coin to the top cache; `false` stands for the error on overwriting an unspent coin.  The
        stack stays in order unless a coin taken for new, because nothing is cached, is not new to the base. */
    method AddCoin(o: OutPoint, coin: Coin, overwrite: bool) returns (ok: bool)
      requires Valid() && levels != []
      modifies this
      ensures db == old(db) && |levels| == |old(levels)|
      ensures ok <==> Unspendable(coin.script) || overwrite || o !in old(levels)[|levels| - 1].coins || old(Shows(|levels|, o)) == None
      ensures OnlyTop(old(db), old(levels), db, levels, o,
                      if ok && !Unspendable(coin.script) then Some(coin) else old(Shows(|levels|, o)))
      ensures Valid() <==>
        Unspendable(coin.script) || overwrite || o in old(levels)[|levels| - 1].coins || old(Shows(|levels| - 1, o)) == None
    {
      if Unspendable(coin.script) {
        return true;
      }
      var n := |levels|;
      var l := levels[n - 1];
      assert LevelOk(db, levels, n);
      if !overwrite && o in l.coins && l.coins[o].coin.Some? {
        return false;
      }
      WithCoinOk(l, o, coin, overwrite, db, levels, n - 1);
      TopLevel(db, levels, WithCoin(l, o, coin, overwrite));
      levels := levels[n - 1 := WithCoin(l, o, coin, overwrite)];
      ok := true;
    }

    /** Spend the coin at `o` in the top cache; what was there comes back. */
    method SpendCoin(o: OutPoint) returns (found: bool, moved: Option<Coin>)
      requires Valid() && levels != []
      modifies this
      ensures Valid() && db == old(db) && |levels| == |old(levels)|
      ensures moved == old(Shows(|levels|, o))
      ensures found <==> o in old(levels)[|levels| - 1].coins || moved.Some?
      ensures OnlyTop(old(db), old(levels), db, levels, o, None)
    {
      var n := |levels|;
      found := FetchCoin(n, o);
      moved := None;
      assert View(db, levels, n, o) == old(View(db, levels, n, o));
      ghost var fetched := levels;
      if found {
        var l := levels[n - 1];
        assert LevelOk(db, levels, n);
        moved := l.coins[o].coin;
        WithoutCoinOk(l, o, db, levels, n - 1);
        TopLevel(db, levels, WithoutCoin(l, o));
        levels := levels[n - 1 := WithoutCoin(l, o)];
        forall p | p != o ensures View(db, levels, n, p) == old(View(db, levels, n, p)) {
          assert View(db, fetched, n, p) == Through(l, p, View(db, fetched, n - 1, p));
        }
      } else {
        assert forall p :: View(db, levels, n, p) == old(View(db, levels, n, p));
      }
    }

    /** Drop an entry that is not modified. */
    method Uncache(k: nat, o: OutPoint)
      requires Valid() && 0 < k <= |levels|
      modifies this
      ensures Valid() && db == old(db) && SameViews(db, old(levels), db, levels)
      ensures var l := old(levels)[k - 1];
        levels == if o in l.coins && !l.coins[o].Flagged() then old(levels)[k - 1 := Level(l.coins - {o}, l.flagged)] else old(levels)
    {
      var l := levels[k - 1];
      if o in l.coins && !l.coins[o].isDirty && !l.coins[o].isFresh {
        assert LevelOk(db, levels, k);
        EraseListOk(l, o);
        SameLevel(db, levels, k, Erase(l, o));
        levels := levels[k - 1 := Erase(l, o)];
      }
    }

    /** A new, empty cache on top. */
    method Push()
      requires Valid()
      modifies this
      ensures Valid() && db == old(db) && levels == old(levels) + [EMPTY_CACHE]
      ensures forall k, p {:trigger View(db, levels, k, p)} :: 0 <= k <= |levels| ==>
        View(db, levels, k, p) == View(old(db), old(levels), if k == |levels| then k - 1 else k, p)
    {
      PushedStack(db, levels);
      levels := levels + [EMPTY_CACHE];
    }

    /** The top cache goes away, and what was not written with it. */
    method Pop()
      requires Valid() && levels != []
      modifies this
      ensures Valid() && db == old(db) && levels == old(levels)[..|old(levels)| - 1]
      ensures forall k, p {:trigger View(db, levels, k, p)} :: 0 <= k <= |levels| ==>
        View(db, levels, k, p) == View(old(db), old(levels), k, p)
    {
      PoppedStack(db, levels, levels[..|levels| - 1]);
      levels := levels[..|levels| - 1];
    }

    /** Write the cache at level `k` to its base; `willErase` tells Flush from Sync. */
    method WriteDown(k: nat, willErase: bool) returns (ok: bool, child: Level)
      requires Valid() && 0 < k <= |levels|
      modifies this
      ensures ok && CursorAt(old(levels)[k - 1], child, FlaggedSet(old(levels)[k - 1]), willErase)
      ensures HalfWritten(old(db), old(levels), db, levels, k)
    {
      ghost var was, wasDb := levels, db;
      assert LevelOk(db, levels, k);
      if k == 1 {
        assert forall o :: View(db, levels, 1, o) == Through(levels[0], o, Lookup(db, o));
        db, child := BatchWriteDb(db, levels[0], willErase);
        return true, child;
      }
      assert LevelOk(db, levels, k - 1);
      var us;
      ok, us, child := BatchWrite(levels[k - 2], levels[k - 1], willErase, o => Below(wasDb, was, k - 2, o));
      levels := levels[k - 2 := us];
      WrittenDown(db, was, k, us);
    }

    /** Write the cache at level `k` to its base and empty it. */
    method Flush(k: nat) returns (ok: bool)
      requires Valid() && 0 < k <= |levels|
      modifies this
      ensures ok && Valid() && |levels| == |old(levels)| && levels[k - 1] == EMPTY_CACHE
      ensures MovedDown(old(db), old(levels), db, levels, k)
    {
      ghost var was, wasDb := levels, db;
      var child;
      ok, child := WriteDown(k, true);
      if ok {
        AfterWrite(wasDb, was, db, levels, k, EMPTY_CACHE);
        levels := levels[k - 1 := EMPTY_CACHE];
      }
    }

    /** Write the cache at level `k` to its base and keep its unspent coins, clean; `false` also
        stands for the error on entries that are still flagged. */
    method Sync(k: nat) returns (ok: bool)
      requires Valid() && 0 < k <= |levels|
      modifies this
      ensures ok && Valid() && |levels| == |old(levels)| && levels[k - 1].flagged == []
      ensures MovedDown(old(db), old(levels), db, levels, k)
      ensures KeepsUnspent(old(levels)[k - 1], levels[k - 1])
    {
      ghost var was, wasDb := levels, db;
      assert LevelOk(db, levels, k);
      var child;
      ok, child := WriteDown(k, false);
      CursorEnd(was[k - 1], child);
      if ok {
        SyncedLevel(wasDb, was, db, levels, k, child);
        AfterWrite(wasDb, was, db, levels, k, child);
        levels := levels[k - 1 := child];
        if child.flagged != [] {
          ok := false;
        }
      }
    }

    /** One operation answers as the plain maps do and keeps in step with them. */
    method Do(op: Operation, ghost ref: Reference) returns (answer: Option<Coin>)
      requires Valid() && Agrees(ref, db, levels) && Legal(ref, op)
      modifies this
      ensures Valid() && Agrees(RefStep(ref, op), db, levels)
      ensures answer == RefAnswer(ref, op)
    {
      answer := None;
      match op
      case Get(k, o) => answer := GetCoin(k, o);
      case Add(o, coin, overwrite) =>
        assert View(db, levels, |levels|, o) == Lookup(ref[|levels|], o);
        var _ := AddCoin(o, coin, overwrite);
      case Spend(o) =>
        var _, moved := SpendCoin(o);
        answer := moved;
      case Uncache(k, o) => Uncache(k, o);
      case Flush(k) => var _ := Flush(k);
      case Sync(k) => var _ := Sync(k);
      case Push => Push();
      case Pop => Pop();
    }

    /** Any run of operations over any stack answers as the plain maps do. */
    method Run(ops: seq<Operation>, ghost ref: Reference) returns (answers: seq<Option<Coin>>)
      requires Valid() && Agrees(ref, db, levels) && LegalRun(ref, ops)
      modifies this
      ensures Valid() && answers == RefAnswers(ref, ops)
    {
      answers := [];
      ghost var now := ref;
      var i := 0;
      while i < |ops|
        invariant i <= |ops| && Valid() && Agrees(now, db, levels) && LegalRun(now, ops[i..])
        invariant answers + RefAnswers(now, ops[i..]) == RefAnswers(ref, ops)
      {
        ghost var rest := ops[i..];
        assert rest[0] == ops[i] && rest[1..] == ops[i + 1..];
        var answer := Do(ops[i], now);
        assert answers + RefAnswers(now, rest) == (answers + [answer]) + RefAnswers(RefStep(now, ops[i]), ops[i + 1..]);
        answers := answers + [answer];
        now := RefStep(now, ops[i]);
        i := i + 1;
      }
      assert answers + [] == answers;
    }
  }
}
