/**
 The script check queue (`checkqueue.h`) as a state machine.

 Thread 0 is the master, the others are workers.  A critical section under the queue's
 mutex, up to the point where the thread waits, leaves with a batch or returns, is one
 step; running a batch is a separate step outside the mutex.  A waiting thread may wake
 at any moment, notified or not.
*/
module CheckQueue {
  import opened Common

  /** A check is known by what running it yields: nothing, or an error. */
  datatype Check<R> = Check(verdict: Option<R>)

  /** Where a thread stands in `Loop`. */
  datatype Phase<R> =
    | Outside                                          // the master, between calls of Complete
    | Start                                            // before the first critical section
    | Deciding                                         // in the critical section, at the head of the waiting loop
    | Waiting(notified: bool)                          // in the condition variable's wait
    | Holding(batch: seq<Check<R>>, doWork: bool)      // left the critical section with a batch
    | Finished(nNow: nat)                              // batch done, not yet accounted for

  /** A thread's place and its local result, which survives from batch to batch. */
  datatype Thread<R> = Thread(phase: Phase<R>, localResult: Option<R>)

  /** The queue, its threads, and the session in progress with the results handed out so far. */
  datatype State<R> = State(
    batchSize: nat,
    queue: seq<Check<R>>,
    nIdle: int,
    nTotal: int,
    result: Option<R>,
    nTodo: int,
    threads: seq<Thread<R>>,
    controlled: bool,
    done: bool,
    session: seq<Check<R>>,
    log: seq<Session<R>>)

  /** The checks added to one control object and what its Complete returned. */
  datatype Session<R> = Session(checks: seq<Check<R>>, returned: Option<R>)

  datatype LoopStep = Enter(thread: nat) | Wake(thread: nat) | Execute(thread: nat)

  datatype Step<R> =
    | Open
    | Add(checks: seq<Check<R>>)
    | Complete
    | Loop(step: LoopStep)
    | Close

  const MASTER: nat := 0

  function Init<R>(batchSize: nat, workers: nat): State<R> {
    State(batchSize, [], 0, 0, None, 0,
          [Thread(Outside, None)] + seq(workers, _ => Thread(Start, None)), false, false, [], [])
  }

  // ----- the steps

  /** How many checks a thread takes: at least one, at most the queue. */
  function BatchSize<R>(s: State<R>): (n: nat)
    ensures s.queue != [] ==> 1 <= n <= |s.queue|
    ensures n <= if 1 < s.batchSize then s.batchSize else 1
  {
    if s.nTotal + s.nIdle < 0 then 1
    else
      var share := |s.queue| / (s.nTotal + s.nIdle + 1);
      var most := if s.batchSize < share then s.batchSize else share;
      if 1 < most then most else 1
  }

  function At<R>(s: State<R>, t: nat, phase: Phase<R>): State<R>
    requires t < |s.threads|
  {
    s.(threads := s.threads[t := s.threads[t].(phase := phase)])
  }

  /** From the head of the waiting loop to the end of the critical section. */
  function Decide<R>(s: State<R>, t: nat): State<R>
    requires t < |s.threads|
  {
    if s.queue == [] then
      if t == MASTER && s.nTodo == 0 then
        s.(nTotal := s.nTotal - 1, result := None, done := true, session := [],
           log := s.log + [Session(s.session, s.result)],
           threads := s.threads[t := Thread(Outside, None)])
      else
        At(s.(nIdle := s.nIdle + 1), t, Waiting(false))
    else
      var k := |s.queue| - BatchSize(s);
      At(s.(queue := s.queue[..k]), t, Holding(s.queue[k..], s.result.None?))
  }

  /** Hand in the result of a finished batch and count it off. */
  function Account<R>(s: State<R>, t: nat): State<R>
    requires t < |s.threads| && s.threads[t].phase.Finished?
  {
    var local := s.threads[t].localResult;
    var swap := local.Some? && s.result.None?;
    s.(result := if swap then local else s.result,
       nTodo := s.nTodo - s.threads[t].phase.nNow,
       threads := s.threads[t := Thread(Deciding, if swap then s.result else local)])
  }

  /** The clean-up after a batch; the last batch of a worker wakes the master. */
  function CleanUp<R>(s: State<R>, t: nat): State<R>
    requires t < |s.threads| && s.threads[t].phase.Finished?
  {
    var s1 := Account(s, t);
    if s1.nTodo == 0 && t != MASTER then s1.(threads := Notify(s1.threads)) else s1
  }

  /** A notification reaches the master only while it waits. */
  function Notify<R>(threads: seq<Thread<R>>): seq<Thread<R>> {
    if threads != [] && threads[MASTER].phase.Waiting?
    then threads[MASTER := threads[MASTER].(phase := Waiting(true))]
    else threads
  }

  /** Run a batch up to its first error. */
  function Verdict<R>(batch: seq<Check<R>>): Option<R> {
    if batch == [] then None
    else if batch[0].verdict.Some? then batch[0].verdict
    else Verdict(batch[1..])
  }

  predicate LoopEnabled<R>(s: State<R>, a: LoopStep) {
    && a.thread < |s.threads|
    && match a
       case Enter(t) => s.threads[t].phase.Start? || s.threads[t].phase.Finished?
       case Wake(t) => s.threads[t].phase.Waiting?
       case Execute(t) => s.threads[t].phase.Holding?
  }

  /** Up to the head of the waiting loop: the first iteration, the clean-up, or a wake-up. */
  function Arrive<R>(s: State<R>, t: nat): State<R>
    requires t < |s.threads|
  {
    match s.threads[t].phase
    case Start => At(s.(nTotal := s.nTotal + 1), t, Deciding)
    case Finished(_) => CleanUp(s, t)
    case Waiting(_) => At(s.(nIdle := s.nIdle - 1), t, Deciding)
    case _ => s
  }

  function LoopNext<R>(s: State<R>, a: LoopStep): State<R>
    requires LoopEnabled(s, a)
  {
    match a
    case Enter(t) => Decide(Arrive(s, t), t)
    case Wake(t) => Decide(Arrive(s, t), t)
    case Execute(t) =>
      var phase := s.threads[t].phase;
      var local := if phase.doWork then Verdict(phase.batch) else s.threads[t].localResult;
      s.(threads := s.threads[t := Thread(Finished(|phase.batch|), local)])
  }

  /** A control object holds the control mutex from Open to Close, and completes in between. */
  predicate Enabled<R>(s: State<R>, a: Step<R>) {
    && s.threads != []
    && match a
       case Open => !s.controlled
       case Add(_) => s.controlled && !s.done && s.threads[MASTER].phase.Outside?
       case Complete => s.controlled && !s.done && s.threads[MASTER].phase.Outside?
       case Loop(step) => LoopEnabled(s, step)
       case Close => s.controlled && s.done
  }

  function Next<R>(s: State<R>, a: Step<R>): State<R>
    requires Enabled(s, a)
  {
    match a
    case Open => s.(controlled := true, done := false)
    case Add(checks) =>
      s.(queue := s.queue + checks, nTodo := s.nTodo + |checks|, session := s.session + checks)
    case Complete => s.(threads := s.threads[MASTER := Thread(Start, None)])
    case Loop(step) => LoopNext(s, step)
    case Close => s.(controlled := false)
  }

  /** `s'` is reached from `s` by the steps `run`. */
  predicate Reaches<R(==)>(s: State<R>, run: seq<Step<R>>, s': State<R>)
    decreases run
  {
    if run == [] then s == s'
    else Enabled(s, run[0]) && Reaches(Next(s, run[0]), run[1..], s')
  }

  // ----- totals over the threads

  function InFlight<R>(th: Thread<R>): nat {
    match th.phase
    case Holding(batch, _) => |batch|
    case Finished(n) => n
    case _ => 0
  }

  function Idle<R>(th: Thread<R>): nat {
    if th.phase.Waiting? then 1 else 0
  }

  function Inside<R>(th: Thread<R>): nat {
    if th.phase.Outside? || th.phase.Start? then 0 else 1
  }

  function Total<R>(ts: seq<Thread<R>>, f: Thread<R> -> nat): nat {
    if ts == [] then 0 else Total(ts[..|ts| - 1], f) + f(ts[|ts| - 1])
  }

  lemma {:induction false} TotalUpdate<R>(ts: seq<Thread<R>>, i: nat, th: Thread<R>, f: Thread<R> -> nat)
    requires i < |ts|
    ensures Total(ts[i := th], f) == Total(ts, f) - f(ts[i]) + f(th)
  {
    var n := |ts| - 1;
    if i < n {
      TotalUpdate(ts[..n], i, th, f);
      assert ts[i := th][..n] == ts[..n][i := th];
    } else {
      assert ts[i := th][..n] == ts[..n];
    }
  }

  lemma {:induction false} TotalAtLeast<R>(ts: seq<Thread<R>>, i: nat, f: Thread<R> -> nat)
    requires i < |ts|
    ensures f(ts[i]) <= Total(ts, f)
  {
    var n := |ts| - 1;
    if i < n {
      TotalAtLeast(ts[..n], i, f);
    }
  }

  lemma {:induction false} TotalWitness<R>(ts: seq<Thread<R>>, f: Thread<R> -> nat) returns (i: nat)
    requires 0 < Total(ts, f)
    ensures i < |ts| && 0 < f(ts[i])
  {
    var n := |ts| - 1;
    if 0 < f(ts[n]) {
      i := n;
    } else {
      i := TotalWitness(ts[..n], f);
    }
  }

  // ----- what holds in every reachable state

  /** The error is the verdict of one of the checks. */
  ghost predicate FromSession<R>(session: seq<Check<R>>, r: Option<R>) {
    exists c :: c in session && c.verdict == r
  }

  ghost predicate AllPass<R>(session: seq<Check<R>>) {
    forall c :: c in session ==> c.verdict.None?
  }

  /** What Complete promises about a session. */
  ghost predicate SessionOk<R>(e: Session<R>) {
    && (e.returned.None? <==> AllPass(e.checks))
    && (e.returned.Some? ==> FromSession(e.checks, e.returned))
  }

  /** Unfinished checks and threads are counted exactly. */
  ghost predicate Counted<R>(s: State<R>) {
    && s.nTodo == |s.queue| + Total(s.threads, InFlight)
    && s.nIdle == Total(s.threads, Idle)
    && s.nTotal == Total(s.threads, Inside)
  }

  ghost predicate ThreadOk<R>(s: State<R>, t: nat)
    requires t < |s.threads|
  {
    var th := s.threads[t];
    match th.phase
    case Outside => t == MASTER
    case Start => true
    case Deciding => true
    case Waiting(notified) => t == MASTER && !notified ==> s.queue == [] && 0 < s.nTodo
    case Holding(batch, doWork) =>
      batch != [] && (forall c :: c in batch ==> c in s.session) && (doWork || s.result.Some?)
    case Finished(n) =>
      0 < n && s.session != [] && (th.localResult.Some? && s.result.None? ==> FromSession(s.session, th.localResult))
  }

  /** The thread has a failing check's batch, or its outcome. */
  ghost predicate Carries<R>(th: Thread<R>, c: Check<R>) {
    || (th.phase.Holding? && c in th.phase.batch)
    || (th.phase.Finished? && th.localResult.Some?)
  }

  ghost predicate Carried<R>(s: State<R>, c: Check<R>) {
    exists t {:trigger s.threads[t]} :: 0 <= t < |s.threads| && Carries(s.threads[t], c)
  }

  /** A failing check is queued, carried by a thread, or has already led to a result. */
  ghost predicate Covered<R>(s: State<R>, c: Check<R>) {
    s.result.Some? || c in s.queue || Carried(s, c)
  }

  ghost predicate Inv<R>(s: State<R>) {
    && s.threads != [] && Counted(s)
    && (forall t {:trigger s.threads[t]} :: 0 <= t < |s.threads| ==> ThreadOk(s, t))
    && (s.result.Some? ==> FromSession(s.session, s.result))
    && (forall c :: c in s.queue ==> c in s.session)
    && (forall c :: c in s.session && c.verdict.Some? ==> Covered(s, c))
    && (!s.controlled || s.done ==> s.session == [] && s.threads[MASTER].phase.Outside?)
    && (forall e :: e in s.log ==> SessionOk(e))
  }

  // ----- every step keeps it

  lemma {:induction false} CountsUpdate<R>(ts: seq<Thread<R>>, t: nat, th: Thread<R>)
    requires t < |ts|
    ensures Total(ts[t := th], InFlight) == Total(ts, InFlight) - InFlight(ts[t]) + InFlight(th)
    ensures Total(ts[t := th], Idle) == Total(ts, Idle) - Idle(ts[t]) + Idle(th)
    ensures Total(ts[t := th], Inside) == Total(ts, Inside) - Inside(ts[t]) + Inside(th)
  {
    TotalUpdate(ts, t, th, InFlight);
    TotalUpdate(ts, t, th, Idle);
    TotalUpdate(ts, t, th, Inside);
  }

  lemma {:induction false} TotalNone<R>(ts: seq<Thread<R>>, f: Thread<R> -> nat)
    requires forall th :: th in ts ==> f(th) == 0
    ensures Total(ts, f) == 0
  {
    if ts != [] {
      TotalNone(ts[..|ts| - 1], f);
    }
  }

  lemma {:induction false} InitInv<R>(batchSize: nat, workers: nat)
    ensures Inv(Init<R>(batchSize, workers)) && Settled(Init<R>(batchSize, workers))
  {
    var s := Init<R>(batchSize, workers);
    TotalNone(s.threads, InFlight);
    TotalNone(s.threads, Idle);
    TotalNone(s.threads, Inside);
    forall t | 0 <= t < |s.threads| ensures ThreadOk(s, t) {
      assert t == MASTER || s.threads[t].phase.Start?;
    }
  }

  /** A check stays carried when its thread still carries it. */
  lemma {:induction false} StillCarried<R>(s: State<R>, s': State<R>, t: nat, c: Check<R>)
    requires t < |s.threads| == |s'.threads| && Carried(s, c)
    requires forall u :: 0 <= u < |s.threads| && u != t ==> s'.threads[u] == s.threads[u]
    requires Carries(s.threads[t], c) ==> Carries(s'.threads[t], c)
    ensures Carried(s', c)
  {
    var u :| 0 <= u < |s.threads| && Carries(s.threads[u], c);
    assert Carries(s'.threads[u], c);
  }

  /** Nothing but thread `t` and the counters of idle and running threads differs. */
  ghost predicate OnlyThread<R>(s: State<R>, s': State<R>, t: nat) {
    && t < |s.threads| && |s'.threads| == |s.threads|
    && s' == s.(nIdle := s'.nIdle, nTotal := s'.nTotal, threads := s.threads[t := s'.threads[t]])
  }

  /** A step of one thread alone keeps the invariant if the thread keeps its part. */
  lemma {:induction false} OneThread<R>(s: State<R>, s': State<R>, t: nat)
    requires Inv(s) && OnlyThread(s, s', t) && Counted(s') && ThreadOk(s', t)
    requires s.result.None? ==> forall c :: c in s.session && c.verdict.Some? && Carries(s.threads[t], c) ==> Carries(s'.threads[t], c)
    requires !s.controlled || s.done ==> s'.threads[MASTER].phase.Outside?
    ensures Inv(s')
  {
    forall u | 0 <= u < |s'.threads| ensures ThreadOk(s', u) {
      assert ThreadOk(s, u);
    }
    forall c | c in s'.session && c.verdict.Some? ensures Covered(s', c) {
      assert Covered(s, c);
      if Carried(s, c) && s.result.None? {
        StillCarried(s, s', t, c);
      }
    }
  }

  lemma {:induction false} AddInv<R>(s: State<R>, checks: seq<Check<R>>)
    requires Inv(s) && Enabled(s, Add(checks))
    ensures Inv(Next(s, Add(checks)))
  {
    var s' := Next(s, Add(checks));
    forall t | 0 <= t < |s'.threads| ensures ThreadOk(s', t) {
      assert ThreadOk(s, t);
      GrowSession(s.session, checks, s.threads[t].localResult);
    }
    GrowSession(s.session, checks, s.result);
    forall c | c in s'.session && c.verdict.Some? ensures Covered(s', c) {
      if c !in checks {
        assert Covered(s, c);
        if Carried(s, c) {
          StillCarried(s, s', MASTER, c);
        }
      }
    }
  }

  lemma {:induction false} GrowSession<R>(session: seq<Check<R>>, more: seq<Check<R>>, r: Option<R>)
    ensures FromSession(session, r) ==> FromSession(session + more, r)
  {
    if FromSession(session, r) {
      var c :| c in session && c.verdict == r;
      assert c in session + more;
    }
  }

  lemma {:induction false} CompleteInv<R>(s: State<R>)
    requires Inv(s) && Enabled(s, Complete)
    ensures Inv(Next(s, Complete))
  {
    var s' := Next(s, Complete);
    CountsUpdate(s.threads, MASTER, s'.threads[MASTER]);
    OneThread(s, s', MASTER);
  }

  lemma {:induction false} VerdictMeaning<R>(batch: seq<Check<R>>)
    ensures Verdict(batch).None? <==> AllPass(batch)
    ensures Verdict(batch).Some? ==> FromSession(batch, Verdict(batch))
  {
    if batch != [] {
      VerdictMeaning(batch[1..]);
      assert batch[0] in batch;
      assert forall c :: c in batch <==> c == batch[0] || c in batch[1..];
    }
  }

  lemma {:induction false} ExecuteInv<R>(s: State<R>, t: nat)
    requires Inv(s) && LoopEnabled(s, Execute(t))
    ensures Inv(LoopNext(s, Execute(t)))
  {
    var s' := LoopNext(s, Execute(t));
    var batch := s.threads[t].phase.batch;
    assert ThreadOk(s, t);
    assert batch[0] in s.session;
    CountsUpdate(s.threads, t, s'.threads[t]);
    VerdictMeaning(batch);
    OneThread(s, s', t);
  }

  /** Up to the head of the waiting loop, other than from a finished batch. */
  lemma {:induction false} ArriveInv<R>(s: State<R>, t: nat)
    requires Inv(s) && t < |s.threads| && (s.threads[t].phase.Start? || s.threads[t].phase.Waiting?)
    ensures Inv(Arrive(s, t))
  {
    var s' := Arrive(s, t);
    assert ThreadOk(s, MASTER);
    CountsUpdate(s.threads, t, s'.threads[t]);
    OneThread(s, s', t);
  }

  // ----- accounting for a finished batch

  lemma {:induction false} NotifyCounted<R>(ts: seq<Thread<R>>)
    ensures Total(Notify(ts), InFlight) == Total(ts, InFlight)
    ensures Total(Notify(ts), Idle) == Total(ts, Idle) && Total(Notify(ts), Inside) == Total(ts, Inside)
  {
    if ts != [] && ts[MASTER].phase.Waiting? {
      CountsUpdate(ts, MASTER, ts[MASTER].(phase := Waiting(true)));
    }
  }

  lemma {:induction false} AccountCounted<R>(s: State<R>, t: nat)
    requires Counted(s) && t < |s.threads| && s.threads[t].phase.Finished?
    ensures Counted(Account(s, t)) && 0 <= Account(s, t).nTodo
  {
    CountsUpdate(s.threads, t, Account(s, t).threads[t]);
  }

  lemma {:induction false} CleanUpCounted<R>(s: State<R>, t: nat)
    requires Counted(s) && t < |s.threads| && s.threads[t].phase.Finished?
    ensures Counted(CleanUp(s, t)) && 0 <= CleanUp(s, t).nTodo
  {
    AccountCounted(s, t);
    NotifyCounted(Account(s, t).threads);
  }

  /** Other threads than the one that accounts change only by a notification of the master. */
  lemma {:induction false} CleanUpOthers<R>(s: State<R>, t: nat, u: nat)
    requires s.threads != [] && t < |s.threads| && s.threads[t].phase.Finished? && u < |s.threads| && u != t
    ensures |CleanUp(s, t).threads| == |s.threads|
    ensures var th, th' := s.threads[u], CleanUp(s, t).threads[u];
      || th' == th
      || (u == MASTER && th.phase.Waiting? && th' == th.(phase := Waiting(true)))
    ensures u == MASTER && s.threads[u].phase.Waiting? && CleanUp(s, t).nTodo == 0 ==>
      CleanUp(s, t).threads[u].phase == Waiting(true)
  {
  }

  lemma {:induction false} CleanUpThread<R>(s: State<R>, t: nat)
    requires Inv(s) && t < |s.threads| && s.threads[t].phase.Finished?
    ensures |CleanUp(s, t).threads| == |s.threads| && CleanUp(s, t).threads[t].phase.Deciding?
    ensures CleanUp(s, t).result.None? ==> s.result.None? && s.threads[t].localResult.None?
    ensures s.result.Some? ==> CleanUp(s, t).result == s.result
    ensures CleanUp(s, t).result.Some? ==> FromSession(s.session, CleanUp(s, t).result)
  {
    assert ThreadOk(s, t);
  }

  lemma {:induction false} CleanUpThreads<R>(s: State<R>, t: nat, u: nat)
    requires Inv(s) && t < |s.threads| && s.threads[t].phase.Finished? && u < |s.threads|
    ensures |CleanUp(s, t).threads| == |s.threads| && ThreadOk(CleanUp(s, t), u)
  {
    CleanUpThread(s, t);
    CleanUpCounted(s, t);
    if u != t {
      CleanUpOthers(s, t, u);
      assert ThreadOk(s, u);
    }
  }

  lemma {:induction false} CleanUpCovers<R>(s: State<R>, t: nat, c: Check<R>)
    requires Inv(s) && t < |s.threads| && s.threads[t].phase.Finished? && c in s.session && c.verdict.Some?
    ensures Covered(CleanUp(s, t), c)
  {
    CleanUpThread(s, t);
    assert Covered(s, c);
    if CleanUp(s, t).result.None? && c !in s.queue {
      var u :| 0 <= u < |s.threads| && Carries(s.threads[u], c);
      CleanUpOthers(s, t, u);
      assert Carries(CleanUp(s, t).threads[u], c);
    }
  }

  lemma {:induction false} CleanUpInv<R>(s: State<R>, t: nat)
    requires Inv(s) && t < |s.threads| && s.threads[t].phase.Finished?
    ensures Inv(CleanUp(s, t))
  {
    var s' := CleanUp(s, t);
    CleanUpCounted(s, t);
    CleanUpThread(s, t);
    assert ThreadOk(s, t);
    forall u | 0 <= u < |s'.threads| ensures ThreadOk(s', u) {
      CleanUpThreads(s, t, u);
    }
    forall c | c in s'.session && c.verdict.Some? ensures Covered(s', c) {
      CleanUpCovers(s, t, c);
    }
  }

  // ----- the end of the critical section

  lemma {:induction false} WaitInv<R>(s: State<R>, t: nat)
    requires Inv(s) && t < |s.threads| && s.threads[t].phase.Deciding? && s.queue == []
    requires t != MASTER || s.nTodo != 0
    ensures Inv(Decide(s, t))
  {
    var s' := Decide(s, t);
    CountsUpdate(s.threads, t, s'.threads[t]);
    OneThread(s, s', t);
  }

  lemma {:induction false} TakeInv<R>(s: State<R>, t: nat)
    requires Inv(s) && t < |s.threads| && s.threads[t].phase.Deciding? && s.queue != []
    ensures Inv(Decide(s, t))
  {
    var s' := Decide(s, t);
    var k := |s'.queue|;
    CountsUpdate(s.threads, t, s'.threads[t]);
    assert s.queue == s'.queue + s'.threads[t].phase.batch;
    forall u | 0 <= u < |s'.threads| ensures ThreadOk(s', u) {
      assert ThreadOk(s, u);
    }
    forall c | c in s'.session && c.verdict.Some? ensures Covered(s', c) {
      assert Covered(s, c);
      if Carried(s, c) {
        StillCarried(s, s', t, c);
      } else if c in s.queue && c !in s'.queue {
        assert Carries(s'.threads[t], c);
      }
    }
  }

  /** When the master returns no batch is in flight, so every check has been heard. */
  lemma {:induction false} ReturnedOk<R>(s: State<R>)
    requires Inv(s) && s.queue == [] && s.nTodo == 0
    ensures SessionOk(Session(s.session, s.result))
    ensures forall t :: 0 <= t < |s.threads| ==> InFlight(s.threads[t]) == 0
  {
    forall t | 0 <= t < |s.threads| ensures !s.threads[t].phase.Holding? && !s.threads[t].phase.Finished? {
      TotalAtLeast(s.threads, t, InFlight);
      assert ThreadOk(s, t);
    }
    forall c | c in s.session && c.verdict.Some? ensures s.result.Some? {
      assert Covered(s, c);
    }
    if s.result.Some? {
      assert FromSession(s.session, s.result);
      var c :| c in s.session && c.verdict == s.result;
      assert !AllPass(s.session);
    }
  }

  lemma {:induction false} ReturnInv<R>(s: State<R>)
    requires Inv(s) && s.threads[MASTER].phase.Deciding? && s.queue == [] && s.nTodo == 0
    ensures Inv(Decide(s, MASTER))
  {
    var s' := Decide(s, MASTER);
    ReturnedOk(s);
    CountsUpdate(s.threads, MASTER, s'.threads[MASTER]);
    forall u | 0 <= u < |s'.threads| ensures ThreadOk(s', u) {
      assert ThreadOk(s, u);
    }
  }

  lemma {:induction false} DecideInv<R>(s: State<R>, t: nat)
    requires Inv(s) && t < |s.threads| && s.threads[t].phase.Deciding?
    ensures Inv(Decide(s, t))
  {
    if s.queue != [] {
      TakeInv(s, t);
    } else if t == MASTER && s.nTodo == 0 {
      ReturnInv(s);
    } else {
      WaitInv(s, t);
    }
  }

  lemma {:induction false} LoopInv<R>(s: State<R>, a: LoopStep)
    requires Inv(s) && LoopEnabled(s, a)
    ensures Inv(LoopNext(s, a))
  {
    var t := a.thread;
    if a.Execute? {
      ExecuteInv(s, t);
    } else {
      if s.threads[t].phase.Finished? {
        CleanUpInv(s, t);
        CleanUpThread(s, t);
      } else {
        ArriveInv(s, t);
      }
      DecideInv(Arrive(s, t), t);
    }
  }

  lemma {:induction false} NextInv<R>(s: State<R>, a: Step<R>)
    requires Inv(s) && Enabled(s, a)
    ensures Inv(Next(s, a))
  {
    match a
    case Open => SameSession(s, Next(s, a));
    case Add(checks) => AddInv(s, checks);
    case Complete => CompleteInv(s);
    case Loop(step) => LoopInv(s, step);
    case Close => SameSession(s, Next(s, a));
  }

  lemma {:induction false} SameSession<R>(s: State<R>, s': State<R>)
    requires Inv(s) && s' == s.(controlled := s'.controlled, done := s'.done)
    requires !s.controlled || s.done
    ensures Inv(s')
  {
    forall t | 0 <= t < |s'.threads| ensures ThreadOk(s', t) {
      assert ThreadOk(s, t);
    }
  }

  /** No thread is inside a critical section. */
  ghost predicate Settled<R>(s: State<R>) {
    forall t {:trigger s.threads[t]} :: 0 <= t < |s.threads| ==> !s.threads[t].phase.Deciding?
  }

  lemma {:induction false} ArriveOthers<R>(s: State<R>, t: nat, u: nat)
    requires t < |s.threads| && u < |s.threads| && u != t && !s.threads[u].phase.Deciding?
    ensures |Arrive(s, t).threads| == |s.threads| && !Arrive(s, t).threads[u].phase.Deciding?
  {
    if s.threads[t].phase.Finished? {
      CleanUpOthers(s, t, u);
    }
  }

  lemma {:induction false} DecideSettles<R>(s: State<R>, t: nat, u: nat)
    requires t < |s.threads| && u < |s.threads| && (u != t ==> !s.threads[u].phase.Deciding?)
    ensures |Decide(s, t).threads| == |s.threads| && !Decide(s, t).threads[u].phase.Deciding?
  {
  }

  lemma {:induction false} NextSettled<R>(s: State<R>, a: Step<R>)
    requires Enabled(s, a) && Settled(s)
    ensures Settled(Next(s, a))
  {
    if a.Loop? && !a.step.Execute? {
      var t := a.step.thread;
      forall u | 0 <= u < |s.threads| && u != t ensures !Arrive(s, t).threads[u].phase.Deciding? {
        ArriveOthers(s, t, u);
      }
      forall u | 0 <= u < |s.threads| ensures !Decide(Arrive(s, t), t).threads[u].phase.Deciding? {
        DecideSettles(Arrive(s, t), t, u);
      }
    }
  }

  /** The invariant holds in every state of every run. */
  lemma {:induction false} ReachableInv<R>(s: State<R>, run: seq<Step<R>>, s': State<R>)
    requires Inv(s) && Settled(s) && Reaches(s, run, s')
    ensures Inv(s') && Settled(s')
    decreases run
  {
    if run != [] {
      NextInv(s, run[0]);
      NextSettled(s, run[0]);
      ReachableInv(Next(s, run[0]), run[1..], s');
    }
  }

  // ----- what the queue promises

  /** Whatever the interleaving, Complete returns nothing exactly when all checks of its session
      pass, and otherwise the error of one of them. */
  lemma {:induction false} CompleteIsRight<R>(batchSize: nat, workers: nat, run: seq<Step<R>>, s: State<R>, e: Session<R>)
    requires Reaches(Init(batchSize, workers), run, s) && e in s.log
    ensures SessionOk(e)
  {
    InitInv<R>(batchSize, workers);
    ReachableInv(Init(batchSize, workers), run, s);
  }

  /** Every reachable state accounts for all unfinished checks and all threads. */
  lemma {:induction false} Accounting<R>(batchSize: nat, workers: nat, run: seq<Step<R>>, s: State<R>, t: nat)
    requires Reaches(Init(batchSize, workers), run, s) && t < |s.threads|
    ensures s.nTodo == |s.queue| + Total(s.threads, InFlight)
    ensures s.nIdle == Total(s.threads, Idle) && s.nTotal == Total(s.threads, Inside)
    ensures s.threads[t].phase.Holding? ==> s.threads[t].phase.batch != []
    ensures s.threads[t].phase.Finished? ==> 0 < s.threads[t].phase.nNow
  {
    InitInv<R>(batchSize, workers);
    ReachableInv(Init(batchSize, workers), run, s);
    assert ThreadOk(s, t);
  }

  /** A master asleep without a notification pending is owed one by a worker with a batch. */
  lemma {:induction false} NoLostWakeUp<R>(s: State<R>) returns (t: nat)
    requires Inv(s) && s.threads[MASTER].phase == Waiting(false)
    ensures s.queue == [] && 0 < s.nTodo && MASTER < t < |s.threads| && 0 < InFlight(s.threads[t])
  {
    assert ThreadOk(s, MASTER);
    t := TotalWitness(s.threads, InFlight);
  }

  /** In every reachable state, a master asleep without a notification is owed one. */
  lemma {:induction false} MasterIsOwed<R>(batchSize: nat, workers: nat, run: seq<Step<R>>, s: State<R>)
    requires Reaches(Init(batchSize, workers), run, s)
    ensures s.threads != []
    ensures s.threads[MASTER].phase == Waiting(false) ==>
      exists t {:trigger s.threads[t]} :: MASTER < t < |s.threads| && 0 < InFlight(s.threads[t])
  {
    InitInv<R>(batchSize, workers);
    ReachableInv(Init(batchSize, workers), run, s);
    if s.threads[MASTER].phase == Waiting(false) {
      var t := NoLostWakeUp(s);
    }
  }

  // ----- Complete returns

  function Weight<R>(th: Thread<R>): nat {
    match th.phase
    case Start => 1
    case Waiting(notified) => if notified then 1 else 0
    case Holding(_, _) => 3
    case Finished(_) => 2
    case _ => 0
  }

  /** Work left: what every step of the threads uses up. */
  function Work<R>(s: State<R>): nat {
    4 * |s.queue| + Total(s.threads, Weight)
  }

  lemma {:induction false} ArriveWork<R>(s: State<R>, t: nat)
    requires Inv(s) && t < |s.threads|
    requires s.threads[t].phase.Start? || s.threads[t].phase.Finished? || s.threads[t].phase.Waiting?
    ensures |Arrive(s, t).threads| == |s.threads| && Arrive(s, t).threads[t].phase.Deciding?
    ensures if s.threads[t].phase == Waiting(false) then Work(Arrive(s, t)) == Work(s) else Work(Arrive(s, t)) < Work(s)
  {
    if s.threads[t].phase.Finished? {
      CleanUpWork(s, t);
    } else {
      TotalUpdate(s.threads, t, s.threads[t].(phase := Deciding), Weight);
    }
  }

  lemma {:induction false} NotifyWork<R>(ts: seq<Thread<R>>)
    ensures Total(Notify(ts), Weight) <= Total(ts, Weight) + 1
  {
    if ts != [] && ts[MASTER].phase.Waiting? {
      TotalUpdate(ts, MASTER, ts[MASTER].(phase := Waiting(true)), Weight);
    }
  }

  lemma {:induction false} CleanUpWork<R>(s: State<R>, t: nat)
    requires t < |s.threads| && s.threads[t].phase.Finished?
    ensures |CleanUp(s, t).threads| == |s.threads| && CleanUp(s, t).threads[t].phase.Deciding?
    ensures Work(CleanUp(s, t)) < Work(s)
  {
    var s1 := Account(s, t);
    TotalUpdate(s.threads, t, s1.threads[t], Weight);
    NotifyWork(s1.threads);
  }

  lemma {:induction false} DecideWork<R>(s: State<R>, t: nat)
    requires t < |s.threads| && s.threads[t].phase.Deciding?
    ensures |Decide(s, t).threads| == |s.threads|
    ensures if s.queue == [] then Work(Decide(s, t)) == Work(s) else Work(Decide(s, t)) < Work(s)
  {
    TotalUpdate(s.threads, t, Decide(s, t).threads[t], Weight);
  }

  /** A step of a thread uses up work, unless the thread woke for nothing and nothing changed. */
  lemma {:induction false} StepUsesWork<R>(s: State<R>, a: LoopStep)
    requires Inv(s) && LoopEnabled(s, a)
    ensures LoopNext(s, a) == s || Work(LoopNext(s, a)) < Work(s)
  {
    var t := a.thread;
    if a.Execute? {
      TotalUpdate(s.threads, t, LoopNext(s, a).threads[t], Weight);
    } else {
      ArriveWork(s, t);
      DecideWork(Arrive(s, t), t);
      if s.threads[t].phase == Waiting(false) && s.queue == [] {
        assert ThreadOk(s, t);
        assert LoopNext(s, a).threads == s.threads;
      }
    }
  }

  /** While Complete has not returned some thread can do work. */
  lemma {:induction false} SomeoneWorks<R>(s: State<R>) returns (a: LoopStep)
    requires Inv(s) && Settled(s) && !s.threads[MASTER].phase.Outside?
    ensures LoopEnabled(s, a) && Work(LoopNext(s, a)) < Work(s)
  {
    var t := MASTER;
    assert !s.threads[t].phase.Deciding?;
    if s.threads[MASTER].phase == Waiting(false) {
      t := NoLostWakeUp(s);
    }
    if s.threads[t].phase.Holding? {
      a := Execute(t);
      TotalUpdate(s.threads, t, LoopNext(s, a).threads[t], Weight);
    } else {
      a := if s.threads[t].phase.Waiting? then Wake(t) else Enter(t);
      ArriveWork(s, t);
      DecideWork(Arrive(s, t), t);
    }
  }

  /** A run of thread steps, each of which changes something. */
  ghost predicate Busy<R>(s: State<R>, run: seq<LoopStep>)
    decreases |run|
  {
    run == [] || (LoopEnabled(s, run[0]) && LoopNext(s, run[0]) != s && Busy(LoopNext(s, run[0]), run[1..]))
  }

  ghost function After<R>(s: State<R>, run: seq<LoopStep>): State<R>
    requires Busy(s, run)
    decreases |run|
  {
    if run == [] then s else After(LoopNext(s, run[0]), run[1..])
  }

  /** However the threads are scheduled, each step uses up work, so only so many are possible. */
  lemma {:induction false} BusyRunsEnd<R>(s: State<R>, run: seq<LoopStep>)
    requires Inv(s) && Busy(s, run)
    ensures |run| + Work(After(s, run)) <= Work(s)
    ensures Inv(After(s, run)) && (Settled(s) ==> Settled(After(s, run)))
    decreases |run|
  {
    if run != [] {
      StepUsesWork(s, run[0]);
      LoopInv(s, run[0]);
      if Settled(s) {
        NextSettled(s, Loop(run[0]));
      }
      BusyRunsEnd(LoopNext(s, run[0]), run[1..]);
    }
  }

  /** No thread can change anything any more. */
  ghost predicate Stuck<R>(s: State<R>) {
    forall a :: LoopEnabled(s, a) ==> LoopNext(s, a) == s
  }

  ghost predicate MasterOut<R>(s: State<R>) {
    s.threads != [] && s.threads[MASTER].phase.Outside?
  }

  /** The session in progress in `s`, and no other, has been completed by `s'`, with the right result. */
  ghost predicate Completed<R>(s: State<R>, s': State<R>) {
    && |s'.log| == |s.log| + 1 && s'.log[..|s.log|] == s.log
    && s'.log[|s.log|].checks == s.session && SessionOk(s'.log[|s.log|])
  }

  lemma {:induction false} ArriveSession<R>(s: State<R>, t: nat)
    requires s.threads != [] && t < |s.threads|
    requires s.threads[t].phase.Start? || s.threads[t].phase.Finished? || s.threads[t].phase.Waiting?
    ensures Arrive(s, t).log == s.log && Arrive(s, t).session == s.session
    ensures |Arrive(s, t).threads| == |s.threads| && Arrive(s, t).threads[t].phase.Deciding?
    ensures MasterOut(Arrive(s, t)) == MasterOut(s)
  {
    if s.threads[t].phase.Finished? && t != MASTER {
      CleanUpOthers(s, t, MASTER);
    }
  }

  lemma {:induction false} DecideSession<R>(s: State<R>, t: nat)
    requires s.threads != [] && t < |s.threads| && s.threads[t].phase.Deciding?
    ensures if !MasterOut(s) && MasterOut(Decide(s, t))
      then Decide(s, t).log == s.log + [Session(s.session, s.result)]
      else Decide(s, t).log == s.log && Decide(s, t).session == s.session && MasterOut(Decide(s, t)) == MasterOut(s)
  {
  }

  /** A step of a thread leaves the session alone unless it is the master's return. */
  lemma {:induction false} StepSession<R>(s: State<R>, a: LoopStep)
    requires Inv(s) && LoopEnabled(s, a)
    ensures MasterOut(s) ==> MasterOut(LoopNext(s, a))
    ensures MasterOut(s) || !MasterOut(LoopNext(s, a)) ==>
      LoopNext(s, a).log == s.log && LoopNext(s, a).session == s.session
    ensures !MasterOut(s) && MasterOut(LoopNext(s, a)) ==> Completed(s, LoopNext(s, a))
  {
    LoopInv(s, a);
    var s', n, t := LoopNext(s, a), |s.log|, a.thread;
    if !a.Execute? {
      ArriveSession(s, t);
      DecideSession(Arrive(s, t), t);
    }
    if !MasterOut(s) && MasterOut(s') {
      assert s'.log[n] in s'.log;
    }
  }

  lemma {:induction false} BusySession<R>(s: State<R>, run: seq<LoopStep>)
    requires Inv(s) && Busy(s, run)
    ensures MasterOut(s) ==> MasterOut(After(s, run))
    ensures MasterOut(s) || !MasterOut(After(s, run)) ==>
      After(s, run).log == s.log && After(s, run).session == s.session
    ensures !MasterOut(s) && MasterOut(After(s, run)) ==> Completed(s, After(s, run))
    decreases |run|
  {
    if run != [] {
      StepSession(s, run[0]);
      LoopInv(s, run[0]);
      BusySession(LoopNext(s, run[0]), run[1..]);
    }
  }

  /** From every reachable state, every way to go on ends, and ends with the master back from
      Complete and the session it was in completed. */
  lemma {:induction false} CompleteReturns<R>(
    batchSize: nat, workers: nat, run: seq<Step<R>>, s: State<R>, more: seq<LoopStep>)
    requires Reaches(Init(batchSize, workers), run, s) && Busy(s, more)
    ensures |more| <= Work(s)
    ensures Stuck(After(s, more)) ==> MasterOut(After(s, more)) && (!MasterOut(s) ==> Completed(s, After(s, more)))
  {
    InitInv<R>(batchSize, workers);
    ReachableInv(Init(batchSize, workers), run, s);
    BusyRunsEnd(s, more);
    BusySession(s, more);
    if !MasterOut(After(s, more)) {
      var a := SomeoneWorks(After(s, more));
    }
  }

  lemma {:induction false} BusyOn<R>(s: State<R>, run: seq<LoopStep>, more: seq<LoopStep>)
    requires Busy(s, run) && Busy(After(s, run), more)
    ensures Busy(s, run + more) && After(s, run + more) == After(After(s, run), more)
    decreases |run|
  {
    if run == [] {
      assert run + more == more;
    } else {
      assert (run + more)[0] == run[0] && (run + more)[1..] == run[1..] + more;
      BusyOn(LoopNext(s, run[0]), run[1..], more);
    }
  }

  lemma {:induction false} Finish<R>(s: State<R>) returns (run: seq<LoopStep>)
    requires Inv(s) && Settled(s)
    ensures Busy(s, run) && MasterOut(After(s, run))
    decreases Work(s)
  {
    if MasterOut(s) {
      run := [];
    } else {
      var a := SomeoneWorks(s);
      LoopInv(s, a);
      NextSettled(s, Loop(a));
      var rest := Finish(LoopNext(s, a));
      run := [a] + rest;
      assert run[1..] == rest;
    }
  }

  /** However far the threads have got, they can go on until Complete returns. */
  lemma {:induction false} NeverDeadlocked<R>(
    batchSize: nat, workers: nat, run: seq<Step<R>>, s: State<R>, more: seq<LoopStep>)
    requires Reaches(Init(batchSize, workers), run, s) && Busy(s, more)
    ensures exists rest ::
      && Busy(s, more + rest) && MasterOut(After(s, more + rest))
      && (!MasterOut(s) ==> Completed(s, After(s, more + rest)))
  {
    InitInv<R>(batchSize, workers);
    ReachableInv(Init(batchSize, workers), run, s);
    BusyRunsEnd(s, more);
    var rest := Finish(After(s, more));
    BusyOn(s, more, rest);
    BusySession(s, more + rest);
  }
}
