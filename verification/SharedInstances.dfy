/** Threads that outnumber the instances: two of them share one, and after a reload a lookup fails. */
module SharedInstances {
  import opened Bytes
  import opened InstancePool
  import opened PoolDispatch
  import opened PoolExclusivity
  import opened Wrappers

  const FIRST := 7
  const SECOND := 8

  /** The run led to `s`, its loads name all registered systems and leave room for `m` threads, and it is short. */
  ghost predicate Reached(threads: nat, size: nat, m: nat, labels: seq<Label>, s: State, n: nat) {
    && After(threads, 0, size, labels) == Some(s)
    && Cumulative(labels) && Roomy(m, labels)
    && |labels| <= n
  }

  /** What a load must meet for the run to stay one of these. */
  predicate Fair(s: State, m: nat, l: Label) {
    l.Load? ==> s.registered <= l.ids && l.count >= m
  }

  lemma OneStep(threads: nat, size: nat, m: nat, labels: seq<Label>, s: State, n: nat, l: Label)
    requires Reached(threads, size, m, labels, s, n) && Enabled(s, l, size) && Fair(s, m, l)
    ensures Reached(threads, size, m, labels + [l], Apply(s, l, size), n + 1)
  {
    RegisteredFromLabels(threads, 0, size, labels);
    assert (labels + [l])[..|labels|] == labels;
    hide Apply, Enabled;
  }

  // ----- one call -----

  predicate ReadyToCall(s: State, t: nat) {
    t < |s.threads| && s.threads[t] == Thread(Outside, None) && FIRST in s.registered && s.pool != []
  }

  /** The thread has found nothing cached, and nothing else happened. */
  predicate Asks(s: State, s': State, t: nat) {
    && t < |s.threads| && s'.threads == s.threads[t := Thread(NeedsTicket(FIRST), None)]
    && s'.pool == s.pool && s'.systems == s.systems && s'.registered == s.registered && s'.counter == s.counter
  }

  /** The thread runs the instance the next ticket stands for, and caches it. */
  predicate RunsNext(s: State, s': State, t: nat) {
    && t < |s.threads| && s.pool != []
    && s'.threads == s.threads[t := Busy(s.pool, s.counter + 1)]
    && s'.pool == s.pool && s'.systems == s.systems && s'.registered == s.registered && s'.counter == s.counter + 1
  }

  function Busy(pool: seq<nat>, ticket: nat): Thread
    requires pool != []
  {
    Thread(Running(FIRST, InstanceOf(pool, ticket)), Some(InstanceOf(pool, ticket)))
  }

  lemma CallAndLock(s: State, t: nat, size: nat)
    requires ReadyToCall(s, t)
    ensures Enabled(s, Call(t, FIRST), size)
    ensures Enabled(Apply(s, Call(t, FIRST), size), Lock(t), size)
    ensures Asks(s, Apply(Apply(s, Call(t, FIRST), size), Lock(t), size), t)
  {
  }

  lemma TicketAndFetch(s: State, s': State, t: nat, size: nat)
    requires Asks(s, s', t) && s.pool != [] && s.counter + 1 < TWO_64
    ensures Enabled(s', Ticket(t), size)
    ensures Enabled(Apply(s', Ticket(t), size), Fetch(t), size)
    ensures RunsNext(s, Apply(Apply(s', Ticket(t), size), Fetch(t), size), t)
  {
    hide Slot, Increment;
  }

  function WithCall(labels: seq<Label>, t: nat): seq<Label> {
    labels + [Call(t, FIRST)] + [Lock(t)] + [Ticket(t)] + [Fetch(t)]
  }

  /** A whole call of a thread that caches nothing. */
  lemma FreshCall(threads: nat, size: nat, m: nat, labels: seq<Label>, s: State, n: nat, t: nat) returns (s': State)
    requires Reached(threads, size, m, labels, s, n) && ReadyToCall(s, t) && s.counter + 1 < TWO_64
    ensures Reached(threads, size, m, WithCall(labels, t), s', n + 4) && RunsNext(s, s', t)
  {
    CallAndLock(s, t, size);
    assert s.pool != [];
    hide Reached, Apply, Enabled, Asks, RunsNext;
    OneStep(threads, size, m, labels, s, n, Call(t, FIRST));
    var a := Apply(s, Call(t, FIRST), size);
    OneStep(threads, size, m, labels + [Call(t, FIRST)], a, n + 1, Lock(t));
    var b := Apply(a, Lock(t), size);
    var until := labels + [Call(t, FIRST)] + [Lock(t)];
    TicketAndFetch(s, b, t, size);
    OneStep(threads, size, m, until, b, n + 2, Ticket(t));
    var c := Apply(b, Ticket(t), size);
    OneStep(threads, size, m, until + [Ticket(t)], c, n + 3, Fetch(t));
    s' := Apply(c, Fetch(t), size);
  }

  // ----- threads in a queue -----

  /** Thread `j` as it is after the first `k` threads have called. */
  function InQueue(pool: seq<nat>, k: nat, j: nat): Thread
    requires pool != []
  {
    if j < k then Busy(pool, j + 1) else Thread(Outside, None)
  }

  /** The first `k` threads run instances of a pool of `m` that exports one system. */
  ghost predicate Queue(s: State, threads: nat, m: nat, k: nat) {
    && |s.threads| == threads && |s.pool| == m > 0
    && s.registered == {FIRST} && s.counter == k
    && (forall i :: 0 <= i < m ==> s.pool[i] < |s.systems| && s.systems[s.pool[i]] == {FIRST})
    && (forall j :: 0 <= j < threads ==> s.threads[j] == InQueue(s.pool, k, j))
  }

  lemma QueueGrows(s: State, s': State, threads: nat, m: nat, k: nat)
    requires Queue(s, threads, m, k) && k < threads && RunsNext(s, s', k)
    ensures Queue(s', threads, m, k + 1)
  {
    hide InstanceOf;
  }

  lemma NextIsReady(s: State, threads: nat, m: nat, k: nat)
    requires Queue(s, threads, m, k) && k < threads
    ensures ReadyToCall(s, k) && s.counter == k
  {
  }

  /** Threads 0 to `k - 1` call one after the other. */
  function WithCalls(labels: seq<Label>, k: nat): seq<Label> {
    if k == 0 then labels else WithCall(WithCalls(labels, k - 1), k - 1)
  }

  lemma {:induction false} QueueUp(
    threads: nat, size: nat, m: nat, labels: seq<Label>, s: State, n: nat, k: nat) returns (s': State)
    requires Reached(threads, size, m, labels, s, n) && Queue(s, threads, m, 0)
    requires k <= threads && k < TWO_32
    ensures Reached(threads, size, m, WithCalls(labels, k), s', n + 4 * k) && Queue(s', threads, m, k)
  {
    hide Reached, Queue, RunsNext, ReadyToCall, WithCall;
    if k == 0 {
      s' := s;
    } else {
      var b := QueueUp(threads, size, m, labels, s, n, k - 1);
      NextIsReady(b, threads, m, k - 1);
      s' := FreshCall(threads, size, m, WithCalls(labels, k - 1), b, n + 4 * (k - 1), k - 1);
      QueueGrows(b, s', threads, m, k - 1);
    }
  }

  /** A load that succeeds and, if that makes more than `m` instances, one that fails after making `m`. */
  function Opening(size: nat, m: nat): seq<Label> {
    var full := [Load(size, {FIRST}, true)];
    if m < size then full + [Load(m, {FIRST}, false)] else full
  }

  /** No thread has called yet. */
  predicate Idle(s: State, threads: nat) {
    && s.threads == Copies(Thread(Outside, None), threads) && s.counter == 0 && s.registered <= {FIRST}
    && |s.systems| == |s.refs|
  }

  lemma LoadQueues(s: State, threads: nat, size: nat, count: nat, ok: bool)
    requires Idle(s, threads) && 1 <= count <= size && (ok <==> count == size) && (ok || s.registered == {FIRST})
    ensures Enabled(s, Load(count, {FIRST}, ok), size) && Fair(s, count, Load(count, {FIRST}, ok))
    ensures
      var s' := Apply(s, Load(count, {FIRST}, ok), size);
      Idle(s', threads) && s'.registered == {FIRST} && Queue(s', threads, count, 0)
  {
    hide ReleaseAll, InstanceOf;
    var s' := Apply(s, Load(count, {FIRST}, ok), size);
    assert s'.pool == Numbers(|s.refs|, count) && s'.systems == s.systems + Copies({FIRST}, count);
  }

  lemma NothingReached(threads: nat, size: nat, m: nat)
    ensures Reached(threads, size, m, [], Start(threads, 0), 0) && Idle(Start(threads, 0), threads)
  {
  }

  lemma Opened(threads: nat, size: nat, m: nat) returns (s: State)
    requires 1 <= m <= size
    ensures Reached(threads, size, m, Opening(size, m), s, 2) && Queue(s, threads, m, 0)
  {
    var start, first := Start(threads, 0), Load(size, {FIRST}, true);
    NothingReached(threads, size, m);
    LoadQueues(start, threads, size, size, true);
    assert [] + [first] == [first];
    s := Apply(start, first, size);
    assert Fair(start, m, first);
    OneStep(threads, size, m, [], start, 0, first);
    if m < size {
      LoadQueues(s, threads, size, m, false);
      hide Reached, Queue, Apply, Enabled, Idle;
      OneStep(threads, size, m, [first], s, 1, Load(m, {FIRST}, false));
      s := Apply(s, Load(m, {FIRST}, false), size);
    } else {
      ReachedLonger(threads, size, m, [first], s, 1);
    }
  }

  lemma ReachedLonger(threads: nat, size: nat, m: nat, labels: seq<Label>, s: State, n: nat)
    requires Reached(threads, size, m, labels, s, n)
    ensures Reached(threads, size, m, labels, s, n + 1)
  {
  }

  // ----- the failing lookup -----

  /** The last in the queue shares its instance with the first. */
  lemma LastSharesWithFirst(s: State, threads: nat, m: nat)
    requires Queue(s, threads, m, m + 1) && m < threads
    ensures
      var i := InstanceOf(s.pool, 1);
      && s.threads[0] == s.threads[m] == Thread(Running(FIRST, i), Some(i))
      && i < |s.systems| && s.systems[i] == {FIRST}
  {
    NextRoundSameSlot(1, m);
    hide Slot;
  }

  /** It returns, a load names one more system, and it is called for that one. */
  lemma ReturnAndReload(s: State, threads: nat, m: nat, size: nat)
    requires Queue(s, threads, m, m + 1) && m < threads
    ensures Enabled(s, Return(m), size)
    ensures
      var a := Apply(s, Return(m), size);
      && Quiet(a) && a.registered == {FIRST} && a.systems == s.systems
      && |a.threads| == threads && a.threads[m] == s.threads[m].(pc := Outside) && a.threads[0] == s.threads[0]
  {
    hide InstanceOf, ReleaseAll;
    assert s.threads[m] == Busy(s.pool, m + 1) && s.threads[0] == Busy(s.pool, 1);
  }

  lemma LoadAndCall(a: State, m: nat, size: nat)
    requires Quiet(a) && a.registered == {FIRST} && m < |a.threads| && a.threads[m].pc.Outside?
    ensures
      var load := Load(size, {FIRST, SECOND}, true);
      && Enabled(a, load, size)
      && var b := Apply(a, load, size);
      && Enabled(b, Call(m, SECOND), size)
      && var c := Apply(b, Call(m, SECOND), size);
      && c.threads == a.threads[m := a.threads[m].(pc := Locking(SECOND))]
      && a.systems <= c.systems
      && Enabled(c, Lock(m), size)
  {
    hide ReleaseAll, Numbers, Copies;
  }

  lemma LockMisses(c: State, m: nat, size: nat, i: nat)
    requires Enabled(c, Lock(m), size) && c.threads[m] == Thread(Locking(SECOND), Some(i))
    requires Alive(c, i) && i < |c.systems| && c.systems[i] == {FIRST}
    ensures !AllServed(Apply(c, Lock(m), size))
  {
    assert !CallServed(Apply(c, Lock(m), size), m);
  }

  lemma RunningIsAlive(threads: nat, size: nat, m: nat, labels: seq<Label>, s: State, n: nat, t: nat)
    requires Reached(threads, size, m, labels, s, n) && t < |s.threads| && s.threads[t].pc.Running?
    ensures Alive(s, s.threads[t].pc.instance)
  {
    ReachableCounted(threads, 0, size, labels);
    RunnerHolds(s, t);
  }

  /** `m + 1` threads call on a pool of `m`; the last returns, a load names one more system, and it is called for that. */
  function FailingRun(size: nat, m: nat): seq<Label> {
    WithCalls(Opening(size, m), m + 1) + [Return(m)] + [Load(size, {FIRST, SECOND}, true)] + [Call(m, SECOND)] + [Lock(m)]
  }

  /** With one thread more than instances, a run whose loads all name what is registered ends in a failing lookup. */
  lemma LookupFails(threads: nat, size: nat, m: nat) returns (s: State)
    requires 1 <= m <= size < TWO_32 - 1 && m < threads
    ensures Reached(threads, size, m, FailingRun(size, m), s, 4 * m + 10) && !AllServed(s)
  {
    var q := Opened(threads, size, m);
    var start := WithCalls(Opening(size, m), m + 1);
    q := QueueUp(threads, size, m, Opening(size, m), q, 2, m + 1);
    LastSharesWithFirst(q, threads, m);
    ReturnAndReload(q, threads, m, size);
    var i := InstanceOf(q.pool, 1);
    hide Reached, Queue, Apply, Enabled, AllServed, InstanceOf, Alive, WithCalls;
    var load := Load(size, {FIRST, SECOND}, true);
    OneStep(threads, size, m, start, q, 4 * m + 6, Return(m));
    var a := Apply(q, Return(m), size);
    LoadAndCall(a, m, size);
    OneStep(threads, size, m, start + [Return(m)], a, 4 * m + 7, load);
    var b := Apply(a, load, size);
    OneStep(threads, size, m, start + [Return(m)] + [load], b, 4 * m + 8, Call(m, SECOND));
    var c := Apply(b, Call(m, SECOND), size);
    var labels := start + [Return(m)] + [load] + [Call(m, SECOND)];
    RunningIsAlive(threads, size, m, labels, c, 4 * m + 9, 0);
    LockMisses(c, m, size, i);
    OneStep(threads, size, m, labels, c, 4 * m + 9, Lock(m));
    s := Apply(c, Lock(m), size);
  }

  /** Two runs on the pool the code fills: 2 threads after a load that made one instance, and 101 threads with no failed load. */
  lemma SharedInstanceMissesSystem()
    ensures Cumulative(FailingRun(POOL_SIZE, 1)) && After(2, 0, POOL_SIZE, FailingRun(POOL_SIZE, 1)).Some?
    ensures !AllServed(After(2, 0, POOL_SIZE, FailingRun(POOL_SIZE, 1)).value)
    ensures Cumulative(FailingRun(POOL_SIZE, POOL_SIZE)) && After(POOL_SIZE + 1, 0, POOL_SIZE, FailingRun(POOL_SIZE, POOL_SIZE)).Some?
    ensures !AllServed(After(POOL_SIZE + 1, 0, POOL_SIZE, FailingRun(POOL_SIZE, POOL_SIZE)).value)
  {
    hide FailingRun, Cumulative, After, AllServed;
    var _ := LookupFails(2, POOL_SIZE, 1);
    var _ := LookupFails(POOL_SIZE + 1, POOL_SIZE, POOL_SIZE);
  }

  // ----- the bound -----

  /** Runs short of wraparound whose loads fill the pool with at least `room` instances if they fill it at all. */
  ghost predicate Run(threads: nat, counter: nat, size: nat, room: nat, labels: seq<Label>) {
    After(threads, counter, size, labels).Some? && Roomy(room, labels) && counter + |labels| < TWO_64
  }

  ghost predicate RunsExclusive(threads: nat, size: nat, room: nat) {
    forall counter: nat, labels :: Run(threads, counter, size, room, labels) ==> AlwaysExclusive(threads, counter, size, labels)
  }

  ghost predicate RunsServed(threads: nat, size: nat, room: nat) {
    forall counter: nat, labels :: Run(threads, counter, size, room, labels) && Cumulative(labels) ==>
      AlwaysServed(threads, counter, size, labels)
  }

  lemma FewThreadsRun(threads: nat, counter: nat, size: nat, room: nat, labels: seq<Label>)
    requires Run(threads, counter, size, room, labels) && threads <= room
    ensures AlwaysExclusive(threads, counter, size, labels)
    ensures Cumulative(labels) ==> AlwaysServed(threads, counter, size, labels)
  {
    assert Roomy(threads, labels);
    hide *;
    FewThreadsFit(threads, counter, size, labels);
    ExclusiveIffFits(threads, counter, size, labels);
    if Cumulative(labels) {
      DispatchFindsSystem(threads, counter, size, labels);
    }
  }

  /** Main result: every lookup of every run succeeds, and every run is exclusive, exactly when the threads do not
    * outnumber the smallest filling of the pool. */
  lemma DispatchTotalIff(threads: nat, size: nat, room: nat)
    requires 1 <= room <= size < TWO_32 - 1
    ensures RunsServed(threads, size, room) <==> threads <= room
    ensures RunsExclusive(threads, size, room) <==> threads <= room
  {
    if threads <= room {
      forall counter: nat, labels | Run(threads, counter, size, room, labels)
        ensures AlwaysExclusive(threads, counter, size, labels)
        ensures Cumulative(labels) ==> AlwaysServed(threads, counter, size, labels)
      {
        FewThreadsRun(threads, counter, size, room, labels);
      }
    } else {
      var s := LookupFails(threads, size, room);
      var labels := FailingRun(size, room);
      hide FailingRun;
      assert Run(threads, 0, size, room, labels) && Cumulative(labels);
      assert !AlwaysServed(threads, 0, size, labels);
      if AlwaysExclusive(threads, 0, size, labels) {
        ExclusiveIffFits(threads, 0, size, labels);
        DispatchFindsSystem(threads, 0, size, labels);
      }
    }
  }

  /** For the pool the code fills: 100 threads if no load fails half-way, one thread if any may. */
  lemma DispatchAtPoolSize(threads: nat)
    ensures RunsServed(threads, POOL_SIZE, POOL_SIZE) <==> threads <= POOL_SIZE
    ensures RunsServed(threads, POOL_SIZE, 1) <==> threads <= 1
  {
    hide RunsServed, RunsExclusive;
    DispatchTotalIff(threads, POOL_SIZE, POOL_SIZE);
    DispatchTotalIff(threads, POOL_SIZE, 1);
  }
}
