/** Threads taking instances from the shared pool, interleaved with resets and reloads. */
module InstancePool {
  import opened Bytes
  import opened Wrappers

  /** The number of instances a load that succeeds fills the pool with. */
  const POOL_SIZE := 100

  /** Where a thread is in `ecsact_si_wasm_system_impl` for a system id. */
  datatype Pc =
    | Outside
    | Locking(system: int)                 // about to lock its weak reference
    | NeedsTicket(system: int)             // the weak reference had expired
    | HasIndex(system: int, index: nat)    // ticket taken, pool not read yet
    | Running(system: int, instance: nat)  // holds a strong reference

  /** A thread, with the instance its weak reference names; instances are numbered as they are created. */
  datatype Thread = Thread(pc: Pc, cached: Option<nat>)

  /** Which thread took which ticket since the pool was last cleared. No step reads it. */
  datatype Ledger = Ledger(base: nat, taken: nat, ticketOf: map<nat, nat>)

  datatype State = State(
    threads: seq<Thread>,
    pool: seq<nat>,
    counter: nat,
    refs: seq<nat>,           // strong references per instance; at 0 it is destroyed
    systems: seq<set<int>>,   // the system ids each instance exports
    registered: set<int>,
    ledger: Ledger)

  datatype Label =
    | Call(t: nat, system: int)
    | Lock(t: nat)
    | Ticket(t: nat)
    | Fetch(t: nat)
    | Return(t: nat)
    | Reset
    | Load(count: nat, ids: set<int>, ok: bool)

  function Start(threads: nat, counter: nat): State {
    State(seq(threads, _ => Thread(Outside, None)), [], counter, [], [], {}, Ledger(counter, 0, map[]))
  }

  predicate Inside(th: Thread) {
    th.pc.Locking? || th.pc.NeedsTicket? || th.pc.HasIndex?
  }

  /** No thread is inside `ensure_minst`, where the pool is read without a lock. */
  predicate Quiet(s: State) {
    forall t :: 0 <= t < |s.threads| ==> !Inside(s.threads[t])
  }

  predicate Enabled(s: State, l: Label, size: nat) {
    match l
    case Call(t, system) => t < |s.threads| && s.threads[t].pc.Outside? && system in s.registered
    case Lock(t) => t < |s.threads| && s.threads[t].pc.Locking?
    case Ticket(t) => t < |s.threads| && s.threads[t].pc.NeedsTicket? && s.pool != []
    case Fetch(t) => t < |s.threads| && s.threads[t].pc.HasIndex? && s.threads[t].pc.index < |s.pool|
    case Return(t) => t < |s.threads| && s.threads[t].pc.Running?
    case Reset => Quiet(s)
    case Load(count, ids, ok) => Quiet(s) && if ok then count == size else count < size
  }

  predicate Alive(s: State, i: nat) {
    i < |s.refs| && s.refs[i] > 0
  }

  /** The thread's weak reference can still be locked. */
  predicate CachesAlive(s: State, t: nat)
    requires t < |s.threads|
  {
    s.threads[t].cached.Some? && Alive(s, s.threads[t].cached.value)
  }

  function Acquire(refs: seq<nat>, i: nat): (r: seq<nat>)
    ensures |r| == |refs|
  {
    if i < |refs| then refs[i := refs[i] + 1] else refs
  }

  function Release(refs: seq<nat>, i: nat): (r: seq<nat>)
    ensures |r| == |refs|
  {
    if i < |refs| && refs[i] > 0 then refs[i := refs[i] - 1] else refs
  }

  /** Clearing the vector releases its entries one by one. */
  function ReleaseAll(refs: seq<nat>, pool: seq<nat>): (r: seq<nat>)
    ensures |r| == |refs|
  {
    if pool == [] then refs else Release(ReleaseAll(refs, pool[..|pool| - 1]), pool[|pool| - 1])
  }

  /** The counter is a `size_t`. */
  function Increment(counter: nat): (r: nat)
    ensures counter + 1 < TWO_64 ==> r == counter + 1
  {
    (counter + 1) % TWO_64
  }

  /** The pool position a ticket stands for. */
  function Slot(ticket: nat, n: nat): (k: nat)
    requires n > 0
    ensures k < n
  {
    ticket % n
  }

  function Apply(s: State, l: Label, size: nat): State
    requires Enabled(s, l, size)
  {
    match l
    case Call(t, system) => s.(threads := s.threads[t := s.threads[t].(pc := Locking(system))])
    case Lock(t) =>
      var th := s.threads[t];
      if CachesAlive(s, t) then
        s.(
          threads := s.threads[t := th.(pc := Running(th.pc.system, th.cached.value))],
          refs := Acquire(s.refs, th.cached.value))
      else s.(threads := s.threads[t := th.(pc := NeedsTicket(th.pc.system))])
    case Ticket(t) =>
      var ticket := Increment(s.counter);
      s.(
        threads := s.threads[t := s.threads[t].(pc := HasIndex(s.threads[t].pc.system, Slot(ticket, |s.pool|)))],
        counter := ticket,
        ledger := Ledger(s.ledger.base, s.ledger.taken + 1, s.ledger.ticketOf[t := ticket]))
    case Fetch(t) =>
      var i := s.pool[s.threads[t].pc.index];
      s.(
        threads := s.threads[t := Thread(Running(s.threads[t].pc.system, i), Some(i))],
        refs := Acquire(s.refs, i))
    case Return(t) =>
      s.(
        threads := s.threads[t := s.threads[t].(pc := Outside)],
        refs := Release(s.refs, s.threads[t].pc.instance))
    case Reset =>
      s.(pool := [], counter := 0, refs := ReleaseAll(s.refs, s.pool), ledger := Ledger(0, 0, map[]))
    case Load(count, ids, ok) => Loaded(s, count, ids, ok)
  }

  function Numbers(first: nat, n: nat): (r: seq<nat>)
    ensures |r| == n
  {
    seq(n, k => first + k)
  }

  function Copies<T>(v: T, n: nat): (r: seq<T>)
    ensures |r| == n
  {
    seq(n, _ => v)
  }

  /** A load empties the pool and fills it with new instances; it registers its systems only if it succeeds. */
  function Loaded(s: State, count: nat, ids: set<int>, ok: bool): State {
    s.(
      pool := Numbers(|s.refs|, count),
      refs := ReleaseAll(s.refs, s.pool) + Copies(1, count),
      systems := s.systems + Copies(ids, count),
      registered := if ok then s.registered + ids else s.registered,
      ledger := Ledger(s.counter, 0, map[]))
  }

  function After(threads: nat, counter: nat, size: nat, labels: seq<Label>): Option<State> {
    if labels == [] then Some(Start(threads, counter))
    else
      var l := labels[|labels| - 1];
      match After(threads, counter, size, labels[..|labels| - 1])
      case None => None
      case Some(s) => if Enabled(s, l, size) then Some(Apply(s, l, size)) else None
  }

  // ----- reference counts -----

  function Runners(threads: seq<Thread>, i: nat): nat {
    if threads == [] then 0 else Runners(threads[..|threads| - 1], i) + Runs(threads[|threads| - 1], i)
  }

  predicate RunsIt(th: Thread, i: nat) {
    th.pc.Running? && th.pc.instance == i
  }

  /** A thread's share of an instance's strong references. */
  function Runs(th: Thread, i: nat): nat {
    if RunsIt(th, i) then 1 else 0
  }

  lemma {:induction false} RunnersUpdate(threads: seq<Thread>, t: nat, th: Thread, i: nat)
    requires t < |threads|
    ensures Runners(threads[t := th], i) == Runners(threads, i) - Runs(threads[t], i) + Runs(th, i)
    decreases |threads|
  {
    var n := |threads| - 1;
    if t < n {
      RunnersUpdate(threads[..n], t, th, i);
      assert threads[t := th][..n] == threads[..n][t := th];
    } else {
      assert threads[t := th][..n] == threads[..n];
    }
  }

  lemma {:induction false} RunnersExist(threads: seq<Thread>, i: nat)
    ensures Runners(threads, i) > 0 <==> exists t :: 0 <= t < |threads| && RunsIt(threads[t], i)
    decreases |threads|
  {
    if threads != [] {
      RunnersExist(threads[..|threads| - 1], i);
    }
  }

  predicate Distinct(pool: seq<nat>) {
    forall j, k :: 0 <= j < k < |pool| ==> pool[j] != pool[k]
  }

  predicate Within(pool: seq<nat>, bound: nat) {
    forall k :: 0 <= k < |pool| ==> pool[k] < bound
  }

  predicate ThreadWithin(th: Thread, bound: nat) {
    (th.cached.Some? ==> th.cached.value < bound) && (th.pc.Running? ==> th.pc.instance < bound)
  }

  predicate ThreadsWithin(threads: seq<Thread>, bound: nat) {
    forall t :: 0 <= t < |threads| ==> ThreadWithin(threads[t], bound)
  }

  lemma {:induction false} NoRunners(threads: seq<Thread>, bound: nat, i: nat)
    requires ThreadsWithin(threads, bound) && bound <= i
    ensures Runners(threads, i) == 0
    decreases |threads|
  {
    if threads != [] {
      NoRunners(threads[..|threads| - 1], bound, i);
      assert ThreadWithin(threads[|threads| - 1], bound);
    }
  }

  predicate CountOk(s: State, i: nat)
    requires i < |s.refs|
  {
    s.refs[i] == (if i in s.pool then 1 else 0) + Runners(s.threads, i)
  }

  /** Every strong count is the pool's reference plus one per running thread. */
  ghost predicate Counted(s: State) {
    && |s.systems| == |s.refs|
    && Distinct(s.pool) && Within(s.pool, |s.refs|)
    && ThreadsWithin(s.threads, |s.refs|)
    && forall i :: 0 <= i < |s.refs| ==> CountOk(s, i)
  }

  lemma {:induction false} ReleaseAllCounts(refs: seq<nat>, pool: seq<nat>, i: nat)
    requires Distinct(pool) && Within(pool, |refs|) && i < |refs|
    requires forall k :: 0 <= k < |pool| ==> refs[pool[k]] > 0
    ensures ReleaseAll(refs, pool)[i] == refs[i] - (if i in pool then 1 else 0)
    decreases |pool|
  {
    if pool != [] {
      var n := |pool| - 1;
      var before := pool[..n];
      assert pool == before + [pool[n]];
      ReleaseAllCounts(refs, before, i);
      ReleaseAllCounts(refs, before, pool[n]);
    }
  }

  /** A step of thread `t` alone keeps the count of `i` if it accounts for its own reference. */
  lemma ThreadStepCounts(s: State, s': State, t: nat, th: Thread, i: nat)
    requires Counted(s) && t < |s.threads| && i < |s.refs| == |s'.refs| && s'.pool == s.pool
    requires s'.threads == s.threads[t := th]
    requires s'.refs[i] + Runs(s.threads[t], i) == s.refs[i] + Runs(th, i)
    ensures CountOk(s', i)
  {
    assert CountOk(s, i);
    RunnersUpdate(s.threads, t, th, i);
  }

  lemma RunnerHolds(s: State, t: nat)
    requires Counted(s) && t < |s.threads| && s.threads[t].pc.Running?
    ensures s.threads[t].pc.instance < |s.refs| && s.refs[s.threads[t].pc.instance] > 0
  {
    var i := s.threads[t].pc.instance;
    assert ThreadWithin(s.threads[t], |s.refs|);
    assert CountOk(s, i);
    assert RunsIt(s.threads[t], i);
    RunnersExist(s.threads, i);
  }

  lemma PoolHolds(s: State, k: nat)
    requires Counted(s) && k < |s.pool|
    ensures s.pool[k] < |s.refs| && s.refs[s.pool[k]] > 0
  {
    assert CountOk(s, s.pool[k]);
  }

  /** A thread of its own accord: calls, locks, takes a ticket, reads the pool or returns. */
  predicate ByThread(l: Label) {
    !l.Reset? && !l.Load?
  }

  lemma ThreadLabelKeepsCounted(s: State, l: Label, size: nat)
    requires Counted(s) && Enabled(s, l, size) && ByThread(l)
    ensures Counted(Apply(s, l, size))
  {
    var s' := Apply(s, l, size);
    if l.Return? {
      RunnerHolds(s, l.t);
    }
    if l.Fetch? {
      PoolHolds(s, s.threads[l.t].pc.index);
    }
    assert ThreadWithin(s.threads[l.t], |s.refs|);
    forall i | 0 <= i < |s'.refs|
      ensures CountOk(s', i)
    {
      ThreadStepCounts(s, s', l.t, s'.threads[l.t], i);
    }
  }

  lemma HostLabelCounts(s: State, l: Label, size: nat, i: nat)
    requires Counted(s) && Enabled(s, l, size) && !ByThread(l) && i < |Apply(s, l, size).refs|
    ensures CountOk(Apply(s, l, size), i)
  {
    forall k | 0 <= k < |s.pool|
      ensures s.refs[s.pool[k]] > 0
    {
      PoolHolds(s, k);
    }
    if i < |s.refs| {
      assert CountOk(s, i);
      ReleaseAllCounts(s.refs, s.pool, i);
    } else {
      assert l.Load? && Apply(s, l, size).pool[i - |s.refs|] == i;
      NoRunners(s.threads, |s.refs|, i);
    }
  }

  lemma HostLabelKeepsCounted(s: State, l: Label, size: nat)
    requires Counted(s) && Enabled(s, l, size) && !ByThread(l)
    ensures Counted(Apply(s, l, size))
  {
    var s' := Apply(s, l, size);
    forall i | 0 <= i < |s'.refs|
      ensures CountOk(s', i)
    {
      HostLabelCounts(s, l, size, i);
    }
    forall t | 0 <= t < |s'.threads|
      ensures ThreadWithin(s'.threads[t], |s'.refs|)
    {
      assert ThreadWithin(s.threads[t], |s.refs|);
    }
  }

  /** A thread that took the slow path found its weak reference expired, and it stays expired. */
  predicate ExpiredOk(s: State, t: nat)
    requires t < |s.threads|
  {
    var th := s.threads[t];
    (th.pc.NeedsTicket? || th.pc.HasIndex?) && th.cached.Some? ==> !Alive(s, th.cached.value)
  }

  ghost predicate Expired(s: State) {
    forall t :: 0 <= t < |s.threads| ==> ExpiredOk(s, t)
  }

  /** A destroyed instance is never revived. */
  lemma DeadStaysDead(s: State, l: Label, size: nat, i: nat)
    requires Counted(s) && Enabled(s, l, size) && i < |s.refs| && !Alive(s, i)
    ensures !Alive(Apply(s, l, size), i)
  {
    assert CountOk(s, i);
    if !ByThread(l) {
      HostLabelCounts(s, l, size, i);
      RunnersExist(s.threads, i);
    } else if l.Fetch? {
      PoolHolds(s, s.threads[l.t].pc.index);
    }
  }

  lemma StepKeepsExpired(s: State, l: Label, size: nat)
    requires Counted(s) && Expired(s) && Enabled(s, l, size)
    ensures Expired(Apply(s, l, size))
  {
    var s' := Apply(s, l, size);
    forall t | 0 <= t < |s'.threads|
      ensures ExpiredOk(s', t)
    {
      assert ExpiredOk(s, t);
      assert ThreadWithin(s.threads[t], |s.refs|);
      if s.threads[t].cached.Some? && !Alive(s, s.threads[t].cached.value) {
        DeadStaysDead(s, l, size, s.threads[t].cached.value);
      }
    }
  }

  /** Reference counts hold in every reachable state, whatever the order of threads, resets and loads. */
  lemma {:induction false} ReachableCounted(threads: nat, counter: nat, size: nat, labels: seq<Label>)
    requires After(threads, counter, size, labels).Some?
    ensures Counted(After(threads, counter, size, labels).value)
    ensures Expired(After(threads, counter, size, labels).value)
    ensures |After(threads, counter, size, labels).value.threads| == threads
  {
    if labels != [] {
      var before, l := labels[..|labels| - 1], labels[|labels| - 1];
      ReachableCounted(threads, counter, size, before);
      var s := After(threads, counter, size, before).value;
      StepKeepsExpired(s, l, size);
      if ByThread(l) {
        ThreadLabelKeepsCounted(s, l, size);
      } else {
        HostLabelKeepsCounted(s, l, size);
      }
    }
  }

  predicate IndexOk(s: State, t: nat)
    requires t < |s.threads|
  {
    s.threads[t].pc.HasIndex? ==> s.threads[t].pc.index < |s.pool|
  }

  /** An index stays in range until the pool is read, because nothing clears the pool in between. */
  lemma {:induction false} IndicesInRange(threads: nat, counter: nat, size: nat, labels: seq<Label>, t: nat)
    requires After(threads, counter, size, labels).Some? && t < threads
    ensures t < |After(threads, counter, size, labels).value.threads|
    ensures IndexOk(After(threads, counter, size, labels).value, t)
  {
    if labels != [] {
      hide Increment, Slot, ReleaseAll;
      IndicesInRange(threads, counter, size, labels[..|labels| - 1], t);
    }
  }

  /** An instance is destroyed exactly when it is in neither the pool nor a running call. */
  lemma InstanceLifetime(threads: nat, counter: nat, size: nat, labels: seq<Label>, i: nat)
    requires After(threads, counter, size, labels).Some?
    ensures
      var s := After(threads, counter, size, labels).value;
      i < |s.refs| ==>
        (Alive(s, i) <==> i in s.pool || exists t :: 0 <= t < |s.threads| && RunsIt(s.threads[t], i))
  {
    ReachableCounted(threads, counter, size, labels);
    var s := After(threads, counter, size, labels).value;
    if i < |s.refs| {
      assert CountOk(s, i);
      RunnersExist(s.threads, i);
    }
  }

  /** A thread keeps its instance as long as that instance is alive. */
  lemma KeepsInstanceWhileAlive(threads: nat, counter: nat, size: nat, labels: seq<Label>, l: Label, t: nat)
    requires After(threads, counter, size, labels + [l]).Some? && t < threads
    ensures After(threads, counter, size, labels).Some?
    ensures
      var s := After(threads, counter, size, labels).value;
      var s' := After(threads, counter, size, labels + [l]).value;
      && t < |s.threads| && t < |s'.threads|
      && (s.threads[t].cached.Some? && Alive(s, s.threads[t].cached.value) ==> s'.threads[t].cached == s.threads[t].cached)
  {
    assert (labels + [l])[..|labels|] == labels;
    ReachableCounted(threads, counter, size, labels);
    ReachableCounted(threads, counter, size, labels + [l]);
    var s := After(threads, counter, size, labels).value;
    assert ExpiredOk(s, t);
  }

  // ----- tickets -----

  /** Short of wraparound, tickets are drawn one after the other. */
  lemma {:induction false} TicketsAreConsecutive(threads: nat, counter: nat, size: nat, labels: seq<Label>)
    requires After(threads, counter, size, labels).Some? && counter + |labels| < TWO_64
    ensures
      var s := After(threads, counter, size, labels).value;
      s.counter == s.ledger.base + s.ledger.taken <= counter + |labels|
  {
    if labels != [] {
      hide Slot;
      TicketsAreConsecutive(threads, counter, size, labels[..|labels| - 1]);
    }
  }

  /** From a reset on, no ticket has been taken. */
  predicate UntouchedSince(labels: seq<Label>, j: nat) {
    && j < |labels| && labels[j].Reset?
    && forall k :: j < k < |labels| ==> !labels[k].Ticket?
  }

  lemma {:induction false} CounterAfterReset(threads: nat, counter: nat, size: nat, labels: seq<Label>, j: nat)
    requires After(threads, counter, size, labels).Some? && UntouchedSince(labels, j)
    ensures After(threads, counter, size, labels).value.counter == 0
    decreases |labels|
  {
    var before := labels[..|labels| - 1];
    if j < |before| {
      assert UntouchedSince(before, j) && !labels[|before|].Ticket?;
      hide ReleaseAll, Slot, Increment;
      CounterAfterReset(threads, counter, size, before, j);
    }
  }

  /** The first ticket after a reset is 1, whatever was drawn before it. */
  lemma FirstTicketAfterReset(threads: nat, counter: nat, size: nat, labels: seq<Label>, j: nat, t: nat)
    requires After(threads, counter, size, labels + [Ticket(t)]).Some? && UntouchedSince(labels, j)
    ensures
      var s := After(threads, counter, size, labels + [Ticket(t)]).value;
      && s.counter == 1 && s.pool != []
      && t < |s.threads| && s.threads[t].pc.HasIndex? && s.threads[t].pc.index == 1 % |s.pool|
  {
    assert (labels + [Ticket(t)])[..|labels|] == labels;
    CounterAfterReset(threads, counter, size, labels, j);
    var s := After(threads, counter, size, labels).value;
    assert Increment(s.counter) == 1;
    hide ReleaseAll, Increment;
  }

  /** A ticket is the counter's next value, and its remainder by the pool's size is the thread's index. */
  lemma TicketIsNext(s: State, t: nat, size: nat)
    requires Enabled(s, Ticket(t), size)
    ensures
      var s' := Apply(s, Ticket(t), size);
      && s'.counter == (s.counter + 1) % 0x1_0000_0000_0000_0000
      && s'.threads[t].pc == HasIndex(s.threads[t].pc.system, s'.counter % |s.pool|)
  {
  }

  lemma MultiplesApart(x: int, y: int, n: nat)
    requires n > 0
    ensures x < y ==> x * n + n <= y * n
  {
    if x < y {
      var d: nat := y - x - 1;
      assert d * n >= 0;
      assert (x + 1 + d) * n == x * n + n + d * n;
    }
  }

  lemma QuotientOf(a: int, q: int, r: int, n: nat)
    requires 0 <= r < n && a == q * n + r
    ensures a / n == q && a % n == r
  {
    MultiplesApart(q, a / n, n);
    MultiplesApart(a / n, q, n);
  }
}
