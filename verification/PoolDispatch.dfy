/** Whether a call finds its system in the instance it runs, over runs whose loads name all registered systems. */
module PoolDispatch {
  import opened InstancePool
  import opened PoolExclusivity

  // ----- what a run's labels say about systems and instances -----

  /** The systems registered by the loads that succeeded. */
  function Registered(labels: seq<Label>): set<int> {
    if labels == [] then {}
    else
      var before, l := labels[..|labels| - 1], labels[|labels| - 1];
      if l.Load? && l.ok then Registered(before) + l.ids else Registered(before)
  }

  /** Every load names all systems registered so far. */
  predicate Cumulative(labels: seq<Label>) {
    labels != [] ==>
      var before, l := labels[..|labels| - 1], labels[|labels| - 1];
      Cumulative(before) && (l.Load? ==> Registered(before) <= l.ids)
  }

  /** How many instances a run has made. */
  function MadeCount(labels: seq<Label>): nat {
    if labels == [] then 0
    else
      var l := labels[|labels| - 1];
      MadeCount(labels[..|labels| - 1]) + if l.Load? then l.count else 0
  }

  /** The load that made instance `i`, by its place in the run. */
  function Maker(labels: seq<Label>, i: nat): (j: nat)
    requires i < MadeCount(labels)
    ensures j < |labels| && labels[j].Load?
  {
    var before := labels[..|labels| - 1];
    if i < MadeCount(before) then Maker(before, i) else |before|
  }

  /** The pool has been cleared since step `j`. */
  predicate ClearedSince(labels: seq<Label>, j: nat) {
    exists k :: j < k < |labels| && !ByThread(labels[k])
  }

  /** The load at step `j` did not name the system, but a later one that succeeded did. */
  predicate NamedSince(labels: seq<Label>, j: nat, system: int)
    requires j < |labels| && labels[j].Load?
  {
    system !in labels[j].ids && exists k :: j < k < |labels| && NamesSystem(labels[k], system)
  }

  predicate NamesSystem(l: Label, system: int) {
    l.Load? && l.ok && system in l.ids
  }

  lemma {:induction false} RegisteredFromLabels(threads: nat, counter: nat, size: nat, labels: seq<Label>)
    requires After(threads, counter, size, labels).Some?
    ensures After(threads, counter, size, labels).value.registered == Registered(labels)
  {
    if labels != [] {
      RegisteredFromLabels(threads, counter, size, labels[..|labels| - 1]);
      hide Slot, Increment, ReleaseAll;
    }
  }

  /** Under cumulative loads, a registered system that the load at `j` did not name was named since. */
  lemma {:induction false} RegisteredSince(labels: seq<Label>, j: nat, system: int)
    requires Cumulative(labels) && j < |labels| && labels[j].Load?
    requires system in Registered(labels) && system !in labels[j].ids
    ensures NamedSince(labels, j, system)
    decreases |labels|
  {
    var before, l := labels[..|labels| - 1], labels[|labels| - 1];
    if j < |before| {
      if system in Registered(before) {
        RegisteredSince(before, j, system);
        var k :| j < k < |before| && NamesSystem(before[k], system);
        assert NamesSystem(labels[k], system);
      } else {
        assert NamesSystem(labels[|before|], system);
      }
    }
  }

  lemma StepCounts(s: State, l: Label, size: nat)
    requires Enabled(s, l, size)
    ensures |Apply(s, l, size).refs| == |s.refs| + if l.Load? then l.count else 0
    ensures |Apply(s, l, size).systems| == |s.systems| + if l.Load? then l.count else 0
  {
    hide Slot, Increment, ReleaseAll;
  }

  lemma {:induction false} CountFromLabels(threads: nat, counter: nat, size: nat, labels: seq<Label>)
    requires After(threads, counter, size, labels).Some?
    ensures
      var s := After(threads, counter, size, labels).value;
      |s.refs| == |s.systems| == MadeCount(labels)
  {
    if labels != [] {
      var before := labels[..|labels| - 1];
      CountFromLabels(threads, counter, size, before);
      StepCounts(After(threads, counter, size, before).value, labels[|before|], size);
      hide Apply, Enabled;
    }
  }

  /** A step keeps what old instances export; new ones export what their load names. */
  lemma StepSystems(s: State, l: Label, size: nat, i: nat)
    requires Enabled(s, l, size) && |s.refs| == |s.systems| && i < |Apply(s, l, size).systems|
    ensures Apply(s, l, size).systems[i] == if i < |s.systems| then s.systems[i] else if l.Load? then l.ids else {}
    ensures i >= |s.systems| ==> l.Load?
  {
    hide Slot, Increment, ReleaseAll;
  }

  /** A step of a thread keeps the pool; a reset empties it; after a load it holds just the new instances. */
  lemma StepPool(s: State, l: Label, size: nat, i: nat)
    requires Enabled(s, l, size)
    ensures ByThread(l) ==> Apply(s, l, size).pool == s.pool
    ensures !ByThread(l) ==> (i in Apply(s, l, size).pool <==> l.Load? && |s.refs| <= i < |s.refs| + l.count)
  {
    hide Slot, Increment, ReleaseAll;
    if l.Load? && |s.refs| <= i < |s.refs| + l.count {
      assert Numbers(|s.refs|, l.count)[i - |s.refs|] == i;
    }
  }

  lemma {:induction false} SystemsFromLabels(threads: nat, counter: nat, size: nat, labels: seq<Label>, i: nat)
    requires After(threads, counter, size, labels).Some? && i < MadeCount(labels)
    ensures |After(threads, counter, size, labels).value.systems| == MadeCount(labels)
    ensures After(threads, counter, size, labels).value.systems[i] == labels[Maker(labels, i)].ids
  {
    var before, l := labels[..|labels| - 1], labels[|labels| - 1];
    CountFromLabels(threads, counter, size, labels);
    CountFromLabels(threads, counter, size, before);
    StepSystems(After(threads, counter, size, before).value, l, size, i);
    if i < MadeCount(before) {
      SystemsFromLabels(threads, counter, size, before, i);
    }
    hide Apply, Enabled;
  }

  /** An instance is in the pool until the pool is cleared. */
  lemma {:induction false} PoolFromLabels(threads: nat, counter: nat, size: nat, labels: seq<Label>, i: nat)
    requires After(threads, counter, size, labels).Some?
    ensures i in After(threads, counter, size, labels).value.pool <==>
      i < MadeCount(labels) && !ClearedSince(labels, Maker(labels, i))
  {
    if labels != [] {
      var before, l := labels[..|labels| - 1], labels[|labels| - 1];
      PoolFromLabels(threads, counter, size, before, i);
      CountFromLabels(threads, counter, size, before);
      StepPool(After(threads, counter, size, before).value, l, size, i);
      if i < MadeCount(before) {
        ClearedOneMore(labels, Maker(before, i));
      }
      hide Apply, Enabled;
    }
  }

  lemma ClearedOneMore(labels: seq<Label>, j: nat)
    requires labels != [] && j < |labels| - 1
    ensures ClearedSince(labels, j) <==> ClearedSince(labels[..|labels| - 1], j) || !ByThread(labels[|labels| - 1])
  {
    var before := labels[..|labels| - 1];
    if ClearedSince(before, j) {
      var k :| j < k < |before| && !ByThread(before[k]);
      assert !ByThread(labels[k]);
    }
    if ClearedSince(labels, j) && ByThread(labels[|labels| - 1]) {
      var k :| j < k < |labels| && !ByThread(labels[k]);
      assert !ByThread(before[k]);
    }
    if !ByThread(labels[|labels| - 1]) {
      assert ClearedSince(labels, j);
    }
  }

  // ----- dispatch, state by state -----

  /** A call that has not found its instance yet is for a registered system. */
  predicate CallRegistered(s: State, t: nat)
    requires t < |s.threads|
  {
    Inside(s.threads[t]) ==> s.threads[t].pc.system in s.registered
  }

  /** Instances of the pool export every registered system, and calls are for registered ones. */
  ghost predicate PoolServes(s: State) {
    && |s.systems| == |s.refs|
    && (forall k :: 0 <= k < |s.pool| ==> s.pool[k] < |s.systems| && s.registered <= s.systems[s.pool[k]])
    && (forall t :: 0 <= t < |s.threads| ==> CallRegistered(s, t))
  }

  /** A running call's instance exports its system: the lookup succeeds. */
  predicate CallServed(s: State, t: nat)
    requires t < |s.threads|
  {
    s.threads[t].pc.Running? ==>
      s.threads[t].pc.instance < |s.systems| && s.threads[t].pc.system in s.systems[s.threads[t].pc.instance]
  }

  predicate AllServed(s: State) {
    forall t :: 0 <= t < |s.threads| ==> CallServed(s, t)
  }

  lemma StepKeepsPoolServes(s: State, l: Label, size: nat)
    requires PoolServes(s) && Enabled(s, l, size) && (l.Load? ==> s.registered <= l.ids)
    ensures PoolServes(Apply(s, l, size))
  {
    hide Slot, Increment, ReleaseAll;
    var s' := Apply(s, l, size);
    forall t | 0 <= t < |s'.threads|
      ensures CallRegistered(s', t)
    {
      assert CallRegistered(s, t);
    }
  }

  lemma {:induction false} ReachablePoolServes(threads: nat, counter: nat, size: nat, labels: seq<Label>)
    requires After(threads, counter, size, labels).Some? && Cumulative(labels)
    ensures PoolServes(After(threads, counter, size, labels).value)
  {
    if labels != [] {
      var before := labels[..|labels| - 1];
      ReachablePoolServes(threads, counter, size, before);
      RegisteredFromLabels(threads, counter, size, before);
      hide Apply, PoolServes;
      StepKeepsPoolServes(After(threads, counter, size, before).value, labels[|labels| - 1], size);
    }
  }

  /** The fast path finds an instance outside the pool that lacks the system. */
  predicate Misses(s: State, l: Label) {
    && l.Lock? && l.t < |s.threads| && s.threads[l.t].pc.Locking?
    && CachesAlive(s, l.t)
    && s.threads[l.t].cached.value !in s.pool
    && s.threads[l.t].cached.value < |s.systems|
    && s.threads[l.t].pc.system !in s.systems[s.threads[l.t].cached.value]
  }

  /** Only a lock can lead to a failing lookup: tickets lead into the pool, and the pool serves every call. */
  lemma StepServesIff(s: State, l: Label, size: nat)
    requires Counted(s) && PoolServes(s) && AllServed(s) && Enabled(s, l, size)
    ensures AllServed(Apply(s, l, size)) <==> !Misses(s, l)
  {
    hide Slot, Increment, ReleaseAll, CountOk;
    var s' := Apply(s, l, size);
    if Misses(s, l) {
      assert !CallServed(s', l.t);
    } else {
      forall t | 0 <= t < |s'.threads|
        ensures CallServed(s', t)
      {
        assert CallServed(s, t) && CallRegistered(s, t);
      }
    }
  }

  // ----- dispatch, run by run -----

  /** Every state of the run serves its calls. */
  ghost predicate AlwaysServed(threads: nat, counter: nat, size: nat, labels: seq<Label>)
    requires After(threads, counter, size, labels).Some?
  {
    && AllServed(After(threads, counter, size, labels).value)
    && (labels != [] ==> AlwaysServed(threads, counter, size, labels[..|labels| - 1]))
  }

  /** Some thread other than `t` runs instance `i`. */
  predicate RunElsewhere(s: State, t: nat, i: nat) {
    exists u :: 0 <= u < |s.threads| && u != t && RunsIt(s.threads[u], i)
  }

  /** A thread comes back to an instance of an earlier filling, which another thread's call keeps alive, for a system
    * that the filling's load did not name and a later one did. */
  predicate ReusesOutgrown(s: State, labels: seq<Label>, l: Label) {
    && l.Lock? && l.t < |s.threads| && s.threads[l.t].pc.Locking? && s.threads[l.t].cached.Some?
    && var i := s.threads[l.t].cached.value;
    && i < MadeCount(labels)
    && ClearedSince(labels, Maker(labels, i))
    && RunElsewhere(s, l.t, i)
    && NamedSince(labels, Maker(labels, i), s.threads[l.t].pc.system)
  }

  ghost predicate NeverOutgrown(threads: nat, counter: nat, size: nat, labels: seq<Label>)
    requires After(threads, counter, size, labels).Some?
  {
    labels != [] ==>
      var before := labels[..|labels| - 1];
      && NeverOutgrown(threads, counter, size, before)
      && !ReusesOutgrown(After(threads, counter, size, before).value, before, labels[|labels| - 1])
  }

  /** An instance outside the pool is alive exactly while a thread runs it. */
  lemma AliveElsewhere(threads: nat, counter: nat, size: nat, labels: seq<Label>, t: nat, i: nat)
    requires After(threads, counter, size, labels).Some?
    requires
      var s := After(threads, counter, size, labels).value;
      t < |s.threads| && !s.threads[t].pc.Running? && i < |s.refs| && i !in s.pool
    ensures
      var s := After(threads, counter, size, labels).value;
      Alive(s, i) <==> RunElsewhere(s, t, i)
  {
    InstanceLifetime(threads, counter, size, labels, i);
  }

  lemma MissesIffOutgrown(threads: nat, counter: nat, size: nat, labels: seq<Label>, l: Label)
    requires After(threads, counter, size, labels).Some? && Cumulative(labels)
    ensures
      var s := After(threads, counter, size, labels).value;
      Misses(s, l) <==> ReusesOutgrown(s, labels, l)
  {
    var s := After(threads, counter, size, labels).value;
    if l.Lock? && l.t < |s.threads| && s.threads[l.t].pc.Locking? && s.threads[l.t].cached.Some? {
      var i, system := s.threads[l.t].cached.value, s.threads[l.t].pc.system;
      CountFromLabels(threads, counter, size, labels);
      PoolFromLabels(threads, counter, size, labels, i);
      if i < MadeCount(labels) {
        SystemsFromLabels(threads, counter, size, labels, i);
      }
      ReachablePoolServes(threads, counter, size, labels);
      RegisteredFromLabels(threads, counter, size, labels);
      assert CallRegistered(s, l.t);
      hide After, PoolServes, Registered, Maker, ClearedSince, RunElsewhere;
      if i < |s.refs| && i !in s.pool {
        AliveElsewhere(threads, counter, size, labels, l.t, i);
        if system !in s.systems[i] {
          RegisteredSince(labels, Maker(labels, i), system);
        }
      }
    }
  }

  /** Main result: under cumulative loads, the lookup never fails over a run exactly when no call reuses an outgrown instance. */
  lemma {:induction false} DispatchServesIff(threads: nat, counter: nat, size: nat, labels: seq<Label>)
    requires After(threads, counter, size, labels).Some? && Cumulative(labels)
    ensures AlwaysServed(threads, counter, size, labels) <==> NeverOutgrown(threads, counter, size, labels)
  {
    if labels != [] {
      var before, l := labels[..|labels| - 1], labels[|labels| - 1];
      DispatchServesIff(threads, counter, size, before);
      ReachableCounted(threads, counter, size, before);
      ReachablePoolServes(threads, counter, size, before);
      MissesIffOutgrown(threads, counter, size, before, l);
      hide Apply, PoolServes, AllServed, ReusesOutgrown, Misses, Counted, Cumulative;
      if AlwaysServed(threads, counter, size, before) {
        StepServesIff(After(threads, counter, size, before).value, l, size);
      }
    }
  }

  // ----- exclusive runs serve every call -----

  /** Only the thread that caches an instance can run it. */
  lemma OnlyCacherRuns(s: State, t: nat, u: nat)
    requires Solo(s) && t < |s.threads| && u < |s.threads|
    requires !s.threads[t].pc.Running? && s.threads[t].cached.Some?
    ensures Runs(s.threads[u], s.threads[t].cached.value) == 0
  {
    assert RunsCached(s.threads[u]);
  }

  /** A live instance that a thread outside a call caches is one of the present pool. */
  lemma CachedIsPooled(s: State, t: nat)
    requires Counted(s) && Solo(s)
    requires t < |s.threads| && !s.threads[t].pc.Running? && s.threads[t].cached.Some?
    requires Alive(s, s.threads[t].cached.value)
    ensures s.threads[t].cached.value in s.pool
  {
    var i := s.threads[t].cached.value;
    forall u | 0 <= u < |s.threads|
      ensures Runs(s.threads[u], i) == 0
    {
      OnlyCacherRuns(s, t, u);
    }
    RunnersExist(s.threads, i);
    assert CountOk(s, i);
  }

  /** Main result: while no more tickets are taken than there are instances, every running call finds its system. */
  lemma {:induction false} DispatchFindsSystem(threads: nat, counter: nat, size: nat, labels: seq<Label>)
    requires After(threads, counter, size, labels).Some? && Cumulative(labels)
    requires AlwaysFits(threads, counter, size, labels)
    ensures AlwaysServed(threads, counter, size, labels)
  {
    if labels != [] {
      var before, l := labels[..|labels| - 1], labels[|labels| - 1];
      DispatchFindsSystem(threads, counter, size, before);
      ReachableInvariant(threads, counter, size, before);
      ReachablePoolServes(threads, counter, size, before);
      var s := After(threads, counter, size, before).value;
      if Misses(s, l) {
        CachedIsPooled(s, l.t);
      }
      hide Apply, PoolServes, AllServed, Misses, Counted, Cumulative, Ledgered, Expired, Solo;
      StepServesIff(s, l, size);
    }
  }
}
