/** The host's globals as loads, resets and system calls update them. */
module HostGlobals {
  import opened Bytes
  import opened CallMemory
  import opened InstancePool
  import opened Loader
  import opened ModuleInstance
  import opened Wrappers

  function Ids(ids: seq<int>): set<int> {
    set i | 0 <= i < |ids| :: ids[i]
  }

  /** `ensure_minst` without interruption: the cached instance if it is alive, else the one the next ticket stands for. */
  function Ensured(s: State, t: nat): State
    requires t < |s.threads| && s.threads[t].pc.Locking?
    requires s.pool != [] || CachesAlive(s, t)
  {
    var locked := Apply(s, Lock(t), POOL_SIZE);
    if locked.threads[t].pc.Running? then locked
    else Apply(Apply(locked, Ticket(t), POOL_SIZE), Fetch(t), POOL_SIZE)
  }

  /** The memory search of the load loop. */
  method FindMemory(exports: seq<Export>) returns (memory: Option<Export>)
    ensures memory == FirstMemory(exports)
  {
    MemoryNone(exports);
    for i := 0 to |exports|
      invariant forall j :: 0 <= j < i ==> !exports[j].kind.MemoryExport?
    {
      if exports[i].kind.MemoryExport? {
        MemoryIsFirst(exports, i);
        return Some(exports[i]);
      }
    }
    return None;
  }

  /** One turn of the load loop: the guest's initializer runs with an arena that is gone again afterwards. */
  method LoadInstance(info: CallMemInfo, host: HostFunctions, a: Answer, ids: seq<int>, names: seq<string>)
    returns (err: LoadError, table: map<int, Export>, memories: seq<Export>)
    requires |ids| == |names| && Sound(a, host, names)
    requires info.State() == Err(NotSet)
    modifies info
    ensures info.State() == Err(NotSet)
    ensures err == AnswerError(a, host, names)
    ensures err == LoadOk ==> |memories| == 1 && InstanceFilled(table, memories[0], a, ids, names)
  {
    table, memories := map[], [];
    err := CreateError(OutcomeOf(a.compiles, host, a.imports, a.instantiates));
    if err != LoadOk {
      return;
    }
    err, table := GetSystemImplExports(a.exports, ids, names);
    if err != LoadOk {
      return;
    }
    var memory := FindMemory(a.exports);
    memories := [memory.value];
    var buffer := new byte[ARENA_SIZE](_ => 0);
    info.Set(buffer);
    AllocPushes(info.State().value, memory.value.item, MemoryPointer);
    var _ := info.AllocPointer(memory.value.item, MemoryPointer);
    var initialize := FindExport(a.exports, "_initialize");
    if initialize.Some? && a.traps {
      err := InitializeFail;
    }
    info.Clear();
  }

  function SystemsOf(tables: seq<map<int, Export>>): (r: seq<set<int>>)
    ensures |r| == |tables|
  {
    seq(|tables|, i requires 0 <= i < |tables| => tables[i].Keys)
  }

  /** An instance's table and memory are those of the guest it was made from. */
  ghost predicate InstanceFilled(table: map<int, Export>, memory: Export, a: Answer, ids: seq<int>, names: seq<string>)
    requires |ids| == |names|
  {
    Serves(table, a.exports, ids, names, |ids|) && FirstMemory(a.exports) == Some(memory)
  }

  /** The instances numbered from `first` are those of the first `n` answers. */
  ghost predicate FilledFrom(
    first: nat, tables: seq<map<int, Export>>, memories: seq<Export>,
    answers: seq<Answer>, ids: seq<int>, names: seq<string>, n: nat)
    requires |ids| == |names|
  {
    && |tables| == |memories| == first + n && n <= |answers|
    && forall k :: 0 <= k < n ==> InstanceFilled(tables[first + k], memories[first + k], answers[k], ids, names)
  }

  predicate AllLoad(answers: seq<Answer>, host: HostFunctions, names: seq<string>, n: nat)
    requires n <= |answers|
  {
    forall k :: 0 <= k < n ==> AnswerError(answers[k], host, names) == LoadOk
  }

  lemma NothingFilled(
    tables: seq<map<int, Export>>, memories: seq<Export>, answers: seq<Answer>, ids: seq<int>, names: seq<string>)
    requires |ids| == |names| && |tables| == |memories|
    ensures FilledFrom(|tables|, tables, memories, answers, ids, names, 0)
  {
  }

  lemma OneMoreEach(first: nat, refs: seq<nat>, systems: seq<set<int>>, ids: set<int>, n: nat)
    ensures Numbers(first, n + 1) == Numbers(first, n) + [first + n]
    ensures refs + Copies(1, n + 1) == refs + Copies(1, n) + [1]
    ensures systems + Copies(ids, n + 1) == systems + Copies(ids, n) + [ids]
  {
  }

  lemma OneMoreLoads(answers: seq<Answer>, host: HostFunctions, names: seq<string>, n: nat)
    requires n < |answers| && AllLoad(answers, host, names, n) && AnswerError(answers[n], host, names) == LoadOk
    ensures AllLoad(answers, host, names, n + 1)
  {
  }

  lemma OneMoreFilled(
    first: nat, tables: seq<map<int, Export>>, memories: seq<Export>, table: map<int, Export>, memory: Export,
    answers: seq<Answer>, ids: seq<int>, names: seq<string>, n: nat)
    requires |ids| == |names| && n < |answers|
    requires FilledFrom(first, tables, memories, answers, ids, names, n)
    requires InstanceFilled(table, memory, answers[n], ids, names)
    ensures FilledFrom(first, tables + [table], memories + [memory], answers, ids, names, n + 1)
    ensures SystemsOf(tables + [table]) == SystemsOf(tables) + [Ids(ids)]
  {
    hide FirstMemory, Named;
  }

  /** The part of the host's globals that a load fills. */
  datatype Contents = Contents(pool: seq<nat>, refs: seq<nat>, tables: seq<map<int, Export>>, memories: seq<Export>) {
    function With(table: map<int, Export>, memory: Export): Contents {
      Contents(pool + [|refs|], refs + [1], tables + [table], memories + [memory])
    }
  }

  /** What a load promises that started from `from` with an empty pool and has added `n` instances. */
  ghost predicate FilledTo(
    from: Contents, c: Contents, host: HostFunctions, answers: seq<Answer>, ids: seq<int>, names: seq<string>, n: nat)
    requires |ids| == |names| && n <= |answers|
  {
    && c.pool == Numbers(|from.refs|, n)
    && c.refs == from.refs + Copies(1, n)
    && SystemsOf(c.tables) == SystemsOf(from.tables) + Copies(Ids(ids), n)
    && |c.tables| == |c.memories| == |c.refs|
    && FilledFrom(|from.refs|, c.tables, c.memories, answers, ids, names, n)
    && AllLoad(answers, host, names, n)
  }

  lemma NothingFilledYet(from: Contents, host: HostFunctions, answers: seq<Answer>, ids: seq<int>, names: seq<string>)
    requires |ids| == |names| && from.pool == [] && |from.tables| == |from.memories| == |from.refs|
    ensures FilledTo(from, from, host, answers, ids, names, 0)
  {
    NothingFilled(from.tables, from.memories, answers, ids, names);
  }

  lemma InstanceAdded(
    from: Contents, c: Contents, table: map<int, Export>, memory: Export,
    host: HostFunctions, answers: seq<Answer>, ids: seq<int>, names: seq<string>, n: nat)
    requires |ids| == |names| && n < |answers| && FilledTo(from, c, host, answers, ids, names, n)
    requires AnswerError(answers[n], host, names) == LoadOk && InstanceFilled(table, memory, answers[n], ids, names)
    ensures FilledTo(from, c.With(table, memory), host, answers, ids, names, n + 1)
  {
    hide FilledFrom, AllLoad, AnswerError, InstanceFilled, SystemsOf, Numbers, Copies;
    OneMoreLoads(answers, host, names, n);
    OneMoreEach(|from.refs|, from.refs, SystemsOf(from.tables), Ids(ids), n);
    OneMoreFilled(|from.refs|, c.tables, c.memories, table, memory, answers, ids, names, n);
  }

  lemma FilledToMeans(
    from: Contents, c: Contents, host: HostFunctions, answers: seq<Answer>, ids: seq<int>, names: seq<string>, n: nat)
    requires |ids| == |names| && n <= |answers| && FilledTo(from, c, host, answers, ids, names, n)
    ensures |c.pool| == n && c.pool == Numbers(|from.refs|, n)
    ensures c.refs == from.refs + Copies(1, n)
    ensures SystemsOf(c.tables) == SystemsOf(from.tables) + Copies(Ids(ids), n)
    ensures |c.tables| == |c.memories| == |c.refs|
    ensures FilledFrom(|from.refs|, c.tables, c.memories, answers, ids, names, n)
    ensures AllLoad(answers, host, names, n)
  {
  }

  class Host {
    var threads: seq<Thread>
    var pool: seq<nat>
    var counter: nat
    var refs: seq<nat>
    var tables: seq<map<int, Export>>
    var memories: seq<Export>
    var registered: set<int>
    ghost var ledger: Ledger
    const info: CallMemInfo

    function Filled(): Contents
      reads this
    {
      Contents(pool, refs, tables, memories)
    }

    ghost function View(): State
      reads this
    {
      State.State(threads, pool, counter, refs, SystemsOf(tables), registered, ledger)
    }

    constructor (count: nat, info: CallMemInfo)
      ensures View() == Start(count, 0) && this.info == info && memories == []
    {
      threads := seq(count, _ => Thread(Outside, None));
      pool, counter, refs, tables, memories, registered := [], 0, [], [], [], {};
      ledger := Ledger(0, 0, map[]);
      this.info := info;
    }

    /** `ensure_minst`, on thread `t`. */
    method EnsureMinst(t: nat) returns (instance: nat)
      requires t < |threads| && threads[t].pc.Locking? && (pool != [] || CachesAlive(View(), t))
      modifies this`threads, this`counter, this`refs, this`ledger
      ensures View() == Ensured(old(View()), t)
      ensures old(CachesAlive(View(), t)) ==> instance == old(threads[t]).cached.value && counter == old(counter)
      ensures !old(CachesAlive(View(), t)) ==>
        && counter == (old(counter) + 1) % 0x1_0000_0000_0000_0000
        && instance == old(pool)[counter % |old(pool)|]
      ensures threads == old(threads)[t := Thread(Running(old(threads[t]).pc.system, instance), Some(instance))]
      ensures t < |threads| && threads[t].pc.Running? && instance == threads[t].pc.instance
    {
      var system := threads[t].pc.system;
      if threads[t].cached.Some? && threads[t].cached.value < |refs| && refs[threads[t].cached.value] > 0 {
        instance := threads[t].cached.value;
      } else {
        counter := Increment(counter);
        instance := pool[counter % |pool|];
        ledger := Ledger(ledger.base, ledger.taken + 1, ledger.ticketOf[t := counter]);
      }
      refs := Acquire(refs, instance);
      threads := threads[t := Thread(Running(system, instance), Some(instance))];
    }

    method Reset()
      requires Quiet(View())
      modifies this`pool, this`counter, this`refs, this`ledger
      ensures View() == Apply(old(View()), Label.Reset, POOL_SIZE)
      ensures pool == [] && counter == 0
    {
      refs := ReleaseAll(refs, pool);
      pool, counter := [], 0;
      ledger := Ledger(0, 0, map[]);
    }

    /** The load loop: it adds instances until one fails. */
    method Fill(host: HostFunctions, answers: seq<Answer>, ids: seq<int>, names: seq<string>) returns (err: LoadError, count: nat)
      requires |answers| == POOL_SIZE && |ids| == |names|
      requires pool == [] && |refs| == |tables| == |memories|
      requires forall i :: 0 <= i < POOL_SIZE ==> Sound(answers[i], host, names)
      requires info.State() == Err(NotSet)
      modifies this`pool, this`refs, this`tables, this`memories, info
      ensures info.State() == Err(NotSet)
      ensures count <= POOL_SIZE && FilledTo(old(Filled()), Filled(), host, answers, ids, names, count)
      ensures err == if count == POOL_SIZE then LoadOk else AnswerError(answers[count], host, names)
      ensures err == LoadOk <==> count == POOL_SIZE
    {
      ghost var from := Filled();
      NothingFilledYet(from, host, answers, ids, names);
      hide FilledTo, InstanceFilled, AnswerError, Sound, CallMemInfo.State;
      count := 0;
      while count < POOL_SIZE
        invariant count <= POOL_SIZE && info.State() == Err(NotSet)
        invariant FilledTo(from, Filled(), host, answers, ids, names, count)
      {
        var table: map<int, Export>, memory: seq<Export>;
        err, table, memory := LoadInstance(info, host, answers[count], ids, names);
        if err != LoadOk {
          return;
        }
        InstanceAdded(from, Filled(), table, memory[0], host, answers, ids, names, count);
        pool := pool + [|refs|];
        refs, tables, memories := refs + [1], tables + [table], memories + memory;
        count := count + 1;
      }
      err := LoadOk;
    }

    method Load(host: HostFunctions, answers: seq<Answer>, ids: seq<int>, names: seq<string>) returns (err: LoadError)
      requires |answers| == POOL_SIZE && |ids| == |names| && |refs| == |tables| == |memories|
      requires forall i :: 0 <= i < POOL_SIZE ==> Sound(answers[i], host, names)
      requires info.State() == Err(NotSet)
      modifies this`pool, this`refs, this`tables, this`memories, this`registered, this`ledger, info
      ensures info.State() == Err(NotSet)
      ensures View() == Loaded(old(View()), |pool|, Ids(ids), err == LoadOk)
      ensures |pool| <= POOL_SIZE && AllLoad(answers, host, names, |pool|)
      ensures err == LoadOk <==> |pool| == 100
      ensures forall k :: 0 <= k < |pool| ==> pool[k] == |old(refs)| + k && refs[pool[k]] == 1
      ensures registered == if err == LoadOk then old(registered) + Ids(ids) else old(registered)
      ensures |pool| < POOL_SIZE ==> err == AnswerError(answers[|pool|], host, names)
      ensures |refs| == |tables| == |memories|
      ensures FilledFrom(|old(refs)|, tables, memories, answers, ids, names, |pool|)
    {
      refs := ReleaseAll(refs, pool);
      pool := [];
      ledger := Ledger(counter, 0, map[]);
      hide AnswerError, Sound, CallMemInfo.State;
      ghost var from := Filled();
      var count: nat;
      err, count := Fill(host, answers, ids, names);
      FilledToMeans(from, Filled(), host, answers, ids, names, count);
      assert forall k :: 0 <= k < |pool| ==> pool[k] == |from.refs| + k && refs[pool[k]] == 1;
      hide FilledTo, FilledFrom, AllLoad, Numbers, Copies, SystemsOf, ReleaseAll, Ids;
      if err == LoadOk {
        registered := registered + Ids(ids);
      }
    }
  }
}
