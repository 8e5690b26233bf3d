/** The execution-context callbacks a guest imports, and the same guest run directly on host contexts. */
module SystemExecution {
  import opened Bytes
  import opened CallMemory

  /** A pointer the host passes on: null, or an offset into one instance's linear memory. */
  datatype HostPointer = Null | Into(memory: word64, offset: int)

  /** A call into the Ecsact runtime, or a WASI callback reaching for its linear memory. */
  datatype HostCall =
    | Id(context: word64)
    | Parent(context: word64)
    | Other(context: word64, assoc: int)
    | Same(context: word64, second: word64)
    | Entity(context: word64)
    | Action(context: word64, outData: HostPointer)
    | Add(context: word64, component: int, source: HostPointer)
    | Remove(context: word64, component: int, indexed: HostPointer)
    | Get(context: word64, component: int, outData: HostPointer, indexed: HostPointer)
    | Update(context: word64, component: int, source: HostPointer, indexed: HostPointer)
    | Generate(context: word64, count: int, ids: HostPointer, sources: seq<HostPointer>)
    | WasiMemory(memory: word64)

  /** The runtime's answer, which may depend on every call made so far. */
  datatype Reply = Reply(context: word64, number: int)
  type Runtime = (seq<HostCall>, HostCall) -> Reply

  /** An import call. `H` is how contexts are named: by raw handle, by context pointer, or by order of issue. */
  datatype Import<H> =
    | CallParent(h: H)
    | CallOther(h: H, assoc: int)
    | CallSame(h: H, second: H)
    | CallEntity(h: H)
    | CallAction(h: H, outData: int)
    | CallAdd(h: H, component: int, source: int)
    | CallRemove(h: H, component: int, indexed: int)
    | CallGet(h: H, component: int, outData: int, indexed: int)
    | CallUpdate(h: H, component: int, source: int, indexed: int)
      // `memories` is what every linear memory holds at the time of the call
    | CallGenerate(h: H, count: int, ids: int, list: int, memories: map<word64, seq<byte>>)
    | CallWasi

  /** A guest: its next import call, given every host call it has caused and the numbers returned to it.
    * The runtime's answers, whatever they wrote to guest memory, are functions of those calls. */
  type Guest = (seq<HostCall>, seq<int>) -> Import<nat>

  predicate Issues<H>(call: Import<H>) { call.CallParent? || call.CallOther? }

  function Resolve(memory: word64, guestPointer: int): HostPointer {
    if guestPointer == 0 then Null else Into(memory, guestPointer)
  }

  // ----- the bridge -----

  /** What one callback leaves behind: the arena, the host calls it made, and the number or handle it returns. */
  datatype Effect = Effect(arena: Arena, calls: seq<HostCall>, number: seq<int>, handle: seq<int>)

  function GetContext(a: Arena, h: int): Result<word64> { Read(a, h, ContextPointer) }

  function GetContextMemory(a: Arena, h: int): Result<word64> { Read(a, h - POINTER_SIZE, MemoryPointer) }

  /** The gather's precondition: the list of `count` guest pointers lies in the memory that is read. */
  predicate Gatherable(memory: word64, count: int, list: int, memories: map<word64, seq<byte>>) {
    count == 0 || (0 < count && 0 < list && memory in memories && list + 4 * count <= |memories[memory]|)
  }

  function Gathered(memory: word64, count: nat, list: int, memories: map<word64, seq<byte>>): (r: seq<HostPointer>)
    requires Gatherable(memory, count, list, memories)
    ensures |r| == count
  {
    seq(count, i requires 0 <= i < count => Resolve(memory, LoadInt32(memories[memory], list + 4 * i)))
  }

  function Callback(rt: Runtime, trace: seq<HostCall>, a: Arena, call: Import<int>): Result<Effect> {
    match call
    case CallParent(h) =>
      var context :- GetContext(a, h);
      var memory :- GetContextMemory(a, h);
      var below :- Alloc(a, memory, MemoryPointer);
      var parent := rt(trace + [Id(context)], Parent(context)).context;
      var issued :- Alloc(below.0, parent, ContextPointer);
      Ok(Effect(issued.0, [Id(context), Parent(context)], [], [issued.1]))
    case CallOther(h, assoc) =>
      var context :- GetContext(a, h);
      var memory :- GetContextMemory(a, h);
      var other := rt(trace + [Id(context)], Other(context, assoc)).context;
      var below :- Alloc(a, memory, MemoryPointer);
      var issued :- Alloc(below.0, other, ContextPointer);
      Ok(Effect(issued.0, [Id(context), Other(context, assoc)], [], [issued.1]))
    case CallSame(h, h2) =>
      var c1 :- GetContext(a, h);
      var c2 :- GetContext(a, h2);
      Ok(Effect(a, [Same(c1, c2)], [if rt(trace, Same(c1, c2)).number != 0 then 1 else 0], []))
    case CallEntity(h) =>
      var context :- GetContext(a, h);
      Ok(Effect(a, [Entity(context)], [ToInt32(rt(trace, Entity(context)).number)], []))
    case CallAction(h, p) =>
      var context :- GetContext(a, h);
      var memory :- GetContextMemory(a, h);
      Ok(Effect(a, [Action(context, Resolve(memory, p))], [], []))
    case CallAdd(h, c, p) =>
      var context :- GetContext(a, h);
      var memory :- GetContextMemory(a, h);
      Ok(Effect(a, [Add(context, c, Resolve(memory, p))], [], []))
    case CallRemove(h, c, p) =>
      var context :- GetContext(a, h);
      var memory :- GetContextMemory(a, h);
      Ok(Effect(a, [Remove(context, c, Resolve(memory, p))], [], []))
    case CallGet(h, c, p, q) =>
      var context :- GetContext(a, h);
      var memory :- GetContextMemory(a, h);
      Ok(Effect(a, [Get(context, c, Resolve(memory, p), Resolve(memory, q))], [], []))
    case CallUpdate(h, c, p, q) =>
      var context :- GetContext(a, h);
      var memory :- GetContextMemory(a, h);
      Ok(Effect(a, [Update(context, c, Resolve(memory, p), Resolve(memory, q))], [], []))
    case CallGenerate(h, count, ids, list, memories) =>
      var context :- GetContext(a, h);
      var memory :- GetContextMemory(a, h);
      if !Gatherable(memory, count, list, memories) then Err(IllegalGuest)
      else
        var sources := Gathered(memory, count, list, memories);
        Ok(Effect(a, [Generate(context, count, Resolve(memory, ids), sources)], [], []))
    case CallWasi =>
      var memory :- Read(a, 0, MemoryPointer);
      Ok(Effect(a, [WasiMemory(memory)], [], []))
  }

  // ----- what the runtime is handed -----

  /** The host pointer a guest pointer stands for: null for 0, else that offset into the instance's memory. */
  predicate PointsTo(p: HostPointer, memory: Result<word64>, guestPointer: int) {
    && (p.Null? <==> guestPointer == 0)
    && (p.Into? ==> memory == Ok(p.memory) && p.offset == guestPointer)
  }

  /** The calls a callback makes, argument by argument, and the number it returns. */
  ghost predicate Emits(rt: Runtime, trace: seq<HostCall>, a: Arena, call: Import<int>, calls: seq<HostCall>, number: seq<int>) {
    var context := Read(a, if call.CallWasi? then 0 else call.h, ContextPointer);
    var memory := Read(a, if call.CallWasi? then 0 else call.h - 8, MemoryPointer);
    && (!call.CallSame? && !call.CallEntity? ==> number == [])
    && match call
       case CallParent(_) => context.Ok? && calls == [Id(context.value), Parent(context.value)]
       case CallOther(_, assoc) => context.Ok? && calls == [Id(context.value), Other(context.value, assoc)]
       case CallSame(_, h) =>
         && |calls| == 1 && calls[0].Same?
         && context == Ok(calls[0].context) && Read(a, h, ContextPointer) == Ok(calls[0].second)
         && number == [if rt(trace, calls[0]).number == 0 then 0 else 1]
       case CallEntity(_) =>
         && |calls| == 1 && calls[0].Entity? && context == Ok(calls[0].context)
         && |number| == 1 && -0x8000_0000 <= number[0] < 0x8000_0000
         && (rt(trace, calls[0]).number - number[0]) % 0x1_0000_0000 == 0
       case CallAction(_, p) =>
         && |calls| == 1 && calls[0].Action? && context == Ok(calls[0].context)
         && PointsTo(calls[0].outData, memory, p)
       case CallAdd(_, component, p) =>
         && |calls| == 1 && calls[0].Add? && context == Ok(calls[0].context) && calls[0].component == component
         && PointsTo(calls[0].source, memory, p)
       case CallRemove(_, component, p) =>
         && |calls| == 1 && calls[0].Remove? && context == Ok(calls[0].context) && calls[0].component == component
         && PointsTo(calls[0].indexed, memory, p)
       case CallGet(_, component, p, q) =>
         && |calls| == 1 && calls[0].Get? && context == Ok(calls[0].context) && calls[0].component == component
         && PointsTo(calls[0].outData, memory, p) && PointsTo(calls[0].indexed, memory, q)
       case CallUpdate(_, component, p, q) =>
         && |calls| == 1 && calls[0].Update? && context == Ok(calls[0].context) && calls[0].component == component
         && PointsTo(calls[0].source, memory, p) && PointsTo(calls[0].indexed, memory, q)
       case CallGenerate(_, count, ids, list, memories) =>
         && |calls| == 1 && calls[0].Generate? && context == Ok(calls[0].context) && calls[0].count == count
         && PointsTo(calls[0].ids, memory, ids)
         && |calls[0].sources| == count
         && forall i :: 0 <= i < count ==> PointsToListed(calls[0].sources[i], memory, memories, list + 4 * i)
       case CallWasi => |calls| == 1 && calls[0].WasiMemory? && memory == Ok(calls[0].memory)
  }

  /** The same of the guest pointer listed at `at` in that memory. */
  predicate PointsToListed(p: HostPointer, memory: Result<word64>, memories: map<word64, seq<byte>>, at: int) {
    && memory.Ok? && memory.value in memories
    && 0 <= at && at + 4 <= |memories[memory.value]|
    && PointsTo(p, memory, LoadInt32(memories[memory.value], at))
  }

  /** Main result: the runtime is handed the guest's arguments, each in its place and each pointer at its own offset. */
  lemma {:induction false} CallbackEmits(rt: Runtime, trace: seq<HostCall>, a: Arena, call: Import<int>)
    requires Callback(rt, trace, a, call).Ok?
    ensures
      var e := Callback(rt, trace, a, call).value;
      Emits(rt, trace, a, call, e.calls, e.number)
  {
    hide Read, Alloc, LoadInt32;
    if call.CallEntity? {
      ToInt32Means(rt(trace, Entity(GetContext(a, call.h).value)).number);
    }
  }

  /** A guest's position in a call: the arena, the handles it was issued, the host's trace and the numbers seen. */
  datatype Bridged = Bridged(arena: Arena, handles: seq<int>, trace: seq<HostCall>, seen: seq<int>)

  function Rename<H>(call: Import<nat>, names: seq<H>): Result<Import<H>> {
    match call
    case CallParent(h) => if h < |names| then Ok(CallParent(names[h])) else Err(IllegalGuest)
    case CallOther(h, assoc) => if h < |names| then Ok(CallOther(names[h], assoc)) else Err(IllegalGuest)
    case CallSame(h, h2) =>
      if h < |names| && h2 < |names| then Ok(CallSame(names[h], names[h2])) else Err(IllegalGuest)
    case CallEntity(h) => if h < |names| then Ok(CallEntity(names[h])) else Err(IllegalGuest)
    case CallAction(h, p) => if h < |names| then Ok(CallAction(names[h], p)) else Err(IllegalGuest)
    case CallAdd(h, c, p) => if h < |names| then Ok(CallAdd(names[h], c, p)) else Err(IllegalGuest)
    case CallRemove(h, c, p) => if h < |names| then Ok(CallRemove(names[h], c, p)) else Err(IllegalGuest)
    case CallGet(h, c, p, q) => if h < |names| then Ok(CallGet(names[h], c, p, q)) else Err(IllegalGuest)
    case CallUpdate(h, c, p, q) => if h < |names| then Ok(CallUpdate(names[h], c, p, q)) else Err(IllegalGuest)
    case CallGenerate(h, n, ids, list, m) =>
      if h < |names| then Ok(CallGenerate(names[h], n, ids, list, m)) else Err(IllegalGuest)
    case CallWasi => Ok(CallWasi)
  }

  /** Renaming replaces the names of contexts and nothing else: under their own names, a call stays what it is. */
  lemma RenameChangesNamesOnly(call: Import<nat>, names: seq<nat>)
    requires forall i :: 0 <= i < |names| ==> names[i] == i
    ensures Rename(call, names) ==
      if call.CallWasi? || (call.h < |names| && (call.CallSame? ==> call.second < |names|)) then Ok(call) else Err(IllegalGuest)
  {
  }

  /** The names are looked up one by one, so renaming again is renaming by the names of the names. */
  lemma RenameComposes(call: Import<nat>, names: seq<nat>, handles: seq<int>)
    requires forall i :: 0 <= i < |names| ==> names[i] < |handles|
    requires Rename(call, names).Ok?
    ensures Rename(Rename(call, names).value, handles) ==
      Rename(call, seq(|names|, i requires 0 <= i < |names| => handles[names[i]]))
  {
  }

  function BridgedStep(rt: Runtime, s: Bridged, call: Import<nat>): Result<Bridged> {
    var raw :- Rename(call, s.handles);
    var e :- Callback(rt, s.trace, s.arena, raw);
    Ok(Bridged(e.arena, s.handles + e.handle, s.trace + e.calls, s.seen + e.number))
  }

  /** `ecsact_si_wasm_system_impl` before the guest runs: memory at 0, the system's own context at 8. */
  function BridgedStart(data: seq<byte>, memory: word64, context: word64): Result<Bridged> {
    var first :- AllocPair(Fresh(data), memory, context);
    Ok(Bridged(first.0, [first.1], [], []))
  }

  function BridgedRun(rt: Runtime, data: seq<byte>, memory: word64, context: word64, g: Guest, n: nat): Result<Bridged> {
    if n == 0 then BridgedStart(data, memory, context)
    else
      var s :- BridgedRun(rt, data, memory, context, g, n - 1);
      BridgedStep(rt, s, g(s.trace, s.seen))
  }

  // ----- the reference: the guest runs on host contexts, with no arena -----

  datatype Direct = Direct(contexts: seq<word64>, trace: seq<HostCall>, seen: seq<int>)

  function Ask(rt: Runtime, s: Direct, call: HostCall): Direct { s.(trace := s.trace + [call]) }

  function DirectStep(rt: Runtime, s: Direct, memory: word64, call: Import<nat>): Result<Direct> {
    var named :- Rename(call, s.contexts);
    match named
    case CallParent(c) =>
      var asked := Ask(rt, s, Id(c));
      Ok(Ask(rt, asked, Parent(c)).(contexts := s.contexts + [rt(asked.trace, Parent(c)).context]))
    case CallOther(c, assoc) =>
      var asked := Ask(rt, s, Id(c));
      Ok(Ask(rt, asked, Other(c, assoc)).(contexts := s.contexts + [rt(asked.trace, Other(c, assoc)).context]))
    case CallSame(c, d) =>
      Ok(Ask(rt, s, Same(c, d)).(seen := s.seen + [if rt(s.trace, Same(c, d)).number != 0 then 1 else 0]))
    case CallEntity(c) =>
      Ok(Ask(rt, s, Entity(c)).(seen := s.seen + [ToInt32(rt(s.trace, Entity(c)).number)]))
    case CallAction(c, p) => Ok(Ask(rt, s, Action(c, Resolve(memory, p))))
    case CallAdd(c, id, p) => Ok(Ask(rt, s, Add(c, id, Resolve(memory, p))))
    case CallRemove(c, id, p) => Ok(Ask(rt, s, Remove(c, id, Resolve(memory, p))))
    case CallGet(c, id, p, q) => Ok(Ask(rt, s, Get(c, id, Resolve(memory, p), Resolve(memory, q))))
    case CallUpdate(c, id, p, q) => Ok(Ask(rt, s, Update(c, id, Resolve(memory, p), Resolve(memory, q))))
    case CallGenerate(c, count, ids, list, memories) =>
      if !Gatherable(memory, count, list, memories) then Err(IllegalGuest)
      else Ok(Ask(rt, s, Generate(c, count, Resolve(memory, ids), Gathered(memory, count, list, memories))))
    case CallWasi => Ok(Ask(rt, s, WasiMemory(memory)))
  }

  function DirectRun(rt: Runtime, memory: word64, context: word64, g: Guest, n: nat): Result<Direct> {
    if n == 0 then Ok(Direct([context], [], []))
    else
      var s :- DirectRun(rt, memory, context, g, n - 1);
      DirectStep(rt, s, memory, g(s.trace, s.seen))
  }

  /** How many of the first `n` calls are `parent` or `other`. */
  function IssueCount(rt: Runtime, memory: word64, context: word64, g: Guest, n: nat): nat
    requires DirectRun(rt, memory, context, g, n).Ok?
  {
    if n == 0 then 0
    else
      var s := DirectRun(rt, memory, context, g, n - 1).value;
      IssueCount(rt, memory, context, g, n - 1) + if Issues(g(s.trace, s.seen)) then 1 else 0
  }

  // ----- simulation -----

  ghost predicate Simulates(b: Bridged, d: Direct, memory: word64) {
    && Layout(b.arena, memory, d.contexts)
    && |d.contexts| > 0
    && |b.handles| == |d.contexts|
    && (forall k :: 0 <= k < |b.handles| ==> b.handles[k] == Handle(k))
    && b.trace == d.trace
    && b.seen == d.seen
  }

  lemma StartSimulates(data: seq<byte>, memory: word64, context: word64)
    requires |data| == ARENA_SIZE
    ensures BridgedStart(data, memory, context).Ok?
    ensures Simulates(BridgedStart(data, memory, context).value, Direct([context], [], []), memory)
  {
    AllocPairExtendsLayout(Fresh(data), memory, [], context);
    assert [] + [context] == [context];
  }

  /** `parent` appends its context, or faults exactly when 256 contexts are already held. */
  lemma ParentSimulates(rt: Runtime, b: Bridged, d: Direct, memory: word64, h: nat)
    requires Simulates(b, d, memory) && h < |d.contexts|
    ensures |d.contexts| >= 256 ==> BridgedStep(rt, b, CallParent(h)) == Err(OutOfRange)
    ensures |d.contexts| < 256 ==>
      && BridgedStep(rt, b, CallParent(h)).Ok?
      && Simulates(BridgedStep(rt, b, CallParent(h)).value, DirectStep(rt, d, memory, CallParent(h)).value, memory)
  {
    var c := d.contexts[h];
    var parent := rt(d.trace + [Id(c)], Parent(c)).context;
    LayoutDecodes(b.arena, memory, d.contexts, h);
    AllocPairExtendsLayout(b.arena, memory, d.contexts, parent);
    hide Layout, Read, Alloc, Emits;
    assert d.trace + [Id(c)] + [Parent(c)] == d.trace + [Id(c), Parent(c)];
  }

  /** `other` does the same with the context it asks for. */
  lemma OtherSimulates(rt: Runtime, b: Bridged, d: Direct, memory: word64, h: nat, assoc: int)
    requires Simulates(b, d, memory) && h < |d.contexts|
    ensures |d.contexts| >= 256 ==> BridgedStep(rt, b, CallOther(h, assoc)) == Err(OutOfRange)
    ensures |d.contexts| < 256 ==>
      && BridgedStep(rt, b, CallOther(h, assoc)).Ok?
      && Simulates(BridgedStep(rt, b, CallOther(h, assoc)).value, DirectStep(rt, d, memory, CallOther(h, assoc)).value, memory)
  {
    var c := d.contexts[h];
    var other := rt(d.trace + [Id(c)], Other(c, assoc)).context;
    LayoutDecodes(b.arena, memory, d.contexts, h);
    AllocPairExtendsLayout(b.arena, memory, d.contexts, other);
    hide Layout, Read, Alloc, Emits;
    assert d.trace + [Id(c)] + [Other(c, assoc)] == d.trace + [Id(c), Other(c, assoc)];
  }

  /** The handle that `parent` or `other` issues reads as the runtime's answer, over the instance's own memory. */
  lemma IssuedHandleReadsAnswer(rt: Runtime, b: Bridged, d: Direct, memory: word64, call: Import<nat>)
    requires Simulates(b, d, memory) && Issues(call) && call.h < |d.contexts| < 256
    ensures BridgedStep(rt, b, call).Ok?
    ensures
      var b' := BridgedStep(rt, b, call).value;
      var asked := |b'.trace| - 1;
      && |b'.handles| == |b.handles| + 1 && asked >= 0
      && var handle := b'.handles[|b.handles|];
      && Read(b'.arena, handle, ContextPointer) == Ok(rt(b'.trace[..asked], b'.trace[asked]).context)
      && Read(b'.arena, handle - 8, MemoryPointer) == Ok(memory)
  {
    if call.CallParent? {
      ParentSimulates(rt, b, d, memory, call.h);
    } else {
      OtherSimulates(rt, b, d, memory, call.h, call.assoc);
    }
    var b' := BridgedStep(rt, b, call).value;
    var d' := DirectStep(rt, d, memory, call).value;
    hide BridgedStep, Layout, Read;
    LayoutDecodes(b'.arena, memory, d'.contexts, |d.contexts|);
    assert b'.trace[..|b'.trace| - 1] == d.trace + [Id(d.contexts[call.h])];
  }

  lemma OtherCallSimulates(rt: Runtime, b: Bridged, d: Direct, memory: word64, call: Import<nat>)
    requires Simulates(b, d, memory) && DirectStep(rt, d, memory, call).Ok? && !Issues(call)
    ensures BridgedStep(rt, b, call).Ok?
    ensures Simulates(BridgedStep(rt, b, call).value, DirectStep(rt, d, memory, call).value, memory)
  {
    hide Layout, Read, Alloc, Gathered, Gatherable;
    LayoutDecodes(b.arena, memory, d.contexts, if call.CallWasi? then 0 else call.h);
    if call.CallSame? {
      LayoutDecodes(b.arena, memory, d.contexts, call.second);
    }
    var raw := Rename(call, b.handles);
    assert raw.Ok?;
    assert Callback(rt, b.trace, b.arena, raw.value).Ok?;
  }

  /** One import call: the two runs stay in step unless a 257th context no longer fits. */
  lemma StepSimulates(rt: Runtime, b: Bridged, d: Direct, memory: word64, call: Import<nat>)
    requires Simulates(b, d, memory) && DirectStep(rt, d, memory, call).Ok?
    ensures Issues(call) && |d.contexts| >= 256 ==> BridgedStep(rt, b, call) == Err(OutOfRange)
    ensures !Issues(call) || |d.contexts| < 256 ==>
      && BridgedStep(rt, b, call).Ok?
      && Simulates(BridgedStep(rt, b, call).value, DirectStep(rt, d, memory, call).value, memory)
  {
    match call {
      case CallParent(h) => ParentSimulates(rt, b, d, memory, h);
      case CallOther(h, assoc) => OtherSimulates(rt, b, d, memory, h, assoc);
      case _ => OtherCallSimulates(rt, b, d, memory, call);
    }
  }

  /** Main result: bridged and direct runs agree until the 256th `parent` or `other`, which leaves the arena. */
  lemma {:induction false} HandleTransparency(rt: Runtime, data: seq<byte>, memory: word64, context: word64, g: Guest, n: nat)
    requires |data| == ARENA_SIZE
    requires DirectRun(rt, memory, context, g, n).Ok?
    ensures |DirectRun(rt, memory, context, g, n).value.contexts| == 1 + IssueCount(rt, memory, context, g, n)
    ensures
      var direct := DirectRun(rt, memory, context, g, n).value;
      var bridged := BridgedRun(rt, data, memory, context, g, n);
      if IssueCount(rt, memory, context, g, n) <= 255
      then bridged.Ok? && Simulates(bridged.value, direct, memory)
      else bridged == Err(OutOfRange)
  {
    hide DirectStep, BridgedStep, Layout;
    if n == 0 {
      StartSimulates(data, memory, context);
    } else {
      HandleTransparency(rt, data, memory, context, g, n - 1);
      var d := DirectRun(rt, memory, context, g, n - 1).value;
      var b := BridgedRun(rt, data, memory, context, g, n - 1);
      DirectStepGrows(rt, d, memory, g(d.trace, d.seen));
      if b.Ok? {
        StepSimulates(rt, b.value, d, memory, g(d.trace, d.seen));
      }
    }
  }

  /** In this arena `handle` stands for `context`, over `memory`. */
  ghost predicate Means(a: Arena, handle: int, memory: word64, context: word64) {
    && handle % 16 == 8
    && Read(a, handle, ContextPointer) == Ok(context)
    && Read(a, handle - POINTER_SIZE, MemoryPointer) == Ok(memory)
  }

  /** The handles issued so far stand for these contexts. */
  ghost predicate AllMean(b: Bridged, memory: word64, contexts: seq<word64>) {
    && |contexts| <= |b.handles|
    && forall k :: 0 <= k < |contexts| ==> Means(b.arena, b.handles[k], memory, contexts[k])
  }

  /** Of two points of a run, the later one knows the earlier one's handles, with the contexts they were issued for. */
  ghost predicate Kept(early: Result<Bridged>, issued: Result<Direct>, late: Result<Bridged>, memory: word64) {
    && early.Ok? && issued.Ok? && late.Ok?
    && early.value.handles <= late.value.handles
    && |early.value.handles| == |issued.value.contexts|
    && AllMean(late.value, memory, issued.value.contexts)
  }

  lemma SimulationMeans(b: Bridged, d: Direct, memory: word64, contexts: seq<word64>)
    requires Simulates(b, d, memory) && contexts <= d.contexts
    ensures AllMean(b, memory, contexts)
  {
    forall k | 0 <= k < |contexts|
      ensures Means(b.arena, b.handles[k], memory, contexts[k])
    {
      LayoutDecodes(b.arena, memory, d.contexts, k);
    }
  }

  lemma SimulationOrdersHandles(b: Bridged, d: Direct, b': Bridged, d': Direct, memory: word64)
    requires Simulates(b, d, memory) && Simulates(b', d', memory) && d.contexts <= d'.contexts
    ensures b.handles <= b'.handles
  {
    hide Layout;
    assert forall k :: 0 <= k < |b.handles| ==> b.handles[k] == b'.handles[k];
  }

  /** Within the bound, the runs are in step at every earlier point as well. */
  lemma InStepBefore(rt: Runtime, data: seq<byte>, memory: word64, context: word64, g: Guest, m: nat, n: nat)
    requires |data| == ARENA_SIZE && m <= n
    requires DirectRun(rt, memory, context, g, n).Ok? && IssueCount(rt, memory, context, g, n) <= 255
    ensures DirectRun(rt, memory, context, g, m).Ok? && BridgedRun(rt, data, memory, context, g, m).Ok?
    ensures Simulates(BridgedRun(rt, data, memory, context, g, m).value, DirectRun(rt, memory, context, g, m).value, memory)
    ensures DirectRun(rt, memory, context, g, m).value.contexts <= DirectRun(rt, memory, context, g, n).value.contexts
  {
    ContextsGrow(rt, memory, context, g, m, n);
    HandleTransparency(rt, data, memory, context, g, m);
  }

  /** An issued handle means the same context, over the same memory, for the rest of the call. */
  lemma {:induction false} HandlesKeepMeaning(
    rt: Runtime, data: seq<byte>, memory: word64, context: word64, g: Guest, m: nat, n: nat)
    requires |data| == ARENA_SIZE && m <= n
    requires DirectRun(rt, memory, context, g, n).Ok? && IssueCount(rt, memory, context, g, n) <= 255
    ensures Kept(
      BridgedRun(rt, data, memory, context, g, m), DirectRun(rt, memory, context, g, m),
      BridgedRun(rt, data, memory, context, g, n), memory)
  {
    InStepBefore(rt, data, memory, context, g, m, n);
    InStepBefore(rt, data, memory, context, g, n, n);
    var early := BridgedRun(rt, data, memory, context, g, m).value;
    var late := BridgedRun(rt, data, memory, context, g, n).value;
    var issued := DirectRun(rt, memory, context, g, m).value;
    var direct := DirectRun(rt, memory, context, g, n).value;
    assert |early.handles| == |issued.contexts|;
    hide BridgedRun, DirectRun, IssueCount, Simulates, AllMean;
    SimulationMeans(late, direct, memory, issued.contexts);
    SimulationOrdersHandles(early, issued, late, direct, memory);
  }

  /** Over a whole run, every import hands the runtime what the guest passed to it, and returns what it answers. */
  lemma {:induction false} RunEmits(rt: Runtime, data: seq<byte>, memory: word64, context: word64, g: Guest, n: nat)
    requires BridgedRun(rt, data, memory, context, g, n + 1).Ok?
    ensures BridgedRun(rt, data, memory, context, g, n).Ok?
    ensures
      var b := BridgedRun(rt, data, memory, context, g, n).value;
      var b' := BridgedRun(rt, data, memory, context, g, n + 1).value;
      var call := Rename(g(b.trace, b.seen), b.handles);
      && call.Ok? && b.trace <= b'.trace && b.seen <= b'.seen
      && Emits(rt, b.trace, b.arena, call.value, b'.trace[|b.trace|..], b'.seen[|b.seen|..])
  {
    var b := BridgedRun(rt, data, memory, context, g, n).value;
    var call := Rename(g(b.trace, b.seen), b.handles).value;
    CallbackEmits(rt, b.trace, b.arena, call);
    hide Emits, Callback, Rename;
  }

  lemma DirectStepGrows(rt: Runtime, d: Direct, memory: word64, call: Import<nat>)
    requires DirectStep(rt, d, memory, call).Ok?
    ensures d.contexts <= DirectStep(rt, d, memory, call).value.contexts
    ensures |DirectStep(rt, d, memory, call).value.contexts| == |d.contexts| + if Issues(call) then 1 else 0
  {
  }

  lemma {:induction false} ContextsGrow(rt: Runtime, memory: word64, context: word64, g: Guest, m: nat, n: nat)
    requires m <= n && DirectRun(rt, memory, context, g, n).Ok?
    ensures DirectRun(rt, memory, context, g, m).Ok?
    ensures DirectRun(rt, memory, context, g, m).value.contexts <= DirectRun(rt, memory, context, g, n).value.contexts
    ensures IssueCount(rt, memory, context, g, m) <= IssueCount(rt, memory, context, g, n)
  {
    hide DirectStep;
    if m < n {
      ContextsGrow(rt, memory, context, g, m, n - 1);
      var d := DirectRun(rt, memory, context, g, n - 1).value;
      DirectStepGrows(rt, d, memory, g(d.trace, d.seen));
    }
  }

  // ----- guests make every sequence of calls -----

  /** How many imports a trace comes from: every import makes one call that is no `Id`. */
  function Imports(trace: seq<HostCall>): nat {
    if trace == [] then 0
    else Imports(trace[..|trace| - 1]) + if trace[|trace| - 1].Id? then 0 else 1
  }

  /** The guest that makes the given calls one after the other. */
  function Script(calls: seq<Import<nat>>): Guest {
    (trace: seq<HostCall>, seen: seq<int>) => if Imports(trace) < |calls| then calls[Imports(trace)] else CallWasi
  }

  lemma ImportsOneMore(trace: seq<HostCall>, call: HostCall)
    ensures Imports(trace + [call]) == Imports(trace) + if call.Id? then 0 else 1
  {
    assert (trace + [call])[..|trace|] == trace;
  }

  lemma DirectStepImports(rt: Runtime, d: Direct, memory: word64, call: Import<nat>)
    requires DirectStep(rt, d, memory, call).Ok?
    ensures Imports(DirectStep(rt, d, memory, call).value.trace) == Imports(d.trace) + 1
  {
    hide Imports;
    var made := DirectStep(rt, d, memory, call).value.trace;
    var last := made[|made| - 1];
    if Issues(call) {
      ImportsOneMore(d.trace, Id(d.contexts[call.h]));
      ImportsOneMore(d.trace + [Id(d.contexts[call.h])], last);
    } else {
      ImportsOneMore(d.trace, last);
    }
  }

  /** Every sequence of import calls is what some guest makes, so the results about guests hold of all sequences. */
  lemma {:induction false} ScriptMakesCalls(
    rt: Runtime, memory: word64, context: word64, calls: seq<Import<nat>>, n: nat)
    requires DirectRun(rt, memory, context, Script(calls), n).Ok? && n < |calls|
    ensures
      var d := DirectRun(rt, memory, context, Script(calls), n).value;
      && Imports(d.trace) == n
      && Script(calls)(d.trace, d.seen) == calls[n]
      && DirectRun(rt, memory, context, Script(calls), n + 1) == DirectStep(rt, d, memory, calls[n])
  {
    hide DirectStep;
    if n > 0 {
      ScriptMakesCalls(rt, memory, context, calls, n - 1);
      DirectStepImports(rt, DirectRun(rt, memory, context, Script(calls), n - 1).value, memory, calls[n - 1]);
    }
  }

  /** The parent of the system's context, that parent's parent, and so on. */
  function ParentChain(depth: nat): (calls: seq<Import<nat>>)
    ensures |calls| == depth && forall k :: 0 <= k < depth ==> calls[k] == CallParent(k)
  {
    seq(depth, k => CallParent(k))
  }

  lemma ParentAsksLast(rt: Runtime, d: Direct, memory: word64, h: nat)
    requires h < |d.contexts|
    ensures DirectStep(rt, d, memory, CallParent(h)).Ok?
    ensures
      var d' := DirectStep(rt, d, memory, CallParent(h)).value;
      && d.contexts <= d'.contexts && |d'.contexts| == |d.contexts| + 1
      && d'.trace != [] && d'.trace[|d'.trace| - 1] == Parent(d.contexts[h])
  {
  }

  /** After `n` calls of the chain: one context each, and the last call was about the context before. */
  predicate Descended(d: Result<Direct>, n: nat) {
    && d.Ok? && |d.value.contexts| == n + 1
    && (n > 0 ==> d.value.trace != [] && d.value.trace[|d.value.trace| - 1] == Parent(d.value.contexts[n - 1]))
  }

  lemma DescendsFurther(rt: Runtime, memory: word64, d: Result<Direct>, n: nat)
    requires Descended(d, n)
    ensures DirectStep(rt, d.value, memory, CallParent(n)).Ok?
    ensures Descended(DirectStep(rt, d.value, memory, CallParent(n)), n + 1)
  {
    ParentAsksLast(rt, d.value, memory, n);
    hide DirectStep;
  }

  lemma RunStarts(rt: Runtime, memory: word64, context: word64, g: Guest)
    ensures DirectRun(rt, memory, context, g, 0).Ok? && Descended(DirectRun(rt, memory, context, g, 0), 0)
  {
  }

  /** Each call of the chain is about the context the call before it was answered with. */
  lemma {:induction false} ChainDescends(rt: Runtime, memory: word64, context: word64, depth: nat, n: nat)
    requires n <= depth
    ensures DirectRun(rt, memory, context, Script(ParentChain(depth)), n).Ok?
    ensures Descended(DirectRun(rt, memory, context, Script(ParentChain(depth)), n), n)
  {
    hide *;
    if n == 0 {
      RunStarts(rt, memory, context, Script(ParentChain(depth)));
    } else {
      ChainDescends(rt, memory, context, depth, n - 1);
      DescendsFurther(rt, memory, DirectRun(rt, memory, context, Script(ParentChain(depth)), n - 1), n - 1);
      ScriptMakesCalls(rt, memory, context, ParentChain(depth), n - 1);
    }
  }

  /** Main result: the bound is exact. A chain of `parent` calls stays in the arena through depth 255 and no further. */
  lemma {:induction false} ArenaBoundIsExact(rt: Runtime, data: seq<byte>, memory: word64, context: word64, depth: nat)
    requires |data| == ARENA_SIZE
    ensures depth <= 255 ==> BridgedRun(rt, data, memory, context, Script(ParentChain(depth)), depth).Ok?
    ensures depth > 255 ==> BridgedRun(rt, data, memory, context, Script(ParentChain(depth)), depth) == Err(OutOfRange)
  {
    ChainDescends(rt, memory, context, depth, depth);
    assert |DirectRun(rt, memory, context, Script(ParentChain(depth)), depth).value.contexts| == depth + 1;
    hide *;
    HandleTransparency(rt, data, memory, context, Script(ParentChain(depth)), depth);
  }

  /** The callbacks as they run: over the thread's arena, appending to the host's trace. */
  class Bridge {
    const info: CallMemInfo
    const rt: Runtime
    var trace: seq<HostCall>

    constructor (info: CallMemInfo, rt: Runtime)
      ensures this.info == info && this.rt == rt && trace == []
    {
      this.info, this.rt, trace := info, rt, [];
    }

    /** The callback `call` is defined here, on the present arena and trace. */
    ghost predicate Defined(call: Import<int>)
      reads this, info, info.data
    {
      info.State().Ok? && Callback(rt, trace, info.State().value, call).Ok?
    }

    ghost function Specified(call: Import<int>): Effect
      requires Defined(call)
      reads this, info, info.data
    {
      Callback(rt, trace, info.State().value, call).value
    }

    /** The state after a callback is the one its specification gives. */
    twostate predicate Did(e: Effect)
      reads this, info, info.data
    {
      info.State() == Ok(e.arena) && trace == old(trace) + e.calls && info.data == old(info.data)
    }

    /** The callback has handed the runtime what the guest passed it. */
    twostate predicate Handed(call: Import<int>, number: seq<int>)
      requires old(info.State().Ok?)
      reads this, info, info.data
    {
      && old(trace) <= trace
      && Emits(rt, old(trace), old(info.State().value), call, trace[|old(trace)|..], number)
    }

    method Host(call: HostCall) returns (reply: Reply)
      modifies this`trace
      ensures trace == old(trace) + [call] && reply == rt(old(trace), call)
    {
      reply := rt(trace, call);
      trace := trace + [call];
    }

    /** A callback's first two reads: the context behind the handle, and the memory below it. */
    method Decode(h: int) returns (context: word64, memory: word64)
      requires info.State().Ok?
      requires GetContext(info.State().value, h).Ok? && GetContextMemory(info.State().value, h).Ok?
      ensures GetContext(info.State().value, h) == Ok(context)
      ensures GetContextMemory(info.State().value, h) == Ok(memory)
    {
      context := info.ReadPointer(h, ContextPointer);
      memory := info.ReadPointer(h - POINTER_SIZE, MemoryPointer);
    }

    method ParentOf(h: int) returns (handle: int)
      requires Defined(CallParent(h))
      modifies this`trace, info`offset, info`tags, info.data
      ensures Did(old(Specified(CallParent(h)))) && old(Specified(CallParent(h))).handle == [handle]
    {
      hide Alloc, GetContext, GetContextMemory, CallMemInfo.State;
      var context, memory := Decode(h);
      var _ := Host(Id(context));
      var _ := info.AllocPointer(memory, MemoryPointer);
      var parent := Host(Parent(context));
      handle := info.AllocPointer(parent.context, ContextPointer);
    }

    method OtherOf(h: int, assoc: int) returns (handle: int)
      requires Defined(CallOther(h, assoc))
      modifies this`trace, info`offset, info`tags, info.data
      ensures Did(old(Specified(CallOther(h, assoc)))) && old(Specified(CallOther(h, assoc))).handle == [handle]
    {
      hide Alloc, GetContext, GetContextMemory, CallMemInfo.State;
      var context, memory := Decode(h);
      var _ := Host(Id(context));
      var other := Host(Other(context, assoc));
      var _ := info.AllocPointer(memory, MemoryPointer);
      handle := info.AllocPointer(other.context, ContextPointer);
    }

    method GenerateFrom(h: int, count: int, ids: int, list: int, memories: map<word64, seq<byte>>)
      requires Defined(CallGenerate(h, count, ids, list, memories))
      modifies this`trace
      ensures Did(old(Specified(CallGenerate(h, count, ids, list, memories))))
      ensures Handed(CallGenerate(h, count, ids, list, memories), [])
    {
      CallbackEmits(rt, trace, info.State().value, CallGenerate(h, count, ids, list, memories));
      hide Emits;
      var context, memory := Decode(h);
      var sources: seq<HostPointer> := [];
      for i := 0 to count
        invariant |sources| == i
        invariant sources == Gathered(memory, count, list, memories)[..i]
      {
        sources := sources + [Resolve(memory, LoadInt32(memories[memory], list + 4 * i))];
      }
      assert sources == Gathered(memory, count, list, memories);
      var _ := Host(Generate(context, count, Resolve(memory, ids), sources));
    }

    /** The callbacks that only decode their arguments and pass them on. */
    method PassOn(call: Import<int>) returns (number: seq<int>)
      requires !Issues(call) && !call.CallGenerate? && Defined(call)
      modifies this`trace
      ensures Did(old(Specified(call))) && old(Specified(call)).number == number
      ensures Handed(call, number)
    {
      CallbackEmits(rt, trace, info.State().value, call);
      hide Emits, Callback, CallMemInfo.State;
      number := Forward(call);
    }

    method Forward(call: Import<int>) returns (number: seq<int>)
      requires !Issues(call) && !call.CallGenerate? && Defined(call)
      modifies this`trace
      ensures Did(old(Specified(call))) && old(Specified(call)).number == number
    {
      hide Emits;
      number := [];
      match call {
        case CallWasi =>
          var memory := info.ReadPointer(0, MemoryPointer);
          var _ := Host(WasiMemory(memory));
        case CallSame(h, h2) =>
          var first := info.ReadPointer(h, ContextPointer);
          var second := info.ReadPointer(h2, ContextPointer);
          var same := Host(Same(first, second));
          number := [if same.number != 0 then 1 else 0];
        case CallEntity(h) =>
          var context := info.ReadPointer(h, ContextPointer);
          var entity := Host(Entity(context));
          number := [ToInt32(entity.number)];
        case CallAction(h, p) =>
          var context, memory := Decode(h);
          var _ := Host(Action(context, Resolve(memory, p)));
        case CallAdd(h, c, p) =>
          var context, memory := Decode(h);
          var _ := Host(Add(context, c, Resolve(memory, p)));
        case CallRemove(h, c, p) =>
          var context, memory := Decode(h);
          var _ := Host(Remove(context, c, Resolve(memory, p)));
        case CallGet(h, c, p, q) =>
          var context, memory := Decode(h);
          var _ := Host(Get(context, c, Resolve(memory, p), Resolve(memory, q)));
        case CallUpdate(h, c, p, q) =>
          var context, memory := Decode(h);
          var _ := Host(Update(context, c, Resolve(memory, p), Resolve(memory, q)));
      }
    }

    method Import(call: Import<int>) returns (number: seq<int>, handle: seq<int>)
      requires Defined(call)
      modifies this`trace, info`offset, info`tags, info.data
      ensures Did(old(Specified(call)))
      ensures old(Specified(call)).number == number && old(Specified(call)).handle == handle
      ensures Handed(call, number)
    {
      CallbackEmits(rt, trace, info.State().value, call);
      hide Emits;
      number, handle := [], [];
      match call {
        case CallParent(h) =>
          var issued := ParentOf(h);
          handle := [issued];
        case CallOther(h, assoc) =>
          var issued := OtherOf(h, assoc);
          handle := [issued];
        case CallGenerate(h, count, ids, list, memories) => GenerateFrom(h, count, ids, list, memories);
        case _ => number := PassOn(call);
      }
    }

    /** One import of a guest that names contexts by order of issue. */
    method ImportNamed(call: Import<nat>, handles: seq<int>, seen: seq<int>) returns (handles': seq<int>, seen': seq<int>)
      requires info.State().Ok?
      requires BridgedStep(rt, Bridged(info.State().value, handles, trace, seen), call).Ok?
      modifies this`trace, info`offset, info`tags, info.data
      ensures info.State().Ok? && info.data == old(info.data)
      ensures BridgedStep(rt, old(Bridged(info.State().value, handles, trace, seen)), call) ==
        Ok(Bridged(info.State().value, handles', trace, seen'))
    {
      hide Emits, Handed, Callback, CallMemInfo.State;
      var raw := Rename(call, handles).value;
      var number, handle := Import(raw);
      handles', seen' := handles + handle, seen + number;
    }

    /** A fresh arena with the instance's memory at 0 and the system's own context at 8. */
    method Install(memory: word64, context: word64) returns (first: int, ghost data: seq<byte>)
      requires info.State() == Err(NotSet)
      modifies info
      ensures info.State().Ok? && fresh(info.data) && |data| == ARENA_SIZE
      ensures BridgedStart(data, memory, context) == Ok(Bridged(info.State().value, [first], [], []))
    {
      var buffer := new byte[ARENA_SIZE](_ => 0);
      data := buffer[..];
      info.Set(buffer);
      StartSimulates(data, memory, context);
      hide Alloc;
      var _ := info.AllocPointer(memory, MemoryPointer);
      first := info.AllocPointer(context, ContextPointer);
    }

    /** One system call: install the arena, run `n` imports of the guest, take the arena down again. */
    method SystemImpl(memory: word64, context: word64, g: Guest, n: nat)
      requires info.State() == Err(NotSet) && trace == []
      requires DirectRun(rt, memory, context, g, n).Ok? && IssueCount(rt, memory, context, g, n) <= 255
      modifies this`trace, info, info.data
      ensures info.State() == Err(NotSet)
      ensures trace == DirectRun(rt, memory, context, g, n).value.trace
    {
      hide BridgedStart, BridgedStep, DirectRun, Simulates, IssueCount, CallMemInfo.State;
      var first, data := Install(memory, context);
      ghost var buffer := info.data;
      var handles, seen := [first], [];
      for i := 0 to n
        invariant info.data == buffer && info.State().Ok?
        invariant BridgedRun(rt, data, memory, context, g, i) ==
          Ok(Bridged(info.State().value, handles, trace, seen))
      {
        InStepBefore(rt, data, memory, context, g, i + 1, n);
        handles, seen := ImportNamed(g(trace, seen), handles, seen);
      }
      InStepBefore(rt, data, memory, context, g, n, n);
      SameTrace(Bridged(info.State().value, handles, trace, seen), DirectRun(rt, memory, context, g, n).value, memory);
      info.Clear();
    }
  }

  lemma SameTrace(b: Bridged, d: Direct, memory: word64)
    requires Simulates(b, d, memory)
    ensures b.trace == d.trace
  {
  }
}
