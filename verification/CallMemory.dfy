/** The per-call bump arena that stands behind the integer handles a guest holds. */
module CallMemory {
  import opened Bytes

  const ARENA_SIZE := 4096
  const POINTER_SIZE := 8

  /** The debug tag of a slot: which pointer type was allocated there. */
  datatype Tag = MemoryPointer | ContextPointer

  /** The ways a call leaves defined behaviour: a failed assertion, or an access outside the buffer. */
  datatype Fault = NotSet | AlreadySet | TagTaken | NegativeIndex | PastOffset | WrongTag | OutOfRange | IllegalGuest

  datatype Result<+T> = Ok(value: T) | Err(fault: Fault) {
    predicate IsFailure() { Err? }
    function PropagateFailure<U>(): Result<U>
      requires Err?
    {
      Err(fault)
    }
    function Extract(): T
      requires Ok?
    {
      value
    }
  }

  datatype Arena = Arena(data: seq<byte>, offset: nat, tags: map<nat, Tag>)

  function Fresh(data: seq<byte>): Arena {
    Arena(data, 0, map[])
  }

  /** Reserves `size` bytes; the buffer's capacity is not looked at. */
  function AllocRaw(a: Arena, size: nat, tag: Tag): Result<(Arena, int)> {
    var index := ToInt32(a.offset);
    if a.offset in a.tags then Err(TagTaken)
    else if index < 0 then Err(NegativeIndex)
    else Ok((Arena(a.data, a.offset + size, a.tags[a.offset := tag]), index))
  }

  /** The address behind `offset`. A negative offset is a huge unsigned number, so it fails the first assertion. */
  function ReadRaw(a: Arena, offset: int, tag: Tag): Result<nat> {
    if offset < 0 || a.offset <= offset then Err(PastOffset)
    else if offset !in a.tags || a.tags[offset] != tag then Err(WrongTag)
    else Ok(offset)
  }

  function Read(a: Arena, offset: int, tag: Tag): Result<word64> {
    var address :- ReadRaw(a, offset, tag);
    if |a.data| < address + POINTER_SIZE then Err(OutOfRange) else Ok(LoadWord(a.data, address))
  }

  function Write(a: Arena, offset: int, tag: Tag, w: word64): Result<Arena> {
    var address :- ReadRaw(a, offset, tag);
    if |a.data| < address + POINTER_SIZE then Err(OutOfRange)
    else Ok(a.(data := StoreWord(a.data, address, w)))
  }

  /** Allocates a slot, then writes it through the read path. */
  function Alloc(a: Arena, w: word64, tag: Tag): Result<(Arena, int)> {
    var reserved :- AllocRaw(a, POINTER_SIZE, tag);
    var written :- Write(reserved.0, reserved.1, tag, w);
    Ok((written, reserved.1))
  }

  /** A read passes its assertions exactly for an allocated offset of the right type, and then yields the 8 bytes there. */
  lemma ReadIff(a: Arena, at: int, tag: Tag, w: word64)
    ensures Read(a, at, tag) == Ok(w) <==>
      && 0 <= at < a.offset && at in a.tags && a.tags[at] == tag
      && at + 8 <= |a.data| && LoadWord(a.data, at) == w
    ensures at < 0 || at >= a.offset ==> Read(a, at, tag) == Err(PastOffset)
    ensures 0 <= at < a.offset && (at !in a.tags || a.tags[at] != tag) ==> Read(a, at, tag) == Err(WrongTag)
  {
    hide LoadWord;
  }

  /** An allocation fails where its offset has a type already, or no longer is a positive `int32_t`; it does not ask for room. */
  lemma AllocRawIff(a: Arena, size: nat, tag: Tag)
    requires a.offset < TWO_32
    ensures AllocRaw(a, size, tag).Ok? <==> a.offset !in a.tags && a.offset < 0x8000_0000
    ensures AllocRaw(a, size, tag).Ok? ==>
      AllocRaw(a, size, tag).value == (Arena(a.data, a.offset + size, a.tags[a.offset := tag]), a.offset as int)
  {
  }

  /** The layout the import callbacks rely on: below every context slot sits a slot with the instance's memory. */
  ghost predicate Layout(a: Arena, memory: word64, contexts: seq<word64>) {
    && |a.data| == ARENA_SIZE
    && a.offset == 16 * |contexts| <= ARENA_SIZE
    && (forall o :: o in a.tags ==> o < a.offset)
    && (forall k {:trigger contexts[k]} :: 0 <= k < |contexts| ==> PairAt(a, 16 * k, memory, contexts[k]))
  }

  ghost predicate PairAt(a: Arena, o: nat, memory: word64, context: word64) {
    && o + 16 <= |a.data|
    && o in a.tags && a.tags[o] == MemoryPointer && LoadWord(a.data, o) == memory
    && o + 8 in a.tags && a.tags[o + 8] == ContextPointer && LoadWord(a.data, o + 8) == context
  }

  /** What a fresh handle is allocated as: the memory first, then the context. */
  function AllocPair(a: Arena, memory: word64, context: word64): Result<(Arena, int)> {
    var below :- Alloc(a, memory, MemoryPointer);
    Alloc(below.0, context, ContextPointer)
  }

  function Handle(k: nat): int { 16 * k + 8 }

  /** The arena with one more word on top. */
  function Push(a: Arena, w: word64, tag: Tag): Arena
    requires a.offset + 8 <= |a.data|
  {
    Arena(StoreWord(a.data, a.offset, w), a.offset + 8, a.tags[a.offset := tag])
  }

  /** One allocation: either the slot does not fit, or it is pushed. */
  lemma AllocPushes(a: Arena, w: word64, tag: Tag)
    requires a.offset !in a.tags && a.offset < TWO_31
    ensures Alloc(a, w, tag) ==
      if a.offset + 8 <= |a.data| then Ok((Push(a, w, tag), a.offset)) else Err(OutOfRange)
  {
  }

  lemma PushKeepsPair(a: Arena, w: word64, tag: Tag, o: nat, memory: word64, context: word64)
    requires a.offset + 8 <= |a.data| && o + 16 <= a.offset && PairAt(a, o, memory, context)
    ensures PairAt(Push(a, w, tag), o, memory, context)
  {
    LoadStoreWord(a.data, a.offset, w);
  }

  lemma PushPair(a: Arena, memory: word64, context: word64)
    requires a.offset + 16 <= |a.data|
    ensures PairAt(Push(Push(a, memory, MemoryPointer), context, ContextPointer), a.offset, memory, context)
  {
    var b := Push(a, memory, MemoryPointer);
    LoadStoreWord(a.data, a.offset, memory);
    LoadStoreWord(b.data, b.offset, context);
  }

  /** Allocating a pair extends the layout by one context, or faults exactly when the arena is full. */
  lemma AllocPairExtendsLayout(a: Arena, memory: word64, contexts: seq<word64>, context: word64)
    requires Layout(a, memory, contexts)
    ensures |contexts| >= 256 ==> AllocPair(a, memory, context) == Err(OutOfRange)
    ensures |contexts| < 256 ==>
      && var r := AllocPair(a, memory, context);
      && r.Ok?
      && r.value.1 == Handle(|contexts|)
      && Layout(r.value.0, memory, contexts + [context])
  {
    AllocPushes(a, memory, MemoryPointer);
    if |contexts| < 256 {
      var b := Push(a, memory, MemoryPointer);
      AllocPushes(b, context, ContextPointer);
      var c := Push(b, context, ContextPointer);
      assert AllocPair(a, memory, context) == Ok((c, b.offset));
      PushPair(a, memory, context);
      forall k | 0 <= k < |contexts| + 1
        ensures PairAt(c, 16 * k, memory, (contexts + [context])[k])
      {
        if k < |contexts| {
          PushKeepsPair(a, memory, MemoryPointer, 16 * k, memory, contexts[k]);
          PushKeepsPair(b, context, ContextPointer, 16 * k, memory, contexts[k]);
        }
      }
    }
  }

  /** A handle in the layout decodes to its context, and the slot below it to the memory. */
  lemma LayoutDecodes(a: Arena, memory: word64, contexts: seq<word64>, k: nat)
    requires Layout(a, memory, contexts) && k < |contexts|
    ensures Handle(k) % 16 == 8
    ensures Read(a, Handle(k), ContextPointer) == Ok(contexts[k])
    ensures Read(a, Handle(k) - POINTER_SIZE, MemoryPointer) == Ok(memory)
    ensures Read(a, 0, MemoryPointer) == Ok(memory)
  {
    assert PairAt(a, 16 * k, memory, contexts[k]);
    assert PairAt(a, 16 * 0, memory, contexts[0]);
  }

  /** The thread-local `call_mem_info`. */
  class CallMemInfo {
    var present: bool
    var data: array<byte>
    var offset: nat
    var tags: map<nat, Tag>

    ghost function State(): Result<Arena>
      reads this, data
    {
      if present then Ok(Arena(data[..], offset, tags)) else Err(NotSet)
    }

    constructor ()
      ensures !present && fresh(data)
    {
      present, data, offset, tags := false, new byte[0], 0, map[];
    }

    /** Installing an arena asserts that none is installed. */
    method Set(buffer: array<byte>)
      requires State() == Err(NotSet)
      modifies this
      ensures data == buffer && State() == Ok(Fresh(buffer[..]))
    {
      present, data, offset, tags := true, buffer, 0, map[];
    }

    /** The null-pointer call: allowed at any time. */
    method Clear()
      modifies this`present
      ensures State() == Err(NotSet)
    {
      present := false;
    }

    method ReadPointer(at: int, tag: Tag) returns (w: word64)
      requires State().Ok? && Read(State().value, at, tag).Ok?
      ensures Ok(w) == Read(State().value, at, tag)
    {
      w := LoadWord(data[..], at);
    }

    method AllocPointer(w: word64, tag: Tag) returns (index: int)
      requires State().Ok? && Alloc(State().value, w, tag).Ok?
      modifies this`offset, this`tags, data
      ensures State().Ok? && data == old(data) && Ok((State().value, index)) == Alloc(old(State().value), w, tag)
    {
      index := ToInt32(offset);
      tags := tags[offset := tag];
      offset := offset + POINTER_SIZE;
      WriteBytes(data, index, Encode(w, POINTER_SIZE));
    }
  }
}
