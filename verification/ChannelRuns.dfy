/** Single-threaded runs of writes and drains: only the bytes per channel matter, not how they were cut. */
module ChannelRuns {
  import opened Bytes
  import opened LineSplitter
  import opened LogChannels
  import opened Wasi
  import opened Wrappers

  datatype Event = WriteCall(memory: seq<byte>, fd: int32, io: Io) | Drain

  /** What the guest must ensure for its call to be defined. */
  predicate Defined(e: Event) {
    e.WriteCall? && (e.fd == STDOUT || e.fd == STDERR) ==> WriteDefined(e.memory, e.io)
  }

  predicate AllDefined(events: seq<Event>) {
    forall i :: 0 <= i < |events| ==> Defined(events[i])
  }

  /** The bytes a call adds to each channel: its positive-length buffers, joined. */
  function Written(e: Event): Streams
    requires e.WriteCall? && Defined(e)
  {
    if e.fd == STDOUT || e.fd == STDERR
    then On(LevelOf(e.fd), Join(Segments(e.memory, e.io, Count(e.io))))
    else NOTHING
  }

  /** What the drains of a run deliver. */
  function Outputs(pending: Streams, events: seq<Event>): seq<seq<LogEntry>>
    requires AllDefined(events)
    decreases |events|
  {
    if events == [] then []
    else if events[0].Drain? then [Drained(pending)] + Outputs(NOTHING, events[1..])
    else Outputs(pending.Then(Written(events[0])), events[1..])
  }

  /** What is pending when a run ends. */
  function Left(pending: Streams, events: seq<Event>): Streams
    requires AllDefined(events)
    decreases |events|
  {
    if events == [] then pending
    else if events[0].Drain? then Left(NOTHING, events[1..])
    else Left(pending.Then(Written(events[0])), events[1..])
  }

  /** The bytes per channel between drains; the last section is the one still open. */
  function Sections(events: seq<Event>): (sections: seq<Streams>)
    requires AllDefined(events)
    ensures sections != []
  {
    if events == [] then [NOTHING]
    else
      var rest := Sections(events[1..]);
      if events[0].Drain? then [NOTHING] + rest
      else [Written(events[0]).Then(rest[0])] + rest[1..]
  }

  /** The entries of every closed section, the first one preceded by what was pending. */
  function SectionOutputs(pending: Streams, sections: seq<Streams>): seq<seq<LogEntry>>
    requires sections != []
    decreases |sections|
  {
    if |sections| == 1 then []
    else [Drained(pending.Then(sections[0]))] + SectionOutputs(NOTHING, sections[1..])
  }

  function LastSection(pending: Streams, sections: seq<Streams>): Streams
    requires sections != []
    decreases |sections|
  {
    if |sections| == 1 then pending.Then(sections[0]) else LastSection(NOTHING, sections[1..])
  }

  /** Moving bytes from the first section into the pending text changes nothing. */
  lemma {:induction false} SectionsAbsorb(pending: Streams, first: Streams, sections: seq<Streams>)
    requires sections != []
    ensures
      var joined := [first.Then(sections[0])] + sections[1..];
      && SectionOutputs(pending.Then(first), sections) == SectionOutputs(pending, joined)
      && LastSection(pending.Then(first), sections) == LastSection(pending, joined)
  {
    ThenIsAssociative(pending, first, sections[0]);
    assert ([first.Then(sections[0])] + sections[1..])[1..] == sections[1..];
  }

  /** A run's outputs are determined by its sections. */
  lemma {:induction false} OutputsFromSections(pending: Streams, events: seq<Event>)
    requires AllDefined(events)
    ensures Outputs(pending, events) == SectionOutputs(pending, Sections(events))
    ensures Left(pending, events) == LastSection(pending, Sections(events))
    decreases |events|
  {
    ThenIsAssociative(pending, NOTHING, NOTHING);
    if events != [] {
      hide Drained, Written, Streams.Then;
      var rest := Sections(events[1..]);
      if events[0].Drain? {
        OutputsFromSections(NOTHING, events[1..]);
        assert ([NOTHING] + rest)[1..] == rest;
      } else {
        OutputsFromSections(pending.Then(Written(events[0])), events[1..]);
        SectionsAbsorb(pending, Written(events[0]), rest);
      }
    }
  }

  /** However the bytes were cut into buffers and calls, equal bytes between drains give equal log entries. */
  lemma {:induction false} ChunkingInvariance(a: seq<Event>, b: seq<Event>)
    requires AllDefined(a) && AllDefined(b)
    requires Sections(a) == Sections(b)
    ensures Outputs(NOTHING, a) == Outputs(NOTHING, b) && Left(NOTHING, a) == Left(NOTHING, b)
  {
    OutputsFromSections(NOTHING, a);
    OutputsFromSections(NOTHING, b);
  }

  // ----- the runs as they are performed -----

  /** A write to 1 adds its joined buffers to the info channel, one to 2 to the error channel, any other nothing. */
  lemma WrittenMeans(e: Event)
    requires e.WriteCall? && Defined(e)
    ensures e.fd == 1 ==> Written(e) == Streams(Join(Segments(e.memory, e.io, Count(e.io))), [])
    ensures e.fd == 2 ==> Written(e) == Streams([], Join(Segments(e.memory, e.io, Count(e.io))))
    ensures e.fd != 1 && e.fd != 2 ==> Written(e) == Streams([], [])
  {
  }

  /** What a run writes is what `fd_write` adds to the logger. */
  method PerformWrite(log: Logger, e: Event)
    requires e.WriteCall? && Defined(e)
    modifies log`stdio
    ensures log.Pending() == old(log.Pending()).Then(Written(e))
  {
    var memory := new byte[|e.memory|](i requires 0 <= i < |e.memory| => e.memory[i]);
    assert memory[..] == e.memory;
    WrittenMeans(e);
    var before := log.Pending();
    ThenIsAssociative(before, NOTHING, NOTHING);
    hide Segments, Join, WriteDefined;
    var _ := FdWrite(memory, log, e.fd, e.io);
  }

  /** What is pending at each drain fits a string, and the splitter's index can hold its newlines. */
  ghost predicate DrainsFit(pending: Streams, events: seq<Event>)
    requires AllDefined(events)
    decreases |events|
  {
    events == [] ||
    if events[0].Drain?
    then |pending.info| < NPOS && |pending.error| < NPOS && DrainsFit(NOTHING, events[1..])
    else DrainsFit(pending.Then(Written(events[0])), events[1..])
  }

  ghost predicate DrainsSplit(pending: Streams, events: seq<Event>)
    requires AllDefined(events)
    decreases |events|
  {
    events == [] ||
    if events[0].Drain?
    then Splittable(pending.info) && Splittable(pending.error) && DrainsSplit(NOTHING, events[1..])
    else DrainsSplit(pending.Then(Written(events[0])), events[1..])
  }

  /** Writes and drains on the logger deliver and leave what the run's specification says. */
  method PerformRun(log: Logger, events: seq<Event>) returns (outputs: Option<seq<seq<LogEntry>>>)
    requires AllDefined(events) && DrainsFit(log.Pending(), events)
    modifies log`stdio
    ensures outputs.Some? <==> DrainsSplit(old(log.Pending()), events)
    ensures outputs.Some? ==> outputs.value == Outputs(old(log.Pending()), events)
    ensures outputs.Some? ==> log.Pending() == Left(old(log.Pending()), events)
    decreases |events|
  {
    if events == [] {
      return Some([]);
    }
    hide Written, Defined, Splittable, Drained, DrainedFrom;
    if events[0].WriteCall? {
      PerformWrite(log, events[0]);
      outputs := PerformRun(log, events[1..]);
    } else {
      var drained := log.ConsumeStdio();
      if drained.None? {
        return None;
      }
      var rest := PerformRun(log, events[1..]);
      outputs := if rest.Some? then Some([drained.value] + rest.value) else None;
    }
  }
}
