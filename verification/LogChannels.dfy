/** The two stdio channels that guests append to and the host drains as log lines. */
module LogChannels {
  import opened LineSplitter
  import opened Wrappers

  // in the order in which a drain visits them
  datatype LogLevel = Info | Error

  datatype LogEntry = LogEntry(level: LogLevel, message: Text)

  /** Bytes per channel. */
  datatype Streams = Streams(info: Text, error: Text) {
    function At(level: LogLevel): Text {
      if level == Info then info else error
    }

    function Then(more: Streams): Streams {
      Streams(info + more.info, error + more.error)
    }
  }

  const NOTHING := Streams([], [])

  function On(level: LogLevel, text: Text): Streams {
    if level == Info then Streams(text, []) else Streams([], text)
  }

  lemma ThenIsAssociative(a: Streams, b: Streams, c: Streams)
    ensures a.Then(b).Then(c) == a.Then(b.Then(c))
    ensures NOTHING.Then(a) == a == a.Then(NOTHING)
  {
    assert (a.info + b.info) + c.info == a.info + (b.info + c.info);
    assert (a.error + b.error) + c.error == a.error + (b.error + c.error);
  }

  function Entries(level: LogLevel, lines: seq<Text>): (r: seq<LogEntry>)
    ensures |r| == |lines|
  {
    seq(|lines|, k requires 0 <= k < |lines| => LogEntry(level, lines[k]))
  }

  /** The entries a drain makes of what is pending. */
  function Drained(pending: Streams): seq<LogEntry> {
    Entries(Info, Lines(pending.info)) + Entries(Error, Lines(pending.error))
  }

  /** From `at` on: the info text's lines as info entries in order, then the error text's as error entries, and no others. */
  ghost predicate DrainedFrom(delivered: seq<LogEntry>, at: nat, info: Text, error: Text) {
    && |delivered| == at + |Lines(info)| + |Lines(error)|
    && (forall i :: 0 <= i < |Lines(info)| ==> delivered[at + i] == LogEntry(Info, Lines(info)[i]))
    && (forall i :: 0 <= i < |Lines(error)| ==> delivered[at + |Lines(info)| + i] == LogEntry(Error, Lines(error)[i]))
  }

  lemma DrainedMeans(before: seq<LogEntry>, pending: Streams)
    ensures DrainedFrom(before + Drained(pending), |before|, pending.info, pending.error)
    ensures DrainedFrom(Drained(pending), 0, pending.info, pending.error)
  {
    hide Lines;
    assert [] + Drained(pending) == Drained(pending);
  }

  /** `logger.cc`'s globals. A drained channel has no map entry until it is written again. */
  class Logger {
    var entries: seq<LogEntry>
    var stdio: map<LogLevel, Text>

    function Pending(): Streams
      reads this
    {
      Streams(if Info in stdio then stdio[Info] else [], if Error in stdio then stdio[Error] else [])
    }

    constructor ()
      ensures entries == [] && Pending() == NOTHING
    {
      entries, stdio := [], map[Info := [], Error := []];
    }

    method PushLogLine(entry: LogEntry)
      modifies this`entries
      ensures entries == old(entries) + [entry]
    {
      entries := entries + [entry];
    }

    method PushStdio(level: LogLevel, text: Text)
      modifies this`stdio
      ensures Pending() == old(Pending()).Then(On(level, text))
      ensures Pending().At(level) == old(Pending()).At(level) + text
      ensures level == Info ==> Pending().error == old(Pending()).error
      ensures level == Error ==> Pending().info == old(Pending()).info
    {
      stdio := stdio[level := (if level in stdio then stdio[level] else []) + text];
    }

    /** The drain's loop body for one channel: an absent or empty channel is skipped. */
    method Split(level: LogLevel) returns (result: Option<seq<LogEntry>>)
      requires |Pending().At(level)| < NPOS
      ensures result == if Splittable(Pending().At(level)) then Some(Entries(level, Lines(Pending().At(level)))) else None
    {
      if level !in stdio || stdio[level] == [] {
        return Some([]);
      }
      var split := SplitLines(stdio[level]);
      if split.None? {
        return None;
      }
      var entries: seq<LogEntry> := [];
      for j := 0 to |split.value|
        invariant entries == Entries(level, split.value)[..j]
      {
        entries := entries + [LogEntry(level, split.value[j])];
      }
      assert Entries(level, split.value)[..|split.value|] == Entries(level, split.value);
      result := Some(entries);
    }

    /** The drain, or nothing where the splitter's index leaves its range. */
    method ConsumeStdio() returns (result: Option<seq<LogEntry>>)
      requires |Pending().info| < NPOS && |Pending().error| < NPOS
      modifies this`stdio
      ensures result.Some? <==> Splittable(old(Pending()).info) && Splittable(old(Pending()).error)
      ensures result.Some? ==> result.value == Drained(old(Pending())) && Pending().info == [] && Pending().error == []
      ensures result.Some? ==> DrainedFrom(result.value, 0, old(Pending()).info, old(Pending()).error)
    {
      DrainedMeans([], Pending());
      hide Lines, Splittable, DrainedFrom;
      var info := Split(Info);
      var error := Split(Error);
      if info.None? || error.None? {
        return None;
      }
      result := Some(info.value + error.value);
      stdio := map[];
    }

    /** `ecsact_si_wasm_consume_logs`: everything logged so far reaches the consumer, and nothing stays behind. */
    method ConsumeLogs() returns (delivered: Option<seq<LogEntry>>)
      requires |Pending().info| < NPOS && |Pending().error| < NPOS
      modifies this
      ensures delivered.Some? <==> Splittable(old(Pending()).info) && Splittable(old(Pending()).error)
      ensures delivered.Some? ==>
        && delivered.value == old(entries) + Drained(old(Pending()))
        && entries == [] && Pending().info == [] && Pending().error == []
      ensures delivered.Some? ==>
        && old(entries) <= delivered.value
        && DrainedFrom(delivered.value, |old(entries)|, old(Pending()).info, old(Pending()).error)
    {
      DrainedMeans(entries, Pending());
      hide Lines, Splittable, DrainedFrom;
      var lines := ConsumeStdio();
      if lines.None? {
        return None;
      }
      delivered := Some(entries + lines.value);
      entries := [];
    }
  }
}
