/** `fd_write`, `fd_read`, `fd_close` and `fd_fdstat_get` over one instance's linear memory. */
module Wasi {
  import opened Bytes
  import opened LineSplitter
  import opened LogChannels
  import opened VirtualFiles
  import opened Wrappers

  const STDIN: int32 := 0
  const STDOUT: int32 := 1
  const STDERR: int32 := 2

  /** The arguments `fd_write` and `fd_read` share: an iovec array, its length, and where the total goes. */
  datatype Io = Io(iovec: int32, count: int32, out: int32)

  predicate InMemory(m: seq<byte>, a: int, size: nat) {
    0 <= a && a + size <= |m|
  }

  /** Entry `i` of the iovec array can be read, and a positive length stays inside memory. */
  predicate EntryDefined(m: seq<byte>, io: Io, i: nat) {
    && InMemory(m, io.iovec + 8 * i, 8)
    && (Length(m, io, i) > 0 ==> InMemory(m, Buffer(m, io, i), Length(m, io, i)))
  }

  function Buffer(m: seq<byte>, io: Io, i: nat): int32
    requires InMemory(m, io.iovec + 8 * i, 8)
  {
    LoadInt32(m, io.iovec + 8 * i)
  }

  function Length(m: seq<byte>, io: Io, i: nat): int32
    requires InMemory(m, io.iovec + 8 * i, 8)
  {
    LoadInt32(m, io.iovec + 8 * i + 4)
  }

  // ----- fd_write -----

  predicate EntriesDefined(m: seq<byte>, io: Io, n: nat) {
    forall i :: 0 <= i < n ==> EntryDefined(m, io, i)
  }

  predicate WriteDefined(m: seq<byte>, io: Io) {
    InMemory(m, io.out, 8) && EntriesDefined(m, io, Count(io))
  }

  /** The text entry `i` contributes: nothing unless its length is positive. */
  function Segment(m: seq<byte>, io: Io, i: nat): (text: Text)
    requires EntryDefined(m, io, i)
    ensures |text| < TWO_31
  {
    if Length(m, io, i) > 0 then m[Buffer(m, io, i)..Buffer(m, io, i) + Length(m, io, i)] else []
  }

  /** The texts a write pushes, one per entry of positive length. */
  function Segments(m: seq<byte>, io: Io, n: nat): seq<Text>
    requires EntriesDefined(m, io, n)
  {
    if n == 0 then [] else Segments(m, io, n - 1) + Kept(Segment(m, io, n - 1))
  }

  function Join(texts: seq<Text>): Text {
    if texts == [] then [] else Join(texts[..|texts| - 1]) + texts[|texts| - 1]
  }

  lemma JoinKept(texts: seq<Text>, text: Text)
    ensures Join(texts + Kept(text)) == Join(texts) + text
  {
    if text != [] {
      assert (texts + [text])[..|texts|] == texts;
    } else {
      assert texts + [] == texts;
    }
  }

  lemma {:induction false} WrittenFitsSize(m: seq<byte>, io: Io, n: nat)
    requires EntriesDefined(m, io, n)
    ensures |Join(Segments(m, io, n))| <= n * TWO_31
  {
    hide Segment, EntryDefined;
    if n > 0 {
      WrittenFitsSize(m, io, n - 1);
      JoinKept(Segments(m, io, n - 1), Segment(m, io, n - 1));
    }
  }

  /** How often the loops turn. */
  function Count(io: Io): (n: nat)
    ensures io.count >= 0 ==> n == io.count
    ensures io.count < 0 ==> n == 0
  {
    if io.count > 0 then io.count else 0
  }

  function LevelOf(fd: int32): LogLevel {
    if fd == STDOUT then Info else Error
  }

  /** The write loop's body: entry `i` is pushed to the level's channel. */
  method PushEntry(memory: array<byte>, log: Logger, level: LogLevel, io: Io, i: nat) returns (length: nat)
    requires EntryDefined(memory[..], io, i)
    modifies log`stdio
    ensures length == |Segment(memory[..], io, i)|
    ensures log.Pending() == old(log.Pending()).Then(On(level, Segment(memory[..], io, i)))
  {
    NothingWritten(log.Pending(), level);
    hide LoadInt32, Streams.Then, On, Logger.Pending;
    length := 0;
    if Length(memory[..], io, i) > 0 {
      var buffer := Buffer(memory[..], io, i);
      length := Length(memory[..], io, i);
      log.PushStdio(level, memory[buffer..buffer + length]);
    }
  }

  lemma OnJoins(before: Streams, level: LogLevel, texts: seq<Text>, text: Text)
    ensures before.Then(On(level, Join(texts))).Then(On(level, text)) == before.Then(On(level, Join(texts + Kept(text))))
  {
    JoinKept(texts, text);
    ThenIsAssociative(before, On(level, Join(texts)), On(level, text));
  }

  /** The write loop. */
  method PushEntries(memory: array<byte>, log: Logger, level: LogLevel, io: Io) returns (amount: nat)
    requires EntriesDefined(memory[..], io, Count(io))
    modifies log`stdio
    ensures amount == |Join(Segments(memory[..], io, Count(io)))|
    ensures log.Pending() == old(log.Pending()).Then(On(level, Join(Segments(memory[..], io, Count(io)))))
  {
    hide EntryDefined, Segment, Streams.Then, On, Join, Logger.Pending;
    ghost var m := memory[..];
    ghost var before := log.Pending();
    amount := 0;
    NothingWritten(before, level);
    for i := 0 to Count(io)
      invariant amount == |Join(Segments(m, io, i))|
      invariant log.Pending() == before.Then(On(level, Join(Segments(m, io, i))))
    {
      var length := PushEntry(memory, log, level, io, i);
      JoinKept(Segments(m, io, i), Segment(m, io, i));
      OnJoins(before, level, Segments(m, io, i), Segment(m, io, i));
      amount := amount + length;
    }
  }

  method FdWrite(memory: array<byte>, log: Logger, fd: int32, io: Io) returns (errno: int32)
    requires fd == 1 || fd == 2 ==> WriteDefined(memory[..], io)
    modifies memory, log`stdio
    ensures fd == 1 || fd == 2 ==>
      && var written := Join(Segments(old(memory[..]), io, Count(io)));
      && errno == 0
      && log.Pending() == old(log.Pending()).Then(On(LevelOf(fd), written))
      && |written| < TWO_64
      && memory[..] == StoreWord(old(memory[..]), io.out, |written|)
    ensures fd == 1 ==>
      && log.Pending().info == old(log.Pending()).info + Join(Segments(old(memory[..]), io, Count(io)))
      && log.Pending().error == old(log.Pending()).error
    ensures fd == 2 ==>
      && log.Pending().info == old(log.Pending()).info
      && log.Pending().error == old(log.Pending()).error + Join(Segments(old(memory[..]), io, Count(io)))
    ensures fd != 1 && fd != 2 ==>
      errno == 1 && log.Pending() == old(log.Pending()) && memory[..] == old(memory[..])
  {
    if fd == STDERR || fd == STDOUT {
      ghost var m, before := memory[..], log.Pending();
      ghost var written := Join(Segments(m, io, Count(io)));
      WrittenFitsSize(m, io, Count(io));
      OnItsChannel(before, LevelOf(fd), written);
      assert LevelOf(fd) == if fd == 1 then Info else Error;
      hide EntriesDefined, Segments, Join, Streams.Then, On, LevelOf, Logger.Pending;
      var amount := PushEntries(memory, log, LevelOf(fd), io);
      WriteBytes(memory, io.out, Encode(amount, 8));
      errno := 0;
    } else {
      errno := 1;
    }
  }

  /** Text goes to the end of its own channel and leaves the other alone. */
  lemma OnItsChannel(before: Streams, level: LogLevel, text: Text)
    ensures level == Info ==> before.Then(On(level, text)) == Streams(before.info + text, before.error)
    ensures level == Error ==> before.Then(On(level, text)) == Streams(before.info, before.error + text)
  {
    ThenIsAssociative(before, NOTHING, NOTHING);
  }

  /** Where entry `i`'s bytes start in what a call writes: after the positive lengths before it. */
  function WriteOffset(m: seq<byte>, io: Io, i: nat): nat
    requires EntriesDefined(m, io, i)
  {
    if i == 0 then 0
    else
      assert EntryDefined(m, io, i - 1);
      var length := LoadInt32(m, io.iovec + 8 * (i - 1) + 4);
      WriteOffset(m, io, i - 1) + if length > 0 then length else 0
  }

  lemma WriteOffsetStep(m: seq<byte>, io: Io, i: nat)
    requires EntriesDefined(m, io, i + 1)
    ensures EntriesDefined(m, io, i) && EntryDefined(m, io, i)
    ensures WriteOffset(m, io, i + 1) == WriteOffset(m, io, i) + |Segment(m, io, i)|
  {
    assert EntryDefined(m, io, i);
    hide LoadInt32;
  }

  lemma EarlierEntries(m: seq<byte>, io: Io, n: nat, i: nat)
    requires EntriesDefined(m, io, n) && i < n
    ensures EntriesDefined(m, io, i) && EntryDefined(m, io, i) && EntriesDefined(m, io, n - 1)
  {
    hide EntryDefined;
  }

  lemma SegmentsOneMore(m: seq<byte>, io: Io, n: nat)
    requires EntriesDefined(m, io, n + 1)
    ensures EntriesDefined(m, io, n) && EntryDefined(m, io, n)
    ensures Join(Segments(m, io, n + 1)) == Join(Segments(m, io, n)) + Segment(m, io, n)
  {
    EarlierEntries(m, io, n + 1, n);
    hide EntryDefined, EntriesDefined, Segment;
    JoinKept(Segments(m, io, n), Segment(m, io, n));
  }

  lemma {:induction false} WrittenLength(m: seq<byte>, io: Io, n: nat)
    requires EntriesDefined(m, io, n)
    ensures |Join(Segments(m, io, n))| == WriteOffset(m, io, n)
  {
    hide *;
    if n == 0 {
      NoneWritten(m, io);
    } else {
      SegmentsOneMore(m, io, n - 1);
      WriteOffsetStep(m, io, n - 1);
      WrittenLength(m, io, n - 1);
    }
  }

  lemma NoneWritten(m: seq<byte>, io: Io)
    ensures EntriesDefined(m, io, 0) && Join(Segments(m, io, 0)) == [] && WriteOffset(m, io, 0) == 0
  {
  }

  ghost predicate SegmentAt(text: Text, from: nat, segment: Text) {
    from + |segment| <= |text| && text[from..from + |segment|] == segment
  }

  lemma SegmentStays(text: Text, more: Text, from: nat, segment: Text)
    requires SegmentAt(text, from, segment)
    ensures SegmentAt(text + more, from, segment)
  {
  }

  lemma {:induction false} SegmentWritten(m: seq<byte>, io: Io, n: nat, i: nat)
    requires EntriesDefined(m, io, n) && i < n
    requires EntriesDefined(m, io, i) && EntryDefined(m, io, i)
    ensures SegmentAt(Join(Segments(m, io, n)), WriteOffset(m, io, i), Segment(m, io, i))
  {
    hide *;
    SegmentsOneMore(m, io, n - 1);
    if i < n - 1 {
      SegmentWritten(m, io, n - 1, i);
      SegmentStays(Join(Segments(m, io, n - 1)), Segment(m, io, n - 1), WriteOffset(m, io, i), Segment(m, io, i));
    } else {
      WrittenLength(m, io, n - 1);
      SegmentAdded(Join(Segments(m, io, n - 1)), Segment(m, io, n - 1));
    }
  }

  lemma SegmentAdded(text: Text, segment: Text)
    ensures SegmentAt(text + segment, |text|, segment)
  {
  }

  /** What entry `i` holds: the buffer is its first word, the length its second. */
  lemma SegmentMeans(m: seq<byte>, io: Io, i: nat)
    requires EntryDefined(m, io, i)
    ensures
      var buffer, length := LoadInt32(m, io.iovec + 8 * i), LoadInt32(m, io.iovec + 8 * i + 4);
      if length > 0
      then 0 <= buffer && buffer + length <= |m| && Segment(m, io, i) == m[buffer..buffer + length]
      else Segment(m, io, i) == []
  {
    hide LoadInt32;
  }

  /** Entry `i` puts its buffer's bytes at the offset the positive lengths before it add up to, and that is all. */
  lemma WrittenSlices(m: seq<byte>, io: Io, n: nat, i: nat)
    requires EntriesDefined(m, io, n) && i < n
    ensures EntriesDefined(m, io, i) && EntryDefined(m, io, i)
    ensures |Join(Segments(m, io, n))| == WriteOffset(m, io, n)
    ensures SegmentAt(Join(Segments(m, io, n)), WriteOffset(m, io, i), Segment(m, io, i))
  {
    hide *;
    EarlierEntries(m, io, n, i);
    WrittenLength(m, io, n);
    SegmentWritten(m, io, n, i);
  }

  lemma NothingWritten(before: Streams, level: LogLevel)
    ensures Join([]) == [] && before.Then(On(level, [])) == before
  {
    ThenIsAssociative(before, NOTHING, NOTHING);
  }

  // ----- fd_read -----

  /** How many bytes `fread` delivers, and the memory it leaves. */
  function Delivers(file: OpenFile, length: nat): nat {
    if file.position + length <= |file.contents| then length
    else if file.position <= |file.contents| then |file.contents| - file.position
    else 0
  }

  function Fread(m: seq<byte>, file: OpenFile, buffer: nat, length: nat): seq<byte>
    requires buffer + length <= |m|
  {
    var n := Delivers(file, length);
    if n == 0 then m else Overwrite(m, buffer, file.contents[file.position..file.position + n])
  }

  /** The read loop's variables. */
  datatype Reading = Reading(memory: seq<byte>, file: OpenFile, amount: nat)

  /** The read loop's body: the entry is read from memory as the earlier ones left it. */
  function ReadStep(s: Reading, io: Io, i: nat): (r: Reading)
    ensures |r.memory| == |s.memory| && s.amount <= r.amount <= s.amount + TWO_31
    ensures r.file == s.file.(position := s.file.position + r.amount - s.amount)
  {
    if EntryDefined(s.memory, io, i) && Length(s.memory, io, i) > 0 then
      var length := Length(s.memory, io, i);
      var delivered := Delivers(s.file, length);
      Reading(
        Fread(s.memory, s.file, Buffer(s.memory, io, i), length),
        s.file.(position := s.file.position + delivered),
        s.amount + delivered)
    else s
  }

  function ReadLoop(m: seq<byte>, file: OpenFile, io: Io, n: nat): (r: Reading)
    ensures |r.memory| == |m| && r.amount <= n * TWO_31
    ensures r.file == file.(position := file.position + r.amount)
  {
    if n == 0 then Reading(m, file, 0) else ReadStep(ReadLoop(m, file, io, n - 1), io, n - 1)
  }

  /** Entry `i` is defined in the memory that the earlier entries leave. */
  predicate EntryReadable(m: seq<byte>, file: OpenFile, io: Io, i: nat) {
    EntryDefined(ReadLoop(m, file, io, i).memory, io, i)
  }

  predicate ReadDefined(m: seq<byte>, file: OpenFile, io: Io) {
    InMemory(m, io.out, 8) && forall i :: 0 <= i < Count(io) ==> EntryReadable(m, file, io, i)
  }

  /** The open file that `ensure_open` hands out. */
  function Opened(t: Table, disk: Disk, fd: int): OpenFile
    requires fd in t.files
  {
    EnsureOpen(t, disk, fd).files[fd].stream.value
  }

  /** What a read leaves in memory and in the table. */
  function AfterRead(m: seq<byte>, file: OpenFile, io: Io): seq<byte>
    requires InMemory(m, io.out, 8)
  {
    var loop := ReadLoop(m, file, io, Count(io));
    StoreWord(loop.memory, io.out, loop.amount)
  }

  function TableAfterRead(t: Table, disk: Disk, fd: int, m: seq<byte>, io: Io): Table
    requires fd in t.files
  {
    Seek(EnsureOpen(t, disk, fd), fd, ReadLoop(m, Opened(t, disk, fd), io, Count(io)).file.position)
  }

  /** The read loop's body, in place. */
  method ReadEntry(memory: array<byte>, file: OpenFile, amount: nat, io: Io, i: nat) returns (file': OpenFile, amount': nat)
    requires EntryDefined(memory[..], io, i)
    modifies memory
    ensures Reading(memory[..], file', amount') == ReadStep(Reading(old(memory[..]), file, amount), io, i)
  {
    file', amount' := file, amount;
    var length := Length(memory[..], io, i);
    if length > 0 {
      var buffer := Buffer(memory[..], io, i);
      var delivered := Delivers(file, length);
      if delivered > 0 {
        WriteBytes(memory, buffer, file.contents[file.position..file.position + delivered]);
      }
      file' := file.(position := file.position + delivered);
      amount' := amount + delivered;
    }
  }

  /** The read loop and the store of its total. */
  method FillBuffers(memory: array<byte>, file: OpenFile, io: Io) returns (position: nat)
    requires ReadDefined(memory[..], file, io)
    modifies memory
    ensures memory[..] == AfterRead(old(memory[..]), file, io)
    ensures position == ReadLoop(old(memory[..]), file, io, Count(io)).file.position
  {
    ghost var m := memory[..];
    hide EntryDefined, ReadStep;
    var current, amount := file, 0;
    for i := 0 to Count(io)
      invariant Reading(memory[..], current, amount) == ReadLoop(m, file, io, i)
    {
      assert EntryReadable(m, file, io, i);
      current, amount := ReadEntry(memory, current, amount, io, i);
    }
    WriteBytes(memory, io.out, Encode(amount, 8));
    position := current.position;
  }

  /** The error number, or none where the lookup of an unregistered descriptor throws. */
  method FdRead(memory: array<byte>, files: FileTable, fd: int32, io: Io) returns (errno: Option<int32>)
    requires fd in files.files ==> ReadDefined(memory[..], Opened(files.State(), files.disk, fd), io)
    modifies memory, files
    ensures fd !in old(files.files) ==>
      errno == None && memory[..] == old(memory[..]) && files.State() == old(files.State())
    ensures fd in old(files.files) ==>
      && errno == Some(0)
      && memory[..] == AfterRead(old(memory[..]), Opened(old(files.State()), files.disk, fd), io)
      && files.State() == TableAfterRead(old(files.State()), files.disk, fd, old(memory[..]), io)
  {
    var file := files.Open(fd);
    if file.None? {
      return None;
    }
    hide AfterRead, ReadDefined, ReadLoop;
    var position := FillBuffers(memory, file.value, io);
    files.Advance(fd, position);
    errno := Some(0);
  }

  // ----- fd_close and fd_fdstat_get -----

  /** The error number, or none where the lookup of an unregistered descriptor throws. */
  method FdClose(files: FileTable, fd: int32) returns (errno: Option<int32>)
    modifies files
    ensures errno == if 0 <= fd <= 2 then Some(1) else if fd in old(files.files) then Some(0) else None
    ensures files.State() == if 0 <= fd <= 2 then old(files.State()) else Close(old(files.State()), fd)
  {
    if fd != STDOUT && fd != STDERR && fd != STDIN {
      var found := files.Shut(fd);
      errno := if found then Some(0) else None;
    } else {
      errno := Some(1);
    }
  }

  const CONSOLE_STAT := FdStat(CharacterDevice, 0,
                               FD_DATASYNC | FD_SYNC | FD_WRITE | FD_ADVISE | FD_FILESTAT_GET | POLL_FD_READWRITE, 0)

  const DEFAULT_STATS: map<int32, FdStat> := map[STDIN := NO_STAT, STDOUT := CONSOLE_STAT, STDERR := CONSOLE_STAT]

  /** The status `fd_fdstat_get` stores and the error number it returns. */
  function FdStatGet(t: Table, fd: int32): (FdStat, int32) {
    var stat := if fd in DEFAULT_STATS then DEFAULT_STATS[fd] else FdStatOf(t, fd);
    (stat, if stat.filetype != Unknown then 0 else 1)
  }

  lemma RightsBits()
    ensures CONSOLE_STAT.rights & FD_WRITE == FD_WRITE && CONSOLE_STAT.rights & FD_READ == 0
    ensures FILE_STAT.rights & FD_READ == FD_READ && FILE_STAT.rights & FD_WRITE == 0
    ensures NO_STAT.rights & FD_READ == 0 && NO_STAT.rights & FD_WRITE == 0
    ensures FD_READ != 0 && FD_WRITE != 0
  {
  }

  /** Reported rights are exactly what `fd_write` accepts and `fd_read` finds. */
  lemma RightsAgreeWithBehaviour(disk: Disk, ops: seq<Operation>, fd: int32)
    ensures
      var t := After(disk, ops);
      var (stat, errno) := FdStatGet(t, fd);
      && (errno == 0 <==> fd == 1 || fd == 2 || fd in t.files)
      && (errno != 0 ==> errno == 1)
      && (stat.rights & 0x40 == 0x40 <==> fd == 1 || fd == 2)
      && (stat.rights & 0x2 == 0x2 <==> fd in t.files)
  {
    TableInvariant(disk, ops);
    RightsBits();
  }

  /** The whole status of every descriptor: bits 0, 4, 6, 7, 21 and 27 for the output channels, 1 and 2 for files. */
  lemma StatusOf(disk: Disk, ops: seq<Operation>, fd: int32)
    ensures
      var t := After(disk, ops);
      var stat := FdStatGet(t, fd).0;
      && stat.inheriting == 0
      && (fd == 1 || fd == 2 ==> stat.filetype == CharacterDevice && stat.flags == 0 && stat.rights == 0x82000D1)
      && (fd in t.files ==> stat.filetype == RegularFile && stat.flags == 0x18 && stat.rights == 0x6)
      && (fd != 1 && fd != 2 && fd !in t.files ==> stat.filetype == Unknown && stat.flags == 0 && stat.rights == 0)
  {
    TableInvariant(disk, ops);
    StatusBits();
  }

  lemma StatusBits()
    ensures CONSOLE_STAT == FdStat(CharacterDevice, 0, 0x82000D1, 0)
    ensures FILE_STAT == FdStat(RegularFile, 0x18, 0x6, 0)
  {
  }
}
