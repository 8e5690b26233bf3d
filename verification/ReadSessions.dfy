/** Whole runs of reads and closes on one registered descriptor, among calls on others. */
module ReadSessions {
  import opened Bytes
  import opened VirtualFiles
  import opened Wrappers
  import opened Wasi
  import opened ReadStream

  datatype Event =
    | ReadCall(memory: seq<byte>, io: Io)
    | CloseCall
    | Elsewhere(op: Operation)

  /** The table, and what the guest has received and asked for since the last close. */
  datatype Session = Session(table: Table, received: seq<byte>, asked: nat)

  /** The guest's buffers are apart, and calls elsewhere leave this descriptor and its path alone. */
  ghost predicate Allowed(e: Event, fd: int32, path: string) {
    match e
    case ReadCall(m, io) => Readable(m, io)
    case CloseCall => true
    case Elsewhere(op) => if op.Allow? then op.virtualPath != path else op.fd != fd
  }

  ghost function Next(s: Session, disk: Disk, fd: int32, path: string, e: Event): Session
    requires fd in s.table.files && Allowed(e, fd, path)
  {
    match e
    case ReadCall(m, io) =>
      var file := Opened(s.table, disk, fd);
      Session(
        TableAfterRead(s.table, disk, fd, m, io),
        s.received + AllReceived(file, Request(m, io, Count(io)), AfterRead(m, file, io), Count(io)),
        s.asked + AllAsked(m, io))
    case CloseCall => Session(Close(s.table, fd), [], 0)
    case Elsewhere(op) => s.(table := Apply(s.table, disk, op))
  }

  function Clip(contents: seq<byte>, asked: nat): nat {
    if asked <= |contents| then asked else |contents|
  }

  /** The guest holds the start of the file, and the host's position agrees. */
  ghost predicate InStep(s: Session, disk: Disk, fd: int32, path: string, realPath: string) {
    && Bijective(s.table) && s.table.last >= 10
    && fd in s.table.files
    && s.table.files[fd].virtualPath == path
    && s.table.files[fd].realPath == realPath
    && s.received == disk(realPath)[..Clip(disk(realPath), s.asked)]
    && match s.table.files[fd].stream
       case None => s.asked == 0
       case Some(file) => file.contents == disk(realPath) && file.position == |s.received|
  }

  /** The file a read works on: opened now, or where the last read left it. */
  lemma OpenedInStep(s: Session, disk: Disk, fd: int32, path: string, realPath: string)
    requires InStep(s, disk, fd, path, realPath)
    ensures Opened(s.table, disk, fd).contents == disk(realPath)
    ensures Opened(s.table, disk, fd).position == |s.received| == Clip(disk(realPath), s.asked)
  {
  }

  lemma TableAfterReadIs(t: Table, disk: Disk, fd: int32, m: seq<byte>, io: Io)
    requires Bijective(t) && t.last >= 10 && fd in t.files
    ensures
      var t' := TableAfterRead(t, disk, fd, m, io);
      && Bijective(t') && t'.last >= 10
      && fd in t'.files
      && t'.files[fd] == t.files[fd].(stream := Some(ReadLoop(m, Opened(t, disk, fd), io, Count(io)).file))
  {
    ApplyKeepsBijective(t, disk, Open(fd));
    var position := ReadLoop(m, Opened(t, disk, fd), io, Count(io)).file.position;
    ApplyKeepsBijective(EnsureOpen(t, disk, fd), disk, Advance(fd, position));
  }

  /** Appending the next stretch of the file to a prefix gives a longer prefix. */
  lemma PrefixGrows(c: seq<byte>, file: OpenFile, asked: nat, more: nat)
    requires file.contents == c && file.position == Clip(c, asked)
    ensures file.position <= Reach(file, more) == Clip(c, asked + more) <= |c|
    ensures c[..Clip(c, asked)] + c[file.position..Reach(file, more)] == c[..Clip(c, asked + more)]
  {
  }

  lemma ReadStaysInStep(s: Session, disk: Disk, fd: int32, path: string, realPath: string, m: seq<byte>, io: Io)
    requires InStep(s, disk, fd, path, realPath) && Readable(m, io)
    ensures ReadDefined(m, Opened(s.table, disk, fd), io)
    ensures InStep(Next(s, disk, fd, path, ReadCall(m, io)), disk, fd, path, realPath)
  {
    var file := Opened(s.table, disk, fd);
    OpenedInStep(s, disk, fd, path, realPath);
    TableAfterReadIs(s.table, disk, fd, m, io);
    ReadDelivers(m, file, io);
    PrefixGrows(disk(realPath), file, s.asked, AllAsked(m, io));
    hide ReadDefined, AllReceived, Readable, AfterRead, ReadLoop, Bijective, TableAfterRead, Opened, Reach, Clip, AllAsked;
  }

  lemma ElsewhereStaysInStep(s: Session, disk: Disk, fd: int32, path: string, realPath: string, op: Operation)
    requires InStep(s, disk, fd, path, realPath) && Allowed(Elsewhere(op), fd, path)
    ensures InStep(Next(s, disk, fd, path, Elsewhere(op)), disk, fd, path, realPath)
  {
    ApplyKeepsBijective(s.table, disk, op);
    assert Apply(s.table, disk, op).files[fd] == s.table.files[fd];
  }

  lemma CloseStaysInStep(s: Session, disk: Disk, fd: int32, path: string, realPath: string)
    requires InStep(s, disk, fd, path, realPath)
    ensures InStep(Next(s, disk, fd, path, CloseCall), disk, fd, path, realPath)
  {
    ApplyKeepsBijective(s.table, disk, Shut(fd));
  }

  ghost function Run(s: Session, disk: Disk, fd: int32, path: string, realPath: string, events: seq<Event>): (r: Session)
    requires InStep(s, disk, fd, path, realPath)
    requires forall i :: 0 <= i < |events| ==> Allowed(events[i], fd, path)
    ensures InStep(r, disk, fd, path, realPath)
  {
    if events == [] then s
    else
      var before := Run(s, disk, fd, path, realPath, events[..|events| - 1]);
      StepStaysInStep(before, disk, fd, path, realPath, events[|events| - 1]);
      Next(before, disk, fd, path, events[|events| - 1])
  }

  lemma StepStaysInStep(s: Session, disk: Disk, fd: int32, path: string, realPath: string, e: Event)
    requires InStep(s, disk, fd, path, realPath) && Allowed(e, fd, path)
    ensures InStep(Next(s, disk, fd, path, e), disk, fd, path, realPath)
  {
    hide InStep, Next;
    match e {
      case ReadCall(m, io) => ReadStaysInStep(s, disk, fd, path, realPath, m, io);
      case CloseCall => CloseStaysInStep(s, disk, fd, path, realPath);
      case Elsewhere(op) => ElsewhereStaysInStep(s, disk, fd, path, realPath, op);
    }
  }

  /** Main result: since the last close, the guest received exactly the file's prefix of the length it asked for. */
  lemma ReceivedIsPrefix(
    disk: Disk, setup: seq<Operation>, fd: int32, events: seq<Event>)
    requires fd in After(disk, setup).files && After(disk, setup).files[fd].stream.None?
    requires forall i :: 0 <= i < |events| ==> Allowed(events[i], fd, After(disk, setup).files[fd].virtualPath)
    ensures
      var info := After(disk, setup).files[fd];
      var start := Session(After(disk, setup), [], 0);
      && InStep(start, disk, fd, info.virtualPath, info.realPath)
      && var end := Run(start, disk, fd, info.virtualPath, info.realPath, events);
      && end.received == disk(info.realPath)[..Clip(disk(info.realPath), end.asked)]
  {
    TableInvariant(disk, setup);
    var info := After(disk, setup).files[fd];
    var start := Session(After(disk, setup), [], 0);
    var end := Run(start, disk, fd, info.virtualPath, info.realPath, events);
    assert InStep(end, disk, fd, info.virtualPath, info.realPath);
  }
}
