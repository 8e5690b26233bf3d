/** The virtual file table: guest descriptors for host files, opened on first use. */
module VirtualFiles {
  import opened Bytes
  import opened Wrappers

  datatype FileType = Unknown | CharacterDevice | RegularFile

  const FD_DATASYNC: bv64 := 1
  const FD_READ: bv64 := 1 << 1
  const FD_SEEK: bv64 := 1 << 2
  const FD_SYNC: bv64 := 1 << 4
  const FD_WRITE: bv64 := 1 << 6
  const FD_ADVISE: bv64 := 1 << 7
  const FD_FILESTAT_GET: bv64 := 1 << 21
  const POLL_FD_READWRITE: bv64 := 1 << 27
  const FLAG_RSYNC: bv16 := 1 << 3
  const FLAG_SYNC: bv16 := 1 << 4

  datatype FdStat = FdStat(filetype: FileType, flags: bv16, rights: bv64, inheriting: bv64)

  const NO_STAT := FdStat(Unknown, 0, 0, 0)
  const FILE_STAT := FdStat(RegularFile, FLAG_RSYNC | FLAG_SYNC, FD_READ | FD_SEEK, 0)

  /** A `FILE*`: which `fopen` made it, the file's bytes, and how many have been read. */
  datatype OpenFile = OpenFile(id: nat, contents: seq<byte>, position: nat)

  datatype FileInfo = FileInfo(virtualPath: string, realPath: string, descriptor: int, stream: Option<OpenFile>, fdstat: FdStat)

  /** The table's globals, and the C library's side: how often `fopen` succeeded, and the ids given to `fclose`. */
  datatype Table = Table(last: int, files: map<int, FileInfo>, byPath: map<string, int>, fopens: nat, fclosed: seq<nat>)

  const FIRST_TABLE := Table(10, map[], map[], 0, [])

  /** What every real path holds; a path that does not open is not modelled. */
  type Disk = string -> seq<byte>

  function EraseIfExists(t: Table, virtualPath: string): Table {
    if virtualPath in t.byPath
    then t.(files := t.files - {t.byPath[virtualPath]}, byPath := t.byPath - {virtualPath})
    else t
  }

  function AllowRead(t: Table, realPath: string, virtualPath: string): Table {
    var erased := EraseIfExists(t, virtualPath);
    var fd := erased.last + 1;
    erased.(
      last := fd,
      files := erased.files[fd := FileInfo(virtualPath, realPath, fd, None, FILE_STAT)],
      byPath := erased.byPath[virtualPath := fd])
  }

  /** An unregistered descriptor makes the lookup throw, which changes nothing. */
  function EnsureOpen(t: Table, disk: Disk, fd: int): Table {
    if fd in t.files && t.files[fd].stream.None? then
      var file := OpenFile(t.fopens, disk(t.files[fd].realPath), 0);
      t.(files := t.files[fd := t.files[fd].(stream := Some(file))], fopens := t.fopens + 1)
    else t
  }

  function Close(t: Table, fd: int): Table {
    if fd in t.files && t.files[fd].stream.Some? then
      t.(
        files := t.files[fd := t.files[fd].(stream := None)],
        fclosed := t.fclosed + [t.files[fd].stream.value.id])
    else t
  }

  /** `fread` moves an open file's position. */
  function Seek(t: Table, fd: int, position: nat): Table {
    if fd in t.files && t.files[fd].stream.Some? then
      var file := t.files[fd].stream.value;
      t.(files := t.files[fd := t.files[fd].(stream := Some(file.(position := position)))])
    else t
  }

  function RealPathOf(t: Table, fd: int): string {
    if fd in t.files then t.files[fd].realPath else ""
  }

  function RealPathAt(t: Table, virtualPath: string): string {
    if virtualPath in t.byPath then RealPathOf(t, t.byPath[virtualPath]) else ""
  }

  function FdStatOf(t: Table, fd: int): FdStat {
    if fd in t.files then t.files[fd].fdstat else NO_STAT
  }

  function FdStatAt(t: Table, virtualPath: string): FdStat {
    if virtualPath in t.byPath then FdStatOf(t, t.byPath[virtualPath]) else NO_STAT
  }

  // ----- runs -----

  datatype Operation =
    | Allow(realPath: string, virtualPath: string)
    | Open(fd: int)
    | Shut(fd: int)
    | Advance(fd: int, position: nat)

  function Apply(t: Table, disk: Disk, op: Operation): Table {
    match op
    case Allow(source, path) => AllowRead(t, source, path)
    case Open(fd) => EnsureOpen(t, disk, fd)
    case Shut(fd) => Close(t, fd)
    case Advance(fd, position) => Seek(t, fd, position)
  }

  function After(disk: Disk, ops: seq<Operation>): Table {
    if ops == [] then FIRST_TABLE else Apply(After(disk, ops[..|ops| - 1]), disk, ops[|ops| - 1])
  }

  /** The two maps are inverse to each other, and descriptors lie above 10 and at or below the counter. */
  ghost predicate Bijective(t: Table) {
    && (forall p :: p in t.byPath ==> t.byPath[p] in t.files && t.files[t.byPath[p]].virtualPath == p)
    && (forall fd :: fd in t.files ==>
      && t.files[fd].virtualPath in t.byPath
      && t.byPath[t.files[fd].virtualPath] == fd
      && 10 < fd <= t.last
      && t.files[fd].descriptor == fd
      && t.files[fd].fdstat == FILE_STAT)
  }

  /** Open files carry distinct ids of past `fopen`s, none of them closed; no id is closed twice. */
  ghost predicate OwnsOpenFiles(t: Table) {
    && (forall fd :: fd in t.files && t.files[fd].stream.Some? ==>
      t.files[fd].stream.value.id < t.fopens && t.files[fd].stream.value.id !in t.fclosed)
    && (forall fd, fe :: fd in t.files && fe in t.files && fd != fe && t.files[fd].stream.Some? && t.files[fe].stream.Some? ==>
      t.files[fd].stream.value.id != t.files[fe].stream.value.id)
    && (forall i :: 0 <= i < |t.fclosed| ==> t.fclosed[i] < t.fopens)
    && (forall i, j :: 0 <= i < j < |t.fclosed| ==> t.fclosed[i] != t.fclosed[j])
  }

  lemma ApplyKeepsBijective(t: Table, disk: Disk, op: Operation)
    requires Bijective(t) && t.last >= 10
    ensures Bijective(Apply(t, disk, op)) && Apply(t, disk, op).last >= t.last
  {
  }

  lemma AllowKeepsOwnership(t: Table, realPath: string, virtualPath: string)
    requires OwnsOpenFiles(t)
    ensures OwnsOpenFiles(AllowRead(t, realPath, virtualPath))
  {
  }

  lemma EnsureOpenKeepsOwnership(t: Table, disk: Disk, fd: int)
    requires OwnsOpenFiles(t)
    ensures OwnsOpenFiles(EnsureOpen(t, disk, fd))
  {
  }

  lemma CloseKeepsOwnership(t: Table, fd: int)
    requires OwnsOpenFiles(t)
    ensures OwnsOpenFiles(Close(t, fd))
  {
  }

  lemma SeekKeepsOwnership(t: Table, fd: int, position: nat)
    requires OwnsOpenFiles(t)
    ensures OwnsOpenFiles(Seek(t, fd, position))
  {
  }

  lemma ApplyKeepsOwnership(t: Table, disk: Disk, op: Operation)
    requires OwnsOpenFiles(t)
    ensures OwnsOpenFiles(Apply(t, disk, op))
  {
    hide OwnsOpenFiles, AllowRead, EnsureOpen, Close, Seek;
    match op {
      case Allow(source, path) => AllowKeepsOwnership(t, source, path);
      case Open(fd) => EnsureOpenKeepsOwnership(t, disk, fd);
      case Shut(fd) => CloseKeepsOwnership(t, fd);
      case Advance(fd, position) => SeekKeepsOwnership(t, fd, position);
    }
  }

  lemma {:induction false} TableInvariant(disk: Disk, ops: seq<Operation>)
    ensures Bijective(After(disk, ops)) && OwnsOpenFiles(After(disk, ops))
    ensures After(disk, ops).last >= 10
  {
    if ops != [] {
      TableInvariant(disk, ops[..|ops| - 1]);
      ApplyKeepsBijective(After(disk, ops[..|ops| - 1]), disk, ops[|ops| - 1]);
      ApplyKeepsOwnership(After(disk, ops[..|ops| - 1]), disk, ops[|ops| - 1]);
    }
  }

  /** The real path of the last registration of a virtual path. */
  function LastAllowed(ops: seq<Operation>, virtualPath: string): string {
    if ops == [] then ""
    else
      var op := ops[|ops| - 1];
      if op.Allow? && op.virtualPath == virtualPath then op.realPath
      else LastAllowed(ops[..|ops| - 1], virtualPath)
  }

  predicate Allows(op: Operation, virtualPath: string) {
    op.Allow? && op.virtualPath == virtualPath
  }

  lemma StepLookup(t: Table, disk: Disk, op: Operation, virtualPath: string)
    requires Bijective(t) && t.last >= 10
    ensures
      var t' := Apply(t, disk, op);
      && RealPathAt(t', virtualPath) == (if Allows(op, virtualPath) then op.realPath else RealPathAt(t, virtualPath))
      && (virtualPath in t'.byPath <==> virtualPath in t.byPath || Allows(op, virtualPath))
  {
  }

  /** Looking a path up yields its last registration, by path and by descriptor alike. */
  lemma {:induction false} LastRegistrationWins(disk: Disk, ops: seq<Operation>, virtualPath: string)
    ensures RealPathAt(After(disk, ops), virtualPath) == LastAllowed(ops, virtualPath)
    ensures virtualPath in After(disk, ops).byPath <==> exists i :: 0 <= i < |ops| && Allows(ops[i], virtualPath)
  {
    if ops != [] {
      var before, op := ops[..|ops| - 1], ops[|ops| - 1];
      LastRegistrationWins(disk, before, virtualPath);
      TableInvariant(disk, before);
      StepLookup(After(disk, before), disk, op, virtualPath);
      hide Apply, RealPathAt, Bijective, OwnsOpenFiles;
      if Allows(op, virtualPath) {
        assert Allows(ops[|before|], virtualPath);
      }
      if i :| 0 <= i < |before| && Allows(before[i], virtualPath) {
        assert Allows(ops[i], virtualPath);
      }
    }
  }

  /** Every registered descriptor looks up the same by its own path as by itself, and an unregistered path finds nothing. */
  lemma {:induction false} LookupsAgree(disk: Disk, ops: seq<Operation>, fd: int, virtualPath: string)
    ensures
      var t := After(disk, ops);
      && (fd in t.files ==>
        && RealPathAt(t, t.files[fd].virtualPath) == RealPathOf(t, fd)
        && FdStatAt(t, t.files[fd].virtualPath) == FdStatOf(t, fd) == FILE_STAT)
      && (virtualPath !in t.byPath ==> RealPathAt(t, virtualPath) == "" && FdStatAt(t, virtualPath) == NO_STAT)
  {
    TableInvariant(disk, ops);
  }

  function AllowCount(ops: seq<Operation>): nat {
    if ops == [] then 0 else AllowCount(ops[..|ops| - 1]) + if ops[|ops| - 1].Allow? then 1 else 0
  }

  /** Descriptors are issued one after the other, so the `int32_t` counter overflows at a fixed number of registrations. */
  lemma {:induction false} CounterIsAllowCount(disk: Disk, ops: seq<Operation>)
    ensures After(disk, ops).last == 10 + AllowCount(ops)
  {
    if ops != [] {
      CounterIsAllowCount(disk, ops[..|ops| - 1]);
    }
  }

  /** A descriptor that has been passed by and is not in the table never comes back. */
  lemma {:induction false} RetiredForGood(disk: Disk, ops: seq<Operation>, later: seq<Operation>, fd: int)
    requires ops <= later
    requires fd <= After(disk, ops).last && fd !in After(disk, ops).files
    ensures fd <= After(disk, later).last && fd !in After(disk, later).files
    decreases |later|
  {
    if |ops| < |later| {
      RetiredForGood(disk, ops, later[..|later| - 1], fd);
    } else {
      assert later == ops;
    }
  }

  // ----- conservation of open files -----

  function OpenFds(t: Table): set<int> {
    set fd | fd in t.files && t.files[fd].stream.Some?
  }

  /** Whether this operation drops a table entry whose file is open. */
  predicate Orphans(t: Table, op: Operation) {
    op.Allow? && op.virtualPath in t.byPath && t.byPath[op.virtualPath] in OpenFds(t)
  }

  function OrphanCount(disk: Disk, ops: seq<Operation>): nat {
    if ops == [] then 0
    else
      var before := ops[..|ops| - 1];
      OrphanCount(disk, before) + if Orphans(After(disk, before), ops[|ops| - 1]) then 1 else 0
  }

  lemma OpenFdsAfterAllow(t: Table, realPath: string, virtualPath: string)
    requires Bijective(t) && t.last >= 10
    ensures OpenFds(AllowRead(t, realPath, virtualPath)) ==
      OpenFds(t) - if virtualPath in t.byPath then {t.byPath[virtualPath]} else {}
  {
  }

  lemma OpenFdsAfterOthers(t: Table, disk: Disk, fd: int, position: nat)
    ensures OpenFds(EnsureOpen(t, disk, fd)) == OpenFds(t) + if fd in t.files then {fd} else {}
    ensures OpenFds(Close(t, fd)) == OpenFds(t) - {fd}
    ensures OpenFds(Seek(t, fd, position)) == OpenFds(t)
  {
  }

  /** Opens that are neither closed nor in the table. */
  function Lost(t: Table): int {
    t.fopens - |t.fclosed| - |OpenFds(t)|
  }

  lemma AllowLoses(t: Table, realPath: string, virtualPath: string)
    requires Bijective(t) && t.last >= 10
    ensures Lost(AllowRead(t, realPath, virtualPath)) ==
      Lost(t) + if Orphans(t, Allow(realPath, virtualPath)) then 1 else 0
  {
    OpenFdsAfterAllow(t, realPath, virtualPath);
    hide OpenFds, Bijective;
  }

  lemma OthersLoseNothing(t: Table, disk: Disk, fd: int, position: nat)
    ensures Lost(EnsureOpen(t, disk, fd)) == Lost(Close(t, fd)) == Lost(Seek(t, fd, position)) == Lost(t)
  {
    OpenFdsAfterOthers(t, disk, fd, position);
    assert fd in OpenFds(t) <==> fd in t.files && t.files[fd].stream.Some?;
    hide OpenFds;
  }

  lemma ApplyConservesOpenFiles(t: Table, disk: Disk, op: Operation)
    requires Bijective(t) && t.last >= 10
    ensures Lost(Apply(t, disk, op)) == Lost(t) + if Orphans(t, op) then 1 else 0
  {
    hide Lost, AllowRead, EnsureOpen, Close, Seek, Bijective;
    match op {
      case Allow(source, path) => AllowLoses(t, source, path);
      case Open(fd) => OthersLoseNothing(t, disk, fd, 0);
      case Shut(fd) => OthersLoseNothing(t, disk, fd, 0);
      case Advance(fd, position) => OthersLoseNothing(t, disk, fd, position);
    }
  }

  /** Every successful `fopen` is closed, still in the table, or lost by registering its path again. */
  lemma {:induction false} OpenFilesConserved(disk: Disk, ops: seq<Operation>)
    ensures After(disk, ops).fopens ==
      |After(disk, ops).fclosed| + |OpenFds(After(disk, ops))| + OrphanCount(disk, ops)
  {
    if ops != [] {
      hide Apply, Bijective, Orphans, OpenFds;
      var before := ops[..|ops| - 1];
      OpenFilesConserved(disk, before);
      TableInvariant(disk, before);
      ApplyConservesOpenFiles(After(disk, before), disk, ops[|ops| - 1]);
    }
  }

  // ----- the table as it is kept -----

  class FileTable {
    var last: int
    var files: map<int, FileInfo>
    var byPath: map<string, int>
    var fopens: nat
    var fclosed: seq<nat>
    const disk: Disk

    function State(): Table
      reads this
    {
      Table(last, files, byPath, fopens, fclosed)
    }

    constructor (disk: Disk)
      ensures State() == FIRST_TABLE && this.disk == disk
    {
      last, files, byPath, fopens, fclosed := 10, map[], map[], 0, [];
      this.disk := disk;
    }

    method AllowFileReadAccess(realPath: string, virtualPath: string) returns (fd: int)
      requires last < TWO_31 - 1
      modifies this
      ensures State() == AllowRead(old(State()), realPath, virtualPath)
      ensures fd == last && RealPathOf(State(), fd) == realPath
    {
      if virtualPath in byPath {
        files := files - {byPath[virtualPath]};
        byPath := byPath - {virtualPath};
      }
      last := last + 1;
      fd := last;
      files := files[fd := FileInfo(virtualPath, realPath, fd, None, FILE_STAT)];
      byPath := byPath[virtualPath := fd];
    }

    /** No file for an unregistered descriptor: the lookup throws. */
    method Open(fd: int) returns (file: Option<OpenFile>)
      modifies this
      ensures State() == EnsureOpen(old(State()), disk, fd)
      ensures file.Some? <==> fd in old(files)
      ensures file.Some? ==> fd in files && files[fd].stream == file
    {
      if fd !in files {
        return None;
      }
      var info := files[fd];
      if info.stream.Some? {
        return info.stream;
      }
      file := Some(OpenFile(fopens, disk(info.realPath), 0));
      fopens := fopens + 1;
      files := files[fd := info.(stream := file)];
    }

    /** What reading through the `FILE*` does to it. */
    method Advance(fd: int, position: nat)
      requires fd in files && files[fd].stream.Some?
      modifies this`files
      ensures State() == Seek(old(State()), fd, position)
    {
      var file := files[fd].stream.value;
      files := files[fd := files[fd].(stream := Some(file.(position := position)))];
    }

    /** Whether the descriptor is registered; if not, the lookup throws. */
    method Shut(fd: int) returns (found: bool)
      modifies this
      ensures State() == Close(old(State()), fd) && (found <==> fd in old(files))
    {
      found := fd in files;
      if !found {
        return;
      }
      var info := files[fd];
      if info.stream.Some? {
        fclosed := fclosed + [info.stream.value.id];
        files := files[fd := info.(stream := None)];
      }
    }
  }
}
