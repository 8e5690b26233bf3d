/** What a guest receives through `fd_read`: the file's bytes in order, wherever it asked for them. */
module ReadStream {
  import opened Bytes
  import opened VirtualFiles
  import opened Wasi

  // ----- a request, decoded once -----

  /** A buffer and how many bytes it asks for; entries of non-positive length ask for none. */
  datatype Entry = Entry(buffer: nat, asks: nat)

  function EntryOf(m: seq<byte>, io: Io, i: nat): (e: Entry)
    requires EntryDefined(m, io, i)
    ensures e.buffer + e.asks <= |m|
  {
    if Length(m, io, i) > 0 then Entry(Buffer(m, io, i), Length(m, io, i)) else Entry(0, 0)
  }

  function Request(m: seq<byte>, io: Io, n: nat): (es: seq<Entry>)
    requires EntriesDefined(m, io, n)
    ensures |es| == n
  {
    if n == 0 then [] else Request(m, io, n - 1) + [EntryOf(m, io, n - 1)]
  }

  lemma {:induction false} RequestAt(m: seq<byte>, io: Io, n: nat, i: nat)
    requires i < n && EntriesDefined(m, io, n)
    ensures EntryDefined(m, io, i) && Request(m, io, n)[i] == EntryOf(m, io, i)
  {
    hide EntryOf, EntryDefined;
    if i < n - 1 {
      RequestAt(m, io, n - 1, i);
    }
  }

  function Requested(es: seq<Entry>, n: nat): nat
    requires n <= |es|
  {
    if n == 0 then 0 else Requested(es, n - 1) + es[n - 1].asks
  }

  /** The file position once `requested` more bytes were asked for: never past the end. */
  function Reach(file: OpenFile, requested: nat): nat {
    if file.position + requested <= |file.contents| then file.position + requested else |file.contents|
  }

  function Reached(file: OpenFile, es: seq<Entry>, n: nat): nat
    requires n <= |es|
  {
    Reach(file, Requested(es, n))
  }

  predicate Separate(a: int, n: nat, b: int, k: nat) {
    n == 0 || k == 0 || a + n <= b || b + k <= a
  }

  predicate Fits(size: nat, es: seq<Entry>) {
    forall i :: 0 <= i < |es| ==> es[i].buffer + es[i].asks <= size
  }

  /** A buffer keeps clear of the iovec entries that are still to be read when it is filled. */
  predicate SparesLaterEntries(es: seq<Entry>, io: Io, i: nat, j: nat)
    requires i < |es|
  {
    Separate(es[i].buffer, es[i].asks, io.iovec + 8 * j, 8)
  }

  /** The buffers lie in memory, disjoint from each other, from the result slot and from the iovec entries after theirs. */
  ghost predicate Apart(size: nat, es: seq<Entry>, io: Io) {
    && Fits(size, es)
    && (forall i, j :: 0 <= i < j < |es| ==> Separate(es[i].buffer, es[i].asks, es[j].buffer, es[j].asks))
    && (forall i, j :: 0 <= i < |es| && i < j < Count(io) ==> SparesLaterEntries(es, io, i, j))
    && (forall i :: 0 <= i < |es| ==> Separate(es[i].buffer, es[i].asks, io.out, 8))
  }

  predicate InBuffer(e: Entry, a: int) {
    e.buffer <= a < e.buffer + e.asks
  }

  ghost predicate Outside(es: seq<Entry>, n: nat, a: int)
    requires n <= |es|
  {
    forall i :: 0 <= i < n ==> !InBuffer(es[i], a)
  }

  // ----- the loop over a fixed request -----

  function FillOne(s: Reading, e: Entry): Reading
    requires e.buffer + e.asks <= |s.memory|
  {
    var delivered := Delivers(s.file, e.asks);
    Reading(
      Fread(s.memory, s.file, e.buffer, e.asks),
      s.file.(position := s.file.position + delivered),
      s.amount + delivered)
  }

  function Fill(m: seq<byte>, file: OpenFile, es: seq<Entry>, n: nat): (s: Reading)
    requires n <= |es| && Fits(|m|, es)
    ensures |s.memory| == |m|
  {
    if n == 0 then Reading(m, file, 0) else FillOne(Fill(m, file, es, n - 1), es[n - 1])
  }

  /** Positions: each entry starts where the one before stopped. */
  lemma {:induction false} FillPosition(m: seq<byte>, file: OpenFile, es: seq<Entry>, n: nat)
    requires n <= |es| && Fits(|m|, es)
    requires file.position <= |file.contents|
    ensures file.position <= Reached(file, es, n) <= |file.contents|
    ensures Fill(m, file, es, n).file == file.(position := Reached(file, es, n))
    ensures Fill(m, file, es, n).amount == Reached(file, es, n) - file.position
  {
    if n > 0 {
      FillPosition(m, file, es, n - 1);
    }
  }

  /** Framing: bytes in no buffer keep their value. */
  lemma {:induction false} FillFrame(m: seq<byte>, file: OpenFile, es: seq<Entry>, n: nat, a: nat)
    requires n <= |es| && Fits(|m|, es)
    requires a < |m| && Outside(es, n, a)
    ensures Fill(m, file, es, n).memory[a] == m[a]
  {
    if n > 0 {
      FillFrame(m, file, es, n - 1, a);
      assert !InBuffer(es[n - 1], a);
    }
  }

  /** Entry `i`'s buffer starts with its share of the file. */
  ghost predicate GotShare(mem: seq<byte>, file: OpenFile, es: seq<Entry>, i: nat)
    requires i < |es|
  {
    var from, to := Reached(file, es, i), Reached(file, es, i + 1);
    && from <= to <= |file.contents|
    && to - from <= es[i].asks
    && es[i].buffer + (to - from) <= |mem|
    && mem[es[i].buffer..es[i].buffer + (to - from)] == file.contents[from..to]
  }

  lemma FillOneKeepsShare(s: Reading, file: OpenFile, es: seq<Entry>, i: nat, e: Entry)
    requires i < |es| && e.buffer + e.asks <= |s.memory| && GotShare(s.memory, file, es, i)
    requires Separate(es[i].buffer, es[i].asks, e.buffer, e.asks)
    ensures GotShare(FillOne(s, e).memory, file, es, i)
  {
    var from, to := Reached(file, es, i), Reached(file, es, i + 1);
    var b := es[i].buffer;
    assert FillOne(s, e).memory[b..b + (to - from)] == s.memory[b..b + (to - from)];
  }

  lemma FillOneGivesShare(s: Reading, file: OpenFile, es: seq<Entry>, i: nat)
    requires i < |es| && es[i].buffer + es[i].asks <= |s.memory|
    requires file.position <= Reached(file, es, i) <= |file.contents|
    requires s.file == file.(position := Reached(file, es, i))
    ensures GotShare(FillOne(s, es[i]).memory, file, es, i)
  {
    var from, to := Reached(file, es, i), Reached(file, es, i + 1);
    assert Delivers(s.file, es[i].asks) == to - from;
  }

  lemma LastShare(m: seq<byte>, file: OpenFile, es: seq<Entry>, n: nat)
    requires 0 < n <= |es| && Fits(|m|, es)
    requires file.position <= |file.contents|
    ensures GotShare(Fill(m, file, es, n).memory, file, es, n - 1)
  {
    FillPosition(m, file, es, n - 1);
    FillOneGivesShare(Fill(m, file, es, n - 1), file, es, n - 1);
  }

  lemma EarlierShare(m: seq<byte>, file: OpenFile, es: seq<Entry>, io: Io, n: nat, i: nat)
    requires i < n < |es| && Apart(|m|, es, io)
    requires GotShare(Fill(m, file, es, n).memory, file, es, i)
    ensures GotShare(Fill(m, file, es, n + 1).memory, file, es, i)
  {
    FillOneKeepsShare(Fill(m, file, es, n), file, es, i, es[n]);
  }

  lemma {:induction false} FillShares(m: seq<byte>, file: OpenFile, es: seq<Entry>, io: Io, n: nat, i: nat)
    requires i < n <= |es| && Apart(|m|, es, io)
    requires file.position <= |file.contents|
    ensures GotShare(Fill(m, file, es, n).memory, file, es, i)
  {
    hide GotShare, Fill;
    if i < n - 1 {
      FillShares(m, file, es, io, n - 1, i);
      EarlierShare(m, file, es, io, n - 1, i);
    } else {
      LastShare(m, file, es, n);
    }
  }

  // ----- the code's loop, which rereads the iovec array -----

  lemma EntryReread(m: seq<byte>, s: seq<byte>, io: Io, i: nat)
    requires EntryDefined(m, io, i) && |s| == |m|
    requires forall a :: io.iovec + 8 * i <= a < io.iovec + 8 * i + 8 ==> s[a] == m[a]
    ensures EntryDefined(s, io, i) && EntryOf(s, io, i) == EntryOf(m, io, i)
  {
    var at := io.iovec + 8 * i;
    assert s[at..at + 4] == m[at..at + 4];
    assert s[at + 4..at + 8] == m[at + 4..at + 8];
  }

  lemma StepFills(s: Reading, io: Io, i: nat)
    requires EntryDefined(s.memory, io, i)
    ensures ReadStep(s, io, i) == FillOne(s, EntryOf(s.memory, io, i))
  {
  }

  /** With the buffers apart, rereading finds the request as it was first made. */
  lemma {:induction false} LoopFills(m: seq<byte>, file: OpenFile, io: Io, n: nat)
    requires n <= Count(io) && EntriesDefined(m, io, Count(io))
    requires Apart(|m|, Request(m, io, Count(io)), io)
    ensures ReadLoop(m, file, io, n) == Fill(m, file, Request(m, io, Count(io)), n)
    ensures n < Count(io) ==> EntryReadable(m, file, io, n)
  {
    hide ReadStep, FillOne, EntryDefined, EntriesDefined, Request, Apart, EntryOf;
    var es := Request(m, io, Count(io));
    if n > 0 {
      LoopFills(m, file, io, n - 1);
      StepFills(ReadLoop(m, file, io, n - 1), io, n - 1);
      EntryAtTurn(m, file, io, n - 1);
    }
    if n < Count(io) {
      EntryAtTurn(m, file, io, n);
    }
  }

  lemma EarlierBuffersSpare(m: seq<byte>, io: Io, n: nat, a: int)
    requires n < Count(io) && EntriesDefined(m, io, Count(io))
    requires Apart(|m|, Request(m, io, Count(io)), io)
    requires io.iovec + 8 * n <= a < io.iovec + 8 * n + 8
    ensures Outside(Request(m, io, Count(io)), n, a)
  {
    var es := Request(m, io, Count(io));
    hide EntriesDefined, Request;
    forall i | 0 <= i < n
      ensures !InBuffer(es[i], a)
    {
      assert SparesLaterEntries(es, io, i, n);
    }
  }

  lemma EntryAtTurn(m: seq<byte>, file: OpenFile, io: Io, n: nat)
    requires n < Count(io) && EntriesDefined(m, io, Count(io))
    requires Apart(|m|, Request(m, io, Count(io)), io)
    ensures
      var es := Request(m, io, Count(io));
      var s := Fill(m, file, es, n);
      EntryDefined(s.memory, io, n) && EntryOf(s.memory, io, n) == es[n]
  {
    var es := Request(m, io, Count(io));
    RequestAt(m, io, Count(io), n);
    forall a | io.iovec + 8 * n <= a < io.iovec + 8 * n + 8
      ensures Fill(m, file, es, n).memory[a] == m[a]
    {
      EarlierBuffersSpare(m, io, n, a);
      FillFrame(m, file, es, n, a);
    }
    EntryReread(m, Fill(m, file, es, n).memory, io, n);
  }

  // ----- one call -----

  /** The bytes entry `i` received, found in the memory after the call. */
  function Received(file: OpenFile, es: seq<Entry>, after: seq<byte>, i: nat): seq<byte>
    requires i < |es|
  {
    var share := Reached(file, es, i + 1) - Reached(file, es, i);
    if 0 <= share && es[i].buffer + share <= |after| then after[es[i].buffer..es[i].buffer + share] else []
  }

  /** All of them, in iovec order. */
  function AllReceived(file: OpenFile, es: seq<Entry>, after: seq<byte>, n: nat): seq<byte>
    requires n <= |es|
  {
    if n == 0 then [] else AllReceived(file, es, after, n - 1) + Received(file, es, after, n - 1)
  }

  lemma ShareIsReceived(file: OpenFile, es: seq<Entry>, after: seq<byte>, i: nat)
    requires i < |es| && GotShare(after, file, es, i)
    ensures Reached(file, es, i) <= Reached(file, es, i + 1) <= |file.contents|
    ensures Received(file, es, after, i) == file.contents[Reached(file, es, i)..Reached(file, es, i + 1)]
  {
  }

  lemma SlicesJoin<T>(s: seq<T>, a: nat, b: nat, c: nat)
    requires a <= b <= c <= |s|
    ensures s[a..b] + s[b..c] == s[a..c]
  {
  }

  /** The first `n` entries together received a stretch of the file. */
  ghost predicate Contiguous(file: OpenFile, es: seq<Entry>, after: seq<byte>, n: nat)
    requires n <= |es|
  {
    && file.position <= Reached(file, es, n) <= |file.contents|
    && AllReceived(file, es, after, n) == file.contents[file.position..Reached(file, es, n)]
  }

  lemma ShareJoins(file: OpenFile, es: seq<Entry>, after: seq<byte>, n: nat)
    requires n < |es| && GotShare(after, file, es, n) && Contiguous(file, es, after, n)
    ensures Contiguous(file, es, after, n + 1)
  {
    ShareIsReceived(file, es, after, n);
    SlicesJoin(file.contents, file.position, Reached(file, es, n), Reached(file, es, n + 1));
  }

  lemma StoreKeepsShare(mem: seq<byte>, file: OpenFile, es: seq<Entry>, i: nat, out: nat, w: word64)
    requires i < |es| && GotShare(mem, file, es, i)
    requires out + 8 <= |mem| && Separate(es[i].buffer, es[i].asks, out, 8)
    ensures GotShare(StoreWord(mem, out, w), file, es, i)
  {
    var from, to := Reached(file, es, i), Reached(file, es, i + 1);
    var b := es[i].buffer;
    assert StoreWord(mem, out, w)[b..b + (to - from)] == mem[b..b + (to - from)];
  }

  /** What a guest may rely on for its own buffers. */
  ghost predicate Readable(m: seq<byte>, io: Io) {
    && InMemory(m, io.out, 8)
    && EntriesDefined(m, io, Count(io))
    && Apart(|m|, Request(m, io, Count(io)), io)
  }

  function AllAsked(m: seq<byte>, io: Io): nat
    requires EntriesDefined(m, io, Count(io))
  {
    Requested(Request(m, io, Count(io)), Count(io))
  }

  /** The call is defined, and leaves the file where its request ends. */
  lemma ReadMoves(m: seq<byte>, file: OpenFile, io: Io)
    requires Readable(m, io) && file.position <= |file.contents|
    ensures ReadDefined(m, file, io)
    ensures file.position <= Reach(file, AllAsked(m, io)) <= |file.contents|
    ensures ReadLoop(m, file, io, Count(io)).file == file.(position := Reach(file, AllAsked(m, io)))
    ensures ReadLoop(m, file, io, Count(io)).amount == Reach(file, AllAsked(m, io)) - file.position
  {
    hide EntryDefined, EntryReadable;
    forall i | 0 <= i < Count(io)
      ensures EntryReadable(m, file, io, i)
    {
      LoopFills(m, file, io, i);
    }
    LoopFills(m, file, io, Count(io));
    FillPosition(m, file, Request(m, io, Count(io)), Count(io));
  }

  /** Bytes in no buffer and not in the result slot keep their value. */
  lemma {:induction false} ReadFrame(m: seq<byte>, file: OpenFile, io: Io, a: nat)
    requires Readable(m, io) && a < |m|
    requires Outside(Request(m, io, Count(io)), Count(io), a) && !(io.out <= a < io.out + 8)
    ensures AfterRead(m, file, io)[a] == m[a]
  {
    LoopFills(m, file, io, Count(io));
    FillFrame(m, file, Request(m, io, Count(io)), Count(io), a);
  }

  lemma ReadShare(m: seq<byte>, file: OpenFile, io: Io, i: nat)
    requires Readable(m, io) && file.position <= |file.contents| && i < Count(io)
    ensures GotShare(AfterRead(m, file, io), file, Request(m, io, Count(io)), i)
  {
    var es := Request(m, io, Count(io));
    var loop := ReadLoop(m, file, io, Count(io));
    LoopFills(m, file, io, Count(io));
    FillShares(m, file, es, io, Count(io), i);
    StoreKeepsShare(loop.memory, file, es, i, io.out, loop.amount);
  }

  lemma NothingReceived(file: OpenFile, es: seq<Entry>, after: seq<byte>)
    requires file.position <= |file.contents|
    ensures Contiguous(file, es, after, 0)
  {
  }

  lemma {:induction false} ReadGives(m: seq<byte>, file: OpenFile, io: Io, n: nat)
    requires Readable(m, io) && file.position <= |file.contents| && n <= Count(io)
    ensures Contiguous(file, Request(m, io, Count(io)), AfterRead(m, file, io), n)
  {
    hide EntryDefined, EntriesDefined, Apart, AfterRead, Request, Contiguous, GotShare;
    var es := Request(m, io, Count(io));
    if n == 0 {
      NothingReceived(file, es, AfterRead(m, file, io));
    } else {
      ReadGives(m, file, io, n - 1);
      ReadShare(m, file, io, n - 1);
      ShareJoins(file, es, AfterRead(m, file, io), n - 1);
    }
  }

  /** One `fd_read`: the buffers receive the file's next bytes, the slot their number, and nothing else changes. */
  lemma ReadDelivers(m: seq<byte>, file: OpenFile, io: Io)
    requires Readable(m, io) && file.position <= |file.contents|
    ensures ReadDefined(m, file, io)
    ensures
      var es := Request(m, io, Count(io));
      var end := Reach(file, AllAsked(m, io));
      var after := AfterRead(m, file, io);
      && file.position <= end <= |file.contents|
      && ReadLoop(m, file, io, Count(io)).file == file.(position := end)
      && AllReceived(file, es, after, |es|) == file.contents[file.position..end]
      && |after| == |m|
      && LoadWord(after, io.out) == end - file.position
      && forall a :: 0 <= a < |m| && Outside(es, |es|, a) && !(io.out <= a < io.out + 8) ==> after[a] == m[a]
  {
    ReadMoves(m, file, io);
    ReadGives(m, file, io, Count(io));
    hide ReadDefined, Apart, EntriesDefined, AllReceived;
    var loop := ReadLoop(m, file, io, Count(io));
    LoadStoreWord(loop.memory, io.out, loop.amount);
    forall a | 0 <= a < |m| && Outside(Request(m, io, Count(io)), Count(io), a) && !(io.out <= a < io.out + 8)
      ensures AfterRead(m, file, io)[a] == m[a]
    {
      ReadFrame(m, file, io, a);
    }
  }

  // ----- a buffer over the next entry -----

  /** Two entries of 8 and 4 bytes; the first one's buffer is the second entry itself. */
  const OVERLAPPING: seq<byte> :=
    [8, 0, 0, 0] + [8, 0, 0, 0] + [16, 0, 0, 0] + [4, 0, 0, 0] + [0, 0, 0, 0, 0, 0, 0, 0] + [0, 0, 0, 0, 0, 0, 0, 0]
  const OVERLAPPING_IO := Io(0, 2, 24)
  const ZEROS := OpenFile(0, [0, 0, 0, 0, 0, 0, 0, 0] + [0, 0, 0, 0], 0)

  lemma SmallInt32(m: seq<byte>, a: nat, b: byte)
    requires a + 4 <= |m| && m[a] == b < 128 && m[a + 1] == m[a + 2] == m[a + 3] == 0
    ensures LoadInt32(m, a) == b
  {
    Int32Bytes(m, a);
    hide LoadInt32;
  }

  lemma OverlappingEntries()
    ensures EntryDefined(OVERLAPPING, OVERLAPPING_IO, 0) && EntryOf(OVERLAPPING, OVERLAPPING_IO, 0) == Entry(8, 8)
    ensures EntryDefined(OVERLAPPING, OVERLAPPING_IO, 1) && EntryOf(OVERLAPPING, OVERLAPPING_IO, 1) == Entry(16, 4)
  {
    SmallInt32(OVERLAPPING, 0, 8);
    SmallInt32(OVERLAPPING, 4, 8);
    SmallInt32(OVERLAPPING, 8, 16);
    SmallInt32(OVERLAPPING, 12, 4);
  }

  const EIGHT_ZEROS: seq<byte> := [0, 0, 0, 0, 0, 0, 0, 0]

  lemma OverlappingFirstStep()
    ensures ReadLoop(OVERLAPPING, ZEROS, OVERLAPPING_IO, 1) ==
      Reading(Overwrite(OVERLAPPING, 8, EIGHT_ZEROS), ZEROS.(position := 8), 8)
  {
    OverlappingEntries();
    StepFills(Reading(OVERLAPPING, ZEROS, 0), OVERLAPPING_IO, 0);
    assert ZEROS.contents[0..8] == EIGHT_ZEROS;
    hide EntryDefined, EntryOf, LoadInt32;
    assert ReadLoop(OVERLAPPING, ZEROS, OVERLAPPING_IO, 0) == Reading(OVERLAPPING, ZEROS, 0);
    hide ReadStep, Overwrite;
  }

  lemma OverlappedEntry()
    ensures
      var m := Overwrite(OVERLAPPING, 8, EIGHT_ZEROS);
      EntryDefined(m, OVERLAPPING_IO, 1) && Length(m, OVERLAPPING_IO, 1) == 0
  {
    var m := Overwrite(OVERLAPPING, 8, EIGHT_ZEROS);
    assert m[12] == EIGHT_ZEROS[4] && m[13] == EIGHT_ZEROS[5] && m[14] == EIGHT_ZEROS[6] && m[15] == EIGHT_ZEROS[7];
    hide Overwrite, LoadInt32;
    SmallInt32(m, 12, 0);
  }

  /** The file has the 12 bytes asked for, but filling the first buffer erases the second entry: 8 are delivered. */
  lemma {:induction false} OverlappingReadFallsShort()
    ensures EntriesDefined(OVERLAPPING, OVERLAPPING_IO, 2) && ReadDefined(OVERLAPPING, ZEROS, OVERLAPPING_IO)
    ensures AllAsked(OVERLAPPING, OVERLAPPING_IO) == 12 == |ZEROS.contents|
    ensures ReadLoop(OVERLAPPING, ZEROS, OVERLAPPING_IO, 2).amount == 8
  {
    OverlappingEntries();
    OverlappingFirstStep();
    OverlappedEntry();
    hide Overwrite, EntryDefined, EntryOf;
    var es := Request(OVERLAPPING, OVERLAPPING_IO, 2);
    RequestAt(OVERLAPPING, OVERLAPPING_IO, 2, 0);
    RequestAt(OVERLAPPING, OVERLAPPING_IO, 2, 1);
    assert Requested(es, 1) == 8;
  }
}
