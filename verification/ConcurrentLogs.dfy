/** Threads inside `fd_write` interleaved with drains: each push and each drain is one step under the logger's mutex. */
module ConcurrentLogs {
  import opened Bytes
  import opened LineSplitter
  import opened LogChannels
  import opened Wasi
  import opened Wrappers

  datatype Piece = Piece(level: LogLevel, text: Text)

  /** A thread outside, or in the loop of `fd_write` before entry `next` of its pieces. */
  datatype Thread = Idle | Writing(pieces: seq<Piece>, next: nat, amount: nat)

  datatype State = State(threads: seq<Thread>, pending: Streams, drained: Streams, reported: nat)

  datatype Label =
    | Begin(t: nat, memory: seq<byte>, fd: int32, io: Io)
    | Push(t: nat)
    | Return(t: nat)
    | Drain

  function Start(threads: nat): State {
    State(seq(threads, _ => Idle), NOTHING, NOTHING, 0)
  }

  function PiecesOf(level: LogLevel, texts: seq<Text>): seq<Piece> {
    seq(|texts|, i requires 0 <= i < |texts| => Piece(level, texts[i]))
  }

  predicate Enabled(s: State, l: Label) {
    match l
    case Begin(t, m, fd, io) =>
      t < |s.threads| && s.threads[t].Idle? && (fd == STDOUT || fd == STDERR) && WriteDefined(m, io)
    case Push(t) => t < |s.threads| && s.threads[t].Writing? && s.threads[t].next < |s.threads[t].pieces|
    case Return(t) => t < |s.threads| && s.threads[t].Writing? && s.threads[t].next == |s.threads[t].pieces|
    case Drain => true
  }

  /** The pieces a call will push, decoded from its thread's memory. */
  function CallPieces(l: Label): seq<Piece>
    requires l.Begin? && WriteDefined(l.memory, l.io)
  {
    PiecesOf(LevelOf(l.fd), Segments(l.memory, l.io, Count(l.io)))
  }

  function Apply(s: State, l: Label): State
    requires Enabled(s, l)
  {
    match l
    case Begin(t, _, _, _) => s.(threads := s.threads[t := Writing(CallPieces(l), 0, 0)])
    case Push(t) =>
      var w := s.threads[t];
      var piece := w.pieces[w.next];
      s.(
        threads := s.threads[t := w.(next := w.next + 1, amount := w.amount + |piece.text|)],
        pending := s.pending.Then(On(piece.level, piece.text)))
    case Return(t) =>
      s.(threads := s.threads[t := Idle], reported := s.reported + s.threads[t].amount)
    case Drain => s.(pending := NOTHING, drained := s.drained.Then(s.pending))
  }

  /** The state after a run; a label that is not enabled ends it. */
  function After(threads: nat, labels: seq<Label>): (s: Option<State>)
    ensures s.Some? ==> |s.value.threads| == threads
  {
    if labels == [] then Some(Start(threads))
    else
      var l := labels[|labels| - 1];
      match After(threads, labels[..|labels| - 1])
      case None => None
      case Some(s) => if Enabled(s, l) then Some(Apply(s, l)) else None
  }

  // ----- what a run pushed and what its calls asked for, read off its labels -----

  /** A push, with the thread that made it. */
  datatype Pushed = Pushed(t: nat, piece: Piece)

  function PushLog(threads: nat, labels: seq<Label>): seq<Pushed>
    requires After(threads, labels).Some?
  {
    if labels == [] then []
    else
      var before := labels[..|labels| - 1];
      PushLog(threads, before) + NewPush(After(threads, before).value, labels[|labels| - 1])
  }

  function NewPush(s: State, l: Label): seq<Pushed>
    requires Enabled(s, l)
  {
    if l.Push? then [Pushed(l.t, s.threads[l.t].pieces[s.threads[l.t].next])] else []
  }

  /** The pieces of all calls thread `t` has begun. */
  function Issued(threads: nat, labels: seq<Label>, t: nat): seq<Piece>
    requires After(threads, labels).Some?
  {
    if labels == [] then []
    else
      var l := labels[|labels| - 1];
      Issued(threads, labels[..|labels| - 1], t) + if l.Begin? && l.t == t then CallPieces(l) else []
  }

  /** The pieces thread `t` pushed, in order. */
  function By(log: seq<Pushed>, t: nat): seq<Piece> {
    if log == [] then []
    else By(log[..|log| - 1], t) + if log[|log| - 1].t == t then [log[|log| - 1].piece] else []
  }

  /** The bytes pushed to each channel, in order. */
  function Text(log: seq<Pushed>): Streams {
    if log == [] then NOTHING
    else Text(log[..|log| - 1]).Then(On(log[|log| - 1].piece.level, log[|log| - 1].piece.text))
  }

  function Size(log: seq<Pushed>): nat {
    if log == [] then 0 else Size(log[..|log| - 1]) + |log[|log| - 1].piece.text|
  }

  function Remaining(th: Thread): seq<Piece> {
    if th.Writing? && th.next <= |th.pieces| then th.pieces[th.next..] else []
  }

  function AmountOf(th: Thread): nat {
    if th.Writing? then th.amount else 0
  }

  /** What the calls in flight have counted so far. */
  function InFlight(threads: seq<Thread>): nat {
    if threads == [] then 0 else InFlight(threads[..|threads| - 1]) + AmountOf(threads[|threads| - 1])
  }

  lemma {:induction false} InFlightUpdate(threads: seq<Thread>, t: nat, th: Thread)
    requires t < |threads|
    ensures InFlight(threads[t := th]) == InFlight(threads) - AmountOf(threads[t]) + AmountOf(th)
    decreases |threads|
  {
    var n := |threads| - 1;
    if t < n {
      InFlightUpdate(threads[..n], t, th);
      assert threads[t := th][..n] == threads[..n][t := th];
    } else {
      assert threads[t := th][..n] == threads[..n];
    }
  }

  lemma {:induction false} NothingInFlight(threads: nat)
    ensures InFlight(Start(threads).threads) == 0
  {
    if threads > 0 {
      NothingInFlight(threads - 1);
      assert Start(threads).threads[..threads - 1] == Start(threads - 1).threads;
    }
  }

  // ----- conservation -----

  /** Drained text followed by pending text is what was pushed, in the order it was pushed. */
  lemma {:induction false} ChannelsHoldPushes(threads: nat, labels: seq<Label>)
    requires After(threads, labels).Some?
    ensures After(threads, labels).value.drained.Then(After(threads, labels).value.pending) == Text(PushLog(threads, labels))
  {
    ThenIsAssociative(NOTHING, NOTHING, NOTHING);
    if labels != [] {
      var before, l := labels[..|labels| - 1], labels[|labels| - 1];
      ChannelsHoldPushes(threads, before);
      var s := After(threads, before).value;
      var log := PushLog(threads, before);
      ThenIsAssociative(s.drained.Then(s.pending), NOTHING, NOTHING);
      if l.Push? {
        var p := NewPush(s, l)[0].piece;
        ThenIsAssociative(s.drained, s.pending, On(p.level, p.text));
        assert (log + NewPush(s, l))[..|log|] == log;
      } else {
        assert log + NewPush(s, l) == log;
      }
    }
  }

  lemma StepKeepsOrder(s: State, l: Label, t: nat)
    requires Enabled(s, l) && t < |s.threads|
    ensures By(NewPush(s, l), t) + Remaining(Apply(s, l).threads[t]) ==
      Remaining(s.threads[t]) + if l.Begin? && l.t == t then CallPieces(l) else []
  {
    hide CallPieces, WriteDefined;
    if l.Push? {
      assert NewPush(s, l)[..0] == [];
    }
  }

  lemma ByAppend(log: seq<Pushed>, more: seq<Pushed>, t: nat)
    requires |more| <= 1
    ensures By(log + more, t) == By(log, t) + By(more, t)
  {
    if more == [] {
      assert log + more == log;
    } else {
      assert (log + more)[..|log|] == log;
      assert more[..0] == [];
    }
  }

  /** Each thread's pushes, then what its call still has to push, are the pieces of its calls in order. */
  lemma {:induction false} ThreadsKeepOrder(threads: nat, labels: seq<Label>, t: nat)
    requires After(threads, labels).Some? && t < threads
    ensures By(PushLog(threads, labels), t) + Remaining(After(threads, labels).value.threads[t]) == Issued(threads, labels, t)
  {
    if labels != [] {
      var before, l := labels[..|labels| - 1], labels[|labels| - 1];
      ThreadsKeepOrder(threads, before, t);
      var s := After(threads, before).value;
      var log := PushLog(threads, before);
      StepKeepsOrder(s, l, t);
      ByAppend(log, NewPush(s, l), t);
      var begun := if l.Begin? && l.t == t then CallPieces(l) else [];
      assert Issued(threads, labels, t) == Issued(threads, before, t) + begun;
      Regroup(By(log, t), By(NewPush(s, l), t), Remaining(Apply(s, l).threads[t]));
      Regroup(By(log, t), Remaining(s.threads[t]), begun);
      hide Apply, Enabled, Remaining, By, CallPieces, NewPush, Issued;
    }
  }

  /** The bytes pushed are those of reported totals plus those counted so far by calls in flight. */
  lemma {:induction false} TotalsAddUp(threads: nat, labels: seq<Label>)
    requires After(threads, labels).Some?
    ensures Size(PushLog(threads, labels)) ==
      After(threads, labels).value.reported + InFlight(After(threads, labels).value.threads)
  {
    if labels == [] {
      NothingInFlight(threads);
    } else {
      var before, l := labels[..|labels| - 1], labels[|labels| - 1];
      TotalsAddUp(threads, before);
      var s := After(threads, before).value;
      var log := PushLog(threads, before);
      if !l.Drain? {
        InFlightUpdate(s.threads, l.t, Apply(s, l).threads[l.t]);
      }
      if l.Push? {
        assert (log + NewPush(s, l))[..|log|] == log;
      } else {
        assert log + NewPush(s, l) == log;
      }
    }
  }

  function PieceBytes(pieces: seq<Piece>): nat {
    if pieces == [] then 0 else PieceBytes(pieces[..|pieces| - 1]) + |pieces[|pieces| - 1].text|
  }

  /** A call in flight has counted the pieces it has pushed. */
  predicate AmountOk(th: Thread) {
    th.Writing? ==> th.next <= |th.pieces| && th.amount == PieceBytes(th.pieces[..th.next])
  }

  lemma OnePieceMore(pieces: seq<Piece>, n: nat)
    requires n < |pieces|
    ensures PieceBytes(pieces[..n + 1]) == PieceBytes(pieces[..n]) + |pieces[n].text|
  {
    assert pieces[..n + 1][..n] == pieces[..n];
  }

  lemma {:induction false} AmountsCount(threads: nat, labels: seq<Label>, t: nat)
    requires After(threads, labels).Some? && t < threads
    ensures AmountOk(After(threads, labels).value.threads[t])
  {
    if labels != [] {
      var before, l := labels[..|labels| - 1], labels[|labels| - 1];
      AmountsCount(threads, before, t);
      var th := After(threads, before).value.threads[t];
      if l.Push? && l.t == t {
        OnePieceMore(th.pieces, th.next);
      }
      hide WriteDefined, CallPieces;
    }
  }

  lemma {:induction false} PiecesTotal(level: LogLevel, texts: seq<Text>)
    ensures PieceBytes(PiecesOf(level, texts)) == |Join(texts)|
  {
    if texts != [] {
      PiecesTotal(level, texts[..|texts| - 1]);
      assert PiecesOf(level, texts)[..|texts| - 1] == PiecesOf(level, texts[..|texts| - 1]);
    }
  }

  /** The label with which thread `t` last entered `fd_write`. */
  function LastBegin(labels: seq<Label>, t: nat): Option<Label> {
    if labels == [] then None
    else
      var l := labels[|labels| - 1];
      if l.Begin? && l.t == t then Some(l) else LastBegin(labels[..|labels| - 1], t)
  }

  /** A thread in a call is pushing the pieces of the call it last began. */
  predicate FromBegin(th: Thread, begin: Option<Label>) {
    th.Writing? ==>
      && begin.Some? && begin.value.Begin? && WriteDefined(begin.value.memory, begin.value.io)
      && th.pieces == CallPieces(begin.value)
  }

  lemma {:induction false} PiecesFromBegin(threads: nat, labels: seq<Label>, t: nat)
    requires After(threads, labels).Some? && t < threads
    ensures FromBegin(After(threads, labels).value.threads[t], LastBegin(labels, t))
  {
    if labels != [] {
      PiecesFromBegin(threads, labels[..|labels| - 1], t);
      hide WriteDefined, CallPieces;
    }
  }

  /** A call that returns has reported what `fd_write` stores as its total, whatever the other threads did. */
  lemma ReturnReportsTotal(threads: nat, labels: seq<Label>, t: nat)
    requires After(threads, labels).Some? && Enabled(After(threads, labels).value, Return(t)) && t < threads
    ensures
      var s := After(threads, labels).value;
      && LastBegin(labels, t).Some? && LastBegin(labels, t).value.Begin?
      && var begin := LastBegin(labels, t).value;
      && WriteDefined(begin.memory, begin.io)
      && Apply(s, Return(t)).reported == s.reported + |Join(Segments(begin.memory, begin.io, Count(begin.io)))|
  {
    PiecesFromBegin(threads, labels, t);
    AmountsCount(threads, labels, t);
    var begin := LastBegin(labels, t).value;
    var th := After(threads, labels).value.threads[t];
    assert th.pieces[..th.next] == th.pieces;
    PiecesTotal(LevelOf(begin.fd), Segments(begin.memory, begin.io, Count(begin.io)));
    hide WriteDefined, After;
  }

  // ----- channel by channel -----

  /** The pieces' texts for one channel, one after the other. */
  function TextFor(pieces: seq<Piece>, level: LogLevel): Text {
    if pieces == [] then []
    else
      var last := pieces[|pieces| - 1];
      TextFor(pieces[..|pieces| - 1], level) + if last.level == level then last.text else []
  }

  function PiecesIn(log: seq<Pushed>): (pieces: seq<Piece>)
    ensures |pieces| == |log|
  {
    seq(|log|, i requires 0 <= i < |log| => log[i].piece)
  }

  lemma {:induction false} TextPerChannel(log: seq<Pushed>)
    ensures Text(log).info == TextFor(PiecesIn(log), Info)
    ensures Text(log).error == TextFor(PiecesIn(log), Error)
  {
    if log != [] {
      TextPerChannel(log[..|log| - 1]);
      assert PiecesIn(log)[..|log| - 1] == PiecesIn(log[..|log| - 1]);
    }
  }

  /** Main result: on each channel, what was drained and then what is pending are the pushed texts, one after the other. */
  lemma {:induction false} EachChannelHoldsPushes(threads: nat, labels: seq<Label>)
    requires After(threads, labels).Some?
    ensures
      var s := After(threads, labels).value;
      var pieces := PiecesIn(PushLog(threads, labels));
      && s.drained.info + s.pending.info == TextFor(pieces, Info)
      && s.drained.error + s.pending.error == TextFor(pieces, Error)
  {
    ChannelsHoldPushes(threads, labels);
    TextPerChannel(PushLog(threads, labels));
  }

  lemma {:induction false} PiecesText(level: LogLevel, texts: seq<Text>)
    ensures TextFor(PiecesOf(level, texts), level) == Join(texts)
    ensures forall other :: other != level ==> TextFor(PiecesOf(level, texts), other) == []
  {
    if texts != [] {
      PiecesText(level, texts[..|texts| - 1]);
      assert PiecesOf(level, texts)[..|texts| - 1] == PiecesOf(level, texts[..|texts| - 1]);
    }
  }

  /** A call's pieces are what `fd_write` adds to the logger: its joined buffers, on info for 1 and on error for 2. */
  lemma CallPiecesText(l: Label)
    requires l.Begin? && WriteDefined(l.memory, l.io)
    ensures
      var written := Join(Segments(l.memory, l.io, Count(l.io)));
      && (l.fd == 1 ==> TextFor(CallPieces(l), Info) == written && TextFor(CallPieces(l), Error) == [])
      && (l.fd == 2 ==> TextFor(CallPieces(l), Info) == [] && TextFor(CallPieces(l), Error) == written)
  {
    PiecesText(LevelOf(l.fd), Segments(l.memory, l.io, Count(l.io)));
  }
}
