/** How pending text is cut into log lines when the host drains it. */
module LineSplitter {
  import opened Bytes
  import opened Wrappers

  type Text = seq<byte>

  const NEWLINE: byte := 10
  const NPOS := TWO_64 - 1
  const INT_MAX := TWO_31 - 1

  predicate NewlineAt(text: Text, p: int) {
    0 <= p < |text| && text[p] == NEWLINE
  }

  /** `str.find('\n', from)` */
  function Find(text: Text, from: nat): nat
    decreases |text| - from
  {
    if from >= |text| then NPOS
    else if text[from] == NEWLINE then from
    else Find(text, from + 1)
  }

  /** `str.substr(pos, count)`: `count` is a length, cut off at the end of the text. */
  function Substr(text: Text, pos: nat, count: nat): (r: Text)
    requires pos <= |text|
    ensures |r| == if count <= |text| - pos then count else |text| - pos
    ensures forall i :: 0 <= i < |r| ==> r[i] == text[pos + i]
  {
    if pos + count <= |text| then text[pos..pos + count] else text[pos..]
  }

  /** The newline positions at or after `from`, in order. */
  function Stops(text: Text, from: nat): seq<nat>
    decreases |text| - from
  {
    if from >= |text| then []
    else if text[from] == NEWLINE then [from] + Stops(text, from + 1)
    else Stops(text, from + 1)
  }

  lemma {:induction false} StopsAreNewlines(text: Text, from: nat)
    ensures Below(Stops(text, from), |text|)
    ensures forall i :: 0 <= i < |Stops(text, from)| ==> from <= Stops(text, from)[i] && NewlineAt(text, Stops(text, from)[i])
    ensures forall i, j :: 0 <= i < j < |Stops(text, from)| ==> Stops(text, from)[i] < Stops(text, from)[j]
    decreases |text| - from
  {
    if from < |text| {
      StopsAreNewlines(text, from + 1);
    }
  }

  lemma {:induction false} NewlinesAreStops(text: Text, from: nat, p: nat)
    requires from <= p && NewlineAt(text, p)
    ensures p in Stops(text, from)
    decreases |text| - from
  {
    if from < p {
      NewlinesAreStops(text, from + 1, p);
    }
  }

  function Kept(message: Text): seq<Text> {
    if message == [] then [] else [message]
  }

  predicate Below(stops: seq<nat>, bound: nat) {
    forall i :: 0 <= i < |stops| ==> stops[i] < bound
  }

  /** The messages after a cut: each newline's position is taken as a length, and an empty last one is dropped. */
  function Messages(text: Text, cut: nat, stops: seq<nat>): seq<Text>
    requires cut < |text| && Below(stops, |text|)
    decreases |stops|
  {
    if stops == [] then Kept(text[cut + 1..])
    else [Substr(text, cut + 1, stops[0])] + Messages(text, stops[0], stops[1..])
  }

  /** What the splitting loop still yields once its index is `idx`; -1 is its end. */
  function Rest(text: Text, idx: int): seq<Text>
    requires -1 <= idx < |text|
  {
    if idx == -1 then []
    else
      StopsAreNewlines(text, idx + 1);
      Messages(text, idx, Stops(text, idx + 1))
  }

  function Lines(text: Text): seq<Text> {
    if text == [] then [] else Rest(text, 0)
  }

  /** The k-th cut point: 0, then the newlines at or after 1. */
  function CutPoint(cut: nat, stops: seq<nat>, k: nat): nat
    requires k <= |stops|
  {
    if k == 0 then cut else stops[k - 1]
  }

  /** The length of line `k`: the next newline's position, cut off at the end of the text. */
  function LineLength(text: Text, start: nat, stops: seq<nat>, k: nat): nat
    requires k <= |stops| && start <= |text|
  {
    if k < |stops| && stops[k] <= |text| - start then stops[k] else |text| - start
  }

  /** The closed form: line `k` by its start and its length. Only an empty last line is dropped. */
  lemma LinesClosedForm(text: Text, k: nat)
    requires text != [] && k <= |Stops(text, 1)|
    ensures
      var stops := Stops(text, 1);
      var start := CutPoint(0, stops, k) + 1;
      && start <= |text|
      && |Lines(text)| == |stops| + (if CutPoint(0, stops, |stops|) + 1 == |text| then 0 else 1)
      && var n := LineLength(text, start, stops, k);
      && (k < |stops| ==> n > 0)
      && (k < |Lines(text)| ==> Lines(text)[k] == text[start..start + n])
  {
    var stops := Stops(text, 1);
    StopsAreNewlines(text, 1);
    MessageCount(text, 0, stops);
    assert Lines(text) == Messages(text, 0, stops);
    CutsIncrease(text, k);
    hide *;
    LengthIsPositive(text, 0, stops, k);
    if k < |Lines(text)| {
      LineAt(text, 0, stops, k);
    }
  }

  lemma CutsIncrease(text: Text, k: nat)
    requires text != [] && k <= |Stops(text, 1)|
    ensures CutPoint(0, Stops(text, 1), k) < |text|
    ensures k < |Stops(text, 1)| ==> CutPoint(0, Stops(text, 1), k) < Stops(text, 1)[k] < |text|
  {
    StopsAreNewlines(text, 1);
  }

  lemma LengthIsPositive(text: Text, cut: nat, stops: seq<nat>, k: nat)
    requires k <= |stops| && CutPoint(cut, stops, k) < |text|
    requires k < |stops| ==> CutPoint(cut, stops, k) < stops[k] < |text|
    ensures
      var start := CutPoint(cut, stops, k) + 1;
      start <= |text| && (k < |stops| ==> LineLength(text, start, stops, k) > 0)
  {
  }

  lemma LineAt(text: Text, cut: nat, stops: seq<nat>, k: nat)
    requires cut < |text| && Below(stops, |text|) && k < |Messages(text, cut, stops)| <= |stops| + 1
    ensures CutPoint(cut, stops, k) < |text|
    ensures
      var start := CutPoint(cut, stops, k) + 1;
      Messages(text, cut, stops)[k] == text[start..start + LineLength(text, start, stops, k)]
  {
    MessageAt(text, cut, stops, k);
    hide Messages, Substr;
    SubstrIsSlice(text, CutPoint(cut, stops, k) + 1, if k < |stops| then stops[k] else |text|);
  }

  lemma SubstrIsSlice(text: Text, pos: nat, count: nat)
    requires pos <= |text|
    ensures Substr(text, pos, count) == text[pos..pos + if count <= |text| - pos then count else |text| - pos]
  {
  }

  lemma {:induction false} MessageCount(text: Text, cut: nat, stops: seq<nat>)
    requires cut < |text| && Below(stops, |text|)
    ensures CutPoint(cut, stops, |stops|) < |text|
    ensures |Messages(text, cut, stops)| == |stops| + (if CutPoint(cut, stops, |stops|) + 1 == |text| then 0 else 1)
    decreases |stops|
  {
    if stops != [] {
      MessageCount(text, stops[0], stops[1..]);
      assert CutPoint(cut, stops, |stops|) == CutPoint(stops[0], stops[1..], |stops| - 1);
    }
  }

  lemma {:induction false} MessageAt(text: Text, cut: nat, stops: seq<nat>, k: nat)
    requires cut < |text| && Below(stops, |text|) && k < |Messages(text, cut, stops)| <= |stops| + 1
    ensures CutPoint(cut, stops, k) < |text|
    ensures Messages(text, cut, stops)[k] ==
      var start := CutPoint(cut, stops, k) + 1;
      if k < |stops| then Substr(text, start, stops[k]) else text[start..]
    decreases |stops|
  {
    if k > 0 {
      var rest := Messages(text, stops[0], stops[1..]);
      assert Messages(text, cut, stops) == [Substr(text, cut + 1, stops[0])] + rest;
      MessageAt(text, stops[0], stops[1..], k - 1);
      hide Messages, Substr;
      assert CutPoint(cut, stops, k) == CutPoint(stops[0], stops[1..], k - 1);
      assert Messages(text, cut, stops)[k] == rest[k - 1];
    }
  }

  lemma {:induction false} FindIsFirstStop(text: Text, from: nat)
    ensures Find(text, from) == if Stops(text, from) == [] then NPOS else Stops(text, from)[0]
    ensures Stops(text, from) != [] ==> Stops(text, Stops(text, from)[0] + 1) == Stops(text, from)[1..]
    decreases |text| - from
  {
    if from < |text| {
      FindIsFirstStop(text, from + 1);
    }
  }

  /** The loop's `int` index can hold every newline it finds, and the position after it. */
  ghost predicate Splittable(text: Text) {
    forall p :: 1 <= p && NewlineAt(text, p) ==> p < INT_MAX
  }

  lemma SplittableMeans(text: Text)
    ensures Splittable(text) <==> forall p :: 1 <= p < |text| && text[p] == 10 ==> p < 0x7FFF_FFFF
  {
    if Splittable(text) {
      forall p | 1 <= p < |text| && text[p] == 10
        ensures p < 0x7FFF_FFFF
      {
        assert NewlineAt(text, p);
      }
    }
  }

  /** The same of the newlines up to `cut`. */
  ghost predicate SplittableTo(text: Text, cut: int) {
    forall p :: 1 <= p <= cut && NewlineAt(text, p) ==> p < INT_MAX
  }

  lemma SplittableFromStart(text: Text)
    ensures SplittableTo(text, 0)
  {
  }

  lemma SplittableToEnd(text: Text)
    ensures SplittableTo(text, |text| - 1) <==> Splittable(text)
  {
  }

  /** One turn of the loop from a cut: the search finds the next cut or the end, and one message less remains. */
  lemma Turn(text: Text, cut: nat)
    requires cut < |text| < NPOS
    ensures
      var next := Find(text, cut + 1);
      && (next == NPOS || cut < next < |text|)
      && Rest(text, cut) == Kept(Substr(text, cut + 1, next)) + Rest(text, if next == NPOS then -1 else next)
      && (next == NPOS && SplittableTo(text, cut) ==> SplittableTo(text, |text| - 1))
      && (next != NPOS && SplittableTo(text, cut) ==>
        if next < INT_MAX then SplittableTo(text, next) else !Splittable(text))
  {
    StopsAreNewlines(text, cut + 1);
    FindIsFirstStop(text, cut + 1);
    forall p | cut < p && NewlineAt(text, p)
      ensures Find(text, cut + 1) <= p
    {
      NewlineIsFound(text, cut + 1, p);
    }
  }

  lemma {:induction false} NewlineIsFound(text: Text, from: nat, p: nat)
    requires from <= p && NewlineAt(text, p)
    ensures Find(text, from) <= p
    decreases |text| - from
  {
    if from < p {
      NewlineIsFound(text, from + 1, p);
    }
  }

  /** The splitting loop, with its `int` index and unsigned comparison. It has no result where a newline's position,
    * or the one after it, leaves the range of the index. */
  method SplitLines(text: Text) returns (lines: Option<seq<Text>>)
    requires |text| < NPOS
    ensures lines.Some? <==> Splittable(text)
    ensures lines.Some? ==> lines.value == Lines(text)
  {
    if text == [] {
      return Some([]);
    }
    var idx := 0;
    var result: seq<Text> := [];
    SplittableFromStart(text);
    assert Rest(text, 0) == Lines(text) && Rest(text, -1) == [];
    hide Find, Substr, Splittable, SplittableTo, Rest, Lines, ToInt32, ToSize;
    while ToSize(idx) != NPOS
      invariant -1 <= idx < |text| && idx < INT_MAX
      invariant result + Rest(text, idx) == Lines(text)
      invariant SplittableTo(text, if idx == -1 then |text| - 1 else idx)
      decreases idx != -1, |text| - idx
    {
      Turn(text, idx);
      var next := Find(text, idx + 1);
      var message := Substr(text, idx + 1, next);
      if next != NPOS && next >= INT_MAX {
        return None;
      }
      idx := ToInt32(next);
      Regroup(result, Kept(message), Rest(text, idx));
      if message != [] {
        result := result + [message];
      }
      Regroup(result, [], []);
    }
    SplittableToEnd(text);
    Regroup(result, [], []);
    lines := Some(result);
  }

  // ----- what the drain is evidently for -----

  /** The non-empty pieces between newlines. */
  function Pieces(text: Text): seq<Text>
    decreases |text|
  {
    if NEWLINE in text then
      var p := FirstNewline(text);
      Kept(text[..p]) + Pieces(text[p + 1..])
    else Kept(text)
  }

  function FirstNewline(text: Text): (p: nat)
    requires NEWLINE in text
    ensures NewlineAt(text, p) && NEWLINE !in text[..p]
  {
    if text[0] == NEWLINE then 0
    else
      assert text == [text[0]] + text[1..];
      var q := FirstNewline(text[1..]);
      assert text[..q + 1] == [text[0]] + text[1..][..q];
      q + 1
  }

  lemma {:induction false} PiecesHoldNoNewline(text: Text)
    ensures forall i :: 0 <= i < |Pieces(text)| ==> Pieces(text)[i] != [] && NEWLINE !in Pieces(text)[i]
    decreases |text|
  {
    if NEWLINE in text {
      PiecesHoldNoNewline(text[FirstNewline(text) + 1..]);
    }
  }

  /** The texts on which the loop does what it is for: nothing, or one newline and it comes first. */
  predicate OneLeadingNewline(text: Text) {
    text == [] || (text[0] == NEWLINE && NEWLINE !in text[1..])
  }

  /** With a newline after index 0, the first message runs over the first of them. */
  lemma FirstMessageHoldsNewline(text: Text)
    requires text != [] && Stops(text, 1) != []
    ensures Lines(text) != [] && NEWLINE in Lines(text)[0]
  {
    StopsAreNewlines(text, 1);
    var stops := Stops(text, 1);
    LinesClosedForm(text, 0);
    assert Lines(text)[0] == text[1..1 + stops[0]];
    assert text[1..1 + stops[0]][stops[0] - 1] == NEWLINE;
  }

  lemma NoStopsNoNewline(text: Text)
    requires text != []
    ensures Stops(text, 1) == [] <==> NEWLINE !in text[1..]
  {
    var stops := Stops(text, 1);
    StopsAreNewlines(text, 1);
    if stops != [] {
      assert text[1..][stops[0] - 1] == NEWLINE;
    } else if NEWLINE in text[1..] {
      var q :| 0 <= q < |text[1..]| && text[1..][q] == NEWLINE;
      NewlinesAreStops(text, 1, q + 1);
    }
  }

  /** The loop yields the newline-separated pieces exactly on those texts. */
  lemma SplitMeetsIntentIff(text: Text)
    ensures OneLeadingNewline(text) ==> Lines(text) == Pieces(text)
    ensures Lines(text) == Pieces(text) ==> OneLeadingNewline(text)
  {
    if text != [] {
      NoStopsNoNewline(text);
      assert text == [text[0]] + text[1..];
      if Stops(text, 1) != [] {
        FirstMessageHoldsNewline(text);
        PiecesHoldNoNewline(text);
      } else if text[0] == NEWLINE {
        assert Pieces(text) == Kept([]) + Kept(text[1..]);
      } else {
        assert Pieces(text) == [text];
        assert Lines(text) == Kept(text[1..]);
      }
    }
  }

  /** A text on which the drain loses the first byte and keeps the newline inside a message. */
  lemma SplitMissesIntent()
    ensures Lines([97, 10, 98]) == [[10], [98]]
    ensures Pieces([97, 10, 98]) == [[97], [98]]
  {
    var text: Text := [97, NEWLINE, 98];
    assert Stops(text, 3) == [];
    assert Stops(text, 2) == [];
    assert Stops(text, 1) == [1];
    assert Messages(text, 1, []) == [[98]];
    assert Substr(text, 1, 1) == [NEWLINE];
    assert [1][1..] == [];
    assert Lines(text) == [[NEWLINE]] + Messages(text, 1, []);
    assert FirstNewline(text) == 1;
    assert text[..1] == [97] && text[2..] == [98];
    assert Pieces([98]) == [[98]];
  }
}
