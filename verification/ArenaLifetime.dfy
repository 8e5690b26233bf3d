/** When the thread's call arena is installed and taken down, over any sequence of system calls and loads. */
module ArenaLifetime {
  import opened Bytes
  import opened CallMemory

  /** What a thread does, with what the guest makes it do in turn while it runs. */
  datatype Action =
    | SystemCall(inner: seq<Action>)
    | LoadCall(attempts: seq<Attempt>)

  /** One turn of the load loop: it returns early before the guest runs, or runs the guest's initializer. */
  datatype Attempt = Rejected | Initialized(guest: seq<Action>, traps: bool)

  /** Installing asserts that no arena is present. */
  function Install(present: bool): Result<bool> {
    if present then Err(AlreadySet) else Ok(true)
  }

  /** Whether an arena is present after an action; leaving a scope takes it down. */
  function Exec(present: bool, a: Action): Result<bool>
    decreases a
  {
    match a
    case SystemCall(inner) =>
      var installed :- Install(present);
      var _ :- ExecAll(installed, inner);
      Ok(false)
    case LoadCall(attempts) => ExecAttempts(present, attempts)
  }

  function ExecAll(present: bool, actions: seq<Action>): Result<bool>
    decreases actions
  {
    if actions == [] then Ok(present)
    else
      var next :- Exec(present, actions[0]);
      ExecAll(next, actions[1..])
  }

  function ExecAttempts(present: bool, attempts: seq<Attempt>): Result<bool>
    decreases attempts
  {
    if attempts == [] then Ok(present)
    else
      match attempts[0]
      case Rejected => Ok(present)
      case Initialized(guest, traps) =>
        var installed :- Install(present);
        var _ :- ExecAll(installed, guest);
        if traps then Ok(false) else ExecAttempts(false, attempts[1..])
  }

  // ----- nesting -----

  /** Whether an action gets as far as running a guest. */
  predicate RunsGuest(a: Action) {
    a.SystemCall? || (a.attempts != [] && a.attempts[0].Initialized?)
  }

  predicate Quiet(actions: seq<Action>) {
    forall i :: 0 <= i < |actions| ==> !RunsGuest(actions[i])
  }

  /** No guest that this action runs makes the thread run another. */
  predicate NotNested(a: Action) {
    match a
    case SystemCall(inner) => Quiet(inner)
    case LoadCall(attempts) => NoneNested(attempts)
  }

  predicate NoneNested(attempts: seq<Attempt>) {
    attempts == [] ||
    match attempts[0]
    case Rejected => true
    case Initialized(guest, traps) => Quiet(guest) && (traps || NoneNested(attempts[1..]))
  }

  lemma ExecDuringCall(a: Action)
    ensures Exec(true, a) == if RunsGuest(a) then Err(AlreadySet) else Ok(true)
  {
    if a.LoadCall? {
      assert Exec(true, a) == ExecAttempts(true, a.attempts);
    }
  }

  lemma {:induction false} ExecAllDuringCall(actions: seq<Action>)
    ensures ExecAll(true, actions) == if Quiet(actions) then Ok(true) else Err(AlreadySet)
    decreases |actions|
  {
    if actions != [] {
      ExecDuringCall(actions[0]);
      ExecAllDuringCall(actions[1..]);
      assert Quiet(actions) <==> !RunsGuest(actions[0]) && Quiet(actions[1..]) by {
        assert actions == [actions[0]] + actions[1..];
      }
    }
  }

  lemma {:induction false} AttemptsOutsideCall(attempts: seq<Attempt>)
    ensures ExecAttempts(false, attempts) == if NoneNested(attempts) then Ok(false) else Err(AlreadySet)
    decreases |attempts|
  {
    if attempts != [] && attempts[0].Initialized? {
      ExecAllDuringCall(attempts[0].guest);
      AttemptsOutsideCall(attempts[1..]);
    }
  }

  lemma ExecOutsideCall(a: Action)
    ensures Exec(false, a) == if NotNested(a) then Ok(false) else Err(AlreadySet)
  {
    match a {
      case SystemCall(inner) => ExecAllDuringCall(inner);
      case LoadCall(attempts) => AttemptsOutsideCall(attempts);
    }
  }

  predicate AllFlat(actions: seq<Action>) {
    forall i :: 0 <= i < |actions| ==> NotNested(actions[i])
  }

  /** Main result: the assertion never fails, and no arena is left behind, exactly when no call or load is nested. */
  lemma {:induction false} ArenaOnlyDuringCalls(actions: seq<Action>)
    ensures ExecAll(false, actions) == if AllFlat(actions) then Ok(false) else Err(AlreadySet)
    decreases |actions|
  {
    if actions != [] {
      ExecOutsideCall(actions[0]);
      ArenaOnlyDuringCalls(actions[1..]);
      assert AllFlat(actions) <==> NotNested(actions[0]) && AllFlat(actions[1..]) by {
        assert actions == [actions[0]] + actions[1..];
      }
    }
  }

  /** The arena is present from the start of a guest's part of a call to its end, whatever the guest does in between. */
  lemma PresentThroughout(inner: seq<Action>, k: nat)
    requires k <= |inner| && ExecAll(true, inner).Ok?
    ensures ExecAll(true, inner[..k]) == Ok(true)
  {
    ExecAllDuringCall(inner);
    ExecAllDuringCall(inner[..k]);
  }

  // ----- the actions on the thread's arena -----

  method Perform(info: CallMemInfo, a: Action)
    requires Exec(info.present, a).Ok?
    modifies info
    ensures Exec(old(info.present), a) == Ok(info.present)
    ensures old(info.present) ==> info.State() == old(info.State())
    decreases a
  {
    match a {
      case SystemCall(inner) =>
        var buffer := new byte[ARENA_SIZE](_ => 0);
        info.Set(buffer);
        PerformAll(info, inner);
        info.Clear();
      case LoadCall(attempts) => PerformAttempts(info, attempts);
    }
  }

  /** While the guest's part of a call lasts, the arena stays the one the call installed. */
  method PerformAll(info: CallMemInfo, actions: seq<Action>)
    requires ExecAll(info.present, actions).Ok?
    modifies info
    ensures ExecAll(old(info.present), actions) == Ok(info.present)
    ensures old(info.present) ==> info.State() == old(info.State())
    decreases actions
  {
    if actions != [] {
      Perform(info, actions[0]);
      PerformAll(info, actions[1..]);
    }
  }

  method PerformAttempts(info: CallMemInfo, attempts: seq<Attempt>)
    requires ExecAttempts(info.present, attempts).Ok?
    modifies info
    ensures ExecAttempts(old(info.present), attempts) == Ok(info.present)
    ensures old(info.present) ==> info.State() == old(info.State())
    decreases attempts
  {
    if attempts != [] && attempts[0].Initialized? {
      var buffer := new byte[ARENA_SIZE](_ => 0);
      info.Set(buffer);
      PerformAll(info, attempts[0].guest);
      info.Clear();
      if !attempts[0].traps {
        PerformAttempts(info, attempts[1..]);
      }
    }
  }
}
