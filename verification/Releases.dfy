/** Runs of creating, moving and destroying module instances: every foreign object is released once, in order. */
module Releases {
  import opened Wrappers
  import opened ModuleInstance

  datatype State = State(owners: map<nat, Owner>, objects: nat, attempts: nat, log: seq<Event>)

  datatype Operation = Create(outcome: Outcome) | Move(from: nat) | Destroy(owner: nat)

  const START := State(map[], 0, 0, [])

  predicate Enabled(s: State, op: Operation) {
    match op
    case Create(_) => true
    case Move(from) => from in s.owners
    case Destroy(owner) => owner in s.owners
  }

  /** C++ objects are numbered as they are constructed; a destroyed one is gone. */
  function Apply(s: State, op: Operation): State
    requires Enabled(s, op)
  {
    match op
    case Create(outcome) =>
      State(
        if outcome.Instantiates? then s.owners[s.objects := Built(s.attempts, outcome)] else s.owners,
        s.objects + 1,
        s.attempts + 1,
        s.log + Creating(s.attempts, outcome))
    case Move(from) =>
      s.(owners := s.owners[from := NOTHING_OWNED][s.objects := s.owners[from]], objects := s.objects + 1)
    case Destroy(owner) =>
      s.(owners := s.owners - {owner}, log := s.log + Destroying(s.owners[owner]))
  }

  function After(ops: seq<Operation>): Option<State> {
    if ops == [] then Some(START)
    else
      match After(ops[..|ops| - 1])
      case None => None
      case Some(s) => if Enabled(s, ops[|ops| - 1]) then Some(Apply(s, ops[|ops| - 1])) else None
  }

  // ----- legal logs -----

  /** What has been made and not yet deleted. */
  function Live(log: seq<Event>): set<Resource> {
    if log == [] then {}
    else
      match log[|log| - 1]
      case New(r) => Live(log[..|log| - 1]) + {r}
      case Delete(r) => Live(log[..|log| - 1]) - {r}
  }

  function Made(log: seq<Event>): set<Resource> {
    if log == [] then {}
    else
      match log[|log| - 1]
      case New(r) => Made(log[..|log| - 1]) + {r}
      case Delete(_) => Made(log[..|log| - 1])
  }

  /** What lives inside a foreign object: an instance inside its module, a module inside its store. */
  predicate Encloses(outer: Resource, inner: Resource) {
    && outer.attempt == inner.attempt
    && match outer.kind
       case Store => inner.kind != Store
       case Module => inner.kind == Instance
       case Instance => false
  }

  /** `e` may come next: nothing is made twice; what is deleted is live, and nothing inside it is. */
  ghost predicate Allowed(live: set<Resource>, made: set<Resource>, e: Event) {
    match e
    case New(r) => r !in made
    case Delete(r) => r in live && forall inner :: inner in live ==> !Encloses(r, inner)
  }

  ghost predicate Legal(log: seq<Event>) {
    log == [] ||
    (Legal(log[..|log| - 1]) && Allowed(Live(log[..|log| - 1]), Made(log[..|log| - 1]), log[|log| - 1]))
  }

  function Deletions(log: seq<Event>, r: Resource): nat {
    if log == [] then 0 else Deletions(log[..|log| - 1], r) + if log[|log| - 1] == Delete(r) then 1 else 0
  }

  /** In a legal log an object is deleted once if it was made and is no longer live, and otherwise never. */
  lemma {:induction false} LegalDeletions(log: seq<Event>, r: Resource)
    requires Legal(log)
    ensures Live(log) <= Made(log)
    ensures Deletions(log, r) == if r in Made(log) && r !in Live(log) then 1 else 0
  {
    if log != [] {
      LegalDeletions(log[..|log| - 1], r);
    }
  }

  lemma Emit(log: seq<Event>, e: Event)
    requires Legal(log) && Allowed(Live(log), Made(log), e)
    ensures Legal(log + [e])
    ensures Live(log + [e]) == if e.New? then Live(log) + {e.r} else Live(log) - {e.r}
    ensures Made(log + [e]) == if e.New? then Made(log) + {e.r} else Made(log)
  {
    assert (log + [e])[..|log|] == log;
  }

  // ----- owners -----

  /** An owner of an instance owns its module, and an owner of a module its store. */
  predicate Nested(o: Owner) {
    && (o.instance.Some? ==> o.mod == o.instance)
    && (o.mod.Some? ==> o.store == o.mod)
  }

  /** No two owners share an object. */
  ghost predicate Unshared(owners: map<nat, Owner>) {
    forall a, b :: a in owners && b in owners && a != b ==> Held(owners[a]) !! Held(owners[b])
  }

  /** A foreign object is live exactly while some owner holds it. */
  ghost predicate Accounted(owners: map<nat, Owner>, live: set<Resource>) {
    && (forall a, r :: a in owners && r in Held(owners[a]) ==> r in live)
    && (forall r :: r in live ==> exists a :: a in owners && r in Held(owners[a]))
  }

  /** Every owner nests, and together they hold exactly the live objects, each in one place. */
  ghost predicate Owned(owners: map<nat, Owner>, live: set<Resource>) {
    && (forall a :: a in owners ==> Nested(owners[a]))
    && Unshared(owners)
    && Accounted(owners, live)
  }

  /** All of these were made by earlier attempts. */
  ghost predicate Before(made: set<Resource>, attempt: nat) {
    forall r :: r in made ==> r.attempt < attempt
  }

  ghost predicate Invariant(s: State) {
    && Legal(s.log)
    && Owned(s.owners, Live(s.log))
    && (forall a :: a in s.owners ==> a < s.objects)
    && Before(Made(s.log), s.attempts)
  }

  lemma EmitNew(log: seq<Event>, kind: Kind, field: Option<nat>)
    requires Legal(log) && Single(kind, field) !! Made(log)
    ensures Legal(log + Making(kind, field))
    ensures Live(log + Making(kind, field)) == Live(log) + Single(kind, field)
    ensures Made(log + Making(kind, field)) == Made(log) + Single(kind, field)
  {
    if field.Some? {
      Emit(log, New(Resource(kind, field.value)));
    } else {
      assert log + [] == log;
    }
  }

  /** Nothing live lies inside `field`'s object. */
  ghost predicate Bare(live: set<Resource>, kind: Kind, field: Option<nat>) {
    field.Some? ==> forall inner :: inner in live ==> !Encloses(Resource(kind, field.value), inner)
  }

  lemma EmitDelete(log: seq<Event>, kind: Kind, field: Option<nat>)
    requires Legal(log) && Single(kind, field) <= Live(log) && Bare(Live(log), kind, field)
    ensures Legal(log + Deleting(kind, field))
    ensures Live(log + Deleting(kind, field)) == Live(log) - Single(kind, field)
    ensures Made(log + Deleting(kind, field)) == Made(log)
  {
    if field.Some? {
      Emit(log, Delete(Resource(kind, field.value)));
    } else {
      assert log + [] == log;
    }
  }

  /** Making what `create` makes is legal on a log that knows nothing of this attempt. */
  lemma BuildingIsLegal(log: seq<Event>, attempt: nat, outcome: Outcome)
    requires Legal(log) && Before(Made(log), attempt)
    ensures
      var built := Built(attempt, outcome);
      && Legal(log + Building(built))
      && Live(log + Building(built)) == Live(log) + Held(built)
      && Made(log + Building(built)) == Made(log) + Held(built)
  {
    var o := Built(attempt, outcome);
    var a := log + Making(Store, o.store);
    var b := a + Making(Module, o.mod);
    EmitNew(log, Store, o.store);
    EmitNew(a, Module, o.mod);
    EmitNew(b, Instance, o.instance);
    RegroupFour(log, Making(Store, o.store), Making(Module, o.mod), Making(Instance, o.instance));
    hide Making, Legal, Live, Made;
  }

  /** Whatever lives inside an object of `o` is held by `o` as well. */
  ghost predicate Closed(live: set<Resource>, o: Owner) {
    forall outer, inner :: outer in Held(o) && inner in live && Encloses(outer, inner) ==> inner in Held(o)
  }

  /** The destructor's order is legal: instance, then module, then store. */
  lemma DestroyingIsLegal(log: seq<Event>, o: Owner)
    requires Legal(log) && Nested(o) && Held(o) <= Live(log) && Closed(Live(log), o)
    ensures Legal(log + Destroying(o))
    ensures Live(log + Destroying(o)) == Live(log) - Held(o)
    ensures Made(log + Destroying(o)) == Made(log)
  {
    var a := log + Deleting(Instance, o.instance);
    var b := a + Deleting(Module, o.mod);
    EmitDelete(log, Instance, o.instance);
    EmitDelete(a, Module, o.mod);
    EmitDelete(b, Store, o.store);
    RegroupFour(log, Deleting(Instance, o.instance), Deleting(Module, o.mod), Deleting(Store, o.store));
  }

  lemma NestedHoldsOuter(o: Owner, outer: Resource, inner: Resource)
    requires Nested(o) && inner in Held(o) && Encloses(outer, inner)
    ensures outer in Held(o)
  {
  }

  /** Owners that nest and share nothing are closed: an object's insides are held by its own holder. */
  lemma OwnersAreClosed(owners: map<nat, Owner>, live: set<Resource>, a: nat)
    requires Owned(owners, live) && a in owners
    ensures Closed(live, owners[a])
  {
    forall outer, inner | outer in Held(owners[a]) && inner in live && Encloses(outer, inner)
      ensures inner in Held(owners[a])
    {
      var b :| b in owners && inner in Held(owners[b]);
      NestedHoldsOuter(owners[b], outer, inner);
      assert b == a by {
        hide Held, Encloses;
      }
    }
  }

  lemma AddOwner(owners: map<nat, Owner>, live: set<Resource>, a: nat, o: Owner)
    requires Owned(owners, live) && a !in owners && Nested(o) && Held(o) !! live
    ensures Owned(owners[a := o], live + Held(o))
  {
    hide Held;
    var owners' := owners[a := o];
    forall r | r in live + Held(o)
      ensures exists b :: b in owners' && r in Held(owners'[b])
    {
      if r in live {
        var b :| b in owners && r in Held(owners[b]);
        assert b in owners' && r in Held(owners'[b]);
      } else {
        assert r in Held(owners'[a]);
      }
    }
  }

  lemma RemoveOwner(owners: map<nat, Owner>, live: set<Resource>, a: nat)
    requires Owned(owners, live) && a in owners
    ensures Owned(owners - {a}, live - Held(owners[a]))
    ensures Held(owners[a]) <= live
  {
    hide Held;
    var owners' := owners - {a};
    forall r | r in live - Held(owners[a])
      ensures exists b :: b in owners' && r in Held(owners'[b])
    {
      var b :| b in owners && r in Held(owners[b]);
      assert b in owners' && r in Held(owners'[b]);
    }
    forall b, r | b in owners' && r in Held(owners'[b])
      ensures r in live - Held(owners[a])
    {
      assert Held(owners[a]) !! Held(owners[b]);
    }
  }

  /** Moving hands everything to the new object and leaves the old one alive but empty. */
  lemma MoveOwner(owners: map<nat, Owner>, live: set<Resource>, from: nat, to: nat)
    requires Owned(owners, live) && from in owners && to !in owners
    ensures Owned(owners[from := NOTHING_OWNED][to := owners[from]], live)
  {
    var o := owners[from];
    assert Nested(o);
    NothingIsHeld();
    hide Held, Owned, Nested;
    RemoveOwner(owners, live, from);
    assert live - Held(o) + Held(o) == live && Held(o) !! (live - Held(o));
    AddOwner(owners - {from}, live - Held(o), to, o);
    AddOwner((owners - {from})[to := o], live, from, NOTHING_OWNED);
    assert live + {} == live;
    assert (owners - {from})[to := o][from := NOTHING_OWNED] == owners[from := NOTHING_OWNED][to := o];
  }

  lemma NothingIsHeld()
    ensures Held(NOTHING_OWNED) == {} && Nested(NOTHING_OWNED)
  {
  }

  lemma BuiltIsNew(made: set<Resource>, live: set<Resource>, attempt: nat, outcome: Outcome)
    requires Before(made, attempt) && live <= made
    ensures
      var built := Built(attempt, outcome);
      && Held(built) !! live && Nested(built)
      && Closed(live + Held(built), built)
      && Held(built) <= live + Held(built) && live + Held(built) - Held(built) == live
      && Before(made + Held(built), attempt + 1)
  {
  }

  /** A failing `create` leaves nothing of its attempt alive. */
  lemma FailingCreateIsLegal(log: seq<Event>, attempt: nat, outcome: Outcome)
    requires Legal(log) && Before(Made(log), attempt) && Live(log) <= Made(log)
    requires !outcome.Instantiates?
    ensures
      var built := Built(attempt, outcome);
      var log' := log + Creating(attempt, outcome);
      && Legal(log') && Live(log') == Live(log) && Made(log') == Made(log) + Held(built)
  {
    var built := Built(attempt, outcome);
    BuildingIsLegal(log, attempt, outcome);
    BuiltIsNew(Made(log), Live(log), attempt, outcome);
    hide *;
    DestroyingIsLegal(log + Building(built), built);
    Regroup(log, Building(built), Destroying(built));
    assert Creating(attempt, outcome) == Building(built) + Destroying(built) by {
      CreatingFailed(attempt, outcome);
    }
  }

  lemma CreatingFailed(attempt: nat, outcome: Outcome)
    ensures Creating(attempt, outcome) ==
      Building(Built(attempt, outcome)) + if outcome.Instantiates? then [] else Destroying(Built(attempt, outcome))
  {
  }

  lemma CreateKeepsInvariant(s: State, outcome: Outcome)
    requires Invariant(s)
    ensures Invariant(Apply(s, Create(outcome)))
  {
    var built := Built(s.attempts, outcome);
    LegalDeletions(s.log, Resource(Store, s.attempts));
    BuiltIsNew(Made(s.log), Live(s.log), s.attempts, outcome);
    hide Legal, Live, Made, Building, Destroying, Owned, Held, Nested, Closed, Before, Built;
    if outcome.Instantiates? {
      BuildingIsLegal(s.log, s.attempts, outcome);
      AddOwner(s.owners, Live(s.log), s.objects, built);
      assert Building(built) + [] == Building(built);
    } else {
      FailingCreateIsLegal(s.log, s.attempts, outcome);
    }
  }

  lemma DestroyKeepsInvariant(s: State, a: nat)
    requires Invariant(s) && a in s.owners
    ensures Invariant(Apply(s, Destroy(a)))
  {
    assert Nested(s.owners[a]);
    OwnersAreClosed(s.owners, Live(s.log), a);
    RemoveOwner(s.owners, Live(s.log), a);
    hide Legal, Live, Made, Destroying, Owned, Closed;
    DestroyingIsLegal(s.log, s.owners[a]);
  }

  lemma {:induction false} ReachableInvariant(ops: seq<Operation>)
    requires After(ops).Some?
    ensures Invariant(After(ops).value)
  {
    if ops != [] {
      ReachableInvariant(ops[..|ops| - 1]);
      var s := After(ops[..|ops| - 1]).value;
      match ops[|ops| - 1] {
        case Create(outcome) => CreateKeepsInvariant(s, outcome);
        case Move(from) => MoveOwner(s.owners, Live(s.log), from, s.objects);
        case Destroy(owner) => DestroyKeepsInvariant(s, owner);
      }
    }
  }

  /** Main result: over any run, what was made is held by exactly one owner or was deleted exactly once, inside first. */
  lemma ReleasedExactlyOnce(ops: seq<Operation>, r: Resource)
    requires After(ops).Some?
    ensures
      var s := After(ops).value;
      && Legal(s.log)
      && (r in Made(s.log) ==>
        (Deletions(s.log, r) == 1 <==> forall a :: a in s.owners ==> r !in Held(s.owners[a])))
      && Deletions(s.log, r) <= 1
      && (s.owners == map[] && r in Made(s.log) ==> Deletions(s.log, r) == 1)
      && forall a, b :: a in s.owners && b in s.owners && r in Held(s.owners[a]) && r in Held(s.owners[b]) ==> a == b
  {
    ReachableInvariant(ops);
    LegalDeletions(After(ops).value.log, r);
  }

  lemma {:induction false} PrefixIsLegal(log: seq<Event>, j: nat)
    requires Legal(log) && j <= |log|
    ensures Legal(log[..j])
    decreases |log|
  {
    if j < |log| {
      PrefixIsLegal(log[..|log| - 1], j);
      assert log[..|log| - 1][..j] == log[..j];
    } else {
      assert log[..j] == log;
    }
  }

  /** When an object is deleted, whatever was made inside it has been deleted before: instance, module, store. */
  lemma InsideDeletedFirst(ops: seq<Operation>, j: nat, inner: Resource)
    requires After(ops).Some? && j < |After(ops).value.log|
    ensures
      var log := After(ops).value.log;
      log[j].Delete? && Encloses(log[j].r, inner) && inner in Made(log[..j]) ==> Deletions(log[..j], inner) == 1
  {
    ReachableInvariant(ops);
    var log := After(ops).value.log;
    PrefixIsLegal(log, j + 1);
    assert log[..j + 1][..j] == log[..j];
    LegalDeletions(log[..j], inner);
  }

  /** A module is deleted after the instance made in it, and a store after both. */
  lemma InstanceModuleStore(ops: seq<Operation>, j: nat, n: nat)
    requires After(ops).Some? && j < |After(ops).value.log|
    ensures
      var log := After(ops).value.log;
      var instance, mod := Resource(Instance, n), Resource(Module, n);
      && (log[j] == Delete(mod) && instance in Made(log[..j]) ==> Deletions(log[..j], instance) == 1)
      && (log[j] == Delete(Resource(Store, n)) ==>
        && (instance in Made(log[..j]) ==> Deletions(log[..j], instance) == 1)
        && (mod in Made(log[..j]) ==> Deletions(log[..j], mod) == 1))
  {
    InsideDeletedFirst(ops, j, Resource(Instance, n));
    InsideDeletedFirst(ops, j, Resource(Module, n));
    hide After, Made, Deletions;
  }
}
