/** A WebAssembly module and instance, its resolved imports, its exports and the release of what it owns. */
module ModuleInstance {
  import opened Bytes
  import opened Wrappers

  // ----- imports and exports -----

  datatype GuestImport = GuestImport(modName: string, name: string)

  /** The host functions guests may import, by the module they are imported from. */
  datatype HostFunctions = HostFunctions(env: map<string, nat>, wasi: map<string, nat>) {
    function Resolve(imp: GuestImport): Option<nat> {
      if imp.modName == "env" then (if imp.name in env then Some(env[imp.name]) else None)
      else if imp.modName == "wasi_snapshot_preview1" then (if imp.name in wasi then Some(wasi[imp.name]) else None)
      else None
    }
  }

  datatype ExportKind = FunctionExport | GlobalExport | TableExport | MemoryExport

  /** `item` points to the extern behind the export. */
  datatype Export = Export(name: string, kind: ExportKind, item: word64)

  /** The first export of that name. */
  function Named(exports: seq<Export>, name: string): Option<Export> {
    if exports == [] then None
    else if exports[0].name == name then Some(exports[0])
    else Named(exports[1..], name)
  }

  lemma {:induction false} NamedIsFirst(exports: seq<Export>, name: string, i: nat)
    requires i < |exports| && exports[i].name == name
    requires forall j :: 0 <= j < i ==> exports[j].name != name
    ensures Named(exports, name) == Some(exports[i])
  {
    if i > 0 {
      NamedIsFirst(exports[1..], name, i - 1);
    }
  }

  lemma {:induction false} NamedNone(exports: seq<Export>, name: string)
    ensures Named(exports, name).None? <==> forall j :: 0 <= j < |exports| ==> exports[j].name != name
  {
    if exports != [] {
      NamedNone(exports[1..], name);
      if forall j :: 0 <= j < |exports| ==> exports[j].name != name {
        assert exports[0].name != name;
        forall j | 0 <= j < |exports[1..]|
          ensures exports[1..][j].name != name
        {
          assert exports[1..][j] == exports[j + 1];
        }
      }
    }
  }

  method FindExport(exports: seq<Export>, name: string) returns (found: Option<Export>)
    ensures found == Named(exports, name)
  {
    NamedNone(exports, name);
    for i := 0 to |exports|
      invariant forall j :: 0 <= j < i ==> exports[j].name != name
    {
      if exports[i].name == name {
        NamedIsFirst(exports, name, i);
        return Some(exports[i]);
      }
    }
    return None;
  }

  // ----- what a module instance owns -----

  datatype Kind = Store | Module | Instance

  /** A foreign object, by its kind and the creation attempt that made it. */
  datatype Resource = Resource(kind: Kind, attempt: nat)

  datatype Event = New(r: Resource) | Delete(r: Resource)

  /** The owning fields; null is `None`. */
  datatype Owner = Owner(store: Option<nat>, mod: Option<nat>, instance: Option<nat>)

  const NOTHING_OWNED := Owner(None, None, None)

  function Single(kind: Kind, field: Option<nat>): set<Resource> {
    if field.Some? then {Resource(kind, field.value)} else {}
  }

  function Held(o: Owner): set<Resource> {
    Single(Store, o.store) + Single(Module, o.mod) + Single(Instance, o.instance)
  }

  function Deleting(kind: Kind, field: Option<nat>): seq<Event> {
    if field.Some? then [Delete(Resource(kind, field.value))] else []
  }

  /** What the destructor deletes, in order. */
  function Destroying(o: Owner): seq<Event> {
    Deleting(Instance, o.instance) + Deleting(Module, o.mod) + Deleting(Store, o.store)
  }

  datatype Outcome = CompileFails | ImportUnresolved | InstantiateFails | Instantiates

  /** The fields of the local object when `create` has made what it can. */
  function Built(attempt: nat, outcome: Outcome): Owner {
    Owner(
      Some(attempt),
      if outcome.CompileFails? then None else Some(attempt),
      if outcome.Instantiates? then Some(attempt) else None)
  }

  function Making(kind: Kind, field: Option<nat>): seq<Event> {
    if field.Some? then [New(Resource(kind, field.value))] else []
  }

  function Building(o: Owner): seq<Event> {
    Making(Store, o.store) + Making(Module, o.mod) + Making(Instance, o.instance)
  }

  /** The events of a whole `create`: a failing one deletes what it made before it returns. */
  function Creating(attempt: nat, outcome: Outcome): seq<Event> {
    var built := Built(attempt, outcome);
    Building(built) + if outcome.Instantiates? then [] else Destroying(built)
  }

  /** The events of each outcome of a `create`, one by one. */
  lemma CreatingEvents(n: nat)
    ensures Creating(n, CompileFails) == [New(Resource(Store, n)), Delete(Resource(Store, n))]
    ensures forall outcome :: outcome == ImportUnresolved || outcome == InstantiateFails ==>
      Creating(n, outcome) ==
        [New(Resource(Store, n)), New(Resource(Module, n)), Delete(Resource(Module, n)), Delete(Resource(Store, n))]
    ensures Creating(n, Instantiates) == [New(Resource(Store, n)), New(Resource(Module, n)), New(Resource(Instance, n))]
    ensures Destroying(Built(n, Instantiates)) ==
      [Delete(Resource(Instance, n)), Delete(Resource(Module, n)), Delete(Resource(Store, n))]
    ensures Built(n, Instantiates) == Owner(Some(n), Some(n), Some(n))
  {
  }

  function OutcomeOf(compiles: bool, host: HostFunctions, imports: seq<GuestImport>, instantiates: bool): Outcome {
    if !compiles then CompileFails
    else if exists i :: 0 <= i < |imports| && host.Resolve(imports[i]).None? then ImportUnresolved
    else if !instantiates then InstantiateFails
    else Instantiates
  }

  /** The foreign library, as far as it is told to make and delete things. */
  class Api {
    var log: seq<Event>
    var attempts: nat

    constructor ()
      ensures log == [] && attempts == 0
    {
      log, attempts := [], 0;
    }

    method Make(kind: Kind, attempt: nat) returns (made: Option<nat>)
      modifies this`log
      ensures made == Some(attempt) && log == old(log) + [New(Resource(kind, attempt))]
    {
      log := log + [New(Resource(kind, attempt))];
      made := Some(attempt);
    }

    method DeleteIfHeld(kind: Kind, field: Option<nat>)
      modifies this`log
      ensures log == old(log) + Deleting(kind, field)
    {
      if field.Some? {
        log := log + [Delete(Resource(kind, field.value))];
      }
    }
  }

  class Minst {
    var store: Option<nat>
    var mod: Option<nat>
    var instance: Option<nat>
    var exports: seq<Export>

    function Fields(): Owner
      reads this
    {
      Owner(store, mod, instance)
    }

    constructor ()
      ensures Fields() == NOTHING_OWNED && exports == []
    {
      store, mod, instance, exports := None, None, None, [];
    }

    /** The move constructor: the source gives everything up. */
    constructor Move(other: Minst)
      modifies other
      ensures Fields() == old(other.Fields()) && exports == old(other.exports)
      ensures other.Fields() == NOTHING_OWNED && other.exports == []
    {
      store, mod, instance, exports := other.store, other.mod, other.instance, other.exports;
      new;
      other.store, other.mod, other.instance, other.exports := None, None, None, [];
    }

    /** The destructor. */
    method Destroy(api: Api)
      modifies this, api
      ensures api.log == old(api.log) + Destroying(old(Fields())) && api.attempts == old(api.attempts)
      ensures Fields() == NOTHING_OWNED
    {
      api.DeleteIfHeld(Instance, instance);
      instance := None;
      api.DeleteIfHeld(Module, mod);
      mod := None;
      api.DeleteIfHeld(Store, store);
      store := None;
    }

    /** The import loop: it stops at the first import the host does not know. */
    static method ResolveImports(host: HostFunctions, imports: seq<GuestImport>) returns (externs: Option<seq<nat>>)
      ensures externs.None? <==> exists i :: 0 <= i < |imports| && host.Resolve(imports[i]).None?
      ensures externs.Some? ==>
        && |externs.value| == |imports|
        && forall i :: 0 <= i < |imports| ==> host.Resolve(imports[i]) == Some(externs.value[i])
    {
      var resolved: seq<nat> := [];
      for i := 0 to |imports|
        invariant |resolved| == i
        invariant forall j :: 0 <= j < i ==> host.Resolve(imports[j]) == Some(resolved[j])
      {
        var found := host.Resolve(imports[i]);
        if found.None? {
          return None;
        }
        resolved := resolved + [found.value];
      }
      externs := Some(resolved);
    }

    /** `compiles` and `instantiates` are the library's answers, `exports` what the instance would export; `linked` is what it
      * is instantiated with. */
    static method Create(
      api: Api, host: HostFunctions, compiles: bool, imports: seq<GuestImport>, instantiates: bool, exports: seq<Export>)
      returns (outcome: Outcome, created: Option<Minst>, linked: seq<nat>)
      modifies api
      ensures outcome == OutcomeOf(compiles, host, imports, instantiates)
      ensures api.attempts == old(api.attempts) + 1
      ensures api.log == old(api.log) + Creating(old(api.attempts), outcome)
      ensures outcome.InstantiateFails? || outcome.Instantiates? ==>
        && |linked| == |imports|
        && forall i :: 0 <= i < |imports| ==> host.Resolve(imports[i]) == Some(linked[i])
      ensures created.Some? <==> outcome.Instantiates?
      ensures created.Some? ==>
        && fresh(created.value)
        && created.value.Fields() == Built(old(api.attempts), outcome)
        && created.value.exports == exports
    {
      var self := new Minst();
      var attempt := api.attempts;
      api.attempts := attempt + 1;
      created, linked := None, [];
      self.store := api.Make(Store, attempt);
      if !compiles {
        outcome := CompileFails;
        self.Destroy(api);
        return;
      }
      self.mod := api.Make(Module, attempt);
      var externs := ResolveImports(host, imports);
      if externs.None? {
        outcome := ImportUnresolved;
        self.Destroy(api);
        return;
      }
      linked := externs.value;
      if !instantiates {
        outcome := InstantiateFails;
        self.Destroy(api);
        return;
      }
      self.instance := api.Make(Instance, attempt);
      self.exports := exports;
      outcome := Instantiates;
      var moved := new Minst.Move(self);
      self.Destroy(api);
      created := Some(moved);
    }
  }
}
