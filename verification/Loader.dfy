/** Loading a guest into the pool: which function serves which system, and how a load fails. */
module Loader {
  import opened ModuleInstance
  import opened Wrappers

  datatype LoadError =
    | LoadOk
    | CompileFail
    | GuestImportInvalid
    | InstantiateFail
    | ExportNotFound
    | ExportInvalid
    | InitializeFail

  // ----- the functions behind the systems -----

  function ExportError(exports: seq<Export>, name: string): LoadError {
    match Named(exports, name)
    case None => ExportNotFound
    case Some(e) => if e.kind.FunctionExport? then LoadOk else ExportInvalid
  }

  /** The error of the first name that has one. */
  function SystemsError(exports: seq<Export>, names: seq<string>): LoadError {
    if names == [] then LoadOk
    else if ExportError(exports, names[0]) != LoadOk then ExportError(exports, names[0])
    else SystemsError(exports, names[1..])
  }

  /** The first `n` names are all function exports. */
  predicate NoneFails(exports: seq<Export>, names: seq<string>, n: nat)
    requires n <= |names|
  {
    forall i :: 0 <= i < n ==> ExportError(exports, names[i]) == LoadOk
  }

  lemma {:induction false} FirstError(exports: seq<Export>, names: seq<string>, i: nat)
    requires i < |names| && ExportError(exports, names[i]) != LoadOk
    requires NoneFails(exports, names, i)
    ensures SystemsError(exports, names) == ExportError(exports, names[i])
  {
    if i > 0 {
      FirstError(exports, names[1..], i - 1);
    }
  }

  /** Loading succeeds for an instance exactly when every name is a function export. */
  lemma {:induction false} NoErrorIff(exports: seq<Export>, names: seq<string>)
    ensures SystemsError(exports, names) == LoadOk <==> NoneFails(exports, names, |names|)
  {
    if names != [] {
      NoErrorIff(exports, names[1..]);
      assert names == [names[0]] + names[1..];
    }
  }

  predicate LastFor(ids: seq<int>, n: nat, i: nat)
    requires i < n <= |ids|
  {
    forall j :: i < j < n ==> ids[j] != ids[i]
  }

  /** The table sends every one of the first `n` ids to the export its last occurrence names, and holds only functions. */
  ghost predicate Serves(table: map<int, Export>, exports: seq<Export>, ids: seq<int>, names: seq<string>, n: nat)
    requires n <= |ids| == |names|
  {
    && table.Keys == (set i | 0 <= i < n :: ids[i])
    && (forall i :: 0 <= i < n && LastFor(ids, n, i) ==> Named(exports, names[i]) == Some(table[ids[i]]))
    && (forall id :: id in table ==> table[id].kind.FunctionExport?)
  }

  lemma ServesOneMore(
    table: map<int, Export>, exports: seq<Export>, ids: seq<int>, names: seq<string>, n: nat, e: Export)
    requires n < |ids| == |names| && Serves(table, exports, ids, names, n)
    requires Named(exports, names[n]) == Some(e) && e.kind.FunctionExport?
    ensures Serves(table[ids[n] := e], exports, ids, names, n + 1)
  {
    var table' := table[ids[n] := e];
    hide Named;
    forall i | 0 <= i < n + 1 && LastFor(ids, n + 1, i)
      ensures Named(exports, names[i]) == Some(table'[ids[i]])
    {
      if i < n {
        assert LastFor(ids, n, i);
      }
    }
    IdsGrow(ids, n);
  }

  lemma IdsGrow(ids: seq<int>, n: nat)
    requires n < |ids|
    ensures (set i | 0 <= i < n + 1 :: ids[i]) == (set i | 0 <= i < n :: ids[i]) + {ids[n]}
  {
  }

  lemma ServesNothing(exports: seq<Export>, ids: seq<int>, names: seq<string>)
    requires |ids| == |names|
    ensures Serves(map[], exports, ids, names, 0)
  {
  }

  lemma OneMoreServed(exports: seq<Export>, names: seq<string>, n: nat)
    requires n < |names| && NoneFails(exports, names, n) && ExportError(exports, names[n]) == LoadOk
    ensures NoneFails(exports, names, n + 1)
  {
  }

  method GetSystemImplExports(exports: seq<Export>, ids: seq<int>, names: seq<string>)
    returns (err: LoadError, table: map<int, Export>)
    requires |ids| == |names|
    ensures err == SystemsError(exports, names)
    ensures err == LoadOk ==> Serves(table, exports, ids, names, |ids|)
  {
    table := map[];
    NoErrorIff(exports, names);
    ServesNothing(exports, ids, names);
    assert NoneFails(exports, names, 0);
    hide Serves, Named, NoneFails, SystemsError;
    for i := 0 to |ids|
      invariant NoneFails(exports, names, i)
      invariant Serves(table, exports, ids, names, i)
    {
      var found := FindExport(exports, names[i]);
      if found.None? {
        FirstError(exports, names, i);
        return ExportNotFound, table;
      }
      if !found.value.kind.FunctionExport? {
        FirstError(exports, names, i);
        return ExportInvalid, table;
      }
      OneMoreServed(exports, names, i);
      ServesOneMore(table, exports, ids, names, i, found.value);
      table := table[ids[i] := found.value];
    }
    err := LoadOk;
  }

  // ----- one instance -----

  /** What the WebAssembly library answers for one instance of a load, and whether the guest's initializer traps. */
  datatype Answer = Answer(compiles: bool, imports: seq<GuestImport>, instantiates: bool, exports: seq<Export>, traps: bool)

  function CreateError(outcome: Outcome): LoadError {
    match outcome
    case CompileFails => CompileFail
    case ImportUnresolved => GuestImportInvalid
    case InstantiateFails => InstantiateFail
    case Instantiates => LoadOk
  }

  /** How one turn of the load loop ends. */
  function AnswerError(a: Answer, host: HostFunctions, names: seq<string>): LoadError {
    var created := CreateError(OutcomeOf(a.compiles, host, a.imports, a.instantiates));
    if created != LoadOk then created
    else if SystemsError(a.exports, names) != LoadOk then SystemsError(a.exports, names)
    else if Named(a.exports, "_initialize").Some? && a.traps then InitializeFail
    else LoadOk
  }

  /** The first memory among the exports. */
  function FirstMemory(exports: seq<Export>): Option<Export> {
    if exports == [] then None
    else if exports[0].kind.MemoryExport? then Some(exports[0])
    else FirstMemory(exports[1..])
  }

  lemma {:induction false} MemoryIsFirst(exports: seq<Export>, i: nat)
    requires i < |exports| && exports[i].kind.MemoryExport?
    requires forall j :: 0 <= j < i ==> !exports[j].kind.MemoryExport?
    ensures FirstMemory(exports) == Some(exports[i])
  {
    if i > 0 {
      MemoryIsFirst(exports[1..], i - 1);
    }
  }

  lemma {:induction false} MemoryNone(exports: seq<Export>)
    ensures FirstMemory(exports).None? <==> forall j :: 0 <= j < |exports| ==> !exports[j].kind.MemoryExport?
  {
    if exports != [] {
      MemoryNone(exports[1..]);
      assert exports == [exports[0]] + exports[1..];
    }
  }

  /** What the load asserts of a guest whose systems resolve: it exports a memory, and `_initialize` as a function. */
  predicate Sound(a: Answer, host: HostFunctions, names: seq<string>) {
    OutcomeOf(a.compiles, host, a.imports, a.instantiates).Instantiates? && SystemsError(a.exports, names) == LoadOk ==>
      && FirstMemory(a.exports).Some?
      && (Named(a.exports, "_initialize").Some? ==> Named(a.exports, "_initialize").value.kind.FunctionExport?)
  }

  // ----- every error, by the guest's exports and the library's answers -----

  /** Export `k` is the first of that name. */
  ghost predicate FirstNamed(exports: seq<Export>, name: string, k: int) {
    && 0 <= k < |exports| && exports[k].name == name
    && forall j :: 0 <= j < k ==> exports[j].name != name
  }

  ghost predicate IsMissing(exports: seq<Export>, name: string) {
    forall k :: 0 <= k < |exports| ==> exports[k].name != name
  }

  ghost predicate IsFunction(exports: seq<Export>, name: string) {
    exists k :: FirstNamed(exports, name, k) && exports[k].kind == FunctionExport
  }

  ghost predicate IsOther(exports: seq<Export>, name: string) {
    exists k :: FirstNamed(exports, name, k) && exports[k].kind != FunctionExport
  }

  lemma {:induction false} NamedIffFirst(exports: seq<Export>, name: string)
    ensures Named(exports, name).None? ==> IsMissing(exports, name)
    ensures Named(exports, name).Some? ==>
      exists k :: FirstNamed(exports, name, k) && exports[k] == Named(exports, name).value
  {
    NamedNone(exports, name);
    if Named(exports, name).Some? {
      var k :| 0 <= k < |exports| && exports[k].name == name;
      var first := FirstOf(exports, name, k);
      NamedIsFirst(exports, name, first);
      assert FirstNamed(exports, name, first);
    }
  }

  lemma {:induction false} FirstOf(exports: seq<Export>, name: string, k: nat) returns (first: nat)
    requires k < |exports| && exports[k].name == name
    ensures FirstNamed(exports, name, first)
    decreases k
  {
    if j :| 0 <= j < k && exports[j].name == name {
      first := FirstOf(exports, name, j);
    } else {
      first := k;
    }
  }

  /** A name is missing, a function or something else, and that decides its error. */
  lemma ExportErrorIff(exports: seq<Export>, name: string)
    ensures ExportError(exports, name) == LoadOk <==> IsFunction(exports, name)
    ensures ExportError(exports, name) == ExportNotFound <==> IsMissing(exports, name)
    ensures ExportError(exports, name) == ExportInvalid <==> IsOther(exports, name)
  {
    NamedIffFirst(exports, name);
    forall j, k | FirstNamed(exports, name, j) && FirstNamed(exports, name, k)
      ensures j == k
    {
      FirstIsUnique(exports, name, j, k);
    }
    hide Named;
  }

  lemma FirstIsUnique(exports: seq<Export>, name: string, j: int, k: int)
    requires FirstNamed(exports, name, j) && FirstNamed(exports, name, k)
    ensures j == k
  {
  }

  ghost predicate AllFunctions(exports: seq<Export>, names: seq<string>, n: nat)
    requires n <= |names|
  {
    forall i :: 0 <= i < n ==> IsFunction(exports, names[i])
  }

  /** The first name that is no function is missing. */
  ghost predicate FirstIsMissing(exports: seq<Export>, names: seq<string>) {
    exists i :: 0 <= i < |names| && AllFunctions(exports, names, i) && IsMissing(exports, names[i])
  }

  /** The first name that is no function is another kind of export. */
  ghost predicate FirstIsOther(exports: seq<Export>, names: seq<string>) {
    exists i :: 0 <= i < |names| && AllFunctions(exports, names, i) && IsOther(exports, names[i])
  }

  lemma FunctionsDoNotFail(exports: seq<Export>, names: seq<string>, n: nat)
    requires n <= |names|
    ensures NoneFails(exports, names, n) <==> AllFunctions(exports, names, n)
  {
    forall i | 0 <= i < n
      ensures ExportError(exports, names[i]) == LoadOk <==> IsFunction(exports, names[i])
    {
      ExportErrorIff(exports, names[i]);
    }
    hide ExportError, IsFunction;
  }

  lemma {:induction false} SystemsErrorHasFirst(exports: seq<Export>, names: seq<string>) returns (i: nat)
    requires SystemsError(exports, names) != LoadOk
    ensures i < |names| && NoneFails(exports, names, i)
    ensures SystemsError(exports, names) == ExportError(exports, names[i]) != LoadOk
  {
    hide ExportError;
    if ExportError(exports, names[0]) != LoadOk {
      i := 0;
    } else {
      i := SystemsErrorHasFirst(exports, names[1..]);
      i := i + 1;
      assert names == [names[0]] + names[1..];
    }
  }

  lemma FirstMissingIsError(exports: seq<Export>, names: seq<string>, i: nat)
    requires i < |names| && AllFunctions(exports, names, i)
    ensures IsMissing(exports, names[i]) ==> SystemsError(exports, names) == ExportNotFound
    ensures IsOther(exports, names[i]) ==> SystemsError(exports, names) == ExportInvalid
  {
    FunctionsDoNotFail(exports, names, i);
    ExportErrorIff(exports, names[i]);
    hide ExportError, IsMissing, IsOther, NoneFails, AllFunctions;
    if ExportError(exports, names[i]) != LoadOk {
      FirstError(exports, names, i);
    }
  }

  /** The error of the systems, by the exports alone. */
  lemma SystemsErrorIff(exports: seq<Export>, names: seq<string>)
    ensures SystemsError(exports, names) == LoadOk <==> AllFunctions(exports, names, |names|)
    ensures SystemsError(exports, names) == ExportNotFound <==> FirstIsMissing(exports, names)
    ensures SystemsError(exports, names) == ExportInvalid <==> FirstIsOther(exports, names)
    ensures SystemsError(exports, names) in {LoadOk, ExportNotFound, ExportInvalid}
  {
    NoErrorIff(exports, names);
    FunctionsDoNotFail(exports, names, |names|);
    hide ExportError, IsFunction, IsMissing, IsOther, NoneFails, AllFunctions, SystemsError;
    if SystemsError(exports, names) != LoadOk {
      var i := SystemsErrorHasFirst(exports, names);
      FunctionsDoNotFail(exports, names, i);
      ExportErrorIff(exports, names[i]);
      ErrorsOfExports(exports, names[i]);
    }
    forall i | 0 <= i < |names| && AllFunctions(exports, names, i)
      ensures IsMissing(exports, names[i]) ==> SystemsError(exports, names) == ExportNotFound
      ensures IsOther(exports, names[i]) ==> SystemsError(exports, names) == ExportInvalid
    {
      FirstMissingIsError(exports, names, i);
    }
  }

  lemma ErrorsOfExports(exports: seq<Export>, name: string)
    ensures ExportError(exports, name) in {LoadOk, ExportNotFound, ExportInvalid}
  {
  }

  /** The host has a function for every import. */
  ghost predicate AllKnown(host: HostFunctions, imports: seq<GuestImport>) {
    forall i :: 0 <= i < |imports| ==>
      || (imports[i].modName == "env" && imports[i].name in host.env)
      || (imports[i].modName == "wasi_snapshot_preview1" && imports[i].name in host.wasi)
  }

  lemma OutcomeIff(compiles: bool, host: HostFunctions, imports: seq<GuestImport>, instantiates: bool)
    ensures
      var outcome := OutcomeOf(compiles, host, imports, instantiates);
      && (outcome == CompileFails <==> !compiles)
      && (outcome == ImportUnresolved <==> compiles && !AllKnown(host, imports))
      && (outcome == InstantiateFails <==> compiles && AllKnown(host, imports) && !instantiates)
      && (outcome == Instantiates <==> compiles && AllKnown(host, imports) && instantiates)
  {
    forall i | 0 <= i < |imports|
      ensures host.Resolve(imports[i]).Some? <==>
        || (imports[i].modName == "env" && imports[i].name in host.env)
        || (imports[i].modName == "wasi_snapshot_preview1" && imports[i].name in host.wasi)
    {
    }
    hide HostFunctions.Resolve;
  }

  ghost predicate IsCreated(a: Answer, host: HostFunctions) {
    a.compiles && AllKnown(host, a.imports) && a.instantiates
  }

  /** Main result: how a turn of the load loop ends, for every error by what the library answers and the guest exports. */
  lemma AnswerErrorIff(a: Answer, host: HostFunctions, names: seq<string>)
    ensures AnswerError(a, host, names) == CompileFail <==> !a.compiles
    ensures AnswerError(a, host, names) == GuestImportInvalid <==> a.compiles && !AllKnown(host, a.imports)
    ensures AnswerError(a, host, names) == InstantiateFail <==>
      a.compiles && AllKnown(host, a.imports) && !a.instantiates
    ensures AnswerError(a, host, names) == ExportNotFound <==> IsCreated(a, host) && FirstIsMissing(a.exports, names)
    ensures AnswerError(a, host, names) == ExportInvalid <==> IsCreated(a, host) && FirstIsOther(a.exports, names)
    ensures AnswerError(a, host, names) == InitializeFail <==>
      IsCreated(a, host) && AllFunctions(a.exports, names, |names|) && !IsMissing(a.exports, "_initialize") && a.traps
    ensures AnswerError(a, host, names) == LoadOk <==>
      IsCreated(a, host) && AllFunctions(a.exports, names, |names|) && (IsMissing(a.exports, "_initialize") || !a.traps)
  {
    OutcomeIff(a.compiles, host, a.imports, a.instantiates);
    SystemsErrorIff(a.exports, names);
    NamedNone(a.exports, "_initialize");
    assert Named(a.exports, "_initialize").None? <==> IsMissing(a.exports, "_initialize");
    hide OutcomeOf, AllKnown, SystemsError, FirstIsMissing, FirstIsOther, AllFunctions, IsMissing, Named;
  }
}
