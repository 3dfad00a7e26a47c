/** The declarative registration surface of `src/lib.rs`: what the
    `napi_module!`, `register!` and `function!` macros expand to. */
module Registration {
  import opened RustStd
  import opened NapiStatus
  import opened Host
  import opened NapiPrimitives
  import opened NapiValue

  // ---------------------------------------------------------------------
  // napi_module! (src/lib.rs:16-40)

  const NAPI_MODULE_VERSION: i32 := 1

  /** The `NapiModule` that `napi_module!(module, register_func)` builds. */
  function ModuleDeclaration(moduleName: string, registerFunc: Callback): (m: NapiModule)
    ensures m.version == NAPI_MODULE_VERSION && m.flags == 0
    ensures m.filename == moduleName && m.modname == moduleName
    ensures m.registerFunc == Some(registerFunc)
  {
    NapiModule(NAPI_MODULE_VERSION, 0, moduleName, Some(registerFunc), moduleName)
  }

  /** What the loader receives for a declared module: the fixed version and
      flags, the module string as both names, no private data; or the
      `NulError` of the file name. */
  lemma DeclaredModuleRecord(moduleName: string, registerFunc: Callback)
    ensures NUL !in moduleName ==>
              ModuleRecordFor(ModuleDeclaration(moduleName, registerFunc)) ==
              Ok(ModuleRecord(1, 0, moduleName, registerFunc, moduleName, NullPtr, NULL_RESERVED))
    ensures NUL in moduleName ==>
              ModuleRecordFor(ModuleDeclaration(moduleName, registerFunc)) ==
              Err(NulError(NulPosition(moduleName), moduleName))
  {
  }

  const REGISTER_PANIC: string := "error registering module"

  /** The static constructor `__load_napi_module`: register the declared
      module, aborting (`expect`) if it is refused. */
  method LoadModule(loader: Loader, moduleName: string, registerFunc: Callback) returns (r: Outcome<(), NulError>)
    modifies loader
    ensures !r.Err?
    ensures NUL !in moduleName ==>
              r == Ok(()) &&
              loader.registered == old(loader.registered) + [ModuleRecord(1, 0, moduleName, registerFunc, moduleName, NullPtr, NULL_RESERVED)]
    ensures NUL in moduleName ==> r == Panic(REGISTER_PANIC) && loader.registered == old(loader.registered)
  {
    DeclaredModuleRecord(moduleName, registerFunc);
    var result := ModuleRegister(loader, ModuleDeclaration(moduleName, registerFunc));
    match result
    case Ok(_) => r := Ok(());
    case Err(_) => r := Panic(REGISTER_PANIC);
    case Panic(msg) => r := Panic(msg);
  }

  // ---------------------------------------------------------------------
  // register! (src/lib.rs:50-68)

  /** The name `register!` installs as the registration function. */
  const REGISTER_FUNC: Callback := "register"

  /** `register!{ module ... }` declares its module under the stringified
      module identifier, with `register` as the registration function. */
  function RegisterDeclaration(moduleIdent: string): (m: NapiModule)
    ensures m.version == NAPI_MODULE_VERSION && m.flags == 0
    ensures m.filename == moduleIdent && m.modname == moduleIdent
    ensures m.registerFunc == Some("register")
  {
    ModuleDeclaration(moduleIdent, REGISTER_FUNC)
  }

  predicate Distinct(names: seq<string>) {
    forall i, j :: 0 <= i < j < |names| ==> names[i] != names[j]
  }

  /** The exports object's properties once the functions `names` have been
      created at store indices `first`, `first + 1`, ... and attached in
      order. */
  function AttachAll(p: Props, names: seq<string>, first: nat): Props
    decreases |names|
  {
    if names == [] then p
    else Put(AttachAll(p, names[..|names| - 1], first), names[|names| - 1], Ref(first + |names| - 1))
  }

  /** Fresh, distinct export names land after the existing properties, in
      declaration order. */
  lemma {:induction false} AttachAllNames(p: Props, names: seq<string>, first: nat)
    requires Distinct(names)
    requires forall i :: 0 <= i < |names| ==> names[i] !in Names(p)
    ensures Names(AttachAll(p, names, first)) == Names(p) + names
    decreases |names|
  {
    if names != [] {
      var n := |names|;
      var init, last := names[..n - 1], names[n - 1];
      assert Distinct(init) by {
        forall i, j | 0 <= i < j < |init| ensures init[i] != init[j] {
          assert init[i] == names[i] && init[j] == names[j];
        }
      }
      assert forall i :: 0 <= i < |init| ==> init[i] !in Names(p) by {
        forall i | 0 <= i < |init| ensures init[i] !in Names(p) {
          assert init[i] == names[i];
        }
      }
      AttachAllNames(p, init, first);
      var q := AttachAll(p, init, first);
      assert last !in Names(q) by {
        forall i | 0 <= i < |init| ensures init[i] != last {
          assert init[i] == names[i];
        }
        assert last !in Names(p);
      }
      PutNames(q, last, Ref(first + n - 1));
      assert init + [last] == names;
    }
  }

  /** Each export name is bound to the function created for it. */
  lemma {:induction false} AttachAllLookup(p: Props, names: seq<string>, first: nat, j: nat)
    requires Distinct(names)
    requires j < |names|
    ensures Lookup(AttachAll(p, names, first), names[j]) == Some(Ref(first + j))
    decreases |names|
  {
    var init := names[..|names| - 1];
    var last := names[|names| - 1];
    PutLookup(AttachAll(p, init, first), last, Ref(first + |names| - 1), names[j]);
    if j < |names| - 1 {
      AttachAllLookup(p, init, first, j);
    }
  }

  /** A property whose name is not exported keeps its value. */
  lemma {:induction false} AttachAllOther(p: Props, names: seq<string>, first: nat, other: string)
    requires other !in names
    ensures Lookup(AttachAll(p, names, first), other) == Lookup(p, other)
    decreases |names|
  {
    if names != [] {
      var init := names[..|names| - 1];
      assert other !in init by {
        forall i | 0 <= i < |init| ensures init[i] != other {
          assert init[i] == names[i];
        }
      }
      PutLookup(AttachAll(p, init, first), names[|names| - 1], Ref(first + |names| - 1), other);
      AttachAllOther(p, init, first, other);
    }
  }

  const CREATE_PANIC: string := "error creating function: "
  const ATTACH_PANIC: string := "error attaching function: "

  /** The message `register` aborts with when the `k`-th host call of the
      registration (two per export: create, then attach) fails. */
  function RegisterPanic(names: seq<string>, k: nat, queryOk: bool): string
    requires k < 2 * |names|
  {
    if !queryOk then LAST_ERROR_PANIC
    else if k % 2 == 0 then CREATE_PANIC + names[k / 2]
    else ATTACH_PANIC + names[k / 2]
  }

  lemma RegisterPanicAt(names: seq<string>, i: nat, createdOne: bool, queryOk: bool)
    requires i < |names|
    ensures var k := if createdOne then 2 * i + 1 else 2 * i;
            RegisterPanic(names, k, queryOk) ==
            if !queryOk then LAST_ERROR_PANIC
            else if createdOne then ATTACH_PANIC + names[i]
            else CREATE_PANIC + names[i]
  {
    if createdOne {
      assert (2 * i + 1) % 2 == 1 && (2 * i + 1) / 2 == i;
    } else {
      assert (2 * i) % 2 == 0 && (2 * i) / 2 == i;
    }
  }

  /** The store after `register` created the functions for the first
      `created` exports (at the end of the store, in order) and attached the
      first `attached` of them to the object at `x`; nothing else changed. */
  ghost predicate StoreAfter(heap: seq<HostObject>, before: seq<HostObject>, x: nat,
                             names: seq<string>, created: nat, attached: nat)
    requires x < |before| && attached <= created <= |names|
  {
    && |heap| == |before| + created
    && heap[x] == HostObject(before[x].kind, AttachAll(before[x].props, names[..attached], |before|))
    && (forall j :: 0 <= j < created ==>
          heap[|before| + j] == HostObject(FunctionObject(names[j], names[j]), []))
    && (forall o :: 0 <= o < |before| && o != x ==> heap[o] == before[o])
  }

  lemma StoreAfterStep(heap: seq<HostObject>, mid: seq<HostObject>, before: seq<HostObject>, x: nat,
                        names: seq<string>, i: nat)
    requires x < |before| && i < |names|
    requires StoreAfter(mid, before, x, names, i, i)
    requires |heap| == |mid| + 1
    requires heap[|mid|] == HostObject(FunctionObject(names[i], names[i]), [])
    requires forall o :: 0 <= o < |mid| && o != x ==> heap[o] == mid[o]
    requires heap[x] == HostObject(mid[x].kind, Put(mid[x].props, names[i], Ref(|mid|)))
    ensures StoreAfter(heap, before, x, names, i + 1, i + 1)
  {
    assert names[..i + 1][..i] == names[..i];
    assert heap[x].props == AttachAll(before[x].props, names[..i + 1], |before|);
    forall j | 0 <= j < i + 1
      ensures heap[|before| + j] == HostObject(FunctionObject(names[j], names[j]), [])
    {
      if j < i {
        assert heap[|before| + j] == mid[|before| + j];
      }
    }
  }

  lemma StoreAfterFailure(heap: seq<HostObject>, mid: seq<HostObject>, before: seq<HostObject>, x: nat,
                           names: seq<string>, i: nat, createdOne: bool)
    requires x < |before| && i < |names|
    requires StoreAfter(mid, before, x, names, i, i)
    requires !createdOne ==> heap == mid
    requires createdOne ==>
               && |heap| == |mid| + 1
               && heap[|mid|] == HostObject(FunctionObject(names[i], names[i]), [])
               && (forall o :: 0 <= o < |mid| && o != x ==> heap[o] == mid[o])
               && heap[x] == mid[x]
    ensures var k := if createdOne then 2 * i + 1 else 2 * i;
            StoreAfter(heap, before, x, names, (k + 1) / 2, k / 2)
  {
    if createdOne {
      forall j | 0 <= j < i + 1
        ensures heap[|before| + j] == HostObject(FunctionObject(names[j], names[j]), [])
      {
        if j < i {
          assert heap[|before| + j] == mid[|before| + j];
        }
      }
    }
  }

  /** One export of `register`: create the function, then attach it; each
      step aborts (`expect`) on failure. */
  method ExportOne(env: Env, exports: Value, name: string) returns (r: Outcome<(), NapiError>)
    requires env.IsObject(exports) && NUL !in name
    modifies env
    ensures env.queryStatus == old(env.queryStatus)
    ensures !r.Err?
    ensures r.Ok? <==> StatusAt(old(env.pending), 0) == NapiOk && StatusAt(old(env.pending), 1) == NapiOk
    ensures StatusAt(old(env.pending), 0) != NapiOk ==>
              && r.Panic? && env.pending == Drop(old(env.pending), 1) && env.heap == old(env.heap)
              && r.message == if env.queryStatus == NapiOk then CREATE_PANIC + name else LAST_ERROR_PANIC
    ensures StatusAt(old(env.pending), 0) == NapiOk ==>
              && env.pending == Drop(old(env.pending), 2)
              && |env.heap| == |old(env.heap)| + 1
              && env.heap[|old(env.heap)|] == HostObject(FunctionObject(name, name), [])
              && (forall o :: 0 <= o < |old(env.heap)| && o != exports.id ==> env.heap[o] == old(env.heap[o]))
    ensures StatusAt(old(env.pending), 0) == NapiOk && !r.Ok? ==>
              && r.message == (if env.queryStatus == NapiOk then ATTACH_PANIC + name else LAST_ERROR_PANIC)
              && env.heap[exports.id] == old(env.heap[exports.id])
    ensures r.Ok? ==>
              env.heap[exports.id] ==
              HostObject(old(env.heap[exports.id].kind), Put(old(env.heap[exports.id].props), name, Ref(|old(env.heap)|)))
    ensures env.lastError == AnswerAt(old(env.pending), if StatusAt(old(env.pending), 0) == NapiOk then 1 else 0)
  {
    DropAnswer(env.pending, 1, 0);
    DropAnswer(env.pending, 1, 1);
    var created := CreateFunction(env, name, name);
    match created
    case Err(_) => r := Panic(CREATE_PANIC + name);
    case Panic(msg) => r := Panic(msg);
    case Ok(f) =>
      var attached := SetNamedProperty(env, exports, name, f);
      match attached
      case Ok(_) => r := Ok(());
      case Err(_) => r := Panic(ATTACH_PANIC + name);
      case Panic(msg) => r := Panic(msg);
  }

  /** `register` has exported the first `i` names: all their host calls
      succeeded and the store holds them, created and attached. */
  ghost predicate Exported(pending: seq<ErrorInfo>, lastError: ErrorInfo, heap: seq<HostObject>, script: seq<ErrorInfo>,
                           before: seq<HostObject>, x: nat, names: seq<string>, i: nat)
    requires x < |before| && i <= |names|
  {
    && pending == Drop(script, 2 * i)
    && (i > 0 ==> lastError == AnswerAt(script, 2 * i - 1))
    && AllOk(script, 2 * i)
    && StoreAfter(heap, before, x, names, i, i)
  }

  /** `register` aborted at the first failing host call `k` of the script. */
  ghost predicate Aborted(r: Outcome<(), NapiError>, pending: seq<ErrorInfo>, lastError: ErrorInfo, heap: seq<HostObject>, queryOk: bool,
                          script: seq<ErrorInfo>, before: seq<HostObject>, x: nat, names: seq<string>)
    requires x < |before|
  {
    var k := FirstFailure(script, 2 * |names|);
    && k < 2 * |names|
    && r == Panic(RegisterPanic(names, k, queryOk))
    && pending == Drop(script, k + 1)
    && lastError == AnswerAt(script, k)
    && StoreAfter(heap, before, x, names, (k + 1) / 2, k / 2)
  }

  /** The abort of the `i`-th export is the abort at the script's first
      failing call. */
  lemma ExportFailed(r: Outcome<(), NapiError>, pending: seq<ErrorInfo>, lastError: ErrorInfo, heap: seq<HostObject>, queryOk: bool,
                     script: seq<ErrorInfo>, start: seq<ErrorInfo>, mid: seq<HostObject>, before: seq<HostObject>, x: nat,
                     names: seq<string>, i: nat)
    requires x < |before| && i < |names|
    requires AllOk(script, 2 * i) && StoreAfter(mid, before, x, names, i, i)
    requires start == Drop(script, 2 * i)
    requires r.Panic?
    requires StatusAt(start, 0) != NapiOk ==>
               && pending == Drop(start, 1) && lastError == AnswerAt(start, 0) && heap == mid
               && r.message == if queryOk then CREATE_PANIC + names[i] else LAST_ERROR_PANIC
    requires StatusAt(start, 0) == NapiOk ==>
               && StatusAt(start, 1) != NapiOk
               && pending == Drop(start, 2)
               && lastError == AnswerAt(start, 1)
               && |heap| == |mid| + 1
               && heap[|mid|] == HostObject(FunctionObject(names[i], names[i]), [])
               && (forall o :: 0 <= o < |mid| && o != x ==> heap[o] == mid[o])
               && heap[x] == mid[x]
               && r.message == if queryOk then ATTACH_PANIC + names[i] else LAST_ERROR_PANIC
    ensures Aborted(r, pending, lastError, heap, queryOk, script, before, x, names)
  {
    var createdOne := StatusAt(start, 0) == NapiOk;
    var k := if createdOne then 2 * i + 1 else 2 * i;
    ExportAbortAnswered(pending, lastError, script, start, i);
    FirstFailureAt(script, k, 2 * |names|);
    StoreAfterFailure(heap, mid, before, x, names, i, createdOne);
    RegisterPanicAt(names, i, createdOne, queryOk);
    if createdOne {
      assert r == Panic(RegisterPanic(names, 2 * i + 1, queryOk));
    } else {
      assert r == Panic(RegisterPanic(names, 2 * i, queryOk));
    }
  }

  /** The answers a failed export took, in terms of the whole script: the
      failing call is the create (`2 * i`) or the attach (`2 * i + 1`). */
  lemma ExportAbortAnswered(pending: seq<ErrorInfo>, lastError: ErrorInfo, script: seq<ErrorInfo>,
                            start: seq<ErrorInfo>, i: nat)
    requires AllOk(script, 2 * i) && start == Drop(script, 2 * i)
    requires StatusAt(start, 0) != NapiOk ==> pending == Drop(start, 1) && lastError == AnswerAt(start, 0)
    requires StatusAt(start, 0) == NapiOk ==>
               StatusAt(start, 1) != NapiOk && pending == Drop(start, 2) && lastError == AnswerAt(start, 1)
    ensures var k := if StatusAt(start, 0) == NapiOk then 2 * i + 1 else 2 * i;
            && AllOk(script, k) && StatusAt(script, k) != NapiOk
            && pending == Drop(script, k + 1) && lastError == AnswerAt(script, k)
  {
    DropAnswer(script, 2 * i, 0);
    DropAnswer(script, 2 * i, 1);
    DropAnswer(script, 2 * i, 2);
    if StatusAt(start, 0) == NapiOk {
      AllOkExtend(script, 2 * i);
    }
  }

  /** The two answers a successful export took, in terms of the whole script. */
  lemma ExportAnswered(pending: seq<ErrorInfo>, lastError: ErrorInfo, script: seq<ErrorInfo>, start: seq<ErrorInfo>, i: nat)
    requires AllOk(script, 2 * i) && start == Drop(script, 2 * i)
    requires StatusAt(start, 0) == NapiOk && StatusAt(start, 1) == NapiOk
    requires pending == Drop(start, 2) && lastError == AnswerAt(start, 1)
    ensures AllOk(script, 2 * (i + 1))
    ensures pending == Drop(script, 2 * (i + 1)) && lastError == AnswerAt(script, 2 * (i + 1) - 1)
  {
    DropAnswer(script, 2 * i, 0);
    DropAnswer(script, 2 * i, 1);
    DropAnswer(script, 2 * i, 2);
    AllOkExtend(script, 2 * i);
    AllOkExtend(script, 2 * i + 1);
  }

  /** A successful `i`-th export extends what `register` has exported. */
  lemma ExportSucceeded(pending: seq<ErrorInfo>, lastError: ErrorInfo, heap: seq<HostObject>,
                        script: seq<ErrorInfo>, start: seq<ErrorInfo>, mid: seq<HostObject>, before: seq<HostObject>, x: nat,
                        names: seq<string>, i: nat)
    requires x < |before| && i < |names|
    requires AllOk(script, 2 * i) && StoreAfter(mid, before, x, names, i, i)
    requires start == Drop(script, 2 * i)
    requires StatusAt(start, 0) == NapiOk && StatusAt(start, 1) == NapiOk
    requires pending == Drop(start, 2) && lastError == AnswerAt(start, 1)
    requires |heap| == |mid| + 1
    requires heap[|mid|] == HostObject(FunctionObject(names[i], names[i]), [])
    requires forall o :: 0 <= o < |mid| && o != x ==> heap[o] == mid[o]
    requires heap[x] == HostObject(mid[x].kind, Put(mid[x].props, names[i], Ref(|mid|)))
    ensures Exported(pending, lastError, heap, script, before, x, names, i + 1)
  {
    ExportAnswered(pending, lastError, script, start, i);
    StoreAfterStep(heap, mid, before, x, names, i);
  }

  /** The `i`-th export of `register`, with the loop's bookkeeping. */
  method ExportStep(env: Env, exports: Value, names: seq<string>, i: nat,
                    ghost script: seq<ErrorInfo>, ghost before: seq<HostObject>)
    returns (r: Outcome<(), NapiError>)
    requires exports.Ref? && exports.id < |before| && i < |names| && NUL !in names[i]
    requires Exported(env.pending, env.lastError, env.heap, script, before, exports.id, names, i)
    modifies env
    ensures env.queryStatus == old(env.queryStatus)
    ensures r.Ok? ==> Exported(env.pending, env.lastError, env.heap, script, before, exports.id, names, i + 1)
    ensures !r.Ok? ==> Aborted(r, env.pending, env.lastError, env.heap, env.queryStatus == NapiOk, script, before, exports.id, names)
  {
    ghost var start := env.pending;
    ghost var mid := env.heap;
    r := ExportOne(env, exports, names[i]);
    if !r.Ok? {
      ExportFailed(r, env.pending, env.lastError, env.heap, env.queryStatus == NapiOk, script, start, mid, before, exports.id, names, i);
    } else {
      ExportSucceeded(env.pending, env.lastError, env.heap, script, start, mid, before, exports.id, names, i);
    }
  }

  /** The `register` function that `register!` generates: for each export in
      declaration order, create a function named after it with the export
      as its closure, then attach it to `exports` under the same name; any
      failure aborts (`expect`) and no later export is attempted. */
  method Register(env: Env, exports: Value, names: seq<string>) returns (r: Outcome<(), NapiError>)
    requires env.IsObject(exports)
    requires forall i :: 0 <= i < |names| ==> NUL !in names[i]
    modifies env
    ensures env.queryStatus == old(env.queryStatus)
    ensures !r.Err?
    ensures var k := FirstFailure(old(env.pending), 2 * |names|);
            && (r.Ok? <==> k == 2 * |names|)
            && (r.Panic? ==> r.message == RegisterPanic(names, k, env.queryStatus == NapiOk))
            && env.pending == Drop(old(env.pending), if r.Ok? then k else k + 1)
            && StoreAfter(env.heap, old(env.heap), exports.id, names, (k + 1) / 2, k / 2)
            && (!r.Ok? ==> env.lastError == AnswerAt(old(env.pending), k))
            && (r.Ok? && k > 0 ==> env.lastError == AnswerAt(old(env.pending), k - 1))
            && (k == 0 && r.Ok? ==> env.lastError == old(env.lastError))
  {
    ghost var script := env.pending;
    ghost var before := env.heap;
    assert names[..0] == [];
    var i := 0;
    while i < |names|
      invariant 0 <= i <= |names|
      invariant env.queryStatus == old(env.queryStatus)
      invariant Exported(env.pending, env.lastError, env.heap, script, before, exports.id, names, i)
      invariant i == 0 ==> env.lastError == old(env.lastError)
    {
      r := ExportStep(env, exports, names, i, script, before);
      if !r.Ok? {
        return;
      }
      i := i + 1;
    }
    FirstFailureNone(script, 2 * |names|);
    r := Ok(());
  }

  // ---------------------------------------------------------------------
  // function! (src/lib.rs:42-48)

  /** The name `function!(env->ident(...) {...})` gives the created function,
      as written: `stringify!(name)` is the literal `name`. */
  function FunctionMacroNameAsWritten(ident: string): (name: string)
    ensures name == "name"
  {
    "name"
  }

  /** The evidently intended name, `stringify!($name)`. */
  function FunctionMacroName(ident: string): (name: string)
    ensures name == ident
  {
    ident
  }

  /** As written, every function the macro creates is called `name`, so an
      `add` created through it is not found under `add`. */
  lemma FunctionMacroMisnames()
    ensures FunctionMacroNameAsWritten("add") != "add"
    ensures FunctionMacroName("add") == "add"
  {
  }

  const FUNCTION_PANIC: string := "error creating function"

  /** `function!` with the intended name: create the function, aborting
      (`expect`) on failure. */
  method FunctionMacro(env: Env, ident: string, f: Callback) returns (r: Outcome<Value, NapiError>)
    modifies env
    ensures !r.Err?
    ensures NUL in ident ==> r == Panic(UNWRAP_ERR) && unchanged(env)
    ensures r.Ok? <==> NUL !in ident && StatusAt(old(env.pending), 0) == NapiOk
    ensures r.Ok? ==> r.value == Ref(|old(env.heap)|) &&
                      env.heap == old(env.heap) + [HostObject(FunctionObject(FunctionMacroName(ident), f), [])]
    ensures !r.Ok? ==> env.heap == old(env.heap)
    ensures r.Panic? && NUL !in ident && env.queryStatus == NapiOk ==> r.message == FUNCTION_PANIC
    ensures r.Panic? && NUL !in ident && env.queryStatus != NapiOk ==> r.message == LAST_ERROR_PANIC
    ensures NUL !in ident ==>
              && env.pending == Drop(old(env.pending), 1)
              && env.queryStatus == old(env.queryStatus)
              && env.lastError == AnswerAt(old(env.pending), 0)
  {
    var created := CreateFunction(env, FunctionMacroName(ident), f);
    match created
    case Ok(v) => r := Ok(v);
    case Err(_) => r := Panic(FUNCTION_PANIC);
    case Panic(msg) => r := Panic(msg);
  }
}
