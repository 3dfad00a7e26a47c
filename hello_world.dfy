/** The `hello-world` example addon (examples/hello-world/src/lib.rs): a
    module `helloworld` that exports `add` and `hello`, the argument type
    `HelloArgs` and the result type `HelloReturn`, which becomes an object
    with the properties `foo` and `bar`. */
module HelloWorld {
  import opened RustStd
  import opened NapiStatus
  import opened Host
  import opened NapiPrimitives
  import opened NapiValue
  import opened Registration

  // ---------------------------------------------------------------------
  // The module and its exports

  const MODULE_NAME: string := "helloworld"

  /** The exports, in the order `register!` lists them. */
  const EXPORTS: seq<string> := ["add", "hello"]

  /** The module `register!{ helloworld ... }` declares. */
  function HelloWorldModule(): (m: NapiModule)
    ensures m.filename == MODULE_NAME && m.modname == MODULE_NAME
    ensures m.registerFunc == Some(REGISTER_FUNC)
    ensures ModuleRecordFor(m) ==
            Ok(ModuleRecord(1, 0, MODULE_NAME, REGISTER_FUNC, MODULE_NAME, NullPtr, NULL_RESERVED))
  {
    var m := RegisterDeclaration(MODULE_NAME);
    assert m == ModuleDeclaration(MODULE_NAME, REGISTER_FUNC);
    DeclaredModuleRecord(MODULE_NAME, REGISTER_FUNC);
    m
  }

  /** When the exports object has no `add` or `hello` yet and both functions
      were created and attached, the object gains exactly those two
      properties, last and in declaration order, each bound to its own new
      function. */
  lemma {:induction false} HelloWorldExports(p: Props, first: nat)
    requires "add" !in Names(p) && "hello" !in Names(p)
    ensures Names(AttachAll(p, EXPORTS, first)) == Names(p) + ["add", "hello"]
    ensures Lookup(AttachAll(p, EXPORTS, first), "add") == Some(Ref(first))
    ensures Lookup(AttachAll(p, EXPORTS, first), "hello") == Some(Ref(first + 1))
  {
    assert Distinct(EXPORTS);
    AttachAllNames(p, EXPORTS, first);
    AttachAllLookup(p, EXPORTS, first, 0);
    AttachAllLookup(p, EXPORTS, first, 1);
  }

  /** The generated `register` for this module: both exports created and
      attached, or an abort at the first failing host call. */
  method RegisterHelloWorld(env: Env, exports: Value) returns (r: Outcome<(), NapiError>)
    requires env.IsObject(exports)
    modifies env
    ensures env.queryStatus == old(env.queryStatus)
    ensures !r.Err?
    ensures r.Ok? <==> AllOk(old(env.pending), 4)
    ensures var k := FirstFailure(old(env.pending), 4);
            && (r.Panic? ==> r.message == RegisterPanic(EXPORTS, k, env.queryStatus == NapiOk))
            && env.pending == Drop(old(env.pending), if r.Ok? then k else k + 1)
            && env.lastError == AnswerAt(old(env.pending), if r.Ok? then 3 else k)
            && StoreAfter(env.heap, old(env.heap), exports.id, EXPORTS, (k + 1) / 2, k / 2)
    ensures r.Ok? ==>
              && |env.heap| == |old(env.heap)| + 2
              && env.heap[|old(env.heap)|] == HostObject(FunctionObject("add", "add"), [])
              && env.heap[|old(env.heap)| + 1] == HostObject(FunctionObject("hello", "hello"), [])
    ensures r.Ok? && "add" !in Names(old(env.heap[exports.id].props)) && "hello" !in Names(old(env.heap[exports.id].props)) ==>
              && Names(env.heap[exports.id].props) == Names(old(env.heap[exports.id].props)) + EXPORTS
              && Lookup(env.heap[exports.id].props, "add") == Some(Ref(|old(env.heap)|))
              && Lookup(env.heap[exports.id].props, "hello") == Some(Ref(|old(env.heap)| + 1))
    ensures r.Ok? ==>
              && (forall other :: other !in EXPORTS ==>
                    Lookup(env.heap[exports.id].props, other) == Lookup(old(env.heap[exports.id].props), other))
              && (forall o :: 0 <= o < |old(env.heap)| && o != exports.id ==> env.heap[o] == old(env.heap[o]))
  {
    ghost var script := env.pending;
    ghost var before := env.heap;
    r := Register(env, exports, EXPORTS);
    FirstFailureAllOk(script, 4);
    if r.Ok? {
      assert EXPORTS[..2] == EXPORTS;
      if "add" !in Names(before[exports.id].props) && "hello" !in Names(before[exports.id].props) {
        HelloWorldExports(before[exports.id].props, |before|);
      }
      forall other | other !in EXPORTS
        ensures Lookup(env.heap[exports.id].props, other) == Lookup(before[exports.id].props, other)
      {
        AttachAllOther(before[exports.id].props, EXPORTS, |before|, other);
      }
    }
  }

  // ---------------------------------------------------------------------
  // add (lines 15-17)

  const ADD_OVERFLOW: string := "attempt to add with overflow"

  /** `add`: `a + a` on `u64`, which panics on overflow in the (default)
      debug build. */
  function Add(a: u64): (r: Outcome<u64, NapiError>)
    ensures !r.Err?
    ensures r.Ok? <==> a as int <= U64_MAX / 2
    ensures r.Ok? ==> r.value as int == 2 * a as int && r.value as int / 2 == a as int
    ensures r.Panic? ==> r.message == ADD_OVERFLOW
  {
    if a as int + a as int <= U64_MAX then Ok(a + a) else Panic(ADD_OVERFLOW)
  }

  // ---------------------------------------------------------------------
  // hello (lines 19-37)

  /** `HelloArgs`: no fields. */
  datatype HelloArgs = HelloArgs

  /** `HelloReturn`. */
  datatype HelloReturn = HelloReturn(foo: string, bar: u64)

  /** `hello`: the same greeting whatever the arguments. */
  function Hello(args: HelloArgs): (r: HelloReturn)
    ensures r.foo == "HELLO" && r.bar == 23
  {
    HelloReturn("HELLO", 23)
  }

  /** `HelloArgs::from_napi_values`: accepts any argument list. */
  function HelloArgsFromValues(values: seq<Value>): (r: Outcome<HelloArgs, NapiError>)
    ensures r == Ok(HelloArgs)
  {
    Ok(HelloArgs)
  }

  /** The trampoline of `hello` never fails to decode its arguments: it runs
      the closure exactly when the host answers the argument query and at
      most 16 arguments were passed. */
  method HelloTrampoline(env: Env, info: CallInfo) returns (r: Outcome<Value, NapiError>, ran: Option<(Callback, HelloArgs)>)
    modifies env
    ensures env.heap == old(env.heap) && env.queryStatus == old(env.queryStatus)
    ensures !r.Err? && (r.Ok? ==> r.value == Undefined)
    ensures ran.Some? <==> StatusAt(old(env.pending), 0) == NapiOk && |info.args| <= ARGV_CAPACITY
    ensures ran.Some? ==> ran.value == (info.data, HelloArgs)
    ensures ran.Some? ==> (r == Ok(Undefined) <==> StatusAt(old(env.pending), 1) == NapiOk)
    ensures ran.Some? ==> env.pending == Drop(old(env.pending), 2) && env.lastError == AnswerAt(old(env.pending), 1)
    ensures StatusAt(old(env.pending), 0) == NapiOk && |info.args| > ARGV_CAPACITY ==>
              r == Panic(SLICE_PANIC) && env.pending == Drop(old(env.pending), 1) &&
              env.lastError == AnswerAt(old(env.pending), 0)
  {
    r, ran := Trampoline(env, info, HelloArgsFromValues);
  }

  /** The properties of the object `HelloReturn::into_napi_value` builds once
      `attached` of its two properties were set. */
  function HelloProps(ret: HelloReturn, attached: nat): (p: Props)
    requires attached <= 2
    ensures |p| == attached
  {
    [("foo", Str(ret.foo)), ("bar", Number(ret.bar as int))][..attached]
  }

  /** A completely built result object reads back the greeting. */
  lemma HelloPropsComplete(ret: HelloReturn)
    ensures Names(HelloProps(ret, 2)) == ["foo", "bar"]
    ensures Lookup(HelloProps(ret, 2), "foo") == Some(Str(ret.foo))
    ensures Lookup(HelloProps(ret, 2), "bar") == Some(Number(ret.bar as int))
  {
    var p := HelloProps(ret, 2);
    assert p == [("foo", Str(ret.foo)), ("bar", Number(ret.bar as int))];
    assert p[1..] == [("bar", Number(ret.bar as int))];
  }

  /** How many properties were attached when the first failing call of
      `into_napi_value` was call `k` (create, convert, convert, set, set). */
  function AttachedBefore(k: nat): (n: nat)
    requires k <= 5
    ensures n <= 2
    ensures k <= 3 ==> n == 0
    ensures k > 3 ==> n == k - 3
  {
    if k <= 3 then 0 else k - 3
  }

  /** The outcome of `into_napi_value` against the script of host answers
      it started from: the first failing call `k` of the five decides the
      result, the answers used, the record left in the last-error slot and
      how far the object was built. */
  ghost predicate IntoNapiValueOutcome(r: Outcome<Value, NapiError>, pending: seq<ErrorInfo>, lastError: ErrorInfo,
                                       heap: seq<HostObject>,
                                       queryOk: bool, script: seq<ErrorInfo>, before: seq<HostObject>, ret: HelloReturn)
  {
    var k := FirstFailure(script, 5);
    && (r.Ok? <==> k == 5)
    && (r.Ok? ==> r.value == Ref(|before|))
    && (k < 5 && queryOk ==> r == Err(ErrorFromInfo(AnswerAt(script, k))))
    && (k < 5 && !queryOk ==> r == Panic(LAST_ERROR_PANIC))
    && pending == Drop(script, if k == 5 then 5 else k + 1)
    && lastError == AnswerAt(script, if k == 5 then 4 else k)
    && (k == 0 ==> heap == before)
    && (k > 0 ==> heap == before + [HostObject(PlainObject, HelloProps(ret, AttachedBefore(k)))])
  }

  /** The last two steps of `into_napi_value`: set `foo`, then `bar`, on the
      object created by the first step. */
  method AttachGreeting(env: Env, obj: Value, foo: Value, bar: Value, ret: HelloReturn,
                        ghost script: seq<ErrorInfo>, ghost before: seq<HostObject>)
    returns (r: Outcome<Value, NapiError>)
    requires env.pending == Drop(script, 3) && AllOk(script, 3)
    requires env.heap == before + [HostObject(PlainObject, [])] && obj == Ref(|before|)
    requires foo == Str(ret.foo) && bar == Number(ret.bar as int)
    modifies env
    ensures env.queryStatus == old(env.queryStatus)
    ensures IntoNapiValueOutcome(r, env.pending, env.lastError, env.heap, env.queryStatus == NapiOk, script, before, ret)
  {
    var setFoo := SetNamedProperty(env, obj, "foo", foo);
    DropAnswer(script, 3, 0);
    DropAnswer(script, 3, 1);
    if !setFoo.Ok? {
      FirstFailureAt(script, 3, 5);
      r := Propagate(setFoo);
      return;
    }
    AllOkExtend(script, 3);
    assert HelloProps(ret, 1) == Put([], "foo", foo);
    assert env.heap == before + [HostObject(PlainObject, HelloProps(ret, 1))];
    var setBar := SetNamedProperty(env, obj, "bar", bar);
    DropAnswer(script, 4, 0);
    DropAnswer(script, 4, 1);
    if !setBar.Ok? {
      FirstFailureAt(script, 4, 5);
      r := Propagate(setBar);
      return;
    }
    AllOkExtend(script, 4);
    FirstFailureNone(script, 5);
    assert HelloProps(ret, 2) == Put(HelloProps(ret, 1), "bar", bar);
    r := Ok(obj);
  }

  /** `HelloReturn::into_napi_value`: create an object, convert `foo`, convert
      `bar`, set `foo`, set `bar`; the first failure is returned (`?`) and the
      object stays as far as it was built. */
  method IntoNapiValue(env: Env, ret: HelloReturn) returns (r: Outcome<Value, NapiError>)
    modifies env
    ensures env.queryStatus == old(env.queryStatus)
    ensures var k := FirstFailure(old(env.pending), 5);
            && (r.Ok? <==> k == 5)
            && (r.Ok? ==> r.value == Ref(|old(env.heap)|))
            && (k < 5 && env.queryStatus == NapiOk ==> r == Err(ErrorFromInfo(AnswerAt(old(env.pending), k))))
            && (k < 5 && env.queryStatus != NapiOk ==> r == Panic(LAST_ERROR_PANIC))
            && env.pending == Drop(old(env.pending), if k == 5 then 5 else k + 1)
            && env.lastError == AnswerAt(old(env.pending), if k == 5 then 4 else k)
            && (k == 0 ==> env.heap == old(env.heap))
            && (k > 0 ==> env.heap == old(env.heap) + [HostObject(PlainObject, HelloProps(ret, AttachedBefore(k)))])
  {
    ghost var script := env.pending;
    ghost var before := env.heap;
    var obj := CreateObject(env);
    if !obj.Ok? {
      FirstFailureAt(script, 0, 5);
      r := Propagate(obj);
      return;
    }
    AllOkExtend(script, 0);
    var foo := StringIntoNapiValue(env, ret.foo);
    DropAnswer(script, 1, 0);
    DropAnswer(script, 1, 1);
    if !foo.Ok? {
      FirstFailureAt(script, 1, 5);
      r := Propagate(foo);
      return;
    }
    AllOkExtend(script, 1);
    var bar := U64IntoNapiValue(env, ret.bar);
    DropAnswer(script, 2, 0);
    DropAnswer(script, 2, 1);
    if !bar.Ok? {
      FirstFailureAt(script, 2, 5);
      r := Propagate(bar);
      return;
    }
    AllOkExtend(script, 2);
    r := AttachGreeting(env, obj.value, foo.value, bar.value, ret, script, before);
  }
}
