/** The host-calling half of `src/napi.rs`: `module_register`, the
    `get_*`/`create_*` primitives, and `create_function` with the callback
    trampoline it installs. Every primitive forwards one host call and hands
    the status and out-value to `napi_either`. */
module NapiPrimitives {
  import opened RustStd
  import opened NapiStatus
  import opened Host

  // ---------------------------------------------------------------------
  // Module descriptor (src/napi.rs:14-20, 105-122)

  /** `NapiModule`, the Rust-side descriptor. */
  datatype NapiModule = NapiModule(
    version: i32,
    flags: u32,
    filename: string,
    registerFunc: Option<Callback>,
    modname: string)

  const UNWRAP_NONE: string := "called `Option::unwrap()` on a `None` value"

  const NULL_RESERVED: seq<Ptr> := [NullPtr, NullPtr, NullPtr, NullPtr]

  /** The `napi_module` record `module_register` builds, fields taken in
      their written order: the file name is converted first, then the
      registration function is unwrapped, then the module name converted. */
  function ModuleRecordFor(m: NapiModule): (r: Outcome<ModuleRecord, NulError>)
    ensures NUL in m.filename ==> r == Err(NulError(NulPosition(m.filename), m.filename))
    ensures NUL !in m.filename && m.registerFunc.None? ==> r == Panic(UNWRAP_NONE)
    ensures NUL !in m.filename && m.registerFunc.Some? && NUL in m.modname ==>
              r == Err(NulError(NulPosition(m.modname), m.modname))
    ensures r.Ok? <==> NUL !in m.filename && m.registerFunc.Some? && NUL !in m.modname
    ensures r.Ok? ==> r.value.nmVersion == m.version && r.value.nmFlags == m.flags
    ensures r.Ok? ==> r.value.nmFilename == m.filename && r.value.nmModname == m.modname
    ensures r.Ok? ==> r.value.nmRegisterFunc == m.registerFunc.value
    ensures r.Ok? ==> r.value.nmPriv == NullPtr && r.value.reserved == NULL_RESERVED
  {
    var filename := CStringNew(m.filename);
    if filename.Err? then Err(filename.error)
    else if m.registerFunc.None? then Panic(UNWRAP_NONE)
    else
      var modname := CStringNew(m.modname);
      if modname.Err? then Err(modname.error)
      else
        Ok(ModuleRecord(m.version, m.flags, filename.value, m.registerFunc.value, modname.value,
                        NullPtr, NULL_RESERVED))
  }

  /** `module_register`: hand the record to the host's loader, or report the
      first string that cannot become a C string. */
  method ModuleRegister(loader: Loader, m: NapiModule) returns (r: Outcome<(), NulError>)
    modifies loader
    ensures ModuleRecordFor(m).Ok? ==> r == Ok(()) && loader.registered == old(loader.registered) + [ModuleRecordFor(m).value]
    ensures ModuleRecordFor(m).Err? ==> r == Err(ModuleRecordFor(m).error) && loader.registered == old(loader.registered)
    ensures ModuleRecordFor(m).Panic? ==> r == Panic(ModuleRecordFor(m).message) && loader.registered == old(loader.registered)
  {
    match ModuleRecordFor(m)
    case Ok(record) =>
      loader.Register(record);
      r := Ok(());
    case Err(e) =>
      r := Err(e);
    case Panic(msg) =>
      r := Panic(msg);
  }

  // ---------------------------------------------------------------------
  // Primitives (src/napi.rs:124-186)

  /** One host call forwarded through `napi_either`: the call took the next
      answer, and the result is `napi_either` of that answer's status and
      `val`, read against the last-error slot as the call left it. */
  twostate predicate Forwarded(env: Env, new r: Outcome<Value, NapiError>, new val: Value)
    reads env
  {
    && env.pending == Drop(old(env.pending), 1)
    && env.queryStatus == old(env.queryStatus)
    && env.lastError == AnswerAt(old(env.pending), 0)
    && r == Either(StatusAt(old(env.pending), 0), val, env.LastErrorQuery())
  }

  method GetConstant(env: Env, c: Value) returns (r: Outcome<Value, NapiError>)
    requires !c.Ref?
    modifies env
    ensures Forwarded(env, r, c) && env.heap == old(env.heap)
  {
    var status, v := env.NapiGetConstant(c);
    r := Either(status, v, env.LastErrorQuery());
  }

  /** `get_undefined`. */
  method GetUndefined(env: Env) returns (r: Outcome<Value, NapiError>)
    modifies env
    ensures Forwarded(env, r, Undefined) && env.heap == old(env.heap)
  {
    r := GetConstant(env, Undefined);
  }

  /** `get_null`. */
  method GetNull(env: Env) returns (r: Outcome<Value, NapiError>)
    modifies env
    ensures Forwarded(env, r, Null) && env.heap == old(env.heap)
  {
    r := GetConstant(env, Null);
  }

  /** `get_global`. */
  method GetGlobal(env: Env) returns (r: Outcome<Value, NapiError>)
    modifies env
    ensures Forwarded(env, r, Global) && env.heap == old(env.heap)
  {
    r := GetConstant(env, Global);
  }

  /** `get_boolean`. */
  method GetBoolean(env: Env, value: bool) returns (r: Outcome<Value, NapiError>)
    modifies env
    ensures Forwarded(env, r, Boolean(value)) && env.heap == old(env.heap)
  {
    r := GetConstant(env, Boolean(value));
  }

  /** `create_number`, with the number kept as an exact integer (the
      rounding of an `f64` is not modelled). */
  method CreateNumber(env: Env, value: int) returns (r: Outcome<Value, NapiError>)
    modifies env
    ensures Forwarded(env, r, Number(value)) && env.heap == old(env.heap)
  {
    r := GetConstant(env, Number(value));
  }

  /** A new object of the given kind, forwarded through `napi_either`. */
  method CreateInStore(env: Env, kind: ObjectKind) returns (r: Outcome<Value, NapiError>)
    modifies env
    ensures Forwarded(env, r, Ref(|old(env.heap)|))
    ensures r.Ok? ==> env.heap == old(env.heap) + [HostObject(kind, [])]
    ensures !r.Ok? ==> env.heap == old(env.heap)
  {
    var status, v := env.NapiCreate(kind);
    r := Either(status, v, env.LastErrorQuery());
  }

  /** `create_object`. */
  method CreateObject(env: Env) returns (r: Outcome<Value, NapiError>)
    modifies env
    ensures Forwarded(env, r, Ref(|old(env.heap)|))
    ensures r.Ok? ==> env.heap == old(env.heap) + [HostObject(PlainObject, [])]
    ensures !r.Ok? ==> env.heap == old(env.heap)
  {
    r := CreateInStore(env, PlainObject);
  }

  /** `create_array`. */
  method CreateArray(env: Env) returns (r: Outcome<Value, NapiError>)
    modifies env
    ensures Forwarded(env, r, Ref(|old(env.heap)|))
    ensures r.Ok? ==> env.heap == old(env.heap) + [HostObject(ArrayObject(0), [])]
    ensures !r.Ok? ==> env.heap == old(env.heap)
  {
    r := CreateInStore(env, ArrayObject(0));
  }

  /** `array_with_length`. */
  method ArrayWithLength(env: Env, size: nat) returns (r: Outcome<Value, NapiError>)
    modifies env
    ensures Forwarded(env, r, Ref(|old(env.heap)|))
    ensures r.Ok? ==> env.heap == old(env.heap) + [HostObject(ArrayObject(size), [])]
    ensures !r.Ok? ==> env.heap == old(env.heap)
  {
    r := CreateInStore(env, ArrayObject(size));
  }

  // ---------------------------------------------------------------------
  // Functions and the trampoline (src/napi.rs:220-257)

  /** `create_function`: the name must become a C string (`unwrap`, before
      any host call); then the host creates the function object with the
      closure as its user data. */
  method CreateFunction(env: Env, utf8name: string, f: Callback) returns (r: Outcome<Value, NapiError>)
    modifies env
    ensures NUL in utf8name ==> r == Panic(UNWRAP_ERR) && unchanged(env)
    ensures NUL !in utf8name ==> Forwarded(env, r, Ref(|old(env.heap)|))
    ensures NUL !in utf8name && r.Ok? ==>
              env.heap == old(env.heap) + [HostObject(FunctionObject(utf8name, f), [])]
    ensures !r.Ok? ==> env.heap == old(env.heap)
  {
    match CStringNew(utf8name)
    case Ok(name) =>
      var status, v := env.NapiCreate(FunctionObject(name, f));
      r := Either(status, v, env.LastErrorQuery());
    case _ =>
      r := Panic(UNWRAP_ERR);
  }

  /** The fixed size of the trampoline's argument buffer. */
  const ARGV_CAPACITY: nat := 16

  const SLICE_PANIC: string := "range end index out of range for slice"

  /** What the callback slot holds once `napi_get_cb_info` succeeded and
      handed back the user data `data`, as written: the out-pointer passed for the slot is
      a temporary produced by `transmute` that holds the slot's address, so
      the host writes the user data into that temporary and `callback` keeps
      its initial `None`. */
  function RecoveredCallbackAsWritten(data: Callback): (c: Option<Callback>)
    ensures c.None?
  {
    None
  }

  /** The evidently intended recovery: the slot holds the user data. */
  function RecoveredCallback(data: Callback): (c: Option<Callback>)
    ensures c == Some(data)
  {
    Some(data)
  }

  /** As written, the closure given to `create_function` is never recovered,
      so no function created through it runs its body. */
  lemma CallbackNeverRecoveredAsWritten(data: Callback)
    ensures RecoveredCallbackAsWritten(data) == None
    ensures RecoveredCallback(data) == Some(data)
  {
  }

  /** The `wrapper` that `create_function` installs, with the way the
      callback slot is filled as the parameter `recover`: ask the host for
      the call's arguments into a 16-slot buffer, decode the prefix
      `argv[0..argc]` (`unwrap`), run the recovered closure if there is one,
      and answer `undefined` (`unwrap`). `decode` is the argument type's
      `from_napi_args`; `ran` says whether the closure ran and with what. The
      host status of the argument query is not looked at. */
  method RunTrampoline<T>(env: Env, info: CallInfo, decode: seq<Value> -> Outcome<T, NapiError>,
                          recover: Callback -> Option<Callback>)
    returns (r: Outcome<Value, NapiError>, ran: Option<(Callback, T)>)
    modifies env
    ensures env.heap == old(env.heap) && env.queryStatus == old(env.queryStatus)
    ensures !r.Err?
    ensures r.Ok? ==> r.value == Undefined
    ensures StatusAt(old(env.pending), 0) == NapiOk && |info.args| > ARGV_CAPACITY ==>
              r == Panic(SLICE_PANIC) && ran.None? && env.pending == Drop(old(env.pending), 1)
    ensures ran.Some? <==>
              && StatusAt(old(env.pending), 0) == NapiOk && |info.args| <= ARGV_CAPACITY && decode(info.args).Ok?
              && recover(info.data).Some?
    ensures ran.Some? ==> ran.value == (recover(info.data).value, decode(info.args).value)
    ensures StatusAt(old(env.pending), 0) == NapiOk && |info.args| <= ARGV_CAPACITY ==>
              (r.Ok? <==> decode(info.args).Ok? && StatusAt(old(env.pending), 1) == NapiOk)
    ensures StatusAt(old(env.pending), 0) == NapiOk && |info.args| <= ARGV_CAPACITY && decode(info.args).Ok? ==>
              env.pending == Drop(old(env.pending), 2) && env.lastError == AnswerAt(old(env.pending), 1)
    ensures StatusAt(old(env.pending), 0) == NapiOk && !(|info.args| <= ARGV_CAPACITY && decode(info.args).Ok?) ==>
              env.pending == Drop(old(env.pending), 1) && env.lastError == AnswerAt(old(env.pending), 0)
    ensures || (env.pending == Drop(old(env.pending), 1) && env.lastError == AnswerAt(old(env.pending), 0))
            || (env.pending == Drop(old(env.pending), 2) && env.lastError == AnswerAt(old(env.pending), 1))
  {
    var argc: nat := ARGV_CAPACITY;
    var argv := new Value[ARGV_CAPACITY];
    var callback: Option<Callback> := None;
    var _, argcOut, data := env.NapiGetCbInfo(info, argc, argv);
    argc := argcOut;
    if data.Some? {
      callback := recover(data.value);
    }
    if argc > argv.Length {
      r, ran := Panic(SLICE_PANIC), None;
      return;
    }
    assert StatusAt(old(env.pending), 0) == NapiOk ==> argv[0..argc] == info.args;
    match decode(argv[0..argc])
    case Err(_) =>
      r, ran := Panic(UNWRAP_ERR), None;
    case Panic(msg) =>
      r, ran := Panic(msg), None;
    case Ok(args) =>
      match callback {
        case Some(cb) => ran := Some((cb, args));
        case None => ran := None;
      }
      var u := GetUndefined(env);
      DropAnswer(old(env.pending), 1, 0);
      DropAnswer(old(env.pending), 1, 1);
      match u
      case Ok(v) => r := Ok(v);
      case Err(_) => r := Panic(UNWRAP_ERR);
      case Panic(msg) => r := Panic(msg);
  }

  /** The `wrapper` as written: everything but the closure happens, and the
      closure never runs. */
  method TrampolineAsWritten<T>(env: Env, info: CallInfo, decode: seq<Value> -> Outcome<T, NapiError>)
    returns (r: Outcome<Value, NapiError>, ran: Option<(Callback, T)>)
    modifies env
    ensures env.heap == old(env.heap) && env.queryStatus == old(env.queryStatus)
    ensures ran.None?
    ensures !r.Err?
    ensures r.Ok? ==> r.value == Undefined
    ensures StatusAt(old(env.pending), 0) == NapiOk && |info.args| > ARGV_CAPACITY ==>
              r == Panic(SLICE_PANIC) && env.pending == Drop(old(env.pending), 1)
    ensures StatusAt(old(env.pending), 0) == NapiOk && |info.args| <= ARGV_CAPACITY ==>
              (r.Ok? <==> decode(info.args).Ok? && StatusAt(old(env.pending), 1) == NapiOk)
    ensures StatusAt(old(env.pending), 0) == NapiOk && |info.args| <= ARGV_CAPACITY && decode(info.args).Ok? ==>
              env.pending == Drop(old(env.pending), 2) && env.lastError == AnswerAt(old(env.pending), 1)
    ensures StatusAt(old(env.pending), 0) == NapiOk && !(|info.args| <= ARGV_CAPACITY && decode(info.args).Ok?) ==>
              env.pending == Drop(old(env.pending), 1) && env.lastError == AnswerAt(old(env.pending), 0)
    ensures || (env.pending == Drop(old(env.pending), 1) && env.lastError == AnswerAt(old(env.pending), 0))
            || (env.pending == Drop(old(env.pending), 2) && env.lastError == AnswerAt(old(env.pending), 1))
  {
    r, ran := RunTrampoline(env, info, decode, RecoveredCallbackAsWritten);
  }

  /** The `wrapper` with the intended recovery of the closure: it runs
      exactly when the argument query succeeded, at most 16 arguments came
      and they decode. */
  method Trampoline<T>(env: Env, info: CallInfo, decode: seq<Value> -> Outcome<T, NapiError>)
    returns (r: Outcome<Value, NapiError>, ran: Option<(Callback, T)>)
    modifies env
    ensures env.heap == old(env.heap) && env.queryStatus == old(env.queryStatus)
    ensures !r.Err?
    ensures r.Ok? ==> r.value == Undefined
    ensures StatusAt(old(env.pending), 0) == NapiOk && |info.args| > ARGV_CAPACITY ==>
              r == Panic(SLICE_PANIC) && ran.None? && env.pending == Drop(old(env.pending), 1)
    ensures ran.Some? <==>
              StatusAt(old(env.pending), 0) == NapiOk && |info.args| <= ARGV_CAPACITY && decode(info.args).Ok?
    ensures ran.Some? ==> ran.value == (info.data, decode(info.args).value)
    ensures StatusAt(old(env.pending), 0) == NapiOk && |info.args| <= ARGV_CAPACITY ==>
              (r.Ok? <==> decode(info.args).Ok? && StatusAt(old(env.pending), 1) == NapiOk)
    ensures StatusAt(old(env.pending), 0) == NapiOk && |info.args| <= ARGV_CAPACITY && decode(info.args).Ok? ==>
              env.pending == Drop(old(env.pending), 2) && env.lastError == AnswerAt(old(env.pending), 1)
    ensures StatusAt(old(env.pending), 0) == NapiOk && !(|info.args| <= ARGV_CAPACITY && decode(info.args).Ok?) ==>
              env.pending == Drop(old(env.pending), 1) && env.lastError == AnswerAt(old(env.pending), 0)
    ensures || (env.pending == Drop(old(env.pending), 1) && env.lastError == AnswerAt(old(env.pending), 0))
            || (env.pending == Drop(old(env.pending), 2) && env.lastError == AnswerAt(old(env.pending), 1))
  {
    r, ran := RunTrampoline(env, info, decode, RecoveredCallback);
  }
}
