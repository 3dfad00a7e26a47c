# node-api: a Dafny model of the Rust N-API binding core

`node-api` is a Rust crate for writing Node.js native add-ons against N-API,
the engine's stable C interface. Almost every function of the crate forwards
one foreign call to the host and turns the returned `napi_status` into a
Rust `Result`. This project models the rules that sit around those calls:

- **The status/error bridge** (`napi_status.dfy`, module `NapiStatus`):
  - the total table from host statuses to `NapiErrorType`;
  - `NapiError::from` on the host's extended-error record;
  - `get_last_napi_error`;
  - `napi_either`, which passes the out-value through on `napi_ok` and
    otherwise reports the context's last-error record.
- **An abstract host** (`host.dfy`, module `Host`). It is a collaborator,
  not code of the crate. One execution context (`class Env`) holds:
  - the one-slot last-error record;
  - the status of the last-error query;
  - the answers the host gives its next calls, one per call;
  - a store of objects whose named properties keep their insertion order.

  A `Loader` records the modules handed to `napi_module_register`.
- **The primitives** (`napi_primitives.dfy`, module `NapiPrimitives`):
  - `module_register`, which builds the loader record and rejects an interior
    NUL with `NulError`;
  - `get_undefined`, `get_null`, `get_global`, `get_boolean`,
    `create_object`, `create_array`, `array_with_length` and `create_number`;
  - `create_function`;
  - the `wrapper` trampoline it installs. The trampoline takes its arguments
    from a 16-slot array that the host fills in place, decodes the prefix
    `argv[0..argc]`, runs the closure if one was recovered and answers
    `undefined`. As written, the closure is never recovered (see
    "## Findings"); the rest of the model uses the intended recovery.
- **The unseen helpers** (`napi_value.dfy`, module `NapiValue`):
  `set_named_property` and `into_napi_value` for `String` and `u64`. Their
  code is not part of this model, so each is modelled as one forwarded host
  call.
- **The macros** (`registration.dfy`, module `Registration`): the expansions
  of `napi_module!`, `register!` and `function!`. These cover:
  - the fixed descriptor fields;
  - the `register` function, which creates each export and attaches it under
    its own name in declaration order, aborting on the first failure.
- **The `hello-world` example** (`hello_world.dfy`, module `HelloWorld`):
  - `add` and `hello`;
  - `HelloArgs::from_napi_values`;
  - the fail-fast `HelloReturn::into_napi_value`;
  - the export list.

`rust_std.dfy` (module `RustStd`) holds the pieces of Rust the crate leans
on:
- fixed-width integers;
- `Option`;
- `CString::new`;
- `Outcome`, a `Result` that may also end in a panic. A panic stands for
  `expect`, `unwrap` or an out-of-range slice. Its message is a paraphrase:
  the text an `expect` names, or a fixed text for an `unwrap` or a slice,
  without the values Rust formats into it.

A host call is scripted by `Env.pending`. Each call takes the next
`ErrorInfo` from it: that answer's status is what the call returns, and the
answer fills the last-error slot. Once the script is exhausted, calls succeed.
`FirstFailure(pending, n)` is the first of the next `n` calls that fails,
which lets the fail-fast chains state their outcome in terms of the script.

## Model

| member | source | states |
|---|---|---|
| RustStd.CStringNew | src/napi.rs:109-111 | `CString::new` succeeds exactly when the string has no NUL and keeps it unchanged; otherwise the `NulError` carries the string and the position of its first NUL |
| RustStd.Propagate | examples/hello-world/src/lib.rs:41-45 | the `?` operator on a failed step returns its error unchanged, and a panic keeps unwinding with its message |
| NapiStatus.ErrorTypeOf | src/napi.rs:59-77 | the status table is total: each of the twelve named failure statuses maps to the kind of the same name, and every other status, `napi_ok` included, maps to `GenericFailure` |
| NapiStatus.ErrorTypeOfStatusOf | src/napi.rs:59-77 | every kind is reached, and from the status that carries its name |
| NapiStatus.ErrorFromInfo | src/napi.rs:29-41 | `NapiError::from` copies the message and the engine error code unchanged and maps the status through the same table |
| NapiStatus.ErrorFromInfoRoundTrip | src/napi.rs:29-41 | for a named failure, the extended-error record can be read back from the `NapiError` built from it |
| NapiStatus.LastNapiError | src/napi.rs:86-103 | `get_last_napi_error` is `Ok` exactly when the last-error query succeeds, with the record converted; otherwise it is `Err` of the query's own status mapped through the table |
| NapiStatus.Either | src/napi.rs:79-84 | `napi_either` is `Ok(val)`, with `val` unchanged, exactly when the status is `napi_ok`; otherwise it is the error built from the last-error record, or a panic with "error fetching last napi error" when the query fails |
| NapiStatus.EitherIgnoresFailingStatus | src/napi.rs:82 | the failing status itself does not reach the error: any two failing statuses give the same result |
| Host.Env.LastErrorQuery | src/napi.rs:86-97 | `get_last_error_info` answers the slot's record when the query succeeds, or the query's failing status, and changes nothing |
| Host.Env.NapiGetCbInfo | src/napi.rs:233-239 | on success the host writes the call's arguments into the first `argc` buffer slots in place, reports the number of arguments actually passed and hands back the user data; on failure the buffer and `argc` are untouched |
| NapiPrimitives.ModuleRecordFor | src/napi.rs:105-122 | the loader record: a NUL in the file name is an `Err(NulError)` and is checked first, then a missing registration function panics (`unwrap`), then a NUL in the module name is an `Err(NulError)`; on success version, flags and names pass unchanged, with null private data and four null reserved slots |
| NapiPrimitives.ModuleRegister | src/napi.rs:105-122 | `module_register` hands exactly that record to the loader and returns `Ok(())`, or registers nothing and reports the error or panic |
| NapiPrimitives.GetUndefined | src/napi.rs:124-130 | the result is `napi_either` of the host's answer to the one call and `undefined`; the store is unchanged |
| NapiPrimitives.GetNull | src/napi.rs:132-138 | the result is `napi_either` of the host's answer and `null`; the store is unchanged |
| NapiPrimitives.GetGlobal | src/napi.rs:140-146 | the result is `napi_either` of the host's answer and the global object; the store is unchanged |
| NapiPrimitives.GetBoolean | src/napi.rs:148-154 | the result is `napi_either` of the host's answer and the boolean; the store is unchanged |
| NapiPrimitives.CreateObject | src/napi.rs:156-162 | the result is `napi_either` of the host's answer and a handle to a new empty object, which is appended to the store only on success |
| NapiPrimitives.CreateArray | src/napi.rs:164-170 | as `create_object`, for an empty array |
| NapiPrimitives.ArrayWithLength | src/napi.rs:172-178 | as `create_object`, for an array of the given length |
| NapiPrimitives.CreateNumber | src/napi.rs:180-186 | the result is `napi_either` of the host's answer and the number; the store is unchanged |
| NapiPrimitives.CreateFunction | src/napi.rs:248-256 | a NUL in the name panics (`unwrap`) before any host call; otherwise the result is `napi_either` of the host's answer and a new function object carrying the name and the closure |
| NapiPrimitives.RunTrampoline | src/napi.rs:225-247 | the trampoline never returns an error and its value is always `undefined`; more than 16 arguments panic on the slice; the arguments decode from exactly `argv[0..argc]`, and a decode error panics (`unwrap`); the closure runs exactly when the argument query succeeded, at most 16 arguments came, they decode and the callback slot holds a closure. The argument query takes one host answer and the `undefined` lookup a second, made only when the arguments fit and decode; the last-error slot holds the record of the last of these calls |
| NapiPrimitives.RecoveredCallbackAsWritten | src/napi.rs:231-239 | as written, the callback slot stays `None` whatever user data the host hands back |
| NapiPrimitives.RecoveredCallback | src/napi.rs:231-239 | the intended recovery: the slot holds the user data the host hands back |
| NapiPrimitives.CallbackNeverRecoveredAsWritten | src/napi.rs:238-243 | as written no closure is recovered, while the intended recovery yields it |
| NapiPrimitives.TrampolineAsWritten | src/napi.rs:225-247 | the `wrapper` as written never runs the closure; its result, the host answers it takes and the record it leaves in the last-error slot are as in the intended trampoline |
| NapiPrimitives.Trampoline | src/napi.rs:225-247 | with the intended recovery, the closure runs, with the user data and the decoded arguments, exactly when the argument query succeeded, at most 16 arguments came and they decode; the result is always `undefined` or a panic; a second host answer is taken exactly when the arguments fit and decode, and the last-error slot holds the last call's record |
| NapiValue.SetNamedProperty | examples/hello-world/src/lib.rs:44-45 | attaching succeeds exactly when the host answers `napi_ok` and the target is a live object: the property is put into that object and nothing else changes; otherwise the store is unchanged and the error comes from the last-error record. On a live object the slot holds the host's answer |
| NapiValue.StringIntoNapiValue | examples/hello-world/src/lib.rs:42 | a `String` becomes a string value, through `napi_either` |
| NapiValue.U64IntoNapiValue | examples/hello-world/src/lib.rs:43 | a `u64` becomes a number value, through `napi_either` |
| Registration.ModuleDeclaration | src/lib.rs:29-35 | the descriptor `napi_module!` builds has version 1, flags 0, the module string as both file name and module name, and `Some` of the registration function |
| Registration.DeclaredModuleRecord | src/lib.rs:29-35 | the loader receives exactly that descriptor's record, or the `NulError` of its file name |
| Registration.LoadModule | src/lib.rs:28-36 | loading registers the declared record, or aborts with "error registering module" and registers nothing |
| Registration.RegisterDeclaration | src/lib.rs:54-56 | `register!` declares its module under the module identifier with `register` as the registration function |
| Registration.AttachAllNames | src/lib.rs:58-64 | fresh, distinct export names end up after the existing properties, in declaration order |
| Registration.AttachAllLookup | src/lib.rs:58-64 | each export name is bound to the function created for it |
| Registration.AttachAllOther | src/lib.rs:58-64 | a property whose name is not exported keeps its value |
| Registration.ExportOne | src/lib.rs:58-64 | one export creates a function named after it, then attaches it under the same name; a failure in either step aborts with that step's message, and a failed creation attaches nothing; the last-error slot holds the answer to the last call made |
| Registration.Register | src/lib.rs:56-66 | `register` succeeds exactly when none of its 2n host calls fails. Otherwise it aborts at the first failure, with the message of that export and step, and makes no later call. In every case the store holds the functions created so far, in order, and the exports object has the attached ones. The last-error slot holds the answer to the last call made |
| Registration.FunctionMacroNameAsWritten | src/lib.rs:45 | as written, `function!` names every function it creates `name` |
| Registration.FunctionMacroName | src/lib.rs:45 | the intended name is the macro's identifier |
| Registration.FunctionMacroMisnames | src/lib.rs:45 | a function `add` made by the macro as written is not called `add`, while the intended one is |
| Registration.FunctionMacro | src/lib.rs:43-47 | `function!` creates the function under the intended name or aborts with "error creating function" (or the last-error panic when the query fails); a failed creation leaves the store unchanged. Without a NUL in the name it takes exactly one host answer, which it leaves in the last-error slot |
| HelloWorld.HelloWorldModule | examples/hello-world/src/lib.rs:9-13 | the example's descriptor is named `helloworld`, uses `register`, and always yields a loader record |
| HelloWorld.HelloWorldExports | examples/hello-world/src/lib.rs:9-13 | exporting `add` then `hello` onto an object that has neither adds exactly those two names, last and in that order, each bound to its own new function |
| HelloWorld.RegisterHelloWorld | examples/hello-world/src/lib.rs:9-13 | registration succeeds exactly when its four host calls succeed; the store then holds the functions `add` and `hello`, in that order, and the exports object gains exactly those two properties. Every other property keeps its value and every other object is unchanged. On failure it aborts at the first failing call, with that call's message, and the store holds what was built before it. In every case the answers taken and the final last-error record are fixed by the first failing call |
| HelloWorld.Add | examples/hello-world/src/lib.rs:15-17 | `add` doubles its argument (halving the result gives the argument back) when `a + a` fits in a `u64`, and panics on overflow otherwise |
| HelloWorld.Hello | examples/hello-world/src/lib.rs:19-24 | `hello` returns `foo = "HELLO"` and `bar = 23`, whatever its arguments |
| HelloWorld.HelloArgsFromValues | examples/hello-world/src/lib.rs:29-31 | `HelloArgs` accepts any argument list |
| HelloWorld.HelloTrampoline | examples/hello-world/src/lib.rs:29-31 | because decoding never fails, `hello`'s trampoline (with the intended recovery) runs the closure exactly when the argument query succeeds and at most 16 arguments came. It never returns an error, its value is `undefined`, and it takes two host answers when the closure runs and one on the slice panic |
| HelloWorld.HelloPropsComplete | examples/hello-world/src/lib.rs:44-45 | the finished result object has the properties `foo` then `bar`, holding the greeting's two fields |
| HelloWorld.IntoNapiValue | examples/hello-world/src/lib.rs:40-47 | the five steps run in order (create, convert `foo`, convert `bar`, set `foo`, set `bar`). The result is `Ok` exactly when none fails, and then it is the created object. Otherwise the first failing step's error is returned and no later step runs. The created object keeps the properties attached before the failure, and the last-error slot holds the record of the last call made |

## Left out

- The raw `node_api_sys` calls are foreign code. The host class stands for them: each call takes the next scripted answer, and the objects live in an ordered store.
- Unsafe memory handling is not modelled. This covers `std::mem::uninitialized`, the `Box::into_raw` leak in `get_last_error_info`, and the C strings that `module_register` frees before the loader reads them. It also covers the `user_data` pointer to the stack-local closure. The closure is modelled as the user data the host hands back.
- NapiPrimitives.Trampoline: the buffer's initial contents are arbitrary, not uninitialised memory. The status of `napi_get_cb_info` is ignored, as in the code.
- NapiPrimitives.RunTrampoline: after a failed argument query, the arbitrary buffer contents decide whether the `undefined` lookup follows. The contract then states only that one or two host answers were taken, with the last-error slot holding the last one.
- NapiPrimitives.Trampoline: more than 16 arguments panic on the slice `argv[0..argc]`, as the code does; they are not truncated.
- NapiPrimitives.Trampoline: as written, `napi_get_cb_info` writes the user data into the temporary that `transmute` produces, so the callback slot is never written and no closure runs. This member follows the intended recovery; `NapiPrimitives.TrampolineAsWritten` models the code as written.
- HelloWorld.HelloTrampoline: as written, the callback slot is never written and `hello` never runs. This member follows the intended recovery.
- NapiPrimitives.Trampoline: the effect of running the closure is not modelled, only whether it runs and with what.
- `CStr::to_string_lossy` repair of the error message is not modelled; the message is an opaque string.
- NapiPrimitives.CreateNumber: takes an integer, not an `f64`; floating-point precision is not modelled.
- NapiValue.U64IntoNapiValue: the `u64` is kept as an exact integer; values above 2^53, which an `f64` would round, are not rounded.
- RustStd.CStringNew: the `NulError` position is a character index, not a byte offset.
- Panic messages are paraphrases. An `expect` keeps its own text without the formatted error it appends; `unwrap` and the out-of-range slice use a fixed text without the values Rust prints.
- The static constructor, link sections and `link_args` of `napi_module!` are loader plumbing and are not modelled.
- The commented-out API catalogue of `src/napi.rs` has no behaviour and is not modelled.
- The modules `napi_value`, `napi_args`, `napi_futures` and `error` are not part of this model. `set_named_property` and `into_napi_value` for `String` and `u64` are modelled as one forwarded host call each. The `u64` argument decoding that `add` needs is not modelled.
- The closures that `register!` and `function!` pass to `create_function` take three arguments and return a value, while `create_function` asks for a two-argument closure. The model does not type-check this wiring; it models what each step does.
- Registration.Register: requires the export names to contain no NUL. They are Rust identifiers, which never do.
- HelloWorld.Add: models the debug build, where `a + a` panics on overflow; a release build would wrap around.

## Findings

| source | as written | input that shows it | evidently intended | confidence | as-written member | corrected member |
|---|---|---|---|---|---|---|
| src/lib.rs:45 | `function!` passes `stringify!(name)`, the literal `"name"`, as the function's name | `function!(env->add(x) {...})` creates a function called `name`, not `add` | `stringify!($name)`, naming the function after the macro's identifier | high, not executed | Registration.FunctionMacroNameAsWritten | Registration.FunctionMacroName |
| src/napi.rs:238-239 | the callback slot is passed as `&mut transmute::<&mut Option<F>, *mut c_void>(&mut callback)`, the address of a temporary that holds the slot's address, so the host writes the user data into the temporary and `callback` stays `None` | any call of a function created by `create_function`, such as `add` in the example: the match at lines 242-245 takes `None` and the body never runs | the closure that `create_function` registered is recovered from the user data the host hands back (for instance by reading the data into a `*mut c_void` and casting it back to `&F`) and is then called | high, not executed | NapiPrimitives.TrampolineAsWritten | NapiPrimitives.Trampoline |
