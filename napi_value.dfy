/** Stand-ins for the conversion helpers the core calls but whose code is not
    part of this model (`set_named_property`, `IntoNapiValue` for `String`
    and `u64`). Each is taken to be one host call forwarded through
    `napi_either`, the way the primitives of `src/napi.rs` are written. */
module NapiValue {
  import opened RustStd
  import opened NapiStatus
  import opened Host
  import opened NapiPrimitives

  /** `set_named_property`: attach `v` to `obj` under `name`. */
  method SetNamedProperty(env: Env, obj: Value, name: string, v: Value) returns (r: Outcome<(), NapiError>)
    modifies env
    ensures env.pending == Drop(old(env.pending), 1) && env.queryStatus == old(env.queryStatus)
    ensures r.Ok? <==> StatusAt(old(env.pending), 0) == NapiOk && old(env.IsObject(obj))
    ensures StatusAt(old(env.pending), 0) != NapiOk || old(env.IsObject(obj)) ==>
              env.lastError == AnswerAt(old(env.pending), 0)
    ensures !r.Ok? && env.queryStatus == NapiOk ==> r == Err(ErrorFromInfo(env.lastError))
    ensures !r.Ok? && env.queryStatus != NapiOk ==> r == Panic(LAST_ERROR_PANIC)
    ensures r.Ok? ==>
              |env.heap| == |old(env.heap)| &&
              env.heap[obj.id] == HostObject(old(env.heap[obj.id].kind), Put(old(env.heap[obj.id].props), name, v)) &&
              forall k :: 0 <= k < |env.heap| && k != obj.id ==> env.heap[k] == old(env.heap[k])
    ensures !r.Ok? ==> env.heap == old(env.heap)
  {
    var status := env.NapiSetNamedProperty(obj, name, v);
    r := Either(status, (), env.LastErrorQuery());
  }

  /** `String::into_napi_value`. */
  method StringIntoNapiValue(env: Env, s: string) returns (r: Outcome<Value, NapiError>)
    modifies env
    ensures Forwarded(env, r, Str(s)) && env.heap == old(env.heap)
  {
    r := GetConstant(env, Str(s));
  }

  /** `u64::into_napi_value`. */
  method U64IntoNapiValue(env: Env, n: u64) returns (r: Outcome<Value, NapiError>)
    modifies env
    ensures Forwarded(env, r, Number(n as int)) && env.heap == old(env.heap)
  {
    r := CreateNumber(env, n as int);
  }
}
