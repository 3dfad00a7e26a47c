/** An abstract N-API host, the collaborator the binding layer calls into.
    It is not part of the binding: it stands for the engine behind
    `node_api_sys`. One execution context (`Env`) holds the one-slot
    last-error record, the answers the host will give its next calls, and a
    store of objects whose named properties are kept in insertion order. */
module Host {
  import opened RustStd
  import opened NapiStatus

  /** A host value handle. Objects, arrays and functions live in the
      context's store and are referred to by their index there. */
  datatype Value =
    | Undefined
    | Null
    | Global
    | Boolean(b: bool)
    | Number(n: int)
    | Str(s: string)
    | Ref(id: nat)

  /** Identifies a native closure handed to the host as user data. */
  type Callback = string

  /** Named properties in the order they were first attached. */
  type Props = seq<(string, Value)>

  datatype ObjectKind =
    | PlainObject
    | ArrayObject(length: nat)
    | FunctionObject(name: string, data: Callback)

  datatype HostObject = HostObject(kind: ObjectKind, props: Props)

  /** The call the host is dispatching (what `napi_callback_info` refers
      to): receiver, the arguments actually passed, and the user data given
      when the function was created. */
  datatype CallInfo = CallInfo(receiver: Value, args: seq<Value>, data: Callback)

  /** `napi_module`, the record the host's loader consumes. */
  datatype Ptr = NullPtr | Addr(addr: nat)

  datatype ModuleRecord = ModuleRecord(
    nmVersion: i32,
    nmFlags: u32,
    nmFilename: string,
    nmRegisterFunc: Callback,
    nmModname: string,
    nmPriv: Ptr,
    reserved: seq<Ptr>)

  // ---------------------------------------------------------------------
  // Ordered properties

  function Names(p: Props): (ns: seq<string>)
    ensures |ns| == |p|
    ensures forall i :: 0 <= i < |p| ==> ns[i] == p[i].0
  {
    if p == [] then [] else [p[0].0] + Names(p[1..])
  }

  /** The value of the first property called `name`. */
  function Lookup(p: Props, name: string): Option<Value> {
    if p == [] then None
    else if p[0].0 == name then Some(p[0].1)
    else Lookup(p[1..], name)
  }

  /** Attaching a property: an existing one keeps its place and takes the
      new value, a new one goes last. */
  function Put(p: Props, name: string, v: Value): Props {
    if p == [] then [(name, v)]
    else if p[0].0 == name then [(name, v)] + p[1..]
    else [p[0]] + Put(p[1..], name, v)
  }

  lemma {:induction false} PutNames(p: Props, name: string, v: Value)
    ensures Names(Put(p, name, v)) == if name in Names(p) then Names(p) else Names(p) + [name]
  {
    if p != [] && p[0].0 != name {
      PutNames(p[1..], name, v);
      assert Names(p) == [p[0].0] + Names(p[1..]);
    }
  }

  lemma {:induction false} PutLookup(p: Props, name: string, v: Value, other: string)
    ensures Lookup(Put(p, name, v), name) == Some(v)
    ensures other != name ==> Lookup(Put(p, name, v), other) == Lookup(p, other)
  {
    if p != [] && p[0].0 != name {
      PutLookup(p[1..], name, v, other);
    }
  }

  // ---------------------------------------------------------------------
  // The answers the host gives its next calls

  /** The answer to the `j`-th call from now: scripted, or a success once the
      script is exhausted. */
  function AnswerAt(pending: seq<ErrorInfo>, j: nat): ErrorInfo {
    if j < |pending| then pending[j] else CLEARED
  }

  function StatusAt(pending: seq<ErrorInfo>, j: nat): Status {
    AnswerAt(pending, j).errorCode
  }

  /** The script after `k` calls. */
  function Drop(pending: seq<ErrorInfo>, k: nat): seq<ErrorInfo> {
    if k <= |pending| then pending[k..] else []
  }

  lemma DropAnswer(pending: seq<ErrorInfo>, k: nat, j: nat)
    ensures AnswerAt(Drop(pending, k), j) == AnswerAt(pending, k + j)
    ensures Drop(Drop(pending, k), j) == Drop(pending, k + j)
  {
  }

  /** The first of the next `n` calls that fails, or `n` if none does. */
  function FirstFailure(pending: seq<ErrorInfo>, n: nat): (k: nat)
    ensures k <= n
    ensures forall j :: 0 <= j < k ==> StatusAt(pending, j) == NapiOk
    ensures k < n ==> StatusAt(pending, k) != NapiOk
  {
    if n == 0 then 0
    else
      var k := FirstFailure(pending, n - 1);
      if k < n - 1 then k
      else if StatusAt(pending, n - 1) != NapiOk then n - 1
      else n
  }

  /** The next `n` calls all succeed. */
  predicate AllOk(pending: seq<ErrorInfo>, n: nat) {
    forall j :: 0 <= j < n ==> StatusAt(pending, j) == NapiOk
  }

  lemma AllOkExtend(pending: seq<ErrorInfo>, n: nat)
    requires AllOk(pending, n) && StatusAt(pending, n) == NapiOk
    ensures AllOk(pending, n + 1)
  {
  }

  lemma FirstFailureAt(pending: seq<ErrorInfo>, k: nat, n: nat)
    requires k < n
    requires AllOk(pending, k)
    requires StatusAt(pending, k) != NapiOk
    ensures FirstFailure(pending, n) == k
  {
  }

  lemma FirstFailureNone(pending: seq<ErrorInfo>, n: nat)
    requires AllOk(pending, n)
    ensures FirstFailure(pending, n) == n
  {
  }

  /** No failure among the next `n` calls is the same as all of them
      succeeding. */
  lemma FirstFailureAllOk(pending: seq<ErrorInfo>, n: nat)
    ensures FirstFailure(pending, n) == n <==> AllOk(pending, n)
  {
    if AllOk(pending, n) {
      FirstFailureNone(pending, n);
    }
  }

  // ---------------------------------------------------------------------
  // The module loader

  class Loader {
    var registered: seq<ModuleRecord>

    constructor ()
      ensures registered == []
    {
      registered := [];
    }

    /** `napi_module_register`. */
    method Register(m: ModuleRecord)
      modifies this
      ensures registered == old(registered) + [m]
    {
      registered := registered + [m];
    }
  }

  // ---------------------------------------------------------------------
  // One execution context

  class Env {
    /** The one-slot last-error record. */
    var lastError: ErrorInfo
    /** What the host answers to `napi_get_last_error_info`: `NapiOk` on a
        live context. */
    var queryStatus: Status
    /** The answers to the next host calls, one per call. */
    var pending: seq<ErrorInfo>
    /** The object store. */
    var heap: seq<HostObject>

    constructor (script: seq<ErrorInfo>, query: Status)
      ensures lastError == CLEARED && queryStatus == query
      ensures pending == script && heap == []
    {
      lastError := CLEARED;
      queryStatus := query;
      pending := script;
      heap := [];
    }

    /** `napi_get_last_error_info` (the model's `get_last_error_info`): the
        record in the slot, or the query's own failing status. Reading the
        slot changes nothing. */
    function LastErrorQuery(): (r: Outcome<ErrorInfo, Status>)
      reads this
      ensures !r.Panic?
      ensures r.Ok? <==> queryStatus == NapiOk
      ensures r.Ok? ==> r.value == lastError
      ensures r.Err? ==> r.error == queryStatus
    {
      if queryStatus == NapiOk then Ok(lastError) else Err(queryStatus)
    }

    predicate IsObject(v: Value)
      reads this
    {
      v.Ref? && v.id < |heap|
    }

    /** The call took the next answer: its status is returned and its record
        fills the last-error slot. */
    twostate predicate Answered(status: Status)
      reads this
    {
      && status == AnswerAt(old(pending), 0).errorCode
      && lastError == AnswerAt(old(pending), 0)
      && pending == Drop(old(pending), 1)
      && queryStatus == old(queryStatus)
    }

    method Answer() returns (status: Status)
      modifies this
      ensures Answered(status)
      ensures heap == old(heap)
    {
      lastError := AnswerAt(pending, 0);
      status := lastError.errorCode;
      pending := Drop(pending, 1);
    }

    /** `napi_get_undefined`, `napi_get_null`, `napi_get_global`,
        `napi_get_boolean`, `napi_create_number`, `napi_create_string_utf8`:
        values that need no storage. The out-value is written only on
        success. */
    method NapiGetConstant(c: Value) returns (status: Status, v: Value)
      requires !c.Ref?
      modifies this
      ensures Answered(status) && heap == old(heap)
      ensures status == NapiOk ==> v == c
    {
      status := Answer();
      v := if status == NapiOk then c else Undefined;
    }

    /** `napi_create_object`, `napi_create_array`,
        `napi_create_array_with_length`, `napi_create_function`: a new
        object at the end of the store. */
    method NapiCreate(kind: ObjectKind) returns (status: Status, v: Value)
      modifies this
      ensures Answered(status)
      ensures status == NapiOk ==> v == Ref(|old(heap)|) && heap == old(heap) + [HostObject(kind, [])]
      ensures status != NapiOk ==> heap == old(heap)
    {
      status := Answer();
      if status == NapiOk {
        v := Ref(|heap|);
        heap := heap + [HostObject(kind, [])];
      } else {
        v := Undefined;
      }
    }

    /** `napi_set_named_property`: on a value that is not an object the host
        answers `napi_object_expected`. */
    method NapiSetNamedProperty(obj: Value, name: string, v: Value) returns (status: Status)
      modifies this
      ensures pending == Drop(old(pending), 1) && queryStatus == old(queryStatus)
      ensures AnswerAt(old(pending), 0).errorCode != NapiOk ==>
                status == AnswerAt(old(pending), 0).errorCode && lastError == AnswerAt(old(pending), 0)
      ensures AnswerAt(old(pending), 0).errorCode == NapiOk && !old(IsObject(obj)) ==>
                status == NapiObjectExpected && lastError == ErrorInfo("An object was expected", 0, NapiObjectExpected)
      ensures status == NapiOk <==> AnswerAt(old(pending), 0).errorCode == NapiOk && old(IsObject(obj))
      ensures status == NapiOk ==> lastError == AnswerAt(old(pending), 0)
      ensures status == NapiOk ==>
                |heap| == |old(heap)| &&
                heap[obj.id] == HostObject(old(heap[obj.id].kind), Put(old(heap[obj.id].props), name, v)) &&
                forall k :: 0 <= k < |heap| && k != obj.id ==> heap[k] == old(heap[k])
      ensures status != NapiOk ==> heap == old(heap)
    {
      status := Answer();
      if status == NapiOk {
        if IsObject(obj) {
          var o := heap[obj.id];
          heap := heap[obj.id := HostObject(o.kind, Put(o.props, name, v))];
        } else {
          status := NapiObjectExpected;
          lastError := ErrorInfo("An object was expected", 0, NapiObjectExpected);
        }
      }
    }

    /** `napi_get_cb_info`: on success the host writes the arguments into the
        first `argc` slots of `argv` (padding with `undefined`), reports the
        number of arguments actually passed, and hands back the user data. */
    method NapiGetCbInfo(info: CallInfo, argc: nat, argv: array<Value>)
      returns (status: Status, argcOut: nat, data: Option<Callback>)
      requires argc <= argv.Length
      modifies this, argv
      ensures Answered(status) && heap == old(heap)
      ensures status == NapiOk ==> argcOut == |info.args| && data == Some(info.data)
      ensures status == NapiOk ==>
                forall i :: 0 <= i < argv.Length ==>
                  argv[i] == if i < argc && i < |info.args| then info.args[i]
                             else if i < argc then Undefined
                             else old(argv[i])
      ensures status != NapiOk ==> argcOut == argc && data.None? && argv[..] == old(argv[..])
    {
      status := Answer();
      if status == NapiOk {
        forall i | 0 <= i < argv.Length {
          argv[i] := if i < argc && i < |info.args| then info.args[i]
                     else if i < argc then Undefined
                     else argv[i];
        }
        argcOut, data := |info.args|, Some(info.data);
      } else {
        argcOut, data := argc, None;
      }
    }
  }
}
