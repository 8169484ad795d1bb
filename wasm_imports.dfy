/**
 * The host side of the wasm bridge (`createImports`): the `__wrap_*`
 * functions a wrapper module calls. They record invocation results and
 * errors in a per-call `State` and copy bytes between that state and the
 * module's linear memory.
 *
 * The client (`invoke`, `getImplementations`), the MessagePack encoder and
 * the UTF-8 codec behind the string helpers are oracles fixed when the
 * bridge is created. `abort` never returns: it is the `Abort` outcome.
 * A memory access outside the buffer is the `RangeError` outcome.
 */
module WasmImports {
  import opened Wrappers
  import opened Bytes
  import opened Strings
  import opened Json

  /** How a host function ends. */
  datatype Outcome<T> = Return(value: T) | Abort(message: string) | RangeError

  /** The error an invocation reports: its `name` and `message`. */
  datatype InvokeError = InvokeError(name: string, message: string)

  /** What `invoke` hands back as data: raw MessagePack or a value still to be encoded. */
  datatype Data = ArrayBuffer(bytes: seq<byte>) | Value(v: Json)

  /** `{ data, error }` of an invocation. */
  datatype InvokeResult = InvokeResult(data: Data, error: Option<InvokeError>)

  /** The `result` and `error` slots of one kind of call. */
  datatype CallRecord = CallRecord(result: Option<seq<byte>>, error: Option<string>)

  /** The `[uri, method, input]` an implementation call was made with. */
  datatype Invocation = Invocation(uri: string, methodName: string, input: seq<byte>)

  /** All fields of a `State`, as one value. */
  datatype StateValue = StateValue(
    methodName: Option<string>,
    args: Option<seq<byte>>,
    invoke: CallRecord,
    subinvoke: CallRecord,
    subinvokeImplementation: CallRecord,
    subinvokeImplementationArgs: Option<Invocation>,
    getImplementationsResult: Option<seq<byte>>,
    env: Option<seq<byte>>,
    sanitizeEnvArgs: Option<seq<byte>>,
    sanitizeEnvResult: Option<seq<byte>>)

  /** The per-call record the host functions read and write. */
  class State {
    var methodName: Option<string>
    var args: Option<seq<byte>>
    var invoke: CallRecord
    var subinvoke: CallRecord
    var subinvokeImplementation: CallRecord
    var subinvokeImplementationArgs: Option<Invocation>
    var getImplementationsResult: Option<seq<byte>>
    var env: Option<seq<byte>>
    var sanitizeEnvArgs: Option<seq<byte>>
    var sanitizeEnvResult: Option<seq<byte>>

    /** A fresh state carrying the method name, arguments and environment of one invocation. */
    constructor(methodName: Option<string>, args: Option<seq<byte>>, env: Option<seq<byte>>)
      ensures Value() == StateValue(methodName, args, CallRecord(None, None), CallRecord(None, None),
                                    CallRecord(None, None), None, None, env, None, None)
    {
      this.methodName := methodName;
      this.args := args;
      this.invoke := CallRecord(None, None);
      this.subinvoke := CallRecord(None, None);
      this.subinvokeImplementation := CallRecord(None, None);
      this.subinvokeImplementationArgs := None;
      this.getImplementationsResult := None;
      this.env := env;
      this.sanitizeEnvArgs := None;
      this.sanitizeEnvResult := None;
    }

    function Value(): StateValue
      reads this
    {
      StateValue(methodName, args, invoke, subinvoke, subinvokeImplementation, subinvokeImplementationArgs,
                 getImplementationsResult, env, sanitizeEnvArgs, sanitizeEnvResult)
    }
  }

  /** `len` bytes from `ptr` lie inside a memory of `size` bytes. */
  predicate Fits(size: nat, ptr: nat, len: nat) { ptr + len <= size }

  /** `readBytes`: a copy of `memory[ptr .. ptr + len)`, or nothing when that runs past the end. */
  function ReadRegion(m: seq<byte>, ptr: nat, len: nat): (r: Option<seq<byte>>)
    ensures r.Some? <==> Fits(|m|, ptr, len)
    ensures r.Some? ==> |r.value| == len && forall i :: 0 <= i < len ==> r.value[i] == m[ptr + i]
  {
    if Fits(|m|, ptr, len) then Some(m[ptr..ptr + len]) else None
  }

  /** `writeBytes`: the memory with `bytes` copied in at `ptr`. */
  function Splice(m: seq<byte>, ptr: nat, bytes: seq<byte>): (r: seq<byte>)
    requires Fits(|m|, ptr, |bytes|)
    ensures |r| == |m|
  {
    seq(|m|, k requires 0 <= k < |m| => if ptr <= k < ptr + |bytes| then bytes[k - ptr] else m[k])
  }

  /** What a copied-in region reads back as, and that nothing outside it changes. */
  lemma {:induction false} ReadRegionOfSplice(m: seq<byte>, ptr: nat, bytes: seq<byte>)
    requires Fits(|m|, ptr, |bytes|)
    ensures ReadRegion(Splice(m, ptr, bytes), ptr, |bytes|) == Some(bytes)
    ensures Splice(m, ptr, bytes)[..ptr] == m[..ptr]
    ensures Splice(m, ptr, bytes)[ptr + |bytes|..] == m[ptr + |bytes|..]
  {
    var r := Splice(m, ptr, bytes);
    assert r[ptr..ptr + |bytes|] == bytes;
    assert r[..ptr] == m[..ptr];
    assert r[ptr + |bytes|..] == m[ptr + |bytes|..];
  }

  /** Copying in what is already there changes nothing. */
  lemma {:induction false} SpliceOfReadRegion(m: seq<byte>, ptr: nat, len: nat)
    requires Fits(|m|, ptr, len)
    ensures Splice(m, ptr, m[ptr..ptr + len]) == m
  {
    var r := Splice(m, ptr, m[ptr..ptr + len]);
    forall k | 0 <= k < |m|
      ensures r[k] == m[k]
    {
    }
  }

  /** The three regions a call reads, decoded; nothing when any of them runs past the end. */
  function ReadInvocation(m: seq<byte>, uriPtr: nat, uriLen: nat, methodPtr: nat, methodLen: nat,
                          inputPtr: nat, inputLen: nat, utf8Decode: seq<byte> -> string): (r: Option<Invocation>)
    ensures r.Some? <==> Fits(|m|, uriPtr, uriLen) && Fits(|m|, methodPtr, methodLen) && Fits(|m|, inputPtr, inputLen)
    ensures r.Some? ==> r.value.input == m[inputPtr..inputPtr + inputLen]
  {
    var uri := ReadRegion(m, uriPtr, uriLen);
    var methodName := ReadRegion(m, methodPtr, methodLen);
    var input := ReadRegion(m, inputPtr, inputLen);
    if uri.None? || methodName.None? || input.None? then None
    else Some(Invocation(utf8Decode(uri.value), utf8Decode(methodName.value), input.value))
  }

  /** `${error.name}: ${error.message}` */
  function ErrorText(e: InvokeError): (s: string)
    ensures |s| == |e.name| + 2 + |e.message|
    ensures s[..|e.name|] == e.name && s[|e.name|..|e.name| + 2] == ": " && s[|e.name| + 2..] == e.message
  {
    e.name + ": " + e.message
  }

  /**
   * The slots an invocation's outcome leaves: on success the data as
   * MessagePack (raw data as it is, anything else through the encoder),
   * on failure the error text.
   */
  function Settle(r: InvokeResult, msgpackEncode: Json -> seq<byte>): (c: CallRecord)
    ensures c.result.Some? <==> r.error.None?
    ensures c.error.Some? <==> r.error.Some?
    ensures r.error.Some? ==> c.error == Some(ErrorText(r.error.value))
    ensures r.error.None? && r.data.ArrayBuffer? ==> c.result == Some(r.data.bytes)
    ensures r.error.None? && r.data.Value? ==> c.result == Some(msgpackEncode(r.data.v))
  {
    match r.error
    case Some(e) => CallRecord(None, Some(ErrorText(e)))
    case None =>
      match r.data
      case ArrayBuffer(bytes) => CallRecord(Some(bytes), None)
      case Value(v) => CallRecord(Some(msgpackEncode(v)), None)
  }

  /** `!s` for a string slot. */
  predicate Unset(s: Option<string>) { s.None? || s.value == "" }

  /** The `*_result_len` accessor of a slot: abort when no result is set, else its byte length. */
  function ResultLen(c: CallRecord, message: string): (o: Outcome<nat>)
    ensures o.Return? <==> c.result.Some?
    ensures o.Return? ==> o.value == |c.result.value|
    ensures o.Abort? ==> o.message == message
  {
    if c.result.None? then Abort(message) else Return(|c.result.value|)
  }

  /** The `*_error_len` accessor of a slot: abort when no error is set, else its length. */
  function ErrorLen(c: CallRecord, message: string): (o: Outcome<nat>)
    ensures o.Return? <==> !Unset(c.error)
    ensures o.Return? ==> o.value == |c.error.value|
    ensures o.Abort? ==> o.message == message
  {
    if Unset(c.error) then Abort(message) else Return(|c.error.value|)
  }

  /**
   * After an invocation settles, exactly one of its two accessors succeeds:
   * the result accessor when it succeeded, the error accessor when it failed.
   */
  lemma {:induction false} SettledAccessors(r: InvokeResult, msgpackEncode: Json -> seq<byte>, m1: string, m2: string)
    ensures ResultLen(Settle(r, msgpackEncode), m1).Return? <==> r.error.None?
    ensures ErrorLen(Settle(r, msgpackEncode), m2).Return? <==> r.error.Some?
  {
    var c := Settle(r, msgpackEncode);
    if r.error.Some? {
      assert c.error.value[|r.error.value.name|..|r.error.value.name| + 2] == ": ";
    }
  }

  /** `__wrap_abort: ${msg}\nFile: ${file}\nLocation: [${line},${column}]` */
  function AbortMessage(msg: string, file: string, line: nat, column: nat): (s: string)
    ensures |s| > 14 + |msg| + 7 + |file|
    ensures s[..14] == "__wrap_abort: " && s[14..14 + |msg|] == msg
    ensures s[14 + |msg|..14 + |msg| + 7] == "\nFile: " && s[14 + |msg| + 7..14 + |msg| + 7 + |file|] == file
    ensures s[14 + |msg| + 7 + |file|..] == "\nLocation: [" + NatToString(line) + "," + NatToString(column) + "]"
  {
    var head := "__wrap_abort: " + msg + "\nFile: " + file;
    var position := "\nLocation: [" + NatToString(line) + "," + NatToString(column) + "]";
    assert (head + position)[|head|..] == position;
    head + position
  }

  const SUBINVOKE_RESULT_LEN_UNSET := "__wrap_subinvoke_result_len: subinvoke.result is not set"
  const SUBINVOKE_RESULT_UNSET := "__wrap_subinvoke_result: subinvoke.result is not set"
  const SUBINVOKE_ERROR_LEN_UNSET := "__wrap_subinvoke_error_len: subinvoke.error is not set"
  const SUBINVOKE_ERROR_UNSET := "__wrap_subinvoke_error: subinvoke.error is not set"
  const IMPLEMENTATION_RESULT_LEN_UNSET :=
    "__wrap_subinvokeImplementation_result_len: subinvokeImplementation.result is not set"
  const IMPLEMENTATION_RESULT_UNSET :=
    "__wrap_subinvokeImplementation_result: subinvokeImplementation.result is not set"
  const IMPLEMENTATION_ERROR_LEN_UNSET :=
    "__wrap_subinvokeImplementation_error_len: subinvokeImplementation.error is not set"
  const IMPLEMENTATION_ERROR_UNSET :=
    "__wrap_subinvokeImplementation_error: subinvokeImplementation.error is not set"
  const METHOD_UNSET := "__wrap_invoke_args: method is not set"
  const ARGS_UNSET := "__wrap_invoke_args: args is not set"
  const IMPLEMENTATIONS_RESULT_LEN_UNSET := "__wrap_getImplementations_result_len: result is not set"
  const IMPLEMENTATIONS_RESULT_UNSET := "__wrap_getImplementations_result: result is not set"
  const SANITIZE_ENV_ARGS_UNSET := "__wrap_sanitize_env: args is not set"

  /** The bridge of one wasm instance: its state, its linear memory and the oracles it calls. */
  class Imports {
    const state: State
    const memory: array<byte>
    /** `client.invoke` with `noDecode: true` */
    const invoke: Invocation -> InvokeResult
    /** `client.getImplementations` */
    const getImplementations: string -> seq<string>
    const msgpackEncode: Json -> seq<byte>
    const encodeUris: seq<string> -> seq<byte>
    const utf8Decode: seq<byte> -> string
    const utf8Encode: string -> seq<byte>

    constructor(state: State, memory: array<byte>, invoke: Invocation -> InvokeResult,
                getImplementations: string -> seq<string>, msgpackEncode: Json -> seq<byte>,
                encodeUris: seq<string> -> seq<byte>, utf8Decode: seq<byte> -> string,
                utf8Encode: string -> seq<byte>)
      ensures this.state == state && this.memory == memory && this.invoke == invoke
      ensures this.getImplementations == getImplementations && this.msgpackEncode == msgpackEncode
      ensures this.encodeUris == encodeUris && this.utf8Decode == utf8Decode && this.utf8Encode == utf8Encode
    {
      this.state := state;
      this.memory := memory;
      this.invoke := invoke;
      this.getImplementations := getImplementations;
      this.msgpackEncode := msgpackEncode;
      this.encodeUris := encodeUris;
      this.utf8Decode := utf8Decode;
      this.utf8Encode := utf8Encode;
    }

    /** `writeBytes`: copy `bytes` into memory at `ptr`; false, with memory untouched, when they do not fit. */
    method WriteBytes(bytes: seq<byte>, ptr: nat) returns (ok: bool)
      modifies memory
      ensures ok <==> Fits(memory.Length, ptr, |bytes|)
      ensures ok ==> memory[..] == Splice(old(memory[..]), ptr, bytes)
      ensures !ok ==> memory[..] == old(memory[..])
    {
      if ptr + |bytes| > memory.Length {
        return false;
      }
      ghost var m := memory[..];
      var i := 0;
      while i < |bytes|
        invariant 0 <= i <= |bytes|
        invariant memory[..] == Splice(m, ptr, bytes[..i])
      {
        memory[ptr + i] := bytes[i];
        i := i + 1;
      }
      assert bytes[..i] == bytes;
      return true;
    }

    /** `readBytes` of the current memory. */
    method ReadBytes(ptr: nat, len: nat) returns (r: Option<seq<byte>>)
      ensures r == ReadRegion(memory[..], ptr, len)
    {
      if ptr + len > memory.Length {
        return None;
      }
      return Some(memory[ptr..ptr + len]);
    }

    /** `readString`: the decoded region. */
    method ReadString(ptr: nat, len: nat) returns (r: Option<string>)
      ensures r.Some? <==> Fits(memory.Length, ptr, len)
      ensures r.Some? ==> r.value == utf8Decode(memory[ptr..ptr + len])
    {
      var bytes := ReadBytes(ptr, len);
      if bytes.None? {
        return None;
      }
      return Some(utf8Decode(bytes.value));
    }

    /**
     * `__wrap_subinvoke`: clear the slots, read the call from memory, invoke
     * and settle; the return value tells whether the call succeeded.
     */
    method Subinvoke(uriPtr: nat, uriLen: nat, methodPtr: nat, methodLen: nat, inputPtr: nat, inputLen: nat)
      returns (o: Outcome<bool>)
      modifies state
      ensures var call := ReadInvocation(memory[..], uriPtr, uriLen, methodPtr, methodLen, inputPtr, inputLen, utf8Decode);
        if call.None? then
          o == RangeError && state.Value() == old(state.Value()).(subinvoke := CallRecord(None, None))
        else
          var r := invoke(call.value);
          o == Return(r.error.None?) && state.Value() == old(state.Value()).(subinvoke := Settle(r, msgpackEncode))
    {
      state.subinvoke := CallRecord(None, None);
      var uri := ReadString(uriPtr, uriLen);
      var methodName := ReadString(methodPtr, methodLen);
      var input := ReadBytes(inputPtr, inputLen);
      if uri.None? || methodName.None? || input.None? {
        return RangeError;
      }
      var r := invoke(Invocation(uri.value, methodName.value, input.value));
      if r.error.None? {
        var msgpack;
        if r.data.ArrayBuffer? {
          msgpack := r.data.bytes;
        } else {
          msgpack := msgpackEncode(r.data.v);
        }
        state.subinvoke := state.subinvoke.(result := Some(msgpack));
      } else {
        state.subinvoke := state.subinvoke.(error := Some(ErrorText(r.error.value)));
      }
      return Return(r.error.None?);
    }

    method SubinvokeResultLen() returns (o: Outcome<nat>)
      ensures o == ResultLen(state.subinvoke, SUBINVOKE_RESULT_LEN_UNSET)
    {
      if state.subinvoke.result.None? {
        return Abort(SUBINVOKE_RESULT_LEN_UNSET);
      }
      return Return(|state.subinvoke.result.value|);
    }

    /** `__wrap_subinvoke_result`: copy the result into memory at `ptr`. */
    method SubinvokeResult(ptr: nat) returns (o: Outcome<()>)
      modifies memory
      ensures state.subinvoke.result.None? ==> o == Abort(SUBINVOKE_RESULT_UNSET) && memory[..] == old(memory[..])
      ensures state.subinvoke.result.Some? ==> CopiedIn(state.subinvoke.result.value, ptr, o, old(memory[..]))
    {
      if state.subinvoke.result.None? {
        return Abort(SUBINVOKE_RESULT_UNSET);
      }
      o := CopyIn(state.subinvoke.result.value, ptr);
    }

    method SubinvokeErrorLen() returns (o: Outcome<nat>)
      ensures o == ErrorLen(state.subinvoke, SUBINVOKE_ERROR_LEN_UNSET)
    {
      if Unset(state.subinvoke.error) {
        return Abort(SUBINVOKE_ERROR_LEN_UNSET);
      }
      return Return(|state.subinvoke.error.value|);
    }

    /** `__wrap_subinvoke_error`: copy the error text, UTF-8 encoded, into memory at `ptr`. */
    method SubinvokeError(ptr: nat) returns (o: Outcome<()>)
      modifies memory
      ensures Unset(state.subinvoke.error) ==> o == Abort(SUBINVOKE_ERROR_UNSET) && memory[..] == old(memory[..])
      ensures !Unset(state.subinvoke.error) ==>
        CopiedIn(utf8Encode(state.subinvoke.error.value), ptr, o, old(memory[..]))
    {
      if Unset(state.subinvoke.error) {
        return Abort(SUBINVOKE_ERROR_UNSET);
      }
      o := CopyIn(utf8Encode(state.subinvoke.error.value), ptr);
    }

    /**
     * `__wrap_subinvokeImplementation`: like `Subinvoke`, against the
     * implementation's URI; it records the call's arguments and never
     * reads the interface URI.
     */
    method SubinvokeImplementation(interfaceUriPtr: nat, interfaceUriLen: nat, implUriPtr: nat, implUriLen: nat,
                                   methodPtr: nat, methodLen: nat, inputPtr: nat, inputLen: nat)
      returns (o: Outcome<bool>)
      modifies state
      ensures var call := ReadInvocation(memory[..], implUriPtr, implUriLen, methodPtr, methodLen, inputPtr, inputLen, utf8Decode);
        if call.None? then
          o == RangeError && state.Value() == old(state.Value()).(subinvokeImplementation := CallRecord(None, None))
        else
          var r := invoke(call.value);
          o == Return(r.error.None?) &&
          state.Value() == old(state.Value()).(subinvokeImplementation := Settle(r, msgpackEncode),
                                               subinvokeImplementationArgs := call)
    {
      state.subinvokeImplementation := CallRecord(None, None);
      var implUri := ReadString(implUriPtr, implUriLen);
      var methodName := ReadString(methodPtr, methodLen);
      var input := ReadBytes(inputPtr, inputLen);
      if implUri.None? || methodName.None? || input.None? {
        return RangeError;
      }
      state.subinvokeImplementationArgs := Some(Invocation(implUri.value, methodName.value, input.value));
      var r := invoke(Invocation(implUri.value, methodName.value, input.value));
      if r.error.None? {
        var msgpack;
        if r.data.ArrayBuffer? {
          msgpack := r.data.bytes;
        } else {
          msgpack := msgpackEncode(r.data.v);
        }
        state.subinvokeImplementation := state.subinvokeImplementation.(result := Some(msgpack));
      } else {
        state.subinvokeImplementation := state.subinvokeImplementation.(error := Some(ErrorText(r.error.value)));
      }
      return Return(r.error.None?);
    }

    method SubinvokeImplementationResultLen() returns (o: Outcome<nat>)
      ensures o == ResultLen(state.subinvokeImplementation, IMPLEMENTATION_RESULT_LEN_UNSET)
    {
      if state.subinvokeImplementation.result.None? {
        return Abort(IMPLEMENTATION_RESULT_LEN_UNSET);
      }
      return Return(|state.subinvokeImplementation.result.value|);
    }

    method SubinvokeImplementationResult(ptr: nat) returns (o: Outcome<()>)
      modifies memory
      ensures state.subinvokeImplementation.result.None? ==>
        o == Abort(IMPLEMENTATION_RESULT_UNSET) && memory[..] == old(memory[..])
      ensures state.subinvokeImplementation.result.Some? ==>
        CopiedIn(state.subinvokeImplementation.result.value, ptr, o, old(memory[..]))
    {
      if state.subinvokeImplementation.result.None? {
        return Abort(IMPLEMENTATION_RESULT_UNSET);
      }
      o := CopyIn(state.subinvokeImplementation.result.value, ptr);
    }

    method SubinvokeImplementationErrorLen() returns (o: Outcome<nat>)
      ensures o == ErrorLen(state.subinvokeImplementation, IMPLEMENTATION_ERROR_LEN_UNSET)
    {
      if Unset(state.subinvokeImplementation.error) {
        return Abort(IMPLEMENTATION_ERROR_LEN_UNSET);
      }
      return Return(|state.subinvokeImplementation.error.value|);
    }

    method SubinvokeImplementationError(ptr: nat) returns (o: Outcome<()>)
      modifies memory
      ensures Unset(state.subinvokeImplementation.error) ==>
        o == Abort(IMPLEMENTATION_ERROR_UNSET) && memory[..] == old(memory[..])
      ensures !Unset(state.subinvokeImplementation.error) ==>
        CopiedIn(utf8Encode(state.subinvokeImplementation.error.value), ptr, o, old(memory[..]))
    {
      if Unset(state.subinvokeImplementation.error) {
        return Abort(IMPLEMENTATION_ERROR_UNSET);
      }
      o := CopyIn(utf8Encode(state.subinvokeImplementation.error.value), ptr);
    }

    /** `__wrap_invoke_args`: copy the method name, then the arguments, into memory. */
    method InvokeArgs(methodPtr: nat, argsPtr: nat) returns (o: Outcome<()>)
      modifies memory
      ensures Unset(state.methodName) ==> o == Abort(METHOD_UNSET) && memory[..] == old(memory[..])
      ensures !Unset(state.methodName) && state.args.None? ==> o == Abort(ARGS_UNSET) && memory[..] == old(memory[..])
      ensures !Unset(state.methodName) && state.args.Some? ==>
        var name := utf8Encode(state.methodName.value);
        var args := state.args.value;
        var m := old(memory[..]);
        if !Fits(|m|, methodPtr, |name|) then o == RangeError && memory[..] == m
        else
          var m' := Splice(m, methodPtr, name);
          if !Fits(|m|, argsPtr, |args|) then o == RangeError && memory[..] == m'
          else o == Return(()) && memory[..] == Splice(m', argsPtr, args)
    {
      if Unset(state.methodName) {
        return Abort(METHOD_UNSET);
      }
      if state.args.None? {
        return Abort(ARGS_UNSET);
      }
      var ok := WriteBytes(utf8Encode(state.methodName.value), methodPtr);
      if !ok {
        return RangeError;
      }
      ok := WriteBytes(state.args.value, argsPtr);
      if !ok {
        return RangeError;
      }
      return Return(());
    }

    /** `__wrap_invoke_result`: store `memory[ptr .. ptr + len)` as the invocation's result. */
    method InvokeResult(ptr: nat, len: nat) returns (o: Outcome<()>)
      modifies state
      ensures var r := ReadRegion(memory[..], ptr, len);
        if r.None? then o == RangeError && state.Value() == old(state.Value())
        else o == Return(()) && state.Value() == old(state.Value()).(invoke := old(state.invoke).(result := r))
    {
      var bytes := ReadBytes(ptr, len);
      if bytes.None? {
        return RangeError;
      }
      state.invoke := state.invoke.(result := bytes);
      return Return(());
    }

    /** `__wrap_invoke_error`: store the decoded region as the invocation's error. */
    method InvokeError(ptr: nat, len: nat) returns (o: Outcome<()>)
      modifies state
      ensures var r := ReadRegion(memory[..], ptr, len);
        if r.None? then o == RangeError && state.Value() == old(state.Value())
        else
          o == Return(()) &&
          state.Value() == old(state.Value()).(invoke := old(state.invoke).(error := Some(utf8Decode(r.value))))
    {
      var message := ReadString(ptr, len);
      if message.None? {
        return RangeError;
      }
      state.invoke := state.invoke.(error := message);
      return Return(());
    }

    /** `__wrap_getImplementations`: store the encoded list; true when it is not empty. */
    method GetImplementations(uriPtr: nat, uriLen: nat) returns (o: Outcome<bool>)
      modifies state
      ensures var r := ReadRegion(memory[..], uriPtr, uriLen);
        if r.None? then o == RangeError && state.Value() == old(state.Value())
        else
          var impls := getImplementations(utf8Decode(r.value));
          o == Return(|impls| > 0) &&
          state.Value() == old(state.Value()).(getImplementationsResult := Some(encodeUris(impls)))
    {
      var uri := ReadString(uriPtr, uriLen);
      if uri.None? {
        return RangeError;
      }
      var result := getImplementations(uri.value);
      state.getImplementationsResult := Some(encodeUris(result));
      return Return(|result| > 0);
    }

    method GetImplementationsResultLen() returns (o: Outcome<nat>)
      ensures state.getImplementationsResult.None? ==> o == Abort(IMPLEMENTATIONS_RESULT_LEN_UNSET)
      ensures state.getImplementationsResult.Some? ==> o == Return(|state.getImplementationsResult.value|)
    {
      if state.getImplementationsResult.None? {
        return Abort(IMPLEMENTATIONS_RESULT_LEN_UNSET);
      }
      return Return(|state.getImplementationsResult.value|);
    }

    method GetImplementationsResult(ptr: nat) returns (o: Outcome<()>)
      modifies memory
      ensures state.getImplementationsResult.None? ==>
        o == Abort(IMPLEMENTATIONS_RESULT_UNSET) && memory[..] == old(memory[..])
      ensures state.getImplementationsResult.Some? ==>
        CopiedIn(state.getImplementationsResult.value, ptr, o, old(memory[..]))
    {
      if state.getImplementationsResult.None? {
        return Abort(IMPLEMENTATIONS_RESULT_UNSET);
      }
      o := CopyIn(state.getImplementationsResult.value, ptr);
    }

    /** `__wrap_load_env`: copy the environment in when there is one; otherwise do nothing. */
    method LoadEnv(ptr: nat) returns (o: Outcome<()>)
      modifies memory
      ensures state.env.None? ==> o == Return(()) && memory[..] == old(memory[..])
      ensures state.env.Some? ==> CopiedIn(state.env.value, ptr, o, old(memory[..]))
    {
      if state.env.Some? {
        o := CopyIn(state.env.value, ptr);
      } else {
        o := Return(());
      }
    }

    method SanitizeEnvArgs(ptr: nat) returns (o: Outcome<()>)
      modifies memory
      ensures state.sanitizeEnvArgs.None? ==> o == Abort(SANITIZE_ENV_ARGS_UNSET) && memory[..] == old(memory[..])
      ensures state.sanitizeEnvArgs.Some? ==> CopiedIn(state.sanitizeEnvArgs.value, ptr, o, old(memory[..]))
    {
      if state.sanitizeEnvArgs.None? {
        return Abort(SANITIZE_ENV_ARGS_UNSET);
      }
      o := CopyIn(state.sanitizeEnvArgs.value, ptr);
    }

    method SanitizeEnvResult(ptr: nat, len: nat) returns (o: Outcome<()>)
      modifies state
      ensures var r := ReadRegion(memory[..], ptr, len);
        if r.None? then o == RangeError && state.Value() == old(state.Value())
        else o == Return(()) && state.Value() == old(state.Value()).(sanitizeEnvResult := r)
    {
      var bytes := ReadBytes(ptr, len);
      if bytes.None? {
        return RangeError;
      }
      state.sanitizeEnvResult := bytes;
      return Return(());
    }

    /** `__wrap_abort`: abort with the module's message, file and position. */
    method WrapAbort(msgPtr: nat, msgLen: nat, filePtr: nat, fileLen: nat, line: nat, column: nat)
      returns (o: Outcome<()>)
      ensures var m := memory[..];
        if !Fits(|m|, msgPtr, msgLen) || !Fits(|m|, filePtr, fileLen) then o == RangeError
        else o == Abort(AbortMessage(utf8Decode(m[msgPtr..msgPtr + msgLen]), utf8Decode(m[filePtr..filePtr + fileLen]), line, column))
    {
      var msg := ReadString(msgPtr, msgLen);
      var file := ReadString(filePtr, fileLen);
      if msg.None? || file.None? {
        return RangeError;
      }
      return Abort(AbortMessage(msg.value, file.value, line, column));
    }

    /** Memory after copying `bytes` in at `ptr`, from `m`, given how the copy ended. */
    ghost predicate CopiedIn(bytes: seq<byte>, ptr: nat, o: Outcome<()>, m: seq<byte>)
      reads memory
    {
      if Fits(|m|, ptr, |bytes|) then o == Return(()) && memory[..] == Splice(m, ptr, bytes)
      else o == RangeError && memory[..] == m
    }

    method CopyIn(bytes: seq<byte>, ptr: nat) returns (o: Outcome<()>)
      modifies memory
      ensures CopiedIn(bytes, ptr, o, old(memory[..]))
    {
      var ok := WriteBytes(bytes, ptr);
      o := if ok then Return(()) else RangeError;
    }
  }
}
