/**
 * The client half of the rpc package: setFuncField, which validates a service
 * struct and installs a remote-call stub in each settable field; the stub
 * itself; and Client.Invoke / Client.Send over a pool of connections.
 */
module RpcClient {
  import opened Wire
  import opened Json
  import opened Transport

  /** The UTF-8 text of "rpc: 不支持 nil" (nil is not supported). */
  const NilService := Err([
    0x72, 0x70, 0x63, 0x3a, 0x20, 0xe4, 0xb8, 0x8d, 0xe6, 0x94, 0xaf, 0xe6, 0x8c, 0x81,
    0x20, 0x6e, 0x69, 0x6c])

  /** The UTF-8 text of "rpc: 只支持指向结构体的一级指针" (only a pointer to a
      struct is supported). */
  const NotStructPointer := Err([
    0x72, 0x70, 0x63, 0x3a, 0x20, 0xe5, 0x8f, 0xaa, 0xe6, 0x94, 0xaf, 0xe6, 0x8c, 0x81,
    0xe6, 0x8c, 0x87, 0xe5, 0x90, 0x91, 0xe7, 0xbb, 0x93, 0xe6, 0x9e, 0x84, 0xe4, 0xbd,
    0x93, 0xe7, 0x9a, 0x84, 0xe4, 0xb8, 0x80, 0xe7, 0xba, 0xa7, 0xe6, 0x8c, 0x87, 0xe9,
    0x92, 0x88])

  /** What a struct field holds: whatever the program put there, or the stub
      setFuncField installs, which calls methodName of serviceName remotely
      through proxy (calling it is proxy.Call(.., serviceName, methodName, ..)). */
  datatype FieldValue = Local(id: nat) | Remote(proxy: Client, serviceName: string, methodName: string)

  /** One field of the service struct as reflection sees it: its name, whether
      CanSet allows writing it (unexported fields do not), whether its type is
      a function type, and its current value. */
  datatype Field = Field(name: string, settable: bool, isFunc: bool, value: FieldValue)

  /** The field after setFuncField has visited it: a settable field now holds
      the remote stub for the method of the same name, any other is untouched. */
  function Install(p: Client, serviceName: string, f: Field): (g: Field)
    ensures g.name == f.name && g.settable == f.settable && g.isFunc == f.isFunc
    ensures f.settable ==> g.value == Remote(p, serviceName, f.name)
    ensures !f.settable ==> g == f
  {
    if f.settable then f.(value := Remote(p, serviceName, f.name)) else f
  }

  /** A settable field whose type is not a function type: reflect.MakeFunc panics on it. */
  predicate Misfit(f: Field)
  {
    f.settable && !f.isFunc
  }

  /** The position of the first misfit field, or |fields| when there is none. */
  function FirstMisfit(fields: seq<Field>): (k: nat)
    ensures k <= |fields|
    ensures forall j :: 0 <= j < k ==> !Misfit(fields[j])
    ensures k < |fields| ==> Misfit(fields[k])
    decreases |fields|
  {
    if fields == [] || Misfit(fields[0]) then 0
    else 1 + FirstMisfit(fields[1..])
  }

  /**
   * The Service value handed to setFuncField when it is not a nil interface:
   * the name its Name() method reports, whether its dynamic type is a pointer
   * to a struct, whether that pointer is nil, and the struct's fields in
   * declaration order.
   */
  class Target {
    const name: string
    const isStructPointer: bool
    const isNilPointer: bool
    const fields: array<Field>

    constructor (name: string, isStructPointer: bool, isNilPointer: bool, fields: seq<Field>)
      ensures this.name == name && this.isStructPointer == isStructPointer && this.isNilPointer == isNilPointer
      ensures this.fields[..] == fields && fresh(this.fields)
    {
      this.name := name;
      this.isStructPointer := isStructPointer;
      this.isNilPointer := isNilPointer;
      this.fields := new Field[|fields|](i requires 0 <= i < |fields| => fields[i]);
    }
  }

  /**
   * setFuncField. A nil service and a value that is not a pointer to a struct
   * are refused with an error before anything is touched. Otherwise every
   * settable field, in order, is replaced by the remote stub that calls
   * through p. A nil pointer has no fields to reach, so the first field access
   * panics; a settable field that is not a function makes reflect.MakeFunc
   * panic, with the fields before it already replaced.
   */
  method SetFuncField(service: Target?, p: Client) returns (r: Outcome<Option<Err>>)
    modifies if service == null then {} else {service.fields}
    ensures service == null ==> r == Returned(Some(NilService))
    ensures service != null && !service.isStructPointer ==>
      r == Returned(Some(NotStructPointer)) && service.fields[..] == old(service.fields[..])
    ensures service != null && service.isStructPointer && service.isNilPointer ==>
      && service.fields[..] == old(service.fields[..])
      && r == (if service.fields.Length == 0 then Returned(None) else Panicked)
    ensures service != null && service.isStructPointer && !service.isNilPointer ==>
      var k := FirstMisfit(old(service.fields[..]));
      && r == (if k == service.fields.Length then Returned(None) else Panicked)
      && forall j :: 0 <= j < service.fields.Length ==>
           service.fields[j] == if j < k then Install(p, service.name, old(service.fields[j])) else old(service.fields[j])
  {
    if service == null {
      return Returned(Some(NilService));
    }
    if !service.isStructPointer {
      return Returned(Some(NotStructPointer));
    }
    var fields := service.fields;
    if service.isNilPointer {
      // val.Elem() is the zero Value, and val.Field(i) on it panics
      r := if fields.Length == 0 then Returned(None) else Panicked;
      return;
    }
    ghost var before := fields[..];
    var i := 0;
    while i < fields.Length
      invariant 0 <= i <= fields.Length
      invariant forall j :: 0 <= j < i ==> !Misfit(before[j])
      invariant forall j :: 0 <= j < fields.Length ==>
        fields[j] == if j < i then Install(p, service.name, before[j]) else before[j]
    {
      var f := fields[i];
      if f.settable {
        if !f.isFunc {
          FirstMisfitAt(before, i);
          return Panicked;
        }
        fields[i] := f.(value := Remote(p, service.name, f.name));
      }
      i := i + 1;
    }
    FirstMisfitAt(before, i);
    r := Returned(None);
  }

  /** FirstMisfit is the position i once every field before i fits and the
      field at i (if any) is a misfit. */
  lemma {:induction false} FirstMisfitAt(fields: seq<Field>, i: nat)
    requires i <= |fields|
    requires forall j :: 0 <= j < i ==> !Misfit(fields[j])
    requires i < |fields| ==> Misfit(fields[i])
    ensures FirstMisfit(fields) == i
    decreases i
  {
    if i > 0 {
      FirstMisfitAt(fields[1..], i - 1);
    }
  }

  /**
   * The connection pool, as an idle collection: Get hands out the oldest idle
   * connection, or else dials a new one (the next of dials), or else reports
   * dialErr; Put returns a connection to the idle collection.
   */
  class Pool {
    var idle: seq<Conn>
    var dials: seq<Conn>
    const dialErr: Err

    constructor (idle: seq<Conn>, dials: seq<Conn>, dialErr: Err)
      ensures this.idle == idle && this.dials == dials && this.dialErr == dialErr
    {
      this.idle := idle;
      this.dials := dials;
      this.dialErr := dialErr;
    }

    /** The connection the next Get hands out, if any. */
    function Next(): (c: Option<Conn>)
      reads this
      ensures c.None? <==> idle == [] && dials == []
      ensures c.Some? ==> c.value in idle + dials
    {
      if idle != [] then Some(idle[0])
      else if dials != [] then Some(dials[0])
      else None
    }

    /** The connections a Get can touch. */
    function Borrowed(): set<Conn>
      reads this
    {
      if Next().Some? then {Next().value} else {}
    }

    /** pool.Get() */
    method Get() returns (r: Result<Conn>)
      modifies this`idle, this`dials
      ensures old(Next()).None? ==> r == Failure(dialErr) && idle == old(idle) && dials == old(dials)
      ensures old(Next()).Some? ==> r == Success(old(Next()).value)
      ensures old(idle) != [] ==> idle == old(idle)[1..] && dials == old(dials)
      ensures old(idle) == [] && old(dials) != [] ==> idle == [] && dials == old(dials)[1..]
    {
      if idle != [] {
        r := Success(idle[0]);
        idle := idle[1..];
      } else if dials != [] {
        r := Success(dials[0]);
        dials := dials[1..];
      } else {
        r := Failure(dialErr);
      }
    }

    /** pool.Put(conn) */
    method Put(c: Conn)
      modifies this`idle
      ensures idle == old(idle) + [c]
    {
      idle := idle + [c];
    }
  }

  /** The (result, error) pair the installed stub returns: the value the fresh
      result pointer points at, and the error. */
  datatype CallResult<+V> = CallResult(value: V, err: Option<Err>)

  /** The request the stub sends: service and method name, the marshalled
      argument, every other header field left zero, lengths computed last. */
  function NewRequest(codec: Codec, serviceName: string, methodName: string, data: Bytes): (r: Request)
    ensures r.serviceName == serviceName && r.methodName == methodName && r.data == data
    ensures r.requestId == 0 && r.version == 0 && r.compresser == 0 && r.serializer == 0
    ensures var bare := r.(headLength := 0, bodyLength := 0);
      r.headLength == codec.reqHeaderLength(bare) && r.bodyLength == codec.reqBodyLength(bare.(headLength := r.headLength))
  {
    StampRequest(codec, EmptyRequest.(serviceName := serviceName, methodName := methodName, data := data))
  }

  /**
   * How the stub reads a response: a non-empty Error becomes the returned
   * error, with that text; non-empty Data is unmarshalled into the result
   * whatever Error says, and an unmarshal failure replaces the remote error.
   */
  function Interpret<V>(resultType: GoType<V>, resp: Response): (r: CallResult<V>)
    ensures resp.data == [] ==> r.value == resultType.zero
    ensures resp.data != [] ==> r.value == resultType.unmarshal(resp.data).value
    ensures resp.data != [] && resultType.unmarshal(resp.data).err.Some? ==> r.err == resultType.unmarshal(resp.data).err
    ensures (resp.data == [] || resultType.unmarshal(resp.data).err.None?) ==>
      r.err == if resp.error == [] then None else Some(Err(resp.error))
  {
    var remote := if |resp.error| > 0 then Some(Err(resp.error)) else None;
    if |resp.data| > 0 then
      var decoded := resultType.unmarshal(resp.data);
      if decoded.err.Some? then CallResult(decoded.value, decoded.err)
      else CallResult(decoded.value, remote)
    else CallResult(resultType.zero, remote)
  }

  /** The stub's error is nil exactly when the response carries no error text
      and its data (if any) decodes. */
  lemma InterpretSucceeds<V>(resultType: GoType<V>, resp: Response)
    ensures Interpret(resultType, resp).err.None? <==>
      resp.error == [] && (resp.data == [] || resultType.unmarshal(resp.data).err.None?)
  {
  }

  /** The stub never looks at the response's header: a response carrying any
      other request id (or version, compressor, serializer, lengths) is read
      the same way. */
  lemma InterpretIgnoresHeader<V>(resultType: GoType<V>, resp: Response, other: Response)
    requires other.error == resp.error && other.data == resp.data
    ensures Interpret(resultType, other) == Interpret(resultType, resp)
  {
  }

  /** The stub's result for what Invoke returned: a transport failure is
      returned with the zero result. */
  function Finish<V>(resultType: GoType<V>, sent: Result<Response>): (r: CallResult<V>)
    ensures sent.Failure? ==> r == CallResult(resultType.zero, Some(sent.error))
    ensures sent.Success? ==> r == Interpret(resultType, sent.value)
  {
    match sent
    case Failure(e) => CallResult(resultType.zero, Some(e))
    case Success(resp) => Interpret(resultType, resp)
  }

  /** What Client.Invoke makes of what Send returned. */
  function Received(codec: Codec, sent: Result<Bytes>): (r: Result<Response>)
    ensures sent.Failure? ==> r == Failure(sent.error)
    ensures sent.Success? ==> r == Success(codec.decodeResp(sent.value))
  {
    match sent
    case Failure(e) => Failure(e)
    case Success(b) => Success(codec.decodeResp(b))
  }

  class Client {
    const pool: Pool

    constructor (pool: Pool)
      ensures this.pool == pool
    {
      this.pool := pool;
    }

    /**
     * Client.Send: borrow a connection, write the frame, read one frame back.
     * A failed Get returns its error and writes nothing; otherwise the
     * connection goes back to the pool on every path, even after a failed
     * write or read.
     */
    method Send(data: Bytes) returns (r: Result<Bytes>)
      modifies pool`idle, pool`dials, pool.Borrowed()`incoming, pool.Borrowed()`written, pool.Borrowed()`writesLeft
      ensures old(pool.Next()).None? ==>
        r == Failure(pool.dialErr) && pool.idle == old(pool.idle) && pool.dials == old(pool.dials)
      ensures old(pool.Next()).Some? ==>
        var c := old(pool.Next()).value;
        && r == old(Exchange(c, data))
        && pool.idle == old(if pool.idle != [] then pool.idle[1..] else []) + [c]
        && pool.dials == old(if pool.idle == [] && pool.dials != [] then pool.dials[1..] else pool.dials)
        && c.written == old(c.written) + (if old(c.writesLeft) > 0 then [data] else [])
        && c.writesLeft == (if old(c.writesLeft) > 0 then old(c.writesLeft) - 1 else 0)
        && c.incoming == if old(c.writesLeft) > 0 && old(c.incoming) != [] then old(c.incoming)[1..] else old(c.incoming)
    {
      var got := pool.Get();
      if got.Failure? {
        return Failure(got.error);
      }
      var c := got.value;
      var err := c.Write(data);
      if err.Some? {
        r := Failure(err.value);
      } else {
        r := c.ReadMsg();
      }
      pool.Put(c);
    }

    /** Client.Invoke: encode, send, and decode whatever frame comes back,
        without comparing its request id with the request's. */
    method Invoke(codec: Codec, req: Request) returns (r: Result<Response>)
      modifies pool`idle, pool`dials, pool.Borrowed()`incoming, pool.Borrowed()`written, pool.Borrowed()`writesLeft
      ensures old(pool.Next()).None? ==>
        r == Failure(pool.dialErr) && pool.idle == old(pool.idle) && pool.dials == old(pool.dials)
      ensures old(pool.Next()).Some? ==>
        var c := old(pool.Next()).value;
        var data := codec.encodeReq(req);
        && r == Received(codec, old(Exchange(c, data)))
        && pool.idle == old(if pool.idle != [] then pool.idle[1..] else []) + [c]
        && pool.dials == old(if pool.idle == [] && pool.dials != [] then pool.dials[1..] else pool.dials)
        && c.written == old(c.written) + (if old(c.writesLeft) > 0 then [data] else [])
        && c.writesLeft == (if old(c.writesLeft) > 0 then old(c.writesLeft) - 1 else 0)
        && c.incoming == if old(c.writesLeft) > 0 && old(c.incoming) != [] then old(c.incoming)[1..] else old(c.incoming)
    {
      var sent := Send(codec.encodeReq(req));
      r := Received(codec, sent);
    }

    /**
     * The stub setFuncField installs for method methodName of serviceName,
     * called with arg: marshal the argument, build and stamp the request,
     * invoke, and read the response. A marshal failure sends nothing.
     */
    method Call<V>(codec: Codec, marshal: Marshal<V>, resultType: GoType<V>,
                   serviceName: string, methodName: string, arg: V) returns (r: CallResult<V>)
      modifies pool`idle, pool`dials, pool.Borrowed()`incoming, pool.Borrowed()`written, pool.Borrowed()`writesLeft
      ensures marshal(arg).Failure? ==>
        r == CallResult(resultType.zero, Some(marshal(arg).error)) &&
        pool.idle == old(pool.idle) && pool.dials == old(pool.dials)
      ensures marshal(arg).Failure? && old(pool.Next()).Some? ==>
        var c := old(pool.Next()).value;
        c.written == old(c.written) && c.writesLeft == old(c.writesLeft) && c.incoming == old(c.incoming)
      ensures marshal(arg).Success? && old(pool.Next()).None? ==>
        r == CallResult(resultType.zero, Some(pool.dialErr)) &&
        pool.idle == old(pool.idle) && pool.dials == old(pool.dials)
      ensures marshal(arg).Success? && old(pool.Next()).Some? ==>
        var c := old(pool.Next()).value;
        var data := codec.encodeReq(NewRequest(codec, serviceName, methodName, marshal(arg).value));
        && r == Finish(resultType, Received(codec, old(Exchange(c, data))))
        && pool.idle == old(if pool.idle != [] then pool.idle[1..] else []) + [c]
        && pool.dials == old(if pool.idle == [] && pool.dials != [] then pool.dials[1..] else pool.dials)
        && c.written == old(c.written) + (if old(c.writesLeft) > 0 then [data] else [])
        && c.writesLeft == (if old(c.writesLeft) > 0 then old(c.writesLeft) - 1 else 0)
        && c.incoming == if old(c.writesLeft) > 0 && old(c.incoming) != [] then old(c.incoming)[1..] else old(c.incoming)
    {
      var data := marshal(arg);
      if data.Failure? {
        return CallResult(resultType.zero, Some(data.error));
      }
      var req := NewRequest(codec, serviceName, methodName, data.value);
      var resp := Invoke(codec, req);
      r := Finish(resultType, resp);
    }
  }
}
