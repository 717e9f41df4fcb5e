/**
 * The server half of the rpc package: a registry from service name to a
 * reflection stub, the dispatcher Invoke, and handleConn, the per-connection
 * loop that reads a frame, invokes, and writes one response back.
 */
module RpcServer {
  import opened Wire
  import opened Json
  import opened Transport

  /** What a service method returns: its result pointer (None for a nil
      pointer) and its error. */
  datatype MethodResult<+V> = MethodResult(result: Option<V>, err: Option<Err>)

  /** A method as reflection finds it by name: the type its argument pointer
      points to, and the call itself (the context argument is never consulted). */
  datatype Method<!V> = Method(argType: GoType<V>, call: V -> MethodResult<V>)

  /** A Service: the name its Name() method gives, and its method set. */
  datatype Service<!V> = Service(name: string, methods: map<string, Method<V>>)

  /** The ([]byte, error) pair reflectionStub.invoke returns. */
  datatype Reply = Reply(data: Bytes, err: Option<Err>)

  /** The (*Response, error) pair Server.Invoke returns. */
  datatype Answer = Answer(resp: Option<Response>, err: Option<Err>)

  /** How handleConn ends: it returns an error, or it panics. */
  datatype ConnEnd = Stopped(err: Err) | Crashed

  /** What one connection sees: the frames written to it and how serving it ended. */
  datatype Transcript = Transcript(written: seq<Bytes>, end: ConnEnd)

  /** The UTF-8 text of the error Invoke reports for an unknown service
      ("the service you want to call does not exist"). */
  const ServiceNotFound := Err([
    0xe4, 0xbd, 0xa0, 0xe8, 0xa6, 0x81, 0xe8, 0xb0, 0x83, 0xe7, 0x94, 0xa8, 0xe7, 0x9a, 0x84,
    0xe6, 0x9c, 0x8d, 0xe5, 0x8a, 0xa1, 0xe4, 0xb8, 0x8d, 0xe5, 0xad, 0x98, 0xe5, 0x9c, 0xa8])

  /** reflectionStub: the registered service, reached by reflection. */
  datatype Stub<!V> = Stub(service: Service<V>) {

    /**
     * reflectionStub.invoke. An unknown method name leaves MethodByName with an
     * invalid value whose Type() panics. Otherwise the argument is decoded into
     * a fresh pointer, the method is called, and a non-nil result is marshalled.
     */
    function Invoke(marshal: Marshal<V>, methodName: string, data: Bytes): (r: Outcome<Reply>)
      ensures r.Panicked? <==> methodName !in service.methods
      ensures methodName in service.methods ==>
        var m := service.methods[methodName];
        var arg := m.argType.unmarshal(data);
        && (arg.err.Some? ==> r == Returned(Reply([], arg.err)))
        && (arg.err.None? ==>
              var out := m.call(arg.value);
              && (out.result.None? ==> r == Returned(Reply([], out.err)))
              && (out.result.Some? && marshal(out.result.value).Failure? ==>
                    r == Returned(Reply([], Some(marshal(out.result.value).error))))
              && (out.result.Some? && marshal(out.result.value).Success? ==>
                    r == Returned(Reply(marshal(out.result.value).value, out.err))))
    {
      if methodName !in service.methods then Panicked
      else
        var m := service.methods[methodName];
        var arg := m.argType.unmarshal(data);
        if arg.err.Some? then Returned(Reply([], arg.err))
        else
          var out := m.call(arg.value);
          match out.result
          case None => Returned(Reply([], out.err))
          case Some(v) =>
            match marshal(v)
            case Failure(e) => Returned(Reply([], Some(e)))
            case Success(b) => Returned(Reply(b, out.err))
    }
  }

  /** A stub's reply does not depend on the method when the argument does not
      decode: the method is never called. */
  lemma StubSkipsCallOnBadArgument<V>(marshal: Marshal<V>, name: string, methods: map<string, Method<V>>,
                                      methodName: string, call: V -> MethodResult<V>, data: Bytes)
    requires methodName in methods
    requires methods[methodName].argType.unmarshal(data).err.Some?
    ensures var other := methods[methodName := methods[methodName].(call := call)];
      Stub(Service(name, methods)).Invoke(marshal, methodName, data)
        == Stub(Service(name, other)).Invoke(marshal, methodName, data)
        == Returned(Reply([], methods[methodName].argType.unmarshal(data).err))
  {
  }

  /** Server.services: service name to stub. */
  type Registry<!V> = map<string, Stub<V>>

  /** The registry after RegisterServer(service). */
  function Registered<V>(services: Registry<V>, service: Service<V>): (r: Registry<V>)
    ensures service.name in r && r[service.name] == Stub(service)
    ensures r.Keys == services.Keys + {service.name}
    ensures forall n :: n in services && n != service.name ==> r[n] == services[n]
  {
    services[service.name := Stub(service)]
  }

  /** Registering twice under one name keeps only the later service. */
  lemma LastRegistrationWins<V>(services: Registry<V>, first: Service<V>, second: Service<V>)
    requires first.name == second.name
    ensures Registered(Registered(services, first), second) == Registered(services, second)
  {
  }

  /** resp carries the four header fields of req, as Invoke copies them. */
  predicate EchoesHeader(req: Request, resp: Response)
  {
    && resp.requestId == req.requestId
    && resp.version == req.version
    && resp.compresser == req.compresser
    && resp.serializer == req.serializer
  }

  /** The request names a registered service and one of its methods. */
  predicate Serves<V>(services: Registry<V>, req: Request)
  {
    req.serviceName in services && req.methodName in services[req.serviceName].service.methods
  }

  /** Server.Invoke, on the server's registry. */
  function Invoke<V>(services: Registry<V>, marshal: Marshal<V>, req: Request): (r: Outcome<Answer>)
    ensures req.serviceName !in services ==> r == Returned(Answer(None, Some(ServiceNotFound)))
    ensures r.Panicked? <==> req.serviceName in services && !Serves(services, req)
    ensures r.Returned? && r.value.resp.None? ==> req.serviceName !in services
    ensures r.Returned? && req.serviceName in services ==>
      var reply := services[req.serviceName].Invoke(marshal, req.methodName, req.data).value;
      && r.value.resp.Some?
      && EchoesHeader(req, r.value.resp.value)
      && r.value.resp.value.data == reply.data
      && r.value.resp.value.error == []
      && r.value.resp.value.headLength == 0 && r.value.resp.value.bodyLength == 0
      && r.value.err == reply.err
  {
    var resp := EmptyResponse.(requestId := req.requestId, version := req.version,
                               compresser := req.compresser, serializer := req.serializer);
    if req.serviceName !in services then Returned(Answer(None, Some(ServiceNotFound)))
    else
      match services[req.serviceName].Invoke(marshal, req.methodName, req.data)
      case Panicked => Panicked
      case Returned(reply) => Returned(Answer(Some(resp.(data := reply.data)), reply.err))
  }

  /**
   * One turn of handleConn's loop after a frame has been read: decode it,
   * invoke, put the error text into the response, restamp the lengths.
   * A nil response (unknown service) is dereferenced and panics.
   */
  function HandleFrame<V>(services: Registry<V>, codec: Codec, marshal: Marshal<V>, frame: Bytes): (r: Outcome<Response>)
    ensures r.Panicked? <==> !Serves(services, codec.decodeReq(frame))
  {
    var req := codec.decodeReq(frame);
    match Invoke(services, marshal, req)
    case Panicked => Panicked
    case Returned(answer) =>
      if answer.resp.None? then Panicked
      else
        var resp := if answer.err.Some? then answer.resp.value.(error := answer.err.value.text)
                    else answer.resp.value;
        Returned(StampResponse(codec, resp))
  }

  /** The response handleConn writes for a frame naming a registered method:
      the request's header fields, the stub's bytes, the text of its error
      (empty when there is none), and lengths the codec computes from the
      response as it is sent. */
  lemma HandleFrameResponds<V>(services: Registry<V>, codec: Codec, marshal: Marshal<V>, frame: Bytes)
    requires Serves(services, codec.decodeReq(frame))
    ensures var r := HandleFrame(services, codec, marshal, frame);
      var req := codec.decodeReq(frame);
      var reply := services[req.serviceName].Invoke(marshal, req.methodName, req.data).value;
      && r.Returned?
      && EchoesHeader(req, r.value)
      && r.value.data == reply.data
      && r.value.error == ErrorText(reply.err)
      && r.value.headLength == codec.respHeaderLength(r.value.(headLength := 0, bodyLength := 0))
      && r.value.bodyLength == codec.respBodyLength(r.value.(bodyLength := 0))
  {
  }

  /** The outcome of HandleFrame on each frame, in order. */
  ghost function Outcomes<V>(services: Registry<V>, codec: Codec, marshal: Marshal<V>, frames: seq<Bytes>)
    : (outs: seq<Outcome<Response>>)
    ensures |outs| == |frames|
    decreases |frames|
  {
    if frames == [] then []
    else [HandleFrame(services, codec, marshal, frames[0])] + Outcomes(services, codec, marshal, frames[1..])
  }

  lemma {:induction false} OutcomeAt<V>(services: Registry<V>, codec: Codec, marshal: Marshal<V>, frames: seq<Bytes>, i: nat)
    requires i < |frames|
    ensures Outcomes(services, codec, marshal, frames)[i] == HandleFrame(services, codec, marshal, frames[i])
    decreases |frames|
  {
    if i > 0 {
      OutcomeAt(services, codec, marshal, frames[1..], i - 1);
    }
  }

  /** What handleConn has written and how it ends, given the outcome of each
      frame its peer sends (from position i on), what it had written before,
      the error the reader reports after the last frame, and the number of
      writes the transport still accepts. */
  ghost function Transcribe(codec: Codec, outcomes: seq<Outcome<Response>>, i: nat, sent: seq<Bytes>,
                            readErr: Err, writesLeft: nat, writeErr: Err): Transcript
    decreases |outcomes| - i
  {
    if i >= |outcomes| then Transcript(sent, Stopped(readErr))
    else
      match outcomes[i]
      case Panicked => Transcript(sent, Crashed)
      case Returned(resp) =>
        if writesLeft == 0 then Transcript(sent, Stopped(writeErr))
        else Transcribe(codec, outcomes, i + 1, sent + [codec.encodeResp(resp)], readErr, writesLeft - 1, writeErr)
  }

  /** What handleConn does with a connection whose peer sends frames, whose
      reader then reports readErr, and which accepts writesLeft writes. */
  ghost function Serve<V>(services: Registry<V>, codec: Codec, marshal: Marshal<V>, frames: seq<Bytes>,
                          readErr: Err, writesLeft: nat, writeErr: Err): Transcript
  {
    Transcribe(codec, Outcomes(services, codec, marshal, frames), 0, [], readErr, writesLeft, writeErr)
  }

  /** The index of the first frame that crashes the server, or |frames|. */
  ghost function CrashIndex<V>(services: Registry<V>, codec: Codec, frames: seq<Bytes>): (k: nat)
    ensures k <= |frames|
    ensures forall i :: 0 <= i < k ==> Serves(services, codec.decodeReq(frames[i]))
    ensures k < |frames| ==> !Serves(services, codec.decodeReq(frames[k]))
    decreases |frames|
  {
    if frames == [] then 0
    else if !Serves(services, codec.decodeReq(frames[0])) then 0
    else 1 + CrashIndex(services, codec, frames[1..])
  }

  /** What was written before is kept as it was, in front of what is written
      from now on. */
  lemma {:induction false} TranscribeKeepsSent(codec: Codec, outcomes: seq<Outcome<Response>>, i: nat, sent: seq<Bytes>,
                                               readErr: Err, writesLeft: nat, writeErr: Err)
    ensures var t := Transcribe(codec, outcomes, i, [], readErr, writesLeft, writeErr);
      Transcribe(codec, outcomes, i, sent, readErr, writesLeft, writeErr) == Transcript(sent + t.written, t.end)
    decreases |outcomes| - i
  {
    if i < |outcomes| && outcomes[i].Returned? && writesLeft > 0 {
      var b := codec.encodeResp(outcomes[i].value);
      TranscribeKeepsSent(codec, outcomes, i + 1, sent + [b], readErr, writesLeft - 1, writeErr);
      TranscribeKeepsSent(codec, outcomes, i + 1, [b], readErr, writesLeft - 1, writeErr);
      assert [] + [b] == [b];
      var rest := Transcribe(codec, outcomes, i + 1, [], readErr, writesLeft - 1, writeErr);
      assert (sent + [b]) + rest.written == sent + ([b] + rest.written);
    } else {
      assert sent + [] == sent;
    }
  }

  /** At most one frame is written per outcome. */
  lemma {:induction false} TranscribeLength(codec: Codec, outcomes: seq<Outcome<Response>>, i: nat, sent: seq<Bytes>,
                                            readErr: Err, writesLeft: nat, writeErr: Err)
    requires i <= |outcomes|
    ensures var t := Transcribe(codec, outcomes, i, sent, readErr, writesLeft, writeErr);
      |sent| <= |t.written| <= |sent| + |outcomes| - i
    decreases |outcomes| - i
  {
    if i < |outcomes| && outcomes[i].Returned? && writesLeft > 0 {
      TranscribeLength(codec, outcomes, i + 1, sent + [codec.encodeResp(outcomes[i].value)], readErr, writesLeft - 1, writeErr);
    }
  }

  /** The frame written at position j (past what had been written before) is
      the encoding of the response for the outcome at the matching position. */
  lemma {:induction false} TranscribeAt(codec: Codec, outcomes: seq<Outcome<Response>>, i: nat, sent: seq<Bytes>,
                                        readErr: Err, writesLeft: nat, writeErr: Err, j: nat)
    requires |sent| <= j < |Transcribe(codec, outcomes, i, sent, readErr, writesLeft, writeErr).written|
    ensures var t := Transcribe(codec, outcomes, i, sent, readErr, writesLeft, writeErr);
      && i + j - |sent| < |outcomes|
      && outcomes[i + j - |sent|].Returned?
      && t.written[j] == codec.encodeResp(outcomes[i + j - |sent|].value)
    decreases |outcomes| - i
  {
    var b := codec.encodeResp(outcomes[i].value);
    var sent' := sent + [b];
    if j == |sent| {
      TranscribeKeepsSent(codec, outcomes, i + 1, sent', readErr, writesLeft - 1, writeErr);
      assert (sent' + Transcribe(codec, outcomes, i + 1, [], readErr, writesLeft - 1, writeErr).written)[j] == sent'[j];
    } else {
      TranscribeAt(codec, outcomes, i + 1, sent', readErr, writesLeft - 1, writeErr, j);
    }
  }

  /** With k the position of the first panic at or after i (or the number of
      outcomes), min(k - i, writesLeft) frames are added, and the first event
      that stops the loop decides how it ends. */
  lemma {:induction false} TranscribeEnds(codec: Codec, outcomes: seq<Outcome<Response>>, i: nat, k: nat, sent: seq<Bytes>,
                                          readErr: Err, writesLeft: nat, writeErr: Err)
    requires i <= k <= |outcomes|
    requires forall j :: i <= j < k ==> outcomes[j].Returned?
    requires k < |outcomes| ==> outcomes[k].Panicked?
    ensures var t := Transcribe(codec, outcomes, i, sent, readErr, writesLeft, writeErr);
      var n := if k - i <= writesLeft then k - i else writesLeft;
      && |t.written| == |sent| + n
      && t.end == (if i + n == |outcomes| then Stopped(readErr) else if i + n == k then Crashed else Stopped(writeErr))
    decreases |outcomes| - i
  {
    if i < k && writesLeft > 0 {
      TranscribeEnds(codec, outcomes, i + 1, k, sent + [codec.encodeResp(outcomes[i].value)], readErr, writesLeft - 1, writeErr);
    }
  }

  /** handleConn writes one response per frame it reads, in read order, each
      the encoding of that frame's restamped response. */
  lemma ServeRespondsInOrder<V>(services: Registry<V>, codec: Codec, marshal: Marshal<V>,
                                frames: seq<Bytes>, readErr: Err, writesLeft: nat, writeErr: Err)
    ensures var t := Serve(services, codec, marshal, frames, readErr, writesLeft, writeErr);
      && |t.written| <= |frames|
      && forall i :: 0 <= i < |t.written| ==>
           HandleFrame(services, codec, marshal, frames[i]).Returned? &&
           t.written[i] == codec.encodeResp(HandleFrame(services, codec, marshal, frames[i]).value)
  {
    var outcomes := Outcomes(services, codec, marshal, frames);
    TranscribeLength(codec, outcomes, 0, [], readErr, writesLeft, writeErr);
    var t := Serve(services, codec, marshal, frames, readErr, writesLeft, writeErr);
    forall i | 0 <= i < |t.written|
      ensures HandleFrame(services, codec, marshal, frames[i]).Returned?
      ensures t.written[i] == codec.encodeResp(HandleFrame(services, codec, marshal, frames[i]).value)
    {
      TranscribeAt(codec, outcomes, 0, [], readErr, writesLeft, writeErr, i);
      OutcomeAt(services, codec, marshal, frames, i);
    }
  }

  /**
   * How many frames handleConn answers and how it ends: it stops at the first
   * frame that crashes it or at the first write the transport refuses,
   * whichever comes first; having answered every frame, it returns the read
   * error.
   */
  lemma ServeEnds<V>(services: Registry<V>, codec: Codec, marshal: Marshal<V>,
                     frames: seq<Bytes>, readErr: Err, writesLeft: nat, writeErr: Err)
    ensures var t := Serve(services, codec, marshal, frames, readErr, writesLeft, writeErr);
      var k := CrashIndex(services, codec, frames);
      var n := if k <= writesLeft then k else writesLeft;
      && |t.written| == n
      && t.end == (if n == |frames| then Stopped(readErr) else if n == k then Crashed else Stopped(writeErr))
  {
    var k := CrashIndex(services, codec, frames);
    var outcomes := Outcomes(services, codec, marshal, frames);
    forall j | 0 <= j < |frames|
      ensures outcomes[j].Panicked? <==> !Serves(services, codec.decodeReq(frames[j]))
    {
      OutcomeAt(services, codec, marshal, frames, j);
    }
    TranscribeEnds(codec, outcomes, 0, k, [], readErr, writesLeft, writeErr);
  }

  /** Business errors never end a connection: when every frame names a
      registered method and the transport takes every write, handleConn
      answers all of them and ends only on the read error. */
  lemma KeepsServing<V>(services: Registry<V>, codec: Codec, marshal: Marshal<V>,
                        frames: seq<Bytes>, readErr: Err, writesLeft: nat, writeErr: Err)
    requires forall i :: 0 <= i < |frames| ==> Serves(services, codec.decodeReq(frames[i]))
    requires |frames| <= writesLeft
    ensures var t := Serve(services, codec, marshal, frames, readErr, writesLeft, writeErr);
      |t.written| == |frames| && t.end == Stopped(readErr)
  {
    ServeEnds(services, codec, marshal, frames, readErr, writesLeft, writeErr);
  }

  /** A frame naming an unregistered service ends the connection with a crash,
      and nothing is written for it: no "service not found" response exists. */
  lemma UnknownServiceCrashes<V>(services: Registry<V>, codec: Codec, marshal: Marshal<V>,
                                 frames: seq<Bytes>, readErr: Err, writesLeft: nat, writeErr: Err)
    requires frames != [] && codec.decodeReq(frames[0]).serviceName !in services
    ensures Serve(services, codec, marshal, frames, readErr, writesLeft, writeErr) == Transcript([], Crashed)
  {
    OutcomeAt(services, codec, marshal, frames, 0);
  }

  class Server<V> {
    var services: Registry<V>

    /** NewServer */
    constructor ()
      ensures services == map[]
    {
      services := map[];
    }

    /** RegisterServer: last writer wins, no duplicate check. */
    method RegisterServer(service: Service<V>)
      modifies this
      ensures services == Registered(old(services), service)
    {
      services := services[service.name := Stub(service)];
    }

    /** handleConn */
    method HandleConn(conn: Conn, codec: Codec, marshal: Marshal<V>) returns (end: ConnEnd)
      modifies conn`incoming, conn`written, conn`writesLeft
      ensures var t := Serve(services, codec, marshal, old(conn.incoming), conn.readErr, old(conn.writesLeft), conn.writeErr);
        conn.written == old(conn.written) + t.written && end == t.end
      ensures var t := Serve(services, codec, marshal, old(conn.incoming), conn.readErr, old(conn.writesLeft), conn.writeErr);
        var n := |t.written|;
        && n <= |old(conn.incoming)|
        && conn.writesLeft == old(conn.writesLeft) - n
        && conn.incoming == old(conn.incoming)[if n < |old(conn.incoming)| then n + 1 else n..]
    {
      ghost var frames, before, budget := conn.incoming, conn.written, conn.writesLeft;
      ghost var outcomes := Outcomes(services, codec, marshal, frames);
      ghost var whole := Transcribe(codec, outcomes, 0, conn.written, conn.readErr, conn.writesLeft, conn.writeErr);
      TranscribeKeepsSent(codec, outcomes, 0, conn.written, conn.readErr, conn.writesLeft, conn.writeErr);
      ghost var i := 0;
      while true
        invariant i <= |frames| && conn.incoming == frames[i..]
        invariant whole == Transcribe(codec, outcomes, i, conn.written, conn.readErr, conn.writesLeft, conn.writeErr)
        invariant |conn.written| == |before| + i && conn.writesLeft + i == budget
        decreases |frames| - i
      {
        var frame := conn.ReadMsg();
        if frame.Failure? {
          return Stopped(frame.error);
        }
        var resp := HandleFrame(services, codec, marshal, frame.value);
        OutcomeAt(services, codec, marshal, frames, i);
        if resp.Panicked? {
          return Crashed;
        }
        var err := conn.Write(codec.encodeResp(resp.value));
        if err.Some? {
          return Stopped(err.value);
        }
        i := i + 1;
      }
    }

    /** The goroutine Start runs for each accepted connection: serve it, and
        close it when handleConn returns an error. */
    method ServeConn(conn: Conn, codec: Codec, marshal: Marshal<V>) returns (end: ConnEnd)
      modifies conn`incoming, conn`written, conn`writesLeft, conn`closed
      ensures var t := Serve(services, codec, marshal, old(conn.incoming), conn.readErr, old(conn.writesLeft), conn.writeErr);
        conn.written == old(conn.written) + t.written && end == t.end
      ensures var t := Serve(services, codec, marshal, old(conn.incoming), conn.readErr, old(conn.writesLeft), conn.writeErr);
        var n := |t.written|;
        && n <= |old(conn.incoming)|
        && conn.writesLeft == old(conn.writesLeft) - n
        && conn.incoming == old(conn.incoming)[if n < |old(conn.incoming)| then n + 1 else n..]
      ensures conn.closed <==> old(conn.closed) || end.Stopped?
    {
      end := HandleConn(conn, codec, marshal);
      if end.Stopped? {
        conn.Close();
      }
    }
  }
}
