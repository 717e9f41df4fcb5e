/**
 * A call made through an installed stub, followed across the wire: the
 * request the stub builds reaches the server's dispatcher, and the response
 * handleConn writes comes back to the stub. The codec round trips are stated
 * assumptions.
 */
module EndToEnd {
  import opened Wire
  import opened Json
  import opened RpcServer
  import opened RpcClient

  /** What the caller of a stub sees of a service method's reply once it has
      crossed the wire: only the data and the error text travel. */
  function Deliver<V>(resultType: GoType<V>, reply: Reply): CallResult<V>
  {
    Interpret(resultType, EmptyResponse.(data := reply.data, error := ErrorText(reply.err)))
  }

  /**
   * A stub call to a registered method: the server answers the request the
   * stub built (it does not crash), the answer carries the stub's request id,
   * and the stub returns what Deliver makes of the method's reply.
   */
  lemma RemoteCallDelivers<V>(services: Registry<V>, codec: Codec, marshal: Marshal<V>, resultType: GoType<V>,
                              serviceName: string, methodName: string, arg: V)
    requires RequestRoundTrip(codec) && ResponseRoundTrip(codec)
    requires marshal(arg).Success?
    requires serviceName in services && methodName in services[serviceName].service.methods
    ensures var req := NewRequest(codec, serviceName, methodName, marshal(arg).value);
      var out := HandleFrame(services, codec, marshal, codec.encodeReq(req));
      var reply := services[serviceName].Invoke(marshal, methodName, marshal(arg).value).value;
      && out.Returned?
      && out.value.requestId == req.requestId
      && Finish(resultType, Received(codec, Success(codec.encodeResp(out.value)))) == Deliver(resultType, reply)
  {
  }

  /** A method's result that marshals to bytes the caller's type decodes
      comes back as the stub's result, with a nil error. */
  lemma ResultSurvives<V>(resultType: GoType<V>, data: Bytes, v: V)
    requires data != [] && resultType.unmarshal(data) == Decoded(v, None)
    ensures Deliver(resultType, Reply(data, None)) == CallResult(v, None)
  {
  }

  /** A business error with a non-empty text reaches the caller with that
      text, beside whatever result the data decodes to. */
  lemma ErrorTextSurvives<V>(resultType: GoType<V>, data: Bytes, e: Err)
    requires e.text != []
    requires data == [] || resultType.unmarshal(data).err.None?
    ensures Deliver(resultType, Reply(data, Some(e))).err == Some(e)
  {
  }

  /** A business error whose text is empty is lost on the way: the server
      writes an empty Error field and the stub reports a nil error. */
  lemma EmptyErrorTextIsLost<V>(resultType: GoType<V>, data: Bytes, e: Err)
    requires e.text == []
    requires data == [] || resultType.unmarshal(data).err.None?
    ensures Deliver(resultType, Reply(data, Some(e))).err == None
  {
  }
}
