/**
 * Values exchanged by the rpc package: bytes, errors, the request and
 * response records of the message package, and the message package's codec,
 * whose byte layout is not part of this model and is therefore supplied as
 * a record of functions.
 */
module Wire {

  newtype u8 = x: int | 0 <= x < 0x100
  newtype u32 = x: int | 0 <= x < 0x1_0000_0000

  /** A Go []byte; a nil slice and an empty one are both []. */
  type Bytes = seq<u8>

  datatype Option<+T> = None | Some(value: T)

  /** A Go error value. All the package ever does with one is read its text. */
  datatype Err = Err(text: Bytes)

  /** A Go (T, error) pair in which exactly one side is meaningful. */
  datatype Result<+T> = Success(value: T) | Failure(error: Err)

  /** How a Go call ends: it returns a value, or it panics (a nil dereference, a
      reflection call on an invalid value) and takes the process down with it. */
  datatype Outcome<+T> = Returned(value: T) | Panicked

  /** The text a handler puts into a response for an optional error: none for nil. */
  function ErrorText(err: Option<Err>): (b: Bytes)
    ensures err.None? ==> b == []
    ensures err.Some? ==> b == err.value.text
  {
    match err
    case None => []
    case Some(e) => e.text
  }

  /** message.Request */
  datatype Request = Request(
    headLength: u32,
    bodyLength: u32,
    requestId: u32,
    version: u8,
    compresser: u8,
    serializer: u8,
    serviceName: string,
    methodName: string,
    data: Bytes)

  /** message.Response */
  datatype Response = Response(
    headLength: u32,
    bodyLength: u32,
    requestId: u32,
    version: u8,
    compresser: u8,
    serializer: u8,
    error: Bytes,
    data: Bytes)

  /** The Go zero value of a Request, before any field is set. */
  const EmptyRequest := Request(0, 0, 0, 0, 0, 0, "", "", [])

  /** The Go zero value of a Response. */
  const EmptyResponse := Response(0, 0, 0, 0, 0, 0, [], [])

  /**
   * The message package: EncodeReq, DecodeReq, EncodeResp, DecodeResp and the
   * CalculateHeaderLength / CalculateBodyLength methods, each of which looks at
   * the message as it stands when it is called.
   */
  datatype Codec = Codec(
    encodeReq: Request -> Bytes,
    decodeReq: Bytes -> Request,
    encodeResp: Response -> Bytes,
    decodeResp: Bytes -> Response,
    reqHeaderLength: Request -> u32,
    reqBodyLength: Request -> u32,
    respHeaderLength: Response -> u32,
    respBodyLength: Response -> u32)

  /** A stated assumption about the codec, never proved here: decoding an
      encoded request whose lengths have been computed gives it back. Only
      such requests are ever encoded, and the codec frames by those lengths. */
  ghost predicate RequestRoundTrip(c: Codec)
  {
    forall r: Request {:trigger StampRequest(c, r)} ::
      c.decodeReq(c.encodeReq(StampRequest(c, r))) == StampRequest(c, r)
  }

  /** The same assumption for responses whose lengths have been computed. */
  ghost predicate ResponseRoundTrip(c: Codec)
  {
    forall r: Response {:trigger StampResponse(c, r)} ::
      c.decodeResp(c.encodeResp(StampResponse(c, r))) == StampResponse(c, r)
  }

  /** req.CalculateHeaderLength() followed by req.CalculateBodyLength(). */
  function StampRequest(c: Codec, req: Request): (r: Request)
    ensures r.(headLength := req.headLength, bodyLength := req.bodyLength) == req
    ensures r.headLength == c.reqHeaderLength(req)
    ensures r.bodyLength == c.reqBodyLength(req.(headLength := r.headLength))
  {
    var withHead := req.(headLength := c.reqHeaderLength(req));
    withHead.(bodyLength := c.reqBodyLength(withHead))
  }

  /** resp.CalculateHeaderLength() followed by resp.CalculateBodyLength(). */
  function StampResponse(c: Codec, resp: Response): (r: Response)
    ensures r.(headLength := resp.headLength, bodyLength := resp.bodyLength) == resp
    ensures r.headLength == c.respHeaderLength(resp)
    ensures r.bodyLength == c.respBodyLength(resp.(headLength := r.headLength))
  {
    var withHead := resp.(headLength := c.respHeaderLength(resp));
    withHead.(bodyLength := c.respBodyLength(withHead))
  }
}

/** encoding/json, seen only through what the rpc package asks of it. */
module Json {
  import opened Wire

  /** What json.Unmarshal leaves in its target and the error it reports. On a
      type mismatch the target may already be partly filled. */
  datatype Decoded<+V> = Decoded(value: V, err: Option<Err>)

  /**
   * A Go type as the package uses it through reflection: the zero value that
   * reflect.New points at, and json.Unmarshal into such a fresh pointer.
   */
  datatype GoType<!V> = GoType(zero: V, unmarshal: Bytes -> Decoded<V>)

  /** json.Marshal */
  type Marshal<!V> = V -> Result<Bytes>
}
