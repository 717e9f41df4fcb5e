# rpc: a Dafny model of the call and dispatch paths

This project models the `rpc` package of a small Go remote-procedure-call
framework: the server's service registry, its dispatcher `Invoke`, the
reflection stub that decodes an argument, calls a method and encodes its
result, and `handleConn`, the per-connection loop that reads a frame, invokes,
and writes one response back; and on the client side `setFuncField`, which
fills every settable function field of a service struct with a remote-call
stub, the stub itself, and `Client.Invoke` / `Client.Send` over a pool of
connections.

The collaborators the package reaches through narrow interfaces are
parameters of the model:

- the `message` codec (`EncodeReq`, `DecodeReq`, `EncodeResp`, `DecodeResp`,
  `CalculateHeaderLength`, `CalculateBodyLength`) is a record of functions,
  `Wire.Codec`; the round trips `decode(encode(m)) == m`, for messages whose
  header and body lengths have been computed (the only ones the package ever
  encodes, and the ones a codec framing by those lengths can give back),
  appear only as the stated assumptions `Wire.RequestRoundTrip` and
  `Wire.ResponseRoundTrip`, which are never proved;
- `encoding/json` is `Json.Marshal` (may fail) and `Json.GoType`, a Go type
  seen as the zero value `reflect.New` points at plus `json.Unmarshal` into
  such a pointer (which reports an error and may leave a partly filled value);
- reflection is explicit tables: a service is a map from method name to its
  argument type and call (`RpcServer.Service`), a struct is an array of
  `RpcClient.Field` records with `settable` and `isFunc` flags;
- a connection (`Transport.Conn`) is the sequence of complete frames the peer
  sends and the error the frame reader reports after them, a count of writes
  the transport still accepts and the error it reports after that, and the
  sequence of frames written;
- the pool (`RpcClient.Pool`) is an idle collection plus the connections a
  dial would produce next.

A Go panic (a nil pointer dereference, a call on an invalid `reflect.Value`,
`reflect.MakeFunc` on a non-function type) is an explicit outcome,
`Wire.Outcome.Panicked`; for `handleConn` it is `RpcServer.ConnEnd.Crashed`.
Go errors are `Wire.Err(text)`, so `[]byte(err.Error())` and
`errors.New(string(b))` are identities on the text.

The loop of `handleConn` is specified by `RpcServer.Serve`: the outcome of each
frame (`RpcServer.HandleFrame`, a pure function) folded into a transcript of
frames written and the way the loop ends. `RpcServer.Server.HandleConn` is proved
to write exactly that transcript, and the lemmas about `Serve` state what it
means: one response per frame in read order, business errors never end the
loop, the first read error, write error or crash does.

### Behaviour worth knowing

- An unknown service does not produce a "service not found" response.
  `Invoke` returns a nil response with an error (rpc/server.go:82-84), and
  `handleConn` then assigns to the error field of that nil response
  (rpc/server.go:59), which panics. `RpcServer.UnknownServiceCrashes` states it:
  nothing is written for such a frame. The panic happens in the goroutine
  `Start` runs for the connection (rpc/server.go:39-43), and nothing recovers
  it, so it ends the whole server process: the listener and every other
  connection with it.
- An unknown method is not answered with an error response either:
  `MethodByName` yields an invalid value whose `Type()` panics
  (rpc/server.go:100,103), with the same effect on the process.
- A connection whose write or read failed is put back into the pool like any
  other (rpc/client.go:135-137); nothing marks it broken.
- The client never compares the response's request id with the request's
  (rpc/client.go:119-127, 65-75), and the request it builds leaves the id zero.
- A business error whose text is empty crosses the wire as an empty error
  field, which the client reads as "no error" (`EndToEnd.EmptyErrorTextIsLost`).
- A settable struct field whose type is not a function makes `setFuncField`
  panic in `reflect.MakeFunc` after the earlier fields have been replaced
  (rpc/client.go:87); the shape check at rpc/client.go:29-31 does not look at
  the fields.

## Model

| member | source | states |
|---|---|---|
| RpcServer.Server.constructor | rpc/server.go:16-20 | a new server has an empty registry |
| RpcServer.Server.RegisterServer | rpc/server.go:22-27 | the registry becomes `Registered(old registry, service)` |
| RpcServer.Registered | rpc/server.go:22-27 | the service's name maps to its stub, exactly one name is added (or kept), every other entry is unchanged |
| RpcServer.LastRegistrationWins | rpc/server.go:22-27 | registering two services under one name leaves only the second, as if the first had never been registered |
| RpcServer.Stub.Invoke | rpc/server.go:98-128 | panics exactly when the method name is unknown; an argument that does not decode gives (no data, that error); a nil result gives (no data, the method's error); a result that does not marshal gives (no data, the marshal error); otherwise (the marshalled result, the method's error) |
| RpcServer.StubSkipsCallOnBadArgument | rpc/server.go:103-107 | when the argument does not decode the reply does not depend on the method's behaviour at all: the method is not called |
| RpcServer.Invoke | rpc/server.go:73-91 | an unknown service gives no response and the not-found error; a call panics exactly when the service is known and the method is not; a known service gives a response echoing the request's id, version, compressor and serializer, carrying the stub's data even when the stub reports an error, with an empty error field and zero lengths, and returns the stub's error beside it |
| RpcServer.HandleFrame | rpc/server.go:54-64 | handling one read frame panics exactly when the decoded request does not name a registered service and one of its methods |
| RpcServer.HandleFrameResponds | rpc/server.go:56-64 | for a registered method the response echoes the request header, carries the stub's data, carries the text of the stub's error (empty when there is none) in its error field, and has header and body lengths computed by the codec from the response as it is sent |
| RpcServer.ServeRespondsInOrder | rpc/server.go:48-70 | the connection receives at most one frame per frame read, and the i-th frame written is the encoding of the response to the i-th frame read |
| RpcServer.ServeEnds | rpc/server.go:48-70 | with k the first frame that crashes the handler, exactly min(k, writes the transport accepts) responses are written; the loop ends on the read error after answering every frame, on a crash at frame k, and otherwise on the write error |
| RpcServer.KeepsServing | rpc/server.go:56-60 | when every frame names a registered method and every write succeeds, every frame is answered and the loop ends only with the read error: business errors never stop it |
| RpcServer.UnknownServiceCrashes | rpc/server.go:56-59 | a first frame naming an unregistered service writes nothing and crashes the handler |
| RpcServer.TranscribeKeepsSent | rpc/server.go:48-70 | what was written on the connection before the loop stays in front of what the loop writes |
| RpcServer.TranscribeEnds | rpc/server.go:48-70 | from any point of the loop, the number of frames still written and the way it ends are decided by the first crash and the remaining write budget |
| RpcServer.Server.HandleConn | rpc/server.go:47-71 | appends to the connection exactly the frames `Serve` predicts for the frames waiting on it, and ends as `Serve` predicts; with n the number of responses written, it used n writes and consumed n frames when every frame was answered, and n + 1 otherwise: the frame that crashed it or whose response could not be written was read, no later frame was |
| RpcServer.Server.ServeConn | rpc/server.go:39-43 | serving a connection writes, reads and ends as `HandleConn` does, and the connection is closed exactly when the handler returned an error; on a crash `Close` is never reached, because the panic ends the process |
| RpcClient.Install | rpc/client.go:40-88 | a settable field ends up holding the remote stub for the method of its own name, calling through the given client; a field that is not settable is left as it was |
| RpcClient.FirstMisfit | rpc/client.go:36-88 | the first settable field that is not a function (or the number of fields): all fields before it are function-typed or not settable |
| RpcClient.SetFuncField | rpc/client.go:23-92 | the installed stubs call through the client p; nil gives the nil error and a non struct pointer gives the shape error, both changing no field; a nil struct pointer panics on its first field; otherwise the fields before the first settable non-function field are installed, the rest untouched, and the call returns nil exactly when there is no such field (else it panics) |
| RpcClient.NewRequest | rpc/client.go:50-57 | the request names the service and the field's method, carries the marshalled argument, leaves id, version, compressor and serializer zero, and has header then body lengths computed from the request as built |
| RpcClient.Interpret | rpc/client.go:65-85 | empty data gives the zero result, non-empty data is unmarshalled into the result whatever the error field says; an unmarshal error replaces the remote error; otherwise the error is nil for an empty error field and carries exactly the field's text for a non-empty one |
| RpcClient.InterpretSucceeds | rpc/client.go:65-85 | the stub's error is nil exactly when the error field is empty and the data is empty or decodes |
| RpcClient.InterpretIgnoresHeader | rpc/client.go:65-75 | two responses with the same error and data are read the same way, whatever their request ids: the id is never checked |
| RpcClient.Finish | rpc/client.go:60-63 | a failed invocation gives the zero result with the transport's error; a response is read by `Interpret` |
| RpcClient.Received | rpc/client.go:122-126 | a failed send is returned as is, with no response; a received frame is decoded |
| RpcClient.Pool.Get | rpc/client.go:130-133 | hands out the oldest idle connection, else a freshly dialled one, else fails with the dial error and changes nothing |
| RpcClient.Pool.Put | rpc/client.go:135-137 | the connection joins the idle collection |
| RpcClient.Client.Send | rpc/client.go:129-143 | a failed Get returns its error with nothing written; otherwise the borrowed connection receives the frame if the transport accepts it, one frame is read back only after a successful write, the result is the write error, the read error or that frame, and the connection is back in the pool on every path |
| RpcClient.Client.Invoke | rpc/client.go:119-127 | returns no response when the send fails and otherwise the decoding of whatever frame the connection yields next; a failed Get leaves the pool as it was, otherwise the encoded request is written if the transport accepts it, one frame is read only after a successful write, and the borrowed connection is back in the pool on every path |
| RpcClient.Client.Call | rpc/client.go:41-86 | what calling a field holding `Remote(this, serviceName, methodName)` does: a marshal failure returns the zero result and that error without touching the pool or the connection it would have borrowed; otherwise the result is what `Finish` makes of invoking the request `NewRequest` builds, a failed Get leaves the pool as it was, and otherwise the encoded request is written if the transport accepts it, one frame is read only after a successful write, and the borrowed connection is back in the pool on every path |
| EndToEnd.RemoteCallDelivers | rpc/client.go:50-85 | assuming the codec gives back every request and response whose lengths have been computed, a stub call to a registered method does not crash the server, gets back its own request id, and returns what the method's reply becomes after crossing the wire |
| EndToEnd.ResultSurvives | rpc/client.go:70-85 | a result the caller's type decodes arrives as the stub's result with a nil error |
| EndToEnd.ErrorTextSurvives | rpc/client.go:65-68 | a business error with a non-empty text reaches the caller with exactly that text |
| EndToEnd.EmptyErrorTextIsLost | rpc/client.go:65-68 | a business error with an empty text reaches the caller as a nil error |

## Left out

- The byte layout of requests and responses, the length computations and the
  frame reader `ReadMsg` are not part of this model: they are codec functions
  and a connection that yields whole frames; no round trip is proved over them.
- `encoding/json` is abstract: what Marshal and Unmarshal produce is a parameter.
- Reflection is reduced to tables. The model assumes every method has the
  shape `func(ctx, *Req) (*Resp, error)` and every function field the matching
  shape; a method or field of another shape (which would panic in `In(1)`,
  `Out(0)` or `Call`) is not modelled, and neither is the typed-nil error
  workaround at rpc/client.go:77-85 beyond its effect (a nil error).
- `context.Context` is passed around and never consulted; it is left out.
- `Start`: `net.Listen`, `Accept` and the goroutine per connection are I/O and
  concurrency; only the rule that a connection is closed when `handleConn`
  returns an error is modelled (`RpcServer.Server.ServeConn`).
- `RpcServer.ConnEnd.Crashed` ends the model of one connection only. That an
  unrecovered panic in a connection's goroutine also ends the listener and
  every other connection of the process is not modelled.
- Concurrency: several goroutines sharing the registry or the pool, and
  interleavings of calls, are not modelled; each call runs alone.
- `NewClient` and `InitClientProxy`: dialling, the pool configuration (initial
  capacity 1, capacity 30, 10 idle connections, one-minute idle timeout) and the
  pool library's internals are not modelled; `Pool.Get` never blocks and
  `Pool.Put` never closes a connection because the idle set is full.
- RpcClient.SetFuncField: the stub records `service.Name()` when it is
  installed, while the Go closure calls `Name()` at each call; the two agree
  for a `Name()` that returns a constant, which is the only kind modelled.
- RpcClient.Client.Call: the result type of a field is passed to the stub
  rather than read from the field, because fields here carry no Go types.
- The cluster broadcast test and the Prometheus metrics middleware are not
  part of this model: they exercise other libraries, not this protocol.
