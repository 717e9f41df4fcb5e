/**
 * A stream connection as one side sees it. ReadMsg, the frame reader, is not
 * part of this model: a connection is the sequence of complete frames the peer
 * sends, followed by the error the reader reports once they run out (end of
 * stream or a failed read). Writes succeed until the transport refuses them.
 */
module Transport {
  import opened Wire

  class Conn {
    /** Frames the peer has sent and that have not been read yet. */
    var incoming: seq<Bytes>
    /** What ReadMsg reports once incoming is used up. */
    var readErr: Err
    /** How many more writes the transport accepts. */
    var writesLeft: nat
    /** What Write reports once writesLeft is used up. */
    var writeErr: Err
    /** Frames written so far, oldest first. */
    var written: seq<Bytes>
    var closed: bool

    constructor (incoming: seq<Bytes>, readErr: Err, writesLeft: nat, writeErr: Err)
      ensures this.incoming == incoming && this.readErr == readErr
      ensures this.writesLeft == writesLeft && this.writeErr == writeErr
      ensures written == [] && !closed
    {
      this.incoming := incoming;
      this.readErr := readErr;
      this.writesLeft := writesLeft;
      this.writeErr := writeErr;
      written := [];
      closed := false;
    }

    /** ReadMsg(conn): exactly one whole frame, or the read error. */
    method ReadMsg() returns (r: Result<Bytes>)
      modifies this`incoming
      ensures old(incoming) == [] ==> r == Failure(readErr) && incoming == []
      ensures old(incoming) != [] ==> r == Success(old(incoming)[0]) && incoming == old(incoming)[1..]
    {
      if incoming == [] {
        r := Failure(readErr);
      } else {
        r := Success(incoming[0]);
        incoming := incoming[1..];
      }
    }

    /** conn.Write(b) */
    method Write(b: Bytes) returns (err: Option<Err>)
      modifies this`written, this`writesLeft
      ensures old(writesLeft) == 0 ==> err == Some(writeErr) && written == old(written) && writesLeft == 0
      ensures old(writesLeft) > 0 ==> err == None && written == old(written) + [b] && writesLeft == old(writesLeft) - 1
    {
      if writesLeft == 0 {
        err := Some(writeErr);
      } else {
        written := written + [b];
        writesLeft := writesLeft - 1;
        err := None;
      }
    }

    /** conn.Close() */
    method Close()
      modifies this`closed
      ensures closed
    {
      closed := true;
    }
  }

  /** What writing b and then reading one frame on c yields. */
  function Exchange(c: Conn, b: Bytes): (r: Result<Bytes>)
    reads c
    ensures c.writesLeft == 0 ==> r == Failure(c.writeErr)
    ensures c.writesLeft > 0 && c.incoming == [] ==> r == Failure(c.readErr)
    ensures r.Success? <==> c.writesLeft > 0 && c.incoming != []
    ensures r.Success? ==> r.value == c.incoming[0]
  {
    if c.writesLeft == 0 then Failure(c.writeErr)
    else if c.incoming == [] then Failure(c.readErr)
    else Success(c.incoming[0])
  }
}
