/**
  A connection to a job server and the three operations on it: `Send`
  writes one frame, `Receive` reads one, `SendAndReceive` does one after the
  other. The connection is two byte streams: what has been written
  (`outbox`) and what is waiting to be read (`inbox`), and `room`, how many
  more bytes the connection will accept before a write comes up short.
*/
module Connection {
  import opened Wrappers
  import opened Bytes
  import opened Framing

  /** The error kinds the library reports; the source's message texts are not modelled. */
  datatype Error =
    | WriteFailed        // writing the header or the length failed
    | ShortWrite         // the payload was written only in part
    | ReadFailed         // reading the header or the length failed
    | ShortRead          // fewer payload bytes arrived than the length field announced
    | BadJob             // a job assignment that does not split into its fields, or an unexpected reply to a grab
    | EchoMismatch       // an echo reply with another code or other data
    | NotCreated         // a job submission not answered with JOB_CREATED
    | ServerError(text: seq<byte>)  // an ERROR reply to an option request, with its text
    | UnexpectedReply    // an option request answered with neither OPTION_RES nor ERROR
    | Unsupported        // an operation the library does not implement

  /** A snapshot of the connection. */
  datatype Conn = Conn(outbox: seq<byte>, inbox: seq<byte>, room: nat)

  /** The connection after writing as much of bytes as it accepts. */
  function WriteOn(c: Conn, bytes: seq<byte>): (r: Conn)
    ensures r.inbox == c.inbox
    ensures |bytes| <= c.room ==> r == c.(outbox := c.outbox + bytes, room := c.room - |bytes|)
    ensures |bytes| > c.room ==> r == c.(outbox := c.outbox + bytes[..c.room], room := 0)
  {
    var n := Min(|bytes|, c.room);
    c.(outbox := c.outbox + bytes[..n], room := c.room - n)
  }

  /**
    What `send(h, data)` does: header, length and payload are written in
    turn, and the first write the connection takes only in part ends the
    send with an error. An empty payload is not written at all.
  */
  function SendOn(c: Conn, h: header, d: seq<byte>): (r: (Conn, Option<Error>))
    ensures r.0.inbox == c.inbox
    ensures c.outbox <= r.0.outbox && |r.0.outbox| - |c.outbox| == c.room - r.0.room
    ensures r.1.None? <==> 10 + |d| <= c.room
  {
    var f := Frame(h, d);
    var n := Min(|f|, c.room);
    var err := if n == |f| then None else if c.room < 10 then Some(WriteFailed) else Some(ShortWrite);
    (c.(outbox := c.outbox + f[..n], room := c.room - n), err)
  }

  /**
    What `receive()` does: the frame at the front of the inbox is returned
    and consumed. When the inbox holds less than a whole frame, the read
    fails and what was there is consumed.
  */
  function ReceiveOn(c: Conn): (r: (Conn, Result<Packet, Error>))
    ensures r.0.outbox == c.outbox && r.0.room == c.room
    ensures r.1.Success? ==> c.inbox == Frame(r.1.value.h, r.1.value.data) + r.0.inbox
    ensures r.1.Success? ==> |c.inbox| >= 10 && |r.1.value.data| == FromBigEndian(c.inbox[8..10])
    ensures r.1.Failure? <==> |c.inbox| < 10 || |c.inbox| < 10 + FromBigEndian(c.inbox[8..10])
    ensures r.1.Failure? ==> r.0.inbox == [] && (r.1.error == ReadFailed <==> |c.inbox| < 10)
    ensures r.1.Failure? ==> r.1.error == ReadFailed || r.1.error == ShortRead
  {
    match ParseFrame(c.inbox)
    case Some((p, n)) =>
      assert c.inbox == c.inbox[..n] + c.inbox[n..];
      (c.(inbox := c.inbox[n..]), Success(p))
    case None => (c.(inbox := []), Failure(if |c.inbox| < 10 then ReadFailed else ShortRead))
  }

  /**
    What `SendAndReceive(h, data)` does: no read at all when the send fails;
    after a send that succeeds, the reply is read as `receive()` reads it.
  */
  function SendAndReceiveOn(c: Conn, h: header, d: seq<byte>): (r: (Conn, Result<Packet, Error>))
    ensures var (c1, err) := SendOn(c, h, d);
            && r.0.outbox == c1.outbox && r.0.room == c1.room
            && (err.Some? ==> r.0.inbox == c.inbox && r.1 == Failure(err.value))
            && (err.None? && r.1.Success? ==> c.inbox == Frame(r.1.value.h, r.1.value.data) + r.0.inbox)
            && (err.None? && r.1.Success? ==> |c.inbox| >= 10 && |r.1.value.data| == FromBigEndian(c.inbox[8..10]))
            && (err.None? && r.1.Failure? ==> r.0.inbox == [] && (r.1.error == ReadFailed || r.1.error == ShortRead))
            && (err.None? ==> (r.1.Failure? <==> |c.inbox| < 10 || |c.inbox| < 10 + FromBigEndian(c.inbox[8..10])))
  {
    var (c1, err) := SendOn(c, h, d);
    if err.Some? then (c1, Failure(err.value)) else ReceiveOn(c1)
  }

  // ---------------------------------------------------------------------------
  // Properties of the connection operations

  /**
    A send appends a prefix of the frame, 10 + |d| bytes long, and leaves the
    inbox alone; it succeeds exactly when the whole frame fits, and the whole
    frame is then what was appended.
  */
  lemma SendAppendsFrame(c: Conn, h: header, d: seq<byte>)
    ensures var (c1, err) := SendOn(c, h, d);
            && c1.inbox == c.inbox
            && c.outbox <= c1.outbox <= c.outbox + Frame(h, d)
            && (err.None? <==> 10 + |d| <= c.room)
            && (err.None? ==> c1.outbox == c.outbox + Frame(h, d) && c1.room == c.room - (10 + |d|))
            && (err.Some? ==> c1.room == 0)
  {
    var f := Frame(h, d);
    var n := Min(|f|, c.room);
    assert c.outbox + f[..n] <= c.outbox + f;
    assert n == |f| ==> f[..n] == f;
  }

  /** A failed send has written the header only in part when there was no room for 10 bytes. */
  lemma SendErrorKind(c: Conn, h: header, d: seq<byte>)
    ensures SendOn(c, h, d).1 == Some(WriteFailed) <==> c.room < 10
    ensures SendOn(c, h, d).1 == Some(ShortWrite) <==> 10 <= c.room < 10 + |d|
  {
  }

  /** Receiving a frame the peer wrote gives its packet and consumes exactly that frame. */
  lemma ReceiveFrame(c: Conn, h: header, d: seq<byte>, rest: seq<byte>)
    requires c.inbox == Frame(h, d) + rest && |d| < 0x1_0000
    ensures ReceiveOn(c) == (c.(inbox := rest), Success(Packet(h, d)))
  {
    FrameRoundTrip(h, d, rest);
    assert c.inbox[|Frame(h, d)|..] == rest;
  }

  /** An inbox holding less than a frame makes the read fail and empties the inbox. */
  lemma ReceiveFailure(c: Conn)
    requires ParseFrame(c.inbox).None?
    ensures ReceiveOn(c).0 == c.(inbox := [])
    ensures ReceiveOn(c).1.Failure?
  {
  }

  /**
    Request and reply are correlated: when the request fits, it is written
    whole before the reply at the front of the inbox is read and consumed.
  */
  lemma SendAndReceiveFrame(c: Conn, h: header, d: seq<byte>, rh: header, rd: seq<byte>, rest: seq<byte>)
    requires 10 + |d| <= c.room
    requires c.inbox == Frame(rh, rd) + rest && |rd| < 0x1_0000
    ensures SendAndReceiveOn(c, h, d) ==
            (Conn(c.outbox + Frame(h, d), rest, c.room - (10 + |d|)), Success(Packet(rh, rd)))
  {
    SendAppendsFrame(c, h, d);
    var c1 := SendOn(c, h, d).0;
    ReceiveFrame(c1, rh, rd, rest);
  }

  /** A send that fails reports its error and reads nothing. */
  lemma SendAndReceiveSendFailure(c: Conn, h: header, d: seq<byte>)
    requires c.room < 10 + |d|
    ensures SendAndReceiveOn(c, h, d).0.inbox == c.inbox
    ensures SendAndReceiveOn(c, h, d).1.Failure?
    ensures Some(SendAndReceiveOn(c, h, d).1.error) == SendOn(c, h, d).1
  {
    SendAppendsFrame(c, h, d);
  }

  /** What one side sends, the other receives, when the payload is shorter than 65536 bytes. */
  lemma Loopback(h: header, d: seq<byte>, room: nat)
    requires 10 + |d| <= room && |d| < 0x1_0000
    ensures var sent := SendOn(Conn([], [], room), h, d).0.outbox;
            ReceiveOn(Conn([], sent, 0)).1 == Success(Packet(h, d))
  {
    SendAppendsFrame(Conn([], [], room), h, d);
    ReceiveFrame(Conn([], Frame(h, d) + [], 0), h, d, []);
    assert [] + Frame(h, d) == Frame(h, d) + [];
  }

  // The write-by-write account of a send, one lemma per way `send` returns.

  /** The header write comes up short: the send ends there. */
  lemma SendHeaderShort(c: Conn, h: header, d: seq<byte>)
    requires c.room < 8
    ensures SendOn(c, h, d) == (WriteOn(c, HeaderBytes(h)), Some(WriteFailed))
  {
    var f := Frame(h, d);
    assert f[..c.room] == HeaderBytes(h)[..c.room];
  }

  /** The header is written but the length write comes up short. */
  lemma SendLengthShort(c: Conn, h: header, d: seq<byte>)
    requires 8 <= c.room < 10
    ensures SendOn(c, h, d) == (WriteOn(WriteOn(c, HeaderBytes(h)), LengthField(d)), Some(WriteFailed))
  {
    var f, hb, lb := Frame(h, d), HeaderBytes(h), LengthField(d);
    var n := c.room - 8;
    assert f[..8 + n] == hb + lb[..n];
    assert (c.outbox + hb) + lb[..n] == c.outbox + (hb + lb[..n]);
  }

  /** Header and length are written but the payload write comes up short. */
  lemma SendDataShort(c: Conn, h: header, d: seq<byte>)
    requires 10 <= c.room < 10 + |d|
    ensures SendOn(c, h, d) ==
            (WriteOn(WriteOn(WriteOn(c, HeaderBytes(h)), LengthField(d)), d), Some(ShortWrite))
  {
    var f, hb, lb := Frame(h, d), HeaderBytes(h), LengthField(d);
    var n := c.room - 10;
    assert f[..10 + n] == hb + lb + d[..n];
    assert ((c.outbox + hb) + lb) + d[..n] == c.outbox + (hb + lb + d[..n]);
  }

  /** The whole frame fits: every write is taken whole. */
  lemma SendWhole(c: Conn, h: header, d: seq<byte>)
    requires 10 + |d| <= c.room
    ensures SendOn(c, h, d) == (WriteOn(WriteOn(WriteOn(c, HeaderBytes(h)), LengthField(d)), d), None)
  {
    var f, hb, lb := Frame(h, d), HeaderBytes(h), LengthField(d);
    assert f[..|f|] == f;
    assert ((c.outbox + hb) + lb) + d == c.outbox + f;
  }

  // ---------------------------------------------------------------------------
  // The connection object

  class Server {
    var outbox: seq<byte>
    var inbox: seq<byte>
    var room: nat

    /** A connection on which nothing has been written yet. */
    constructor (inbox: seq<byte>, room: nat)
      ensures State() == Conn([], inbox, room)
    {
      this.outbox := [];
      this.inbox := inbox;
      this.room := room;
    }

    function State(): Conn
      reads this
    {
      Conn(outbox, inbox, room)
    }

    /** One write on the connection: returns how many bytes it accepted. */
    method Write(bytes: seq<byte>) returns (n: nat)
      modifies this
      ensures n == Min(|bytes|, old(room))
      ensures State() == WriteOn(old(State()), bytes)
    {
      n := Min(|bytes|, room);
      outbox := outbox + bytes[..n];
      room := room - n;
    }

    /** Reads exactly n bytes; when fewer are waiting, fails and consumes them. */
    method ReadFull(n: nat) returns (r: Option<seq<byte>>)
      modifies this
      ensures n <= |old(inbox)| ==> r == Some(old(inbox)[..n]) && State() == old(State()).(inbox := old(inbox)[n..])
      ensures n > |old(inbox)| ==> r.None? && State() == old(State()).(inbox := [])
    {
      if n <= |inbox| {
        r := Some(inbox[..n]);
        inbox := inbox[n..];
      } else {
        r := None;
        inbox := [];
      }
    }

    /** `Send` and the unlocked `send` it calls. */
    method Send(h: header, data: seq<byte>) returns (err: Option<Error>)
      modifies this
      ensures (State(), err) == SendOn(old(State()), h, data)
    {
      ghost var c := State();
      var hb := HeaderBytes(h);
      var n := Write(hb);
      if n != 8 {
        SendHeaderShort(c, h, data);
        return Some(WriteFailed);
      }
      var lb := LengthField(data);
      n := Write(lb);
      if n != 2 {
        SendLengthShort(c, h, data);
        return Some(WriteFailed);
      }
      if |data| > 0 {
        n := Write(data);
        if n != |data| {
          SendDataShort(c, h, data);
          return Some(ShortWrite);
        }
      } else {
        assert WriteOn(State(), data) == State();
      }
      SendWhole(c, h, data);
      return None;
    }

    /** `Receive` and the unlocked `receive` it calls. */
    method Receive() returns (reply: Result<Packet, Error>)
      modifies this
      ensures (State(), reply) == ReceiveOn(old(State()))
    {
      ghost var s := inbox;
      var hb := ReadFull(8);
      if hb.None? {
        assert ParseFrame(s).None?;
        return Failure(ReadFailed);
      }
      var res := FromBigEndian(hb.value);
      var lb := ReadFull(2);
      if lb.None? {
        return Failure(ReadFailed);
      }
      var datalen := FromBigEndian(lb.value);
      assert s[..8] == hb.value && s[8..10] == lb.value;
      if datalen > 0 {
        var rdata := ReadFull(datalen);
        if rdata.None? {
          return Failure(ShortRead);
        }
        assert s[10..10 + datalen] == rdata.value;
        return Success(Packet(res, rdata.value));
      }
      return Success(Packet(res, []));
    }

    /** One request and the reply read after it has been written. */
    method SendAndReceive(h: header, data: seq<byte>) returns (reply: Result<Packet, Error>)
      modifies this
      ensures (State(), reply) == SendAndReceiveOn(old(State()), h, data)
    {
      var err := Send(h, data);
      if err.Some? {
        return Failure(err.value);
      }
      reply := Receive();
    }
  }
}
