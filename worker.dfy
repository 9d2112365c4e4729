/**
  The worker side: announcing abilities, grabbing jobs, reporting their
  progress and results. Each operation builds a payload and sends it on the
  worker's connection; grabbing a job and echoing also read the reply.
*/
module Worker {
  import opened Wrappers
  import opened Bytes
  import opened Decimal
  import opened Framing
  import opened Connection

  /** A Go `int64`, the representation of `time.Duration` (nanoseconds). */
  type int64 = x: int | -0x8000_0000_0000_0000 <= x < 0x8000_0000_0000_0000

  const NANOS_PER_SECOND: nat := 1_000_000_000

  /** Go's integer division, which truncates toward zero. */
  function TruncDiv(a: int, b: nat): (q: int)
    requires b > 0
    ensures a >= 0 ==> q * b <= a < (q + 1) * b
    ensures a < 0 ==> (q - 1) * b < a <= q * b
  {
    if a >= 0 then a / b else -((-a) / b)
  }

  /**
    `uint32(timeout / time.Second)`: whole seconds, truncated toward zero,
    then only the low 32 bits, so a negative timeout wraps around.
  */
  function TimeoutSeconds(timeout: int64): (r: nat)
    ensures r < 0x1_0000_0000
    ensures (r - TruncDiv(timeout, NANOS_PER_SECOND)) % 0x1_0000_0000 == 0
  {
    TruncDiv(timeout, NANOS_PER_SECOND) % 0x1_0000_0000
  }

  /** How the conversion treats fractions, negative values and overflow. */
  lemma TimeoutSecondsExamples()
    ensures TimeoutSeconds(1_999_999_999) == 1
    ensures TimeoutSeconds(-1_500_000_000) == 0xFFFF_FFFF
    ensures TimeoutSeconds(0x1_0000_0000 * NANOS_PER_SECOND) == 0
  {
  }

  /** The payload of CAN_DO_TIMEOUT: the name, a NUL and the seconds as 4 big-endian bytes. */
  function TimeoutPayload(name: seq<byte>, timeout: int64): (r: seq<byte>)
    ensures |r| == |name| + 5
    ensures r[..|name|] == name && r[|name|] == NUL
    ensures FromBigEndian(r[|name| + 1..]) == TimeoutSeconds(timeout)
  {
    var secs := BigEndian(TimeoutSeconds(timeout), 4);
    BigEndianInverse(TimeoutSeconds(timeout), 4);
    JoinCons([name, secs]);
    assert Join([name, secs]) == name + [NUL] + secs;
    Join([name, secs])
  }

  /** A NUL-free name splits back off a CAN_DO_TIMEOUT payload. */
  lemma TimeoutPayloadSplit(name: seq<byte>, timeout: int64)
    requires NulFree(name)
    ensures SplitN(TimeoutPayload(name, timeout), 2) == [name, BigEndian(TimeoutSeconds(timeout), 4)]
  {
    var fields := [name, BigEndian(TimeoutSeconds(timeout), 4)];
    SeparableIndex(fields, 2);
    SplitNJoin(fields, 2);
  }

  /** The payload of WORK_STATUS: handle, numerator and denominator as decimal text. */
  function StatusPayload(handle: seq<byte>, n: int, m: int): (r: seq<byte>)
    ensures |r| == |handle| + |Itoa(n)| + |Itoa(m)| + 2
    ensures CountNul(r) == CountNul(handle) + 2
  {
    JoinThree(handle, Itoa(n), Itoa(m));
    NulFreeCount(Itoa(n));
    NulFreeCount(Itoa(m));
    Join([handle, Itoa(n), Itoa(m)])
  }

  /** The status payload of a NUL-free handle gives the handle and both numbers back. */
  lemma StatusPayloadSplit(handle: seq<byte>, n: int, m: int)
    requires NulFree(handle)
    ensures var fields := SplitN(StatusPayload(handle, n, m), 3);
            && fields == [handle, Itoa(n), Itoa(m)]
            && ParseInt(fields[1]) == Some(n) && ParseInt(fields[2]) == Some(m)
  {
    var fields := [handle, Itoa(n), Itoa(m)];
    SeparableIndex(fields, 3);
    SplitNJoin(fields, 3);
    ItoaInverse(n);
    ItoaInverse(m);
  }

  /** A payload of a job handle, a NUL and opaque data hands both back when the handle is NUL-free. */
  lemma HandleDataSplit(handle: seq<byte>, data: seq<byte>)
    requires NulFree(handle)
    ensures SplitN(Join([handle, data]), 2) == [handle, data]
    ensures |Join([handle, data])| == |handle| + 1 + |data|
  {
    var fields := [handle, data];
    SeparableIndex(fields, 2);
    SplitNJoin(fields, 2);
    JoinCons(fields);
    assert fields[1..] == [data];
  }

  // ---------------------------------------------------------------------------
  // Interpreting replies

  /** A job handed to the worker by GRAB_JOB. */
  datatype Job = Job(handle: seq<byte>, fn: seq<byte>, data: seq<byte>)

  /** A job handed to the worker by GRAB_JOB_UNIQ. */
  datatype UniqJob = UniqJob(handle: seq<byte>, fn: seq<byte>, uniq: seq<byte>, data: seq<byte>)

  /** What `GrabJob` returns for NO_JOB: the same empty fields as for an error, without the error. */
  const NO_JOB: Job := Job([], [], [])
  const NO_UNIQ_JOB: UniqJob := UniqJob([], [], [], [])

  /**
    `GrabJob`'s reading of its reply. A JOB_ASSIGN payload is cut at its first
    two NULs; the data is the whole rest, NULs included. NO_JOB is not an
    error. Anything else is.
  */
  function GrabJobReply(reply: Result<Packet, Error>): (r: Result<Job, Error>)
    ensures reply.Failure? ==> r == Failure(reply.error)
    ensures reply.Success? && reply.value.h == SW_NO_JOB ==> r == Success(NO_JOB)
    ensures reply.Success? && reply.value.h != SW_NO_JOB && reply.value.h != SW_JOB_ASSIGN ==> r == Failure(BadJob)
    ensures reply.Success? && reply.value.h == SW_JOB_ASSIGN ==>
              (r.Success? <==> CountNul(reply.value.data) >= 2) && (r.Failure? ==> r.error == BadJob)
    ensures reply.Success? && reply.value.h == SW_JOB_ASSIGN && r.Success? ==>
              && Join([r.value.handle, r.value.fn, r.value.data]) == reply.value.data
              && NulFree(r.value.handle) && NulFree(r.value.fn)
  {
    match reply
    case Failure(e) => Failure(e)
    case Success(p) =>
      if p.h == SW_JOB_ASSIGN then
        var args := SplitN(p.data, 3);
        AssignFields(p.data);
        if |args| == 3 then Success(Job(args[0], args[1], args[2])) else Failure(BadJob)
      else if p.h == SW_NO_JOB then Success(NO_JOB)
      else Failure(BadJob)
  }

  /** The three fields of a job assignment, when it has two NULs. */
  lemma AssignFields(d: seq<byte>)
    ensures var args := SplitN(d, 3);
            && (|args| == 3 <==> CountNul(d) >= 2)
            && (|args| == 3 ==> Join([args[0], args[1], args[2]]) == d && NulFree(args[0]) && NulFree(args[1]))
  {
    var args := SplitN(d, 3);
    SplitNFields(d, 3);
    if |args| == 3 {
      assert args == [args[0], args[1], args[2]];
    }
  }

  /** The four fields of a unique job assignment, when it has three NULs. */
  lemma AssignUniqFields(d: seq<byte>)
    ensures var args := SplitN(d, 4);
            && (|args| == 4 <==> CountNul(d) >= 3)
            && (|args| == 4 ==> Join([args[0], args[1], args[2], args[3]]) == d
                                && NulFree(args[0]) && NulFree(args[1]) && NulFree(args[2]))
  {
    var args := SplitN(d, 4);
    SplitNFields(d, 4);
    if |args| == 4 {
      assert args == [args[0], args[1], args[2], args[3]];
    }
  }

  /** Split/join inverse: a job assignment of NUL-free handle and name gives back exactly what was joined. */
  lemma GrabJobOfJoin(handle: seq<byte>, fn: seq<byte>, data: seq<byte>)
    requires NulFree(handle) && NulFree(fn)
    ensures GrabJobReply(Success(Packet(SW_JOB_ASSIGN, Join([handle, fn, data])))) == Success(Job(handle, fn, data))
  {
    var fields := [handle, fn, data];
    SeparableIndex(fields, 3);
    SplitNJoin(fields, 3);
  }

  /**
    `GrabJobUniq`'s reading of its reply: four fields cut at the first three
    NULs. Defect: it accepts JOB_ASSIGN, the reply to GRAB_JOB, where the
    protocol answers GRAB_JOB_UNIQ with JOB_ASSIGN_UNIQ.
  */
  function GrabJobUniqReply(reply: Result<Packet, Error>): (r: Result<UniqJob, Error>)
    ensures reply.Failure? ==> r == Failure(reply.error)
    ensures reply.Success? && reply.value.h == SW_NO_JOB ==> r == Success(NO_UNIQ_JOB)
    ensures reply.Success? && reply.value.h != SW_NO_JOB && reply.value.h != SW_JOB_ASSIGN ==> r == Failure(BadJob)
    ensures reply.Success? && reply.value.h == SW_JOB_ASSIGN ==>
              (r.Success? <==> CountNul(reply.value.data) >= 3) && (r.Failure? ==> r.error == BadJob)
    ensures reply.Success? && reply.value.h == SW_JOB_ASSIGN && r.Success? ==>
              && Join([r.value.handle, r.value.fn, r.value.uniq, r.value.data]) == reply.value.data
              && NulFree(r.value.handle) && NulFree(r.value.fn) && NulFree(r.value.uniq)
  {
    match reply
    case Failure(e) => Failure(e)
    case Success(p) =>
      if p.h == SW_JOB_ASSIGN then
        var args := SplitN(p.data, 4);
        AssignUniqFields(p.data);
        if |args| == 4 then Success(UniqJob(args[0], args[1], args[2], args[3])) else Failure(BadJob)
      else if p.h == SW_NO_JOB then Success(NO_UNIQ_JOB)
      else Failure(BadJob)
  }

  /** Split/join inverse for the four fields of a unique job assignment. */
  lemma GrabJobUniqOfJoin(handle: seq<byte>, fn: seq<byte>, uniq: seq<byte>, data: seq<byte>)
    requires NulFree(handle) && NulFree(fn) && NulFree(uniq)
    ensures GrabJobUniqReply(Success(Packet(SW_JOB_ASSIGN, Join([handle, fn, uniq, data]))))
            == Success(UniqJob(handle, fn, uniq, data))
  {
    var fields := [handle, fn, uniq, data];
    SeparableIndex(fields, 4);
    SplitNJoin(fields, 4);
  }

  /** The reply the protocol gives to GRAB_JOB_UNIQ is rejected, whatever its payload. */
  lemma GrabJobUniqRejectsAssignUniq(d: seq<byte>)
    ensures GrabJobUniqReply(Success(Packet(SW_JOB_ASSIGN_UNIQ, d))) == Failure(BadJob)
  {
  }

  /** `Echo`'s reading of its reply: success exactly when the same bytes come back under ECHO_RES. */
  function EchoReply(message: seq<byte>, reply: Result<Packet, Error>): (r: Option<Error>)
    ensures r.None? <==> reply == Success(Packet(SW_ECHO_RES, message))
    ensures reply.Failure? ==> r == Some(reply.error)
    ensures reply.Success? && r.Some? ==> r.value == EchoMismatch
  {
    match reply
    case Failure(e) => Some(e)
    case Success(p) => if p.h == SW_ECHO_RES && p.data == message then None else Some(EchoMismatch)
  }

  /**
    A job server that echoes the message makes `Echo` succeed, having
    written the request under SET_CLIENT_ID and consumed the reply.
  */
  lemma EchoAgainstEchoingServer(c: Conn, message: seq<byte>, rest: seq<byte>)
    requires 10 + |message| <= c.room && |message| < 0x1_0000
    requires c.inbox == Frame(SW_ECHO_RES, message) + rest
    ensures var (c1, reply) := SendAndReceiveOn(c, WS_SET_CLIENT_ID, message);
            && EchoReply(message, reply).None?
            && c1.outbox == c.outbox + Frame(WS_SET_CLIENT_ID, message)
            && c1.inbox == rest
  {
    SendAndReceiveFrame(c, WS_SET_CLIENT_ID, message, SW_ECHO_RES, message, rest);
  }

  /**
    A job server that assigns a job makes `GrabJob` return it, having
    written an empty GRAB_JOB request.
  */
  lemma GrabJobAgainstAssigningServer(c: Conn, job: Job, rest: seq<byte>)
    requires 10 <= c.room && NulFree(job.handle) && NulFree(job.fn)
    requires |Join([job.handle, job.fn, job.data])| < 0x1_0000
    requires c.inbox == Frame(SW_JOB_ASSIGN, Join([job.handle, job.fn, job.data])) + rest
    ensures var (c1, reply) := SendAndReceiveOn(c, WS_GRAB_JOB, []);
            && GrabJobReply(reply) == Success(job)
            && c1.outbox == c.outbox + Frame(WS_GRAB_JOB, [])
            && c1.inbox == rest
  {
    var payload := Join([job.handle, job.fn, job.data]);
    SendAndReceiveFrame(c, WS_GRAB_JOB, [], SW_JOB_ASSIGN, payload, rest);
    GrabJobOfJoin(job.handle, job.fn, job.data);
  }

  // ---------------------------------------------------------------------------
  // The worker object

  class Worker {
    const server: Server

    constructor (server: Server)
      ensures this.server == server
    {
      this.server := server;
    }

    /** CAN_DO with the function name as payload. */
    method CanDo(name: seq<byte>) returns (err: Option<Error>)
      modifies server
      ensures (server.State(), err) == SendOn(old(server.State()), WS_CAN_DO, name)
    {
      err := server.Send(WS_CAN_DO, name);
    }

    /** CAN_DO_TIMEOUT with the function name and the timeout in whole seconds. */
    method CanDoTimeout(name: seq<byte>, timeout: int64) returns (err: Option<Error>)
      modifies server
      ensures (server.State(), err) == SendOn(old(server.State()), WS_CAN_DO_TIMEOUT, TimeoutPayload(name, timeout))
    {
      var buf := [];
      buf := buf + name;
      buf := buf + [NUL];
      buf := buf + BigEndian(TimeoutSeconds(timeout), 4);
      JoinCons([name, BigEndian(TimeoutSeconds(timeout), 4)]);
      assert buf == TimeoutPayload(name, timeout);
      err := server.Send(WS_CAN_DO_TIMEOUT, buf);
    }

    /** CANT_DO with the function name as payload. */
    method CantDo(name: seq<byte>) returns (err: Option<Error>)
      modifies server
      ensures (server.State(), err) == SendOn(old(server.State()), WS_CANT_DO, name)
    {
      err := server.Send(WS_CANT_DO, name);
    }

    /** RESET_ABILITIES with an empty payload. */
    method ResetAbilities() returns (err: Option<Error>)
      modifies server
      ensures (server.State(), err) == SendOn(old(server.State()), WS_RESET_ABILITIES, [])
    {
      err := server.Send(WS_RESET_ABILITIES, []);
    }

    /** PRE_SLEEP with an empty payload. */
    method PreSleep() returns (err: Option<Error>)
      modifies server
      ensures (server.State(), err) == SendOn(old(server.State()), WS_PRE_SLEEP, [])
    {
      err := server.Send(WS_PRE_SLEEP, []);
    }

    /** GRAB_JOB with an empty payload, and the job the reply carries. */
    method GrabJob() returns (r: Result<Job, Error>)
      modifies server
      ensures var (c, reply) := SendAndReceiveOn(old(server.State()), WS_GRAB_JOB, []);
              server.State() == c && r == GrabJobReply(reply)
    {
      var reply := server.SendAndReceive(WS_GRAB_JOB, []);
      r := GrabJobReply(reply);
    }

    /** GRAB_JOB_UNIQ with an empty payload, and the job the reply carries. */
    method GrabJobUniq() returns (r: Result<UniqJob, Error>)
      modifies server
      ensures var (c, reply) := SendAndReceiveOn(old(server.State()), WS_GRAB_JOB_UNIQ, []);
              server.State() == c && r == GrabJobUniqReply(reply)
    {
      var reply := server.SendAndReceive(WS_GRAB_JOB_UNIQ, []);
      r := GrabJobUniqReply(reply);
    }

    /** The job handle, a NUL and the data, sent under the given work code. */
    method SendWork(code: header, handle: seq<byte>, data: seq<byte>) returns (err: Option<Error>)
      modifies server
      ensures (server.State(), err) == SendOn(old(server.State()), code, Join([handle, data]))
    {
      var buf := [];
      buf := buf + handle;
      buf := buf + [NUL];
      buf := buf + data;
      JoinCons([handle, data]);
      assert buf == Join([handle, data]);
      err := server.Send(code, buf);
    }

    /** WORK_DATA: handle and data. */
    method WorkData(handle: seq<byte>, data: seq<byte>) returns (err: Option<Error>)
      modifies server
      ensures (server.State(), err) == SendOn(old(server.State()), WS_WORK_DATA, Join([handle, data]))
    {
      err := SendWork(WS_WORK_DATA, handle, data);
    }

    /** WORK_WARNING: handle and data. */
    method WorkWarning(handle: seq<byte>, data: seq<byte>) returns (err: Option<Error>)
      modifies server
      ensures (server.State(), err) == SendOn(old(server.State()), WS_WORK_WARNING, Join([handle, data]))
    {
      err := SendWork(WS_WORK_WARNING, handle, data);
    }

    /**
      The status of a running job: handle, numerator and denominator in
      decimal. Defect: it goes out under WORK_WARNING, not WORK_STATUS.
    */
    method WorkStatus(handle: seq<byte>, n: int, m: int) returns (err: Option<Error>)
      modifies server
      ensures (server.State(), err) == SendOn(old(server.State()), WS_WORK_WARNING, StatusPayload(handle, n, m))
    {
      var buf := [];
      buf := buf + handle;
      buf := buf + [NUL];
      buf := buf + Itoa(n);
      buf := buf + [NUL];
      buf := buf + Itoa(m);
      JoinCons([handle, Itoa(n), Itoa(m)]);
      JoinCons([Itoa(n), Itoa(m)]);
      assert [handle, Itoa(n), Itoa(m)][1..] == [Itoa(n), Itoa(m)];
      assert buf == StatusPayload(handle, n, m);
      err := server.Send(WS_WORK_WARNING, buf);
    }

    /** WORK_COMPLETE: handle and result data. */
    method WorkComplete(handle: seq<byte>, data: seq<byte>) returns (err: Option<Error>)
      modifies server
      ensures (server.State(), err) == SendOn(old(server.State()), WS_WORK_COMPLETE, Join([handle, data]))
    {
      err := SendWork(WS_WORK_COMPLETE, handle, data);
    }

    /** WORK_FAIL with the job handle as payload. */
    method WorkFail(handle: seq<byte>) returns (err: Option<Error>)
      modifies server
      ensures (server.State(), err) == SendOn(old(server.State()), WS_WORK_FAIL, handle)
    {
      err := server.Send(WS_WORK_FAIL, handle);
    }

    /** WORK_EXCEPTION: handle and exception data. */
    method WorkException(handle: seq<byte>, data: seq<byte>) returns (err: Option<Error>)
      modifies server
      ensures (server.State(), err) == SendOn(old(server.State()), WS_WORK_EXCEPTION, Join([handle, data]))
    {
      err := SendWork(WS_WORK_EXCEPTION, handle, data);
    }

    /** SET_CLIENT_ID with the worker id as payload. */
    method SetWorkerId(id: seq<byte>) returns (err: Option<Error>)
      modifies server
      ensures (server.State(), err) == SendOn(old(server.State()), WS_SET_CLIENT_ID, id)
    {
      err := server.Send(WS_SET_CLIENT_ID, id);
    }

    /** ALL_YOURS is not implemented: the source panics; here it fails without writing anything. */
    method AllYours() returns (err: Option<Error>)
      ensures err == Some(Unsupported)
    {
      err := Some(Unsupported);
    }

    /**
      An echo round trip. Defect: the request goes out under SET_CLIENT_ID,
      not ECHO_REQ, while the reply must be ECHO_RES.
    */
    method Echo(message: seq<byte>) returns (err: Option<Error>)
      modifies server
      ensures var (c, reply) := SendAndReceiveOn(old(server.State()), WS_SET_CLIENT_ID, message);
              server.State() == c && err == EchoReply(message, reply)
    {
      // Defect: SET_CLIENT_ID, not ECHO_REQ.
      var reply := server.SendAndReceive(WS_SET_CLIENT_ID, message);
      err := EchoReply(message, reply);
    }
  }
}
