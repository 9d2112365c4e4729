/**
  The client side: submitting jobs at a priority, in the background or on a
  schedule, asking for a job's status and setting connection options.
*/
module Client {
  import opened Wrappers
  import opened Bytes
  import opened Decimal
  import opened Framing
  import opened Connection

  /** Job priorities; any other `Priority` value is accepted too. */
  const LowPriority: int := -1
  const NormalPriority: int := 0
  const HighPriority: int := 1

  predicate KnownPriority(p: int)
  {
    p == LowPriority || p == NormalPriority || p == HighPriority
  }

  /** The option that forwards WORK_EXCEPTION packets to the client: "exceptions". */
  const OptionExceptions: seq<byte> := [0x65, 0x78, 0x63, 0x65, 0x70, 0x74, 0x69, 0x6f, 0x6e, 0x73]

  /** ": ", which stands in for the NUL of an ERROR payload in the error text. */
  const COLON_SPACE: seq<byte> := [0x3a, 0x20]

  /**
    The header `SubmitJob` sends for priority p. Defect: a priority other
    than the three known ones leaves the header at its zero value.
  */
  function SubmitJobCode(p: int): (h: header)
    ensures h == 0 <==> !KnownPriority(p)
    ensures KnownPriority(p) ==> h in CLIENT_REQUESTS
  {
    if p == LowPriority then CS_SUBMIT_JOB_LOW
    else if p == NormalPriority then CS_SUBMIT_JOB
    else if p == HighPriority then CS_SUBMIT_JOB_HIGH
    else 0
  }

  /** The header `SubmitBackgroundJob` sends for priority p; zero for an unknown priority, as above. */
  function SubmitBackgroundJobCode(p: int): (h: header)
    ensures h == 0 <==> !KnownPriority(p)
    ensures KnownPriority(p) ==> h in CLIENT_REQUESTS
  {
    if p == LowPriority then CS_SUBMIT_JOB_LOW_BG
    else if p == NormalPriority then CS_SUBMIT_JOB_BG
    else if p == HighPriority then CS_SUBMIT_JOB_HIGH_BG
    else 0
  }

  /** The command codes behind each priority. */
  lemma PriorityCodes()
    ensures SubmitJobCode(LowPriority) == Request(33) && SubmitBackgroundJobCode(LowPriority) == Request(34)
    ensures SubmitJobCode(NormalPriority) == Request(7) && SubmitBackgroundJobCode(NormalPriority) == Request(18)
    ensures SubmitJobCode(HighPriority) == Request(21) && SubmitBackgroundJobCode(HighPriority) == Request(32)
  {
  }

  /**
    Different known priorities get different codes, and a foreground
    submission never shares its code with a background one, unless both
    priorities are unknown and both headers are zero.
  */
  lemma SubmitCodesDistinct(p: int, q: int)
    ensures KnownPriority(p) && SubmitJobCode(p) == SubmitJobCode(q) ==> p == q
    ensures KnownPriority(p) && SubmitBackgroundJobCode(p) == SubmitBackgroundJobCode(q) ==> p == q
    ensures SubmitJobCode(p) == SubmitBackgroundJobCode(q) <==> !KnownPriority(p) && !KnownPriority(q)
  {
  }

  /** The zero header of an unknown priority does not carry the request magic. */
  lemma UnknownPriorityHasNoMagic(p: int)
    requires !KnownPriority(p)
    ensures Magic(SubmitJobCode(p)) != REQ_MAGIC && Magic(SubmitBackgroundJobCode(p)) != REQ_MAGIC
  {
    assert HeaderBytes(0) == BigEndian(0, 8);
    assert Magic(0)[0] == 0;
  }

  /** The Gearman day of the week for Go's `Weekday` d (Sunday = 0): Monday is 0 and Sunday 6. */
  function GearmanWeekday(d: int): (w: int)
    requires 0 <= d <= 6
    ensures 0 <= w <= 6
    ensures (w + 1) % 7 == d
  {
    (d + 6) % 7
  }

  /** The remap is a bijection on 0..6: every Gearman day comes from exactly one Go day. */
  lemma GearmanWeekdayBijective(w: int)
    requires 0 <= w <= 6
    ensures var d := (w + 1) % 7; 0 <= d <= 6 && GearmanWeekday(d) == w
    ensures forall d :: 0 <= d <= 6 && GearmanWeekday(d) == w ==> d == (w + 1) % 7
  {
  }

  /** Sunday moves to the end of the week; every other day moves down by one. */
  lemma GearmanWeekdayShift(d: int)
    requires 0 <= d <= 6
    ensures d == 0 ==> GearmanWeekday(d) == 6
    ensures d > 0 ==> GearmanWeekday(d) == d - 1
  {
  }

  /** The local weekday rewrite of `SubmitScheduledJob`. */
  method RemapWeekday(goWeekday: int) returns (weekday: int)
    requires 0 <= goWeekday <= 6
    ensures weekday == GearmanWeekday(goWeekday)
  {
    weekday := goWeekday;
    if weekday == 0 {
      weekday := 7;
    }
    weekday := weekday - 1;
  }

  /** The payload of a submission: function name, unique id and data. */
  function SubmitPayload(fn: seq<byte>, uniq: seq<byte>, data: seq<byte>): (r: seq<byte>)
    ensures |r| == |fn| + |uniq| + |data| + 2
    ensures CountNul(r) == CountNul(fn) + CountNul(uniq) + CountNul(data) + 2
  {
    JoinThree(fn, uniq, data);
    Join([fn, uniq, data])
  }

  /** A submission with NUL-free name and id splits back into its three parts, and is 2 bytes longer than they are. */
  lemma SubmitPayloadSplit(fn: seq<byte>, uniq: seq<byte>, data: seq<byte>)
    requires NulFree(fn) && NulFree(uniq)
    ensures SplitN(SubmitPayload(fn, uniq, data), 3) == [fn, uniq, data]
    ensures |SubmitPayload(fn, uniq, data)| == |fn| + |uniq| + |data| + 2
  {
    var fields := [fn, uniq, data];
    SeparableIndex(fields, 3);
    SplitNJoin(fields, 3);
    JoinCons(fields);
    JoinCons(fields[1..]);
    assert fields[1..][1..] == [data];
  }

  /** The fields of a scheduled submission, the time fields in decimal text. */
  function ScheduleFields(fn: seq<byte>, uniq: seq<byte>, minute: int, hour: int, day: int, month: int,
                          weekday: int, data: seq<byte>): (r: seq<seq<byte>>)
    ensures |r| == 8 && r[0] == fn && r[1] == uniq && r[7] == data
    ensures NulFree(r[2]) && NulFree(r[3]) && NulFree(r[4]) && NulFree(r[5]) && NulFree(r[6])
  {
    [fn, uniq, Itoa(minute), Itoa(hour), Itoa(day), Itoa(month), Itoa(weekday), data]
  }

  /** The time fields of a scheduled submission read back as the numbers written. */
  lemma ScheduleTimesParse(fn: seq<byte>, uniq: seq<byte>, minute: int, hour: int, day: int, month: int,
                           weekday: int, data: seq<byte>)
    ensures var f := ScheduleFields(fn, uniq, minute, hour, day, month, weekday, data);
            && ParseInt(f[2]) == Some(minute) && ParseInt(f[3]) == Some(hour) && ParseInt(f[4]) == Some(day)
            && ParseInt(f[5]) == Some(month) && ParseInt(f[6]) == Some(weekday)
  {
    ItoaInverse(minute);
    ItoaInverse(hour);
    ItoaInverse(day);
    ItoaInverse(month);
    ItoaInverse(weekday);
  }

  /** The scheduled payload always cuts into 8 fields, whatever the fields hold. */
  lemma ScheduleFieldCount(fn: seq<byte>, uniq: seq<byte>, minute: int, hour: int, day: int, month: int,
                           weekday: int, data: seq<byte>)
    ensures |SplitN(Join(ScheduleFields(fn, uniq, minute, hour, day, month, weekday, data)), 8)| == 8
  {
    var fields := ScheduleFields(fn, uniq, minute, hour, day, month, weekday, data);
    JoinCount(fields);
    SplitNCount(Join(fields), 8);
  }

  /** Split/join inverse: with NUL-free name and id, the 8 fields written are the 8 read back. */
  lemma ScheduleFieldsSplit(fn: seq<byte>, uniq: seq<byte>, minute: int, hour: int, day: int, month: int,
                            weekday: int, data: seq<byte>)
    requires NulFree(fn) && NulFree(uniq)
    ensures var fields := ScheduleFields(fn, uniq, minute, hour, day, month, weekday, data);
            SplitN(Join(fields), 8) == fields
  {
    var fields := ScheduleFields(fn, uniq, minute, hour, day, month, weekday, data);
    SeparableIndex(fields, 8);
    SplitNJoin(fields, 8);
  }

  /** The scheduled payload holds exactly its 7 separators when no field holds a NUL. */
  lemma ScheduleNulCount(fn: seq<byte>, uniq: seq<byte>, minute: int, hour: int, day: int, month: int,
                         weekday: int, data: seq<byte>)
    requires NulFree(fn) && NulFree(uniq) && NulFree(data)
    ensures CountNul(Join(ScheduleFields(fn, uniq, minute, hour, day, month, weekday, data))) == 7
  {
    var fields := ScheduleFields(fn, uniq, minute, hour, day, month, weekday, data);
    JoinCount(fields);
    AllNulFreeTotal(fields);
  }

  // ---------------------------------------------------------------------------
  // Interpreting replies

  /** `SubmitJob`'s reading of its reply: the payload of JOB_CREATED is the job handle. */
  function SubmitJobReply(reply: Result<Packet, Error>): (r: Result<seq<byte>, Error>)
    ensures r.Success? <==> reply.Success? && reply.value.h == SC_JOB_CREATED
    ensures r.Success? ==> r.value == reply.value.data
    ensures reply.Failure? ==> r == Failure(reply.error)
    ensures reply.Success? && r.Failure? ==> r.error == NotCreated
  {
    match reply
    case Failure(e) => Failure(e)
    case Success(p) => if p.h == SC_JOB_CREATED then Success(p.data) else Failure(NotCreated)
  }

  /**
    `SetOption`'s reading of its reply: OPTION_RES is success; ERROR gives
    an error whose text is the payload with its first NUL replaced by ": ".
  */
  function SetOptionReply(reply: Result<Packet, Error>): (r: Option<Error>)
    ensures r.None? <==> reply.Success? && reply.value.h == SC_OPTION_RES
    ensures reply.Failure? ==> r == Some(reply.error)
    ensures reply.Success? && reply.value.h == SC_ERROR ==> r.Some? && r.value.ServerError?
    ensures reply.Success? && reply.value.h != SC_OPTION_RES && reply.value.h != SC_ERROR ==> r == Some(UnexpectedReply)
  {
    match reply
    case Failure(e) => Some(e)
    case Success(p) =>
      if p.h == SC_OPTION_RES then None
      else if p.h == SC_ERROR then Some(ServerError(ReplaceFirstNul(p.data, COLON_SPACE)))
      else Some(UnexpectedReply)
  }

  /**
    An ERROR payload of a NUL-free code, a NUL and a message reads as
    "code: message"; NULs inside the message stay.
  */
  lemma SetOptionErrorText(code: seq<byte>, message: seq<byte>)
    requires NulFree(code)
    ensures SetOptionReply(Success(Packet(SC_ERROR, code + [NUL] + message)))
            == Some(ServerError(code + COLON_SPACE + message))
  {
    var s := code + [NUL] + message;
    assert SplitN(s, 2) == [code, message] by {
      SplitNCons(code, message, 2);
      SeparableSingle(message, 1);
    }
    ReplaceFirstNulSplit(s, COLON_SPACE);
  }

  /** A payload without a NUL is the error text unchanged. */
  lemma SetOptionErrorWithoutNul(data: seq<byte>)
    requires NulFree(data)
    ensures SetOptionReply(Success(Packet(SC_ERROR, data))) == Some(ServerError(data))
  {
  }

  /**
    A job server that creates the job makes `SubmitJob` return its handle,
    having written the whole submission under the priority's code.
  */
  lemma SubmitJobAgainstCreatingServer(c: Conn, fn: seq<byte>, uniq: seq<byte>, data: seq<byte>, p: int,
                                       handle: seq<byte>, rest: seq<byte>)
    requires 10 + |SubmitPayload(fn, uniq, data)| <= c.room && |handle| < 0x1_0000
    requires c.inbox == Frame(SC_JOB_CREATED, handle) + rest
    ensures var (c1, reply) := SendAndReceiveOn(c, SubmitJobCode(p), SubmitPayload(fn, uniq, data));
            && SubmitJobReply(reply) == Success(handle)
            && c1.outbox == c.outbox + Frame(SubmitJobCode(p), SubmitPayload(fn, uniq, data))
            && c1.inbox == rest
  {
    SendAndReceiveFrame(c, SubmitJobCode(p), SubmitPayload(fn, uniq, data), SC_JOB_CREATED, handle, rest);
  }

  // ---------------------------------------------------------------------------
  // The client object

  class Client {
    const server: Server

    constructor (server: Server)
      ensures this.server == server
    {
      this.server := server;
    }

    /** Builds name, NUL, id, NUL, data, as the submissions do. */
    static method BuildSubmitPayload(fn: seq<byte>, uniq: seq<byte>, data: seq<byte>) returns (buf: seq<byte>)
      ensures buf == SubmitPayload(fn, uniq, data)
    {
      buf := [];
      buf := buf + fn;
      buf := buf + [NUL];
      buf := buf + uniq;
      buf := buf + [NUL];
      buf := buf + data;
      JoinCons([fn, uniq, data]);
      JoinCons([uniq, data]);
      assert [fn, uniq, data][1..] == [uniq, data];
    }

    /** Submits a job and waits for its handle. */
    method SubmitJob(fn: seq<byte>, uniq: seq<byte>, data: seq<byte>, p: int) returns (r: Result<seq<byte>, Error>)
      modifies server
      ensures var (c, reply) := SendAndReceiveOn(old(server.State()), SubmitJobCode(p), SubmitPayload(fn, uniq, data));
              server.State() == c && r == SubmitJobReply(reply)
    {
      var h := SubmitJobCode(p);
      var buf := BuildSubmitPayload(fn, uniq, data);
      var reply := server.SendAndReceive(h, buf);
      r := SubmitJobReply(reply);
    }

    /** Submits a detached job; no reply is read. */
    method SubmitBackgroundJob(fn: seq<byte>, uniq: seq<byte>, data: seq<byte>, p: int) returns (err: Option<Error>)
      modifies server
      ensures (server.State(), err) == SendOn(old(server.State()), SubmitBackgroundJobCode(p), SubmitPayload(fn, uniq, data))
    {
      var h := SubmitBackgroundJobCode(p);
      var buf := BuildSubmitPayload(fn, uniq, data);
      err := server.Send(h, buf);
    }

    /**
      Submits a job to run at the given minute, hour, day, month and Go
      weekday. Defect: the request goes out under SUBMIT_JOB_EPOCH, whose
      payload is an epoch time, not under SUBMIT_JOB_SCHED.
    */
    method SubmitScheduledJob(fn: seq<byte>, uniq: seq<byte>, minute: int, hour: int, day: int, month: int,
                              goWeekday: int, data: seq<byte>) returns (err: Option<Error>)
      requires 0 <= goWeekday <= 6
      modifies server
      ensures (server.State(), err) == SendOn(old(server.State()), CS_SUBMIT_JOB_EPOCH,
                Join(ScheduleFields(fn, uniq, minute, hour, day, month, GearmanWeekday(goWeekday), data)))
    {
      var weekday := RemapWeekday(goWeekday);
      var buf := [];
      buf := buf + fn;
      buf := buf + [NUL];
      buf := buf + uniq;
      buf := buf + [NUL];
      buf := buf + Itoa(minute);
      buf := buf + [NUL];
      buf := buf + Itoa(hour);
      buf := buf + [NUL];
      buf := buf + Itoa(day);
      buf := buf + [NUL];
      buf := buf + Itoa(month);
      buf := buf + [NUL];
      buf := buf + Itoa(weekday);
      buf := buf + [NUL];
      buf := buf + data;
      JoinEight(ScheduleFields(fn, uniq, minute, hour, day, month, weekday, data));
      assert [] + fn == fn;
      err := server.Send(CS_SUBMIT_JOB_EPOCH, buf);
    }

    /**
      SUBMIT_JOB_EPOCH is not implemented: the source panics; here it fails
      without writing anything. The time is an integer, as elsewhere.
    */
    method SubmitEpochJob(fn: seq<byte>, uniq: seq<byte>, epoch: int, data: seq<byte>) returns (err: Option<Error>)
      ensures err == Some(Unsupported)
    {
      err := Some(Unsupported);
    }

    /** GET_STATUS with the job handle as payload; the status reply is not read. */
    method GetStatus(handle: seq<byte>) returns (err: Option<Error>)
      modifies server
      ensures (server.State(), err) == SendOn(old(server.State()), CS_GET_STATUS, handle)
    {
      err := server.Send(CS_GET_STATUS, handle);
    }

    /** OPTION_REQ with the option's name, and the verdict of the reply. */
    method SetOption(option: seq<byte>) returns (err: Option<Error>)
      modifies server
      ensures var (c, reply) := SendAndReceiveOn(old(server.State()), CS_OPTION_REQ, option);
              server.State() == c && err == SetOptionReply(reply)
    {
      var reply := server.SendAndReceive(CS_OPTION_REQ, option);
      err := SetOptionReply(reply);
    }
  }
}
