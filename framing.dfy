/**
  The binary packet of the library: a 64-bit command header written as 8
  big-endian bytes, a payload length written as 2 big-endian bytes, and the
  payload. Header constants are a 4-byte magic ORed with a command code.
*/
module Framing {
  import opened Wrappers
  import opened Bytes

  /** A `uint64` command header. */
  type header = h: nat | h < 0x1_0000_0000_0000_0000

  /**
    The magic parts. `'R'<<56 | 'E'<<48 | 'Q'<<40` puts 'R', 'E', 'Q', 0 in
    bytes 0-3 of the big-endian header. Defect: the comment beside the
    constant in the source claims {0, 'R', 'E', 'Q', ...}, which is also the
    protocol's "\0REQ"; the code's order is the one modelled.
  */
  const REQ: header := 0x52 * 0x100_0000_0000_0000 + 0x45 * 0x1_0000_0000_0000 + 0x51 * 0x100_0000_0000
  const RES: header := 0x52 * 0x100_0000_0000_0000 + 0x45 * 0x1_0000_0000_0000 + 0x53 * 0x100_0000_0000

  /** The first four header bytes of every request and every response. */
  const REQ_MAGIC: seq<byte> := [0x52, 0x45, 0x51, 0]
  const RES_MAGIC: seq<byte> := [0x52, 0x45, 0x53, 0]

  /** Command codes are ORed into the low 32 bits, which REQ and RES leave zero. */
  type code = c: nat | c < 0x1_0000_0000

  /** `REQ | c`: the request magic in the high 32 bits, the code in the low 32. */
  function Request(c: code): (h: header)
    ensures h / 0x1_0000_0000 == 0x5245_5100 && h % 0x1_0000_0000 == c
  {
    REQ + c
  }

  /** `RES | c`: the response magic in the high 32 bits, the code in the low 32. */
  function Response(c: code): (h: header)
    ensures h / 0x1_0000_0000 == 0x5245_5300 && h % 0x1_0000_0000 == c
  {
    RES + c
  }

  // worker -> server
  const WS_CAN_DO: header := Request(1)
  const WS_CAN_DO_TIMEOUT: header := Request(23)
  const WS_CANT_DO: header := Request(2)
  const WS_RESET_ABILITIES: header := Request(3)
  const WS_PRE_SLEEP: header := Request(4)
  const WS_SET_CLIENT_ID: header := Request(22)
  const WS_ALL_YOURS: header := Request(24)
  const WS_ECHO_REQ: header := Request(16)
  const WS_OPTION_REQ: header := Request(26)
  const WS_GRAB_JOB: header := Request(9)
  const WS_GRAB_JOB_UNIQ: header := Request(30)
  const WS_WORK_STATUS: header := Request(12)
  const WS_WORK_COMPLETE: header := Request(13)
  const WS_WORK_FAIL: header := Request(14)
  const WS_WORK_EXCEPTION: header := Request(25)
  const WS_WORK_DATA: header := Request(28)
  const WS_WORK_WARNING: header := Request(29)

  // server -> worker
  const SW_NOOP: header := Response(6)
  const SW_NO_JOB: header := Response(10)
  const SW_JOB_ASSIGN: header := Response(11)
  const SW_ECHO_RES: header := Response(17)
  const SW_ERROR: header := Response(19)
  const SW_OPTION_RES: header := Response(27)
  const SW_JOB_ASSIGN_UNIQ: header := Response(31)

  // client -> server
  const CS_GET_STATUS: header := Request(15)
  const CS_ECHO_REQ: header := Request(16)
  const CS_OPTION_REQ: header := Request(26)
  const CS_SUBMIT_JOB: header := Request(7)
  const CS_SUBMIT_JOB_BG: header := Request(18)
  const CS_SUBMIT_JOB_HIGH: header := Request(21)
  const CS_SUBMIT_JOB_HIGH_BG: header := Request(32)
  const CS_SUBMIT_JOB_LOW: header := Request(33)
  const CS_SUBMIT_JOB_LOW_BG: header := Request(34)
  const CS_SUBMIT_JOB_SCHED: header := Request(35)
  const CS_SUBMIT_JOB_EPOCH: header := Request(36)

  // server -> client
  const SC_STATUS_RES: header := Response(20)
  const SC_ECHO_RES: header := Response(17)
  const SC_OPTION_RES: header := Response(27)
  const SC_JOB_CREATED: header := Response(8)
  const SC_ERROR: header := Response(19)
  const SC_SUBMIT_JOB_HIGH: header := Response(21)
  const SC_WORK_STATUS: header := Response(12)
  const SC_WORK_COMPLETE: header := Response(13)
  const SC_WORK_FAIL: header := Response(14)
  const SC_WORK_DATA: header := Response(28)
  const SC_WORK_WARNING: header := Response(29)

  /** The four role tables, in declaration order. */
  const WORKER_REQUESTS: seq<header> := [
    WS_CAN_DO, WS_CAN_DO_TIMEOUT, WS_CANT_DO, WS_RESET_ABILITIES, WS_PRE_SLEEP,
    WS_SET_CLIENT_ID, WS_ALL_YOURS, WS_ECHO_REQ, WS_OPTION_REQ, WS_GRAB_JOB,
    WS_GRAB_JOB_UNIQ, WS_WORK_STATUS, WS_WORK_COMPLETE, WS_WORK_FAIL,
    WS_WORK_EXCEPTION, WS_WORK_DATA, WS_WORK_WARNING]
  const WORKER_RESPONSES: seq<header> := [
    SW_NOOP, SW_NO_JOB, SW_JOB_ASSIGN, SW_ECHO_RES, SW_ERROR, SW_OPTION_RES,
    SW_JOB_ASSIGN_UNIQ]
  const CLIENT_REQUESTS: seq<header> := [
    CS_GET_STATUS, CS_ECHO_REQ, CS_OPTION_REQ, CS_SUBMIT_JOB, CS_SUBMIT_JOB_BG,
    CS_SUBMIT_JOB_HIGH, CS_SUBMIT_JOB_HIGH_BG, CS_SUBMIT_JOB_LOW,
    CS_SUBMIT_JOB_LOW_BG, CS_SUBMIT_JOB_SCHED, CS_SUBMIT_JOB_EPOCH]
  const CLIENT_RESPONSES: seq<header> := [
    SC_STATUS_RES, SC_ECHO_RES, SC_OPTION_RES, SC_JOB_CREATED, SC_ERROR,
    SC_SUBMIT_JOB_HIGH, SC_WORK_STATUS, SC_WORK_COMPLETE, SC_WORK_FAIL,
    SC_WORK_DATA, SC_WORK_WARNING]

  /** The 8 bytes a header goes on the wire as. */
  function HeaderBytes(h: header): (r: seq<byte>)
    ensures |r| == 8 && FromBigEndian(r) == h
  {
    BigEndianInverse(h, 8);
    BigEndian(h, 8)
  }

  /** The magic of a header: its first four bytes on the wire. */
  function Magic(h: header): seq<byte>
  {
    HeaderBytes(h)[..4]
  }

  /** A request header is REQ's magic followed by the code's four bytes. */
  lemma RequestLayout(c: code)
    ensures HeaderBytes(Request(c)) == REQ_MAGIC + BigEndian(c, 4)
  {
    assert Pow256(4) == 0x1_0000_0000;
    assert Request(c) == 0x5245_5100 * Pow256(4) + c;
    BigEndianConcat(0x5245_5100, c, 4, 4);
    assert BigEndian(0x5245_5100, 4) == REQ_MAGIC;
  }

  /** A response header is RES's magic followed by the code's four bytes. */
  lemma ResponseLayout(c: code)
    ensures HeaderBytes(Response(c)) == RES_MAGIC + BigEndian(c, 4)
  {
    assert Pow256(4) == 0x1_0000_0000;
    assert Response(c) == 0x5245_5300 * Pow256(4) + c;
    BigEndianConcat(0x5245_5300, c, 4, 4);
    assert BigEndian(0x5245_5300, 4) == RES_MAGIC;
  }

  predicate AllMagic(table: seq<header>, magic: seq<byte>)
  {
    forall i :: 0 <= i < |table| ==> Magic(table[i]) == magic
  }

  /** Every header of the table is a request, or every one a response. */
  predicate AllRequests(table: seq<header>)
  {
    forall i :: 0 <= i < |table| ==> REQ <= table[i] < REQ + 0x1_0000_0000
  }

  predicate AllResponses(table: seq<header>)
  {
    forall i :: 0 <= i < |table| ==> RES <= table[i] < RES + 0x1_0000_0000
  }

  lemma RequestsMagic(table: seq<header>)
    requires AllRequests(table)
    ensures AllMagic(table, REQ_MAGIC)
  {
    forall i | 0 <= i < |table|
      ensures Magic(table[i]) == REQ_MAGIC
    {
      RequestLayout(table[i] - REQ);
    }
  }

  lemma ResponsesMagic(table: seq<header>)
    requires AllResponses(table)
    ensures AllMagic(table, RES_MAGIC)
  {
    forall i | 0 <= i < |table|
      ensures Magic(table[i]) == RES_MAGIC
    {
      ResponseLayout(table[i] - RES);
    }
  }

  /** Every request constant carries the request magic in bytes 0-3. */
  lemma RequestTablesMagic()
    ensures AllMagic(WORKER_REQUESTS, REQ_MAGIC) && AllMagic(CLIENT_REQUESTS, REQ_MAGIC)
  {
    RequestsMagic(WORKER_REQUESTS);
    RequestsMagic(CLIENT_REQUESTS);
  }

  /** Every response constant carries the response magic in bytes 0-3. */
  lemma ResponseTablesMagic()
    ensures AllMagic(WORKER_RESPONSES, RES_MAGIC) && AllMagic(CLIENT_RESPONSES, RES_MAGIC)
  {
    ResponsesMagic(WORKER_RESPONSES);
    ResponsesMagic(CLIENT_RESPONSES);
  }

  /** No request constant equals any response constant: their magics differ. */
  lemma RequestsAreNotResponses(req: header, res: header)
    requires req in WORKER_REQUESTS + CLIENT_REQUESTS
    requires res in WORKER_RESPONSES + CLIENT_RESPONSES
    ensures req != res
  {
    RequestTablesMagic();
    ResponseTablesMagic();
    assert Magic(req) == REQ_MAGIC;
    assert Magic(res) == RES_MAGIC;
  }

  predicate Distinct(table: seq<header>)
  {
    forall i, j :: 0 <= i < j < |table| ==> table[i] != table[j]
  }

  /** Within each role table no two commands share a header. */
  lemma WorkerRequestsDistinct()
    ensures Distinct(WORKER_REQUESTS)
  {
  }

  lemma WorkerResponsesDistinct()
    ensures Distinct(WORKER_RESPONSES)
  {
  }

  lemma ClientRequestsDistinct()
    ensures Distinct(CLIENT_REQUESTS)
  {
  }

  lemma ClientResponsesDistinct()
    ensures Distinct(CLIENT_RESPONSES)
  {
  }

  /** The same header stands for a command of each role: the tables overlap only across roles. */
  lemma CrossRoleSharing()
    ensures WS_ECHO_REQ == CS_ECHO_REQ && WS_OPTION_REQ == CS_OPTION_REQ
    ensures SW_ECHO_RES == SC_ECHO_RES && SW_ERROR == SC_ERROR && SW_OPTION_RES == SC_OPTION_RES
    ensures WS_WORK_STATUS - REQ == SC_WORK_STATUS - RES
  {
  }

  // ---------------------------------------------------------------------------
  // Frames

  /**
    The length field: `uint16(len(data))`, which keeps only the low 16 bits.
    Defect: an oversize payload is not rejected; its length is written
    truncated (the protocol's size field is 4 bytes).
  */
  function LengthField(d: seq<byte>): (r: seq<byte>)
    ensures |r| == 2 && FromBigEndian(r) == |d| % 0x1_0000
  {
    BigEndianInverse(|d| % 0x1_0000, 2);
    BigEndian(|d| % 0x1_0000, 2)
  }

  /** The bytes one `send(h, data)` puts on the wire. */
  function Frame(h: header, d: seq<byte>): (r: seq<byte>)
    ensures |r| == 10 + |d|
  {
    HeaderBytes(h) + LengthField(d) + d
  }

  /** A decoded packet. */
  datatype Packet = Packet(h: header, data: seq<byte>)

  /**
    The packet at the front of s and how many bytes it takes: the header, the
    two-byte length n and then n payload bytes; None when s is too short.
  */
  function ParseFrame(s: seq<byte>): (r: Option<(Packet, nat)>)
    ensures r.Some? ==> 10 <= r.value.1 <= |s| && r.value.1 == 10 + |r.value.0.data|
    ensures r.Some? ==> s[..r.value.1] == Frame(r.value.0.h, r.value.0.data)
    ensures r.Some? ==> |s| >= 10 && |r.value.0.data| == FromBigEndian(s[8..10])
    ensures r.None? <==> |s| < 10 || |s| < 10 + FromBigEndian(s[8..10])
  {
    if |s| < 10 then None
    else
      var h := FromBigEndian(s[..8]);
      var n := FromBigEndian(s[8..10]);
      if |s| < 10 + n then None
      else
        var d := s[10..10 + n];
        FrameOfParts(s, n);
        Some((Packet(h, d), 10 + n))
  }

  /** Bytes that parse as a header, a length n and n bytes are the frame of those. */
  lemma FrameOfParts(s: seq<byte>, n: nat)
    requires 10 + n <= |s| && n == FromBigEndian(s[8..10])
    ensures s[..10 + n] == Frame(FromBigEndian(s[..8]), s[10..10 + n])
  {
    var d := s[10..10 + n];
    FromBigEndianInverse(s[..8]);
    LengthFieldRead(d, s[8..10]);
    assert s[..10 + n] == s[..8] + s[8..10] + d;
  }

  /** The length field of a payload is the two bytes that read as its length. */
  lemma LengthFieldRead(d: seq<byte>, b: seq<byte>)
    requires |b| == 2 && |d| == FromBigEndian(b)
    ensures LengthField(d) == b
  {
    FromBigEndianInverse(b);
    assert Pow256(2) == 0x1_0000;
  }

  /**
    Reading a written frame back: the header, and as many payload bytes as
    the truncated length field says, which is the whole payload exactly when
    it is shorter than 65536 bytes.
  */
  lemma ParseFrameOfFrame(h: header, d: seq<byte>, rest: seq<byte>)
    ensures var n := |d| % 0x1_0000;
            ParseFrame(Frame(h, d) + rest) == Some((Packet(h, d[..n]), 10 + n))
  {
    var s := Frame(h, d) + rest;
    assert s[..8] == HeaderBytes(h);
    assert s[8..10] == LengthField(d);
    assert s[10..10 + |d| % 0x1_0000] == d[..|d| % 0x1_0000];
  }

  /** Round trip: a payload shorter than 65536 bytes comes back whole and consumes its frame. */
  lemma FrameRoundTrip(h: header, d: seq<byte>, rest: seq<byte>)
    requires |d| < 0x1_0000
    ensures ParseFrame(Frame(h, d) + rest) == Some((Packet(h, d), |Frame(h, d)|))
  {
    ParseFrameOfFrame(h, d, rest);
    assert d[..|d|] == d;
  }

  /** A packet of 65536 bytes or more is read back short: its length field wrapped around. */
  lemma OversizeFrameTruncated(h: header, d: seq<byte>, rest: seq<byte>)
    requires |d| >= 0x1_0000
    ensures ParseFrame(Frame(h, d) + rest).Some?
    ensures |ParseFrame(Frame(h, d) + rest).value.0.data| == |d| % 0x1_0000 < |d|
  {
    ParseFrameOfFrame(h, d, rest);
  }

  /** An empty payload is framed as the header and a zero length only. */
  lemma EmptyFrame(h: header)
    ensures Frame(h, []) == HeaderBytes(h) + [0, 0]
  {
    assert LengthField([]) == BigEndian(0, 2);
  }
}
