# Gearman client and worker protocol layer, in Dafny

This project models the protocol layer of a Go client/worker library for the
Gearman job queue, and proves properties of it:

- **Packet framing** (`framing.dfy`, `connection.dfy`). A packet is a 64-bit
  command header written as 8 big-endian bytes, then the payload length as
  2 big-endian bytes, then the payload. The header constants are a magic
  (`REQ` or `RES`) ORed with a command code.
  - The connection is a `Server` object with three fields: the bytes written
    so far (`outbox`), the bytes waiting to be read (`inbox`), and `room`, how
    many more bytes the connection will take before a write comes up short.
  - `Send`, `Receive` and `SendAndReceive` change these fields step by step,
    as `send` and `receive` do. Each is proved equal to a pure function of the
    connection's state (`SendOn`, `ReceiveOn`, `SendAndReceiveOn`).
  - Round trips are proved about those functions: what is sent is received.
- **Worker operations** (`worker.dfy`). These register abilities, grab jobs,
  report progress and results, and echo.
  - The methods whose payload has several fields (`CanDoTimeout`,
    `WorkData`, `WorkWarning`, `WorkStatus`, `WorkComplete`,
    `WorkException`) build it with successive appends, as the source does
    into a `bytes.Buffer`. `CanDo`, `CantDo`, `SetWorkerId`, `WorkFail` and
    `Echo` send the caller's bytes unchanged. `ResetAbilities`, `PreSleep`,
    `GrabJob` and `GrabJobUniq` send an empty payload. All of them then call
    `Send` or `SendAndReceive`.
  - Each method is proved to leave the connection as `SendOn` or
    `SendAndReceiveOn` says for its command and payload.
  - The readings of job replies (`GrabJobReply`, `GrabJobUniqReply`) are
    functions with split/join inverses. `EchoReply` succeeds exactly when
    the reply is `Packet(SW_ECHO_RES, message)`.
- **Client operations** (`client.dfy`): submitting jobs at a priority, in the
  background or on a schedule, asking for status, and setting options. The
  submissions build their payloads with successive appends; `GetStatus` and
  `SetOption` send the caller's bytes unchanged.
- **Library behaviour** (`bytes.dfy`, `decimal.dfy`). These hold the byte-level
  behaviour the source takes from Go's standard library:
  - `encoding/binary` big-endian integers;
  - `bytes.SplitN` and `bytes.Replace` with a NUL separator;
  - `bytes.Equal`, which is Dafny's sequence equality here;
  - `strconv.Itoa`.
  The source never joins fields with a library call. `Join` is the model's own
  definition of a buffer built by writing fields with a NUL between them,
  and the methods' successive appends are proved equal to it. Big-endian
  integers and the decimal text come with their inverses, and `SplitN` with
  `Join` as its inverse. The replacement is characterised by the two-way split.

Modelling choices:

- Bytes are integers from 0 to 255, and Go strings are byte sequences.
- A `header` is a natural number below 2^64.
- `REQ | code` is written `REQ + code`. The two agree because the low 40 bits
  of `REQ` and `RES` are zero and codes are below 2^32.
- Go returns zero values beside an error (header 0, empty payload, empty
  strings). Here an error is a `Failure` or `Some` of an `Error` kind, with no
  result beside it.

The model follows the code, and keeps these behaviours of it. Each one is also
commented at the definition that reproduces it.

- The magic `'R'<<56 | 'E'<<48 | 'Q'<<40` puts the bytes R, E, Q, 0 at the
  front of the header. The comment beside the constant says 0, R, E, Q, and so
  does the protocol's description of the header (`\0REQ`, `\0RES`). The model
  keeps the code's order (`Framing.RequestLayout`).
- The length field is `uint16(len(data))`. A payload of 65536 bytes or more
  is not rejected. Its length is written modulo 65536, so the peer reads it
  back short (`Framing.OversizeFrameTruncated`). The Gearman size field is
  4 bytes, so the protocol carries such payloads; this library's 2-byte
  field truncates their length instead.
- `WorkStatus` sends under WORK_WARNING, not WORK_STATUS.
- `Echo` sends under SET_CLIENT_ID, not ECHO_REQ.
- `GrabJobUniq` accepts JOB_ASSIGN and rejects JOB_ASSIGN_UNIQ, which is the
  protocol's reply to GRAB_JOB_UNIQ (`Worker.GrabJobUniqRejectsAssignUniq`).
- `SubmitScheduledJob` sends under SUBMIT_JOB_EPOCH, not SUBMIT_JOB_SCHED.
- A priority other than Low (-1), Normal (0) and High (1) leaves the header
  at 0. That header carries no request magic
  (`Client.UnknownPriorityHasNoMagic`).
- `AllYours` and `SubmitEpochJob` panic in the source. Here they return the
  `Unsupported` error kind and write nothing.

## Model

| member | source | states |
|---|---|---|
| Bytes.BigEndian | server.go:131-136 | the big-endian encoding of x in k bytes, as `binary.Write` writes it, is k bytes long; `BigEndianInverse` reads it back |
| Bytes.FromBigEndian | server.go:163-169 | the value `binary.Read` reads from big-endian bytes is below 256 to the number of bytes; `FromBigEndianInverse` writes it back |
| Bytes.BigEndianInverse | server.go:163-169 | reading back the k big-endian bytes written for x gives x |
| Bytes.FromBigEndianInverse | server.go:131-136 | writing back, in the same width, the value read from big-endian bytes gives the same bytes |
| Bytes.BigEndianConcat | server.go:26-28 | a value made of a j-byte high part and a k-byte low part is written as the high part's bytes followed by the low part's; the value fits in j + k bytes |
| Bytes.FromBigEndianConcat | server.go:163-169 | reading a concatenation gives the first part's value shifted left past the second part's bytes, plus the second part's value |
| Bytes.SplitN | worker.go:111 | `bytes.SplitN` on NUL gives between 1 and n fields; `SplitNJoinBack`, `SplitNCount` and `SplitNSeparable` fix which |
| Bytes.SplitNJoinBack | worker.go:111 | the fields of `SplitN(s, n)` joined with NUL give back s |
| Bytes.SplitNSeparable | worker.go:111 | for fields of `SplitN(s, n)`, every field but the last is NUL-free, and the last one too when there are fewer than n fields |
| Bytes.SplitNCount | worker.go:111 | `SplitN(s, n)` has min(n, number of NULs in s + 1) fields |
| Bytes.SplitNFields | worker.go:135 | splitting into at most n fields gives exactly n fields iff s has at least n - 1 NULs; the fields join back to s; all but the last are NUL-free |
| Bytes.SplitNCons | worker.go:111 | a NUL-free field followed by a NUL is the first field split off, and the rest is split into one field fewer |
| Bytes.SplitNJoin | worker.go:111-112 | split/join inverse: fields that are separable for n come back from splitting their join into at most n fields |
| Bytes.ReplaceFirstNul | client.go:191 | a NUL-free input is unchanged; otherwise the result is one byte shorter than the input plus the replacement |
| Bytes.ReplaceFirstNulSplit | client.go:191 | replacing the first NUL gives the two fields of a two-way split joined by the replacement; without a NUL the input is unchanged |
| Bytes.JoinCount | client.go:130-145 | joining n fields adds exactly n - 1 NULs to those the fields hold |
| Bytes.JoinEight | client.go:130-145 | eight fields joined are the fields with a NUL between each pair of neighbours |
| Decimal.Digits | worker.go:200 | the digits are at least one decimal digit; the first is '0' exactly for zero, and then it is the only one |
| Decimal.DigitsInverse | worker.go:200 | reading the decimal digits of n back gives n |
| Decimal.Itoa | worker.go:200-202 | the text holds no NUL and starts with '-' exactly when n is negative; after the sign come only digits, with no leading zero |
| Decimal.ItoaInverse | worker.go:200-202 | parsing the text of n gives n back |
| Decimal.ItoaInjective | worker.go:200-202 | different numbers have different texts |
| Framing.Request | server.go:26 | `REQ` ORed with c has the request magic in its high 32 bits and the code in its low 32 bits |
| Framing.Response | server.go:28 | `RES` ORed with c has the response magic in its high 32 bits and the code in its low 32 bits |
| Framing.HeaderBytes | server.go:131 | a header is written as 8 bytes that read back as the header |
| Framing.RequestLayout | server.go:26 | a request header's 8 bytes are R, E, Q, 0 followed by the code's 4 big-endian bytes |
| Framing.ResponseLayout | server.go:28 | a response header's 8 bytes are R, E, S, 0 followed by the code's 4 big-endian bytes |
| Framing.RequestTablesMagic | server.go:31-69 | every worker and client request constant carries the request magic in bytes 0-3 |
| Framing.ResponseTablesMagic | server.go:50-82 | every worker and client response constant carries the response magic in bytes 0-3 |
| Framing.RequestsAreNotResponses | server.go:26-82 | no request constant equals any response constant |
| Framing.WorkerRequestsDistinct | server.go:31-47 | no two worker-to-server commands share a header |
| Framing.WorkerResponsesDistinct | server.go:50-56 | no two server-to-worker commands share a header |
| Framing.ClientRequestsDistinct | server.go:59-69 | no two client-to-server commands share a header |
| Framing.ClientResponsesDistinct | server.go:72-82 | no two server-to-client commands share a header |
| Framing.CrossRoleSharing | server.go:31-82 | commands of different roles do share headers: echo, option and error, and the code of WORK_STATUS |
| Framing.LengthField | server.go:136 | the length field is 2 bytes that read as the payload length modulo 65536 |
| Framing.Frame | server.go:128-153 | a frame is 10 bytes longer than its payload |
| Framing.ParseFrame | server.go:155-189 | a parsed packet takes 10 + its payload length bytes, and exactly those bytes are its frame; the payload is as long as the length field announces; parsing fails iff fewer than 10 bytes are there, or fewer than 10 + the announced length |
| Framing.ParseFrameOfFrame | server.go:136 | reading a written frame gives its header and the first (payload length modulo 65536) payload bytes, and consumes that many bytes plus 10 |
| Framing.FrameRoundTrip | server.go:128-189 | a payload shorter than 65536 bytes comes back whole, with its header, and exactly its frame is consumed |
| Framing.OversizeFrameTruncated | server.go:136 | a payload of 65536 bytes or more is read back strictly shorter, at its length modulo 65536 |
| Framing.EmptyFrame | server.go:141 | an empty payload is framed as the 8 header bytes and two zero bytes |
| Connection.WriteOn | server.go:142-148 | a write leaves the inbox alone and appends as much of the bytes as there is room for |
| Connection.SendOn | server.go:128-153 | a send leaves the inbox alone, appends to the outbox exactly as many bytes as it takes from the room, and succeeds iff the 10 + length bytes fit |
| Connection.ReceiveOn | server.go:155-189 | a receive leaves the outbox and room alone; a packet received is a frame at the front of the inbox, its payload as long as the length field announces, and the inbox is what follows it; it fails iff fewer than 10 bytes are waiting, or fewer than 10 + the announced length, and then reports a header failure iff fewer than 10 and a short read otherwise, and empties the inbox |
| Connection.SendAndReceiveOn | server.go:117-126 | writes what the send writes; when the send fails, returns its error and leaves the inbox alone; otherwise a reply received is a frame at the front of the inbox, its payload as long as the length field announces, and the read fails, emptying the inbox with a read or short-read error, exactly when the inbox holds less than a whole frame |
| Connection.SendAppendsFrame | server.go:128-153 | a send leaves the inbox alone and appends a prefix of the frame; it succeeds iff the whole 10 + length bytes fit, and the whole frame is then what was appended |
| Connection.SendErrorKind | server.go:131-148 | a failed send reports a write failure iff the 10 header and length bytes did not fit, and a short write iff only the payload was cut |
| Connection.SendHeaderShort | server.go:131-133 | a header write that comes up short ends the send with a write failure |
| Connection.SendLengthShort | server.go:136-138 | a length write that comes up short ends the send with a write failure, after the header |
| Connection.SendDataShort | server.go:141-148 | a payload write that comes up short ends the send with a short-write error, after header and length |
| Connection.SendWhole | server.go:128-153 | when the frame fits, header, length and payload are written whole and the send succeeds |
| Connection.ReceiveFrame | server.go:155-189 | receiving a frame the peer wrote gives its packet and consumes exactly that frame |
| Connection.ReceiveFailure | server.go:163-181 | an inbox holding less than a whole frame makes the read fail |
| Connection.SendAndReceiveFrame | server.go:117-126 | when the request fits, it is written whole, and then the reply at the front of the inbox is read and consumed |
| Connection.SendAndReceiveSendFailure | server.go:121-123 | a send that fails reports its error and reads nothing |
| Connection.Loopback | server.go:128-189 | what one side sends, the other receives, for payloads shorter than 65536 bytes |
| Connection.Server.Write | server.go:142 | one write: returns how many bytes the connection accepted and leaves the state `WriteOn` describes |
| Connection.Server.ReadFull | server.go:175-181 | gives the first n waiting bytes and consumes them; when fewer are waiting, fails and consumes what was there |
| Connection.Server.Send | server.go:105-153 | the new connection state and the error are those of `SendOn` for the header and payload |
| Connection.Server.Receive | server.go:111-189 | the new connection state and the reply are those of `ReceiveOn` |
| Connection.Server.SendAndReceive | server.go:117-126 | the new connection state and the reply are those of `SendAndReceiveOn`: no read when the send fails |
| Worker.TruncDiv | worker.go:53 | Go's integer division: the quotient is truncated toward zero |
| Worker.TimeoutSeconds | worker.go:53 | `uint32(timeout / time.Second)` is below 2^32 and congruent, modulo 2^32, to the truncated number of whole seconds |
| Worker.TimeoutSecondsExamples | worker.go:53 | fractions are dropped, a negative timeout wraps around, and 2^32 seconds become 0 |
| Worker.TimeoutPayload | worker.go:47-59 | the CAN_DO_TIMEOUT payload is len(name) + 5 bytes: the name, a NUL, and 4 bytes that read as the timeout in seconds |
| Worker.TimeoutPayloadSplit | worker.go:47-59 | a NUL-free name splits back off a CAN_DO_TIMEOUT payload, followed by the 4 timeout bytes |
| Worker.StatusPayload | worker.go:197-202 | the WORK_STATUS payload is 2 bytes longer than the handle and the two decimal texts, and holds 2 NULs more than the handle |
| Worker.StatusPayloadSplit | worker.go:195-206 | a status payload with a NUL-free handle splits back into the handle and the two decimal texts, which parse to n and m |
| Worker.HandleDataSplit | worker.go:155-164 | a payload of NUL-free handle, NUL and data splits back into handle and data, and is 1 byte longer than they are |
| Worker.GrabJobReply | worker.go:102-120 | JOB_ASSIGN is a job iff its payload has at least two NULs; the job's handle and name are NUL-free and join back with the data to the payload. NO_JOB is success with empty fields. Other codes and read errors are errors |
| Worker.AssignFields | worker.go:111 | a JOB_ASSIGN payload cuts into 3 fields iff it has two NULs; they join back to it, and the first two are NUL-free |
| Worker.AssignUniqFields | worker.go:135 | a payload cuts into 4 fields iff it has three NULs; they join back to it, and the first three are NUL-free |
| Worker.GrabJobOfJoin | worker.go:111-112 | split/join inverse: JOB_ASSIGN of a NUL-free handle and name joined with data gives exactly that job |
| Worker.GrabJobUniqReply | worker.go:126-144 | as `GrabJobReply`, with four fields, accepted under JOB_ASSIGN (the reproduced defect) |
| Worker.GrabJobUniqOfJoin | worker.go:134-136 | split/join inverse for the four fields of a unique job |
| Worker.GrabJobUniqRejectsAssignUniq | worker.go:133-142 | a JOB_ASSIGN_UNIQ reply is rejected as a bad job, whatever its payload |
| Worker.EchoReply | worker.go:286-295 | the echo succeeds iff the reply is ECHO_RES with exactly the message; a read error is passed on |
| Worker.EchoAgainstEchoingServer | worker.go:282-297 | against a server that echoes the message, `Echo` succeeds, having written the request under SET_CLIENT_ID and consumed the reply |
| Worker.GrabJobAgainstAssigningServer | worker.go:102-120 | against a server that assigns a job, `GrabJob` returns that job, having written an empty GRAB_JOB |
| Worker.Worker.CanDo | worker.go:34-38 | sends CAN_DO (code 1) with the name as payload |
| Worker.Worker.CanDoTimeout | worker.go:47-59 | sends CAN_DO_TIMEOUT with `TimeoutPayload(name, timeout)`, built by successive appends |
| Worker.Worker.CantDo | worker.go:66-70 | sends CANT_DO (code 2) with the name as payload |
| Worker.Worker.ResetAbilities | worker.go:78-82 | sends RESET_ABILITIES (code 3) with an empty payload |
| Worker.Worker.PreSleep | worker.go:90-94 | sends PRE_SLEEP (code 4) with an empty payload |
| Worker.Worker.GrabJob | worker.go:102-120 | sends an empty GRAB_JOB and returns `GrabJobReply` of the reply read after it |
| Worker.Worker.GrabJobUniq | worker.go:126-144 | sends an empty GRAB_JOB_UNIQ and returns `GrabJobUniqReply` of the reply read after it |
| Worker.Worker.SendWork | worker.go:155-162 | sends handle, NUL and data under the given code, built by successive appends |
| Worker.Worker.WorkData | worker.go:155-164 | sends WORK_DATA (code 28) with handle, NUL and data |
| Worker.Worker.WorkWarning | worker.go:173-182 | sends WORK_WARNING (code 29) with handle, NUL and data |
| Worker.Worker.WorkStatus | worker.go:195-206 | sends handle, NUL, decimal n, NUL and decimal m under WORK_WARNING (the reproduced defect) |
| Worker.Worker.WorkComplete | worker.go:214-223 | sends WORK_COMPLETE (code 13) with handle, NUL and data |
| Worker.Worker.WorkFail | worker.go:230-234 | sends WORK_FAIL (code 14) with the handle as payload |
| Worker.Worker.WorkException | worker.go:242-251 | sends WORK_EXCEPTION (code 25) with handle, NUL and data |
| Worker.Worker.SetWorkerId | worker.go:259-263 | sends SET_CLIENT_ID (code 22) with the id as payload |
| Worker.Worker.AllYours | worker.go:272-274 | fails as unsupported and writes nothing |
| Worker.Worker.Echo | worker.go:282-297 | sends the message under SET_CLIENT_ID (the reproduced defect), reads the reply, and succeeds exactly as `EchoReply` says |
| Client.SubmitJobCode | client.go:53-62 | the header is 0 exactly for an unknown priority; a known priority gives a client request header |
| Client.SubmitBackgroundJobCode | client.go:85-94 | the same, for the background codes |
| Client.PriorityCodes | client.go:55-94 | Low, Normal and High take codes 33, 7 and 21 in the foreground, and 34, 18 and 32 in the background |
| Client.SubmitCodesDistinct | client.go:55-94 | different known priorities get different codes; foreground and background codes coincide only when both priorities are unknown |
| Client.UnknownPriorityHasNoMagic | client.go:53-62 | the zero header of an unknown priority does not carry the request magic |
| Client.GearmanWeekday | client.go:121-128 | the Gearman weekday is in 0..6 and is the Go weekday minus one, modulo 7 |
| Client.GearmanWeekdayBijective | client.go:121-128 | every Gearman weekday comes from exactly one Go weekday |
| Client.GearmanWeekdayShift | client.go:121-128 | Sunday (0) becomes 6; every other day d becomes d - 1 |
| Client.RemapWeekday | client.go:121-128 | the local rewrite of the weekday computes `GearmanWeekday` |
| Client.SubmitPayload | client.go:64-69 | a submission payload is 2 bytes longer than name, id and data, and holds 2 NULs more than they do |
| Client.SubmitPayloadSplit | client.go:64-69 | a submission with NUL-free name and id splits back into name, id and data, and is 2 bytes longer than they are |
| Client.ScheduleFields | client.go:130-145 | the 8 scheduled fields are name, id, five NUL-free time texts, and the data |
| Client.ScheduleTimesParse | client.go:135-143 | the five time fields parse back to minute, hour, day, month and weekday |
| Client.ScheduleFieldCount | client.go:130-145 | the scheduled payload always cuts into 8 fields |
| Client.ScheduleFieldsSplit | client.go:130-145 | with NUL-free name and id, the 8 fields read back are the 8 written |
| Client.ScheduleNulCount | client.go:130-145 | with NUL-free name, id and data, the scheduled payload holds exactly 7 NULs |
| Client.SubmitJobReply | client.go:71-79 | success iff the reply is JOB_CREATED, with its payload unchanged as the handle; other replies are errors, and read errors are passed on |
| Client.SetOptionReply | client.go:182-194 | success iff the reply is OPTION_RES; ERROR gives a server error with a text; any other code is an unexpected reply; read errors are passed on |
| Client.SetOptionErrorText | client.go:191 | an ERROR payload of a NUL-free code, a NUL and a message reads as "code: message", with NULs inside the message kept |
| Client.SetOptionErrorWithoutNul | client.go:191 | an ERROR payload without a NUL is the error text unchanged |
| Client.SubmitJobAgainstCreatingServer | client.go:51-81 | against a server that creates the job, `SubmitJob` returns its handle, having written the whole submission under the priority's code |
| Client.Client.BuildSubmitPayload | client.go:64-69 | the successive writes build name, NUL, id, NUL and data |
| Client.Client.SubmitJob | client.go:51-81 | sends the submission under `SubmitJobCode(p)` and returns `SubmitJobReply` of the reply read after it |
| Client.Client.SubmitBackgroundJob | client.go:83-105 | sends the submission under `SubmitBackgroundJobCode(p)` and reads nothing |
| Client.Client.SubmitScheduledJob | client.go:119-149 | sends the 8 scheduled fields, with the weekday remapped, joined by NULs, under SUBMIT_JOB_EPOCH (the reproduced defect) |
| Client.Client.SubmitEpochJob | client.go:159-161 | fails as unsupported and writes nothing |
| Client.Client.GetStatus | client.go:167-171 | sends GET_STATUS (code 15) with the handle and reads nothing |
| Client.Client.SetOption | client.go:180-195 | sends OPTION_REQ with the option name and returns `SetOptionReply` of the reply read after it |

## Left out

- `NewServer`, `NewWorker`, `NewClient` and `net.DialTimeout` are network set-up. The constructors take a `Server`, which is built from an inbox and a room.
- The mutex in `Server` and the locking in `Send`, `Receive` and `SendAndReceive` are concurrency. The operations are sequential calls on one object.
- Write errors of the connection are modelled as running out of room; no other cause is modelled.
- Connection.SendOn: `ShortWrite` stands for both ways a payload write comes up short. A `net.Conn` write that takes fewer bytes returns its own error (server.go:143-144); a write that takes fewer bytes without an error gets "short write" (server.go:146-147). The model does not tell the two apart.
- Connection.Server.Receive: the source makes a new `bufio.Reader` on every call. It may read bytes past the frame from the connection and then drop them; the model consumes the frame exactly.
- Connection.Server.Receive: the source reads the payload with one `Read` on that `bufio.Reader` (server.go:175). The model fails only when fewer bytes are waiting than the length announces, and otherwise returns the whole payload. The source can return fewer:
  - when the reader's buffer is not empty, `Read` returns only what is buffered;
  - the buffer holds 4096 bytes, 10 of them taken by header and length;
  - so a payload over 4086 bytes that arrives together with its header fails as short, even with every byte waiting;
  - `Loopback` and `FrameRoundTrip` promise round trips up to 65535 bytes, and so do not hold of the source above 4086 bytes;
  - a payload that has not fully arrived when `Read` runs also fails in the source.
  A failed read here empties the whole inbox.
- `RWTimeout` (server.go:87) is declared but never applied to the connection; the model has no timeouts.
- `time.Time` and `time.Duration` are integer inputs: minute, hour, day, month and Go weekday, and the timeout in nanoseconds. Client.Client.SubmitScheduledJob requires the Go weekday to be in 0..6, the range of `time.Weekday`.
- `strconv.Itoa` is a decimal function with its own inverse, not Go's implementation.
- The texts of the error messages are left out; only error kinds are modelled. SetOption's text built from an ERROR reply is kept.
- No source handles unsolicited NOOP packets, rejects oversize payloads or parses status replies, and neither does the model.
