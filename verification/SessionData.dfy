/** The data of one session, the guards that read it and the actions that change it. */
module SessionData {
  import opened Octets
  import opened Options
  import opened RequestParser
  import opened Oack

  // ---- The file stream ----

  datatype Direction = Closed | ForReading | ForWriting

  /** `good` is false once the stream's fail, eof or bad bit is set. */
  datatype Stream = Stream(direction: Direction, good: bool, contents: Bytes, pos: nat)

  const CLOSED_STREAM := Stream(Closed, true, [], 0)

  /** What the file system and the streams do is decided outside the program. A failed `open` sets
      the fail bit, which `bad()` does not report. */
  datatype OpenOutcome = Opened | FailBit | BadBit
  datatype ReadOutcome = ReadOk | ReadBad(delivered: nat)
  datatype WriteOutcome = WriteOk | WriteFailed(stored: nat)
  datatype Lookup = Lookup(found: bool, size: Option<SizeT>, open: OpenOutcome, contents: Bytes)
  datatype Io = Io(lookup: Lookup, read: ReadOutcome, write: WriteOutcome)

  function OpenStream(direction: Direction, open: OpenOutcome, contents: Bytes): Stream {
    if open.Opened? then Stream(direction, true, contents, 0) else Stream(direction, false, [], 0)
  }

  datatype ReadResult = ReadResult(bytes: Bytes, stream: Stream, bad: bool)

  /** `istream::read` of `n` octets: a read that comes up short ends the stream's good state. */
  function Read(s: Stream, n: nat, outcome: ReadOutcome): (r: ReadResult)
    requires s.pos <= |s.contents|
    ensures |r.bytes| <= n && r.stream.pos <= |r.stream.contents|
  {
    if !s.good || !s.direction.ForReading? then ReadResult([], s.(good := false), false)
    else
      var bytes := s.contents[s.pos..Min(s.pos + n, |s.contents|)];
      match outcome
      case ReadOk => ReadResult(bytes, s.(pos := s.pos + |bytes|, good := |bytes| == n), false)
      case ReadBad(delivered) =>
        var k := Min(delivered, |bytes|);
        ReadResult(bytes[..k], s.(pos := s.pos + k, good := false), true)
  }

  datatype WriteResult = WriteResult(stream: Stream, fail: bool)

  function Write(s: Stream, payload: Bytes, outcome: WriteOutcome): (r: WriteResult)
    requires s.pos <= |s.contents|
    ensures r.stream.pos <= |r.stream.contents|
  {
    if !s.good then WriteResult(s, true)
    else match outcome
      case WriteOk => WriteResult(s.(contents := s.contents + payload), false)
      case WriteFailed(stored) =>
        WriteResult(s.(contents := s.contents + payload[..Min(stored, |payload|)], good := false), true)
  }

  // ---- The session data ----

  type Endpoint = nat
  const NO_ENDPOINT: Endpoint := 0

  datatype ErrorCode = FileNotFound | DiskFull | IllegalTftpOperation

  function Code(e: ErrorCode): nat {
    match e
    case FileNotFound => 1
    case DiskFull => 3
    case IllegalTftpOperation => 4
  }

  /** A request that names no known mode or no usable path is refused. */
  predicate Refused(request: Request, lookup: Lookup) {
    !NamesMode(request.mode) || !lookup.found || lookup.open.BadBit?
  }

  /** The code a refused request is answered with. */
  function RefusalCode(request: Request): nat {
    if NamesMode(request.mode) then 1 else 4
  }

  const DEFAULT_BLOCK_SIZE: nat := 512
  const DEFAULT_TIME_OUT: nat := 1000
  const MAX_RESENDS: nat := 3

  /** `sendPacket` and `received` stand for the parts of the send and receive buffers that
      `send_packet_` and `received_packet_` point to. */
  datatype Data = Data(
    agreedBlockSize: nat, lastBlockSize: nat, lastSentBlock: nat, lastSavedBlock: nat, resendCount: nat,
    fileSize: Option<nat>, lastError: Option<ErrorCode>,
    useBlockSize: bool, useTimeOut: bool, useTransferSize: bool, timeOut: nat,
    sendPacket: Bytes, received: Bytes,
    agreedRemote: Endpoint, lastRemote: Endpoint, file: Stream)
  {
    /** What every action may rely on, and keeps. */
    predicate Valid() {
      && |sendPacket| <= BUFFER_SIZE
      && MIN_BLOCK_SIZE <= agreedBlockSize <= MAX_BLOCK_SIZE
      && file.pos <= |file.contents|
      && (fileSize.Some? ==> fileSize.value <= SIZE_MAX)
      && (useTransferSize ==> fileSize.Some?)
      && (useTimeOut ==> 1 <= timeOut / 1000 <= 255)
    }

    /** The options an acknowledgment names. */
    function AgreedOptions(): (a: Agreed)
      requires Valid()
      ensures InRange(a)
    {
      Agreed(
        if useBlockSize then Some(agreedBlockSize) else None,
        if useTimeOut then Some(timeOut / 1000) else None,
        if useTransferSize then fileSize else None)
    }
  }

  function DataPacket(block: nat, payload: Bytes): Bytes { Header(DATA, block) + payload }
  function AckPacket(block: nat): Bytes { Header(ACKNOWLEDGMENT, block) }
  function ErrorPacket(code: nat): Bytes { Header(ERROR, code) + [NUL] }

  // ---- Guards ----

  predicate CanRetry(d: Data) { d.resendCount < MAX_RESENDS }
  predicate FromAgreedEndpoint(d: Data) { d.lastRemote == d.agreedRemote }
  predicate HasError(d: Data) { d.lastError.Some? }
  predicate HasOptions(d: Data) { d.useBlockSize || d.useTimeOut || d.useTransferSize }
  predicate HasReadRequestReceived(d: Data) { OpCode(d.received) == READ_REQUEST }
  predicate HasWriteRequestReceived(d: Data) { OpCode(d.received) == WRITE_REQUEST }
  predicate HasMoreToSend(d: Data) { d.lastBlockSize == d.agreedBlockSize || d.lastSentBlock == 0 }
  predicate IsOldAck(d: Data) { Word(d.received) < d.lastSentBlock }
  predicate IsOldData(d: Data) { Word(d.received) <= d.lastSavedBlock }

  predicate HasAckReceived(d: Data) {
    && |d.received| == HEADER_SIZE
    && OpCode(d.received) == ACKNOWLEDGMENT
    && Word(d.received) <= d.lastSentBlock
  }

  predicate HasDataReceived(d: Data) {
    && |d.received| >= HEADER_SIZE
    && OpCode(d.received) == DATA
    && d.lastRemote == d.agreedRemote
  }

  predicate HasErrReceived(d: Data) {
    |d.received| > HEADER_SIZE && OpCode(d.received) == ERROR
  }

  // ---- Actions ----

  predicate SameCounters(d: Data, r: Data) {
    && r.lastSentBlock == d.lastSentBlock && r.lastSavedBlock == d.lastSavedBlock
    && r.lastBlockSize == d.lastBlockSize && r.resendCount == d.resendCount
  }

  /** The size is looked up for any client that names one, and told only to a client that names 0. */
  function AgreeTransferSize(d: Data, value: Bytes, size: Option<SizeT>): (r: Data)
    requires d.Valid()
    ensures r.Valid() && SameCounters(d, r)
  {
    var requested := GetTransferSize(value);
    if requested.Some? && size.Some? then d.(useTransferSize := requested == Some(0), fileSize := size) else d
  }

  /** The mode, the path, the size to report and the stream. */
  function OpenForRead(d: Data, request: Request, lookup: Lookup): (r: Data)
    requires d.Valid()
    ensures r.Valid() && SameCounters(d, r)
  {
    if GetMode(request.mode).None? then d.(lastError := Some(IllegalTftpOperation))
    else if !lookup.found then d.(lastError := Some(FileNotFound))
    else
      AgreeTransferSize(d, request.transferSize, lookup.size)
        .(file := OpenStream(ForReading, lookup.open, lookup.contents),
          lastError := if lookup.open.BadBit? then Some(FileNotFound) else d.lastError)
  }

  function AgreeTimeOut(d: Data, value: Bytes): (r: Data)
    requires d.Valid()
    ensures r.Valid() && SameCounters(d, r)
  {
    var requested := GetTimeOut(value);
    if requested.Some? then
      TimeOutIsInRange(value);
      d.(timeOut := requested.value, useTimeOut := true)
    else d
  }

  function AgreeBlockSize(d: Data, value: Bytes): (r: Data)
    requires d.Valid()
    ensures r.Valid() && SameCounters(d, r)
  {
    var requested := GetBlockSize(value);
    if requested.Some? then d.(agreedBlockSize := requested.value, useBlockSize := true) else d
  }

  /** The time out and the block size are agreed even when the request is refused. */
  function InitServeReadRequest(d: Data, request: Request, lookup: Lookup): (r: Data)
    requires d.Valid()
    ensures r.Valid() && SameCounters(d, r)
  {
    AgreeBlockSize(AgreeTimeOut(OpenForRead(d, request, lookup), request.timeOut), request.blockSize)
  }

  lemma TimeOutIsInRange(value: Bytes)
    requires GetTimeOut(value).Some?
    ensures 1 <= GetTimeOut(value).value / 1000 <= 255
  {
    var v := GetTimeOut(value).value / 1000;
    assert GetTimeOut(value) == Some(1000 * v);
  }

  function InitServeWriteRequest(d: Data, request: Request, lookup: Lookup): (r: Data)
    requires d.Valid()
    ensures r.Valid() && SameCounters(d, r)
  {
    if GetMode(request.mode).None? then d.(lastError := Some(IllegalTftpOperation))
    else if !lookup.found then d.(lastError := Some(FileNotFound))
    else d.(file := OpenStream(ForWriting, lookup.open, []),
            lastError := if lookup.open.BadBit? then Some(FileNotFound) else d.lastError)
  }

  /** What is seen of a packet when `bytes` are written over its buffer from position `at`. */
  function Patched(packet: Bytes, at: nat, bytes: Bytes): (r: Bytes)
    ensures |r| == |packet|
  {
    seq(|packet|, i requires 0 <= i < |packet| => if at <= i < at + |bytes| then bytes[i - at] else packet[i])
  }

  /** The payload is read into the buffer behind the header. When the read goes bad the header and
      the extent of the packet stay as they were. */
  function FormDataPacket(d: Data, outcome: ReadOutcome): (r: Data)
    requires d.Valid()
    ensures r.Valid()
  {
    var read := Read(d.file, d.agreedBlockSize, outcome);
    if read.bad then
      d.(file := read.stream, sendPacket := Patched(d.sendPacket, HEADER_SIZE, read.bytes), lastError := Some(DiskFull))
    else
      d.(file := read.stream, lastBlockSize := |read.bytes|, lastSentBlock := d.lastSentBlock + 1,
         sendPacket := DataPacket(d.lastSentBlock + 1, read.bytes))
  }

  function FormOackPacket(d: Data): (r: Data)
    requires d.Valid() && HasOptions(d)
    ensures r.Valid()
  {
    OackIsShort(d.AgreedOptions());
    d.(sendPacket := OackPacket(d.AgreedOptions()), lastSentBlock := 0, lastSavedBlock := 0)
  }

  function FormAckPacket(d: Data): (r: Data)
    requires d.Valid()
    ensures r.Valid()
  {
    d.(sendPacket := AckPacket(d.lastSavedBlock))
  }

  function FormErrorPacket(d: Data): (r: Data)
    requires d.Valid()
    ensures r.Valid()
  {
    d.(sendPacket := ErrorPacket(if d.lastError.Some? then Code(d.lastError.value) else 0))
  }

  function FormProtocolErrorPacket(d: Data): (r: Data)
    requires d.Valid()
    ensures r.Valid()
  {
    d.(sendPacket := ErrorPacket(Code(IllegalTftpOperation)))
  }

  function Payload(packet: Bytes): Bytes
    requires HEADER_SIZE <= |packet|
  {
    packet[HEADER_SIZE..]
  }

  function WriteData(d: Data, outcome: WriteOutcome): (r: Data)
    requires d.Valid() && HEADER_SIZE <= |d.received|
    ensures r.Valid()
  {
    var write := Write(d.file, Payload(d.received), outcome);
    var d1 := d.(file := write.stream);
    if write.fail then d1.(lastError := Some(DiskFull))
    else d1.(lastBlockSize := |d.received| - HEADER_SIZE, lastSavedBlock := Word(d.received))
  }

  /** The data of a session that has just been reset, but for the two members that survive. */
  function IdleData(fileSize: Option<nat>, timeOut: nat): Data {
    Data(DEFAULT_BLOCK_SIZE, 0, 0, 0, 0, fileSize, None, false, false, false, timeOut,
         [], [], NO_ENDPOINT, NO_ENDPOINT, CLOSED_STREAM)
  }

  /** The `Reset` of `TransferState` assigns to a local `file_size_`, and that of `Timer` leaves
      `time_out_` alone. */
  function ResetSession(d: Data): (r: Data)
    requires d.Valid()
    ensures r.Valid()
  {
    IdleData(d.fileSize, d.timeOut)
  }
}
