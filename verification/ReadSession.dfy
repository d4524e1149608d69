/** Read sessions: the invariant of the server's half, and its refinement of stop-and-wait. */
module ReadSession {
  import opened Octets
  import opened Options
  import opened Oack
  import opened RequestParser
  import opened TransitionTable
  import opened Machine
  import opened StopAndWait
  import S = SessionData

  // ---- What is transferred ----

  /** What a read session has settled on: the bytes the stream delivers, the block size, the options
      acknowledged and the peer. */
  datatype Transfer = Transfer(contents: Bytes, blockSize: nat, agreed: Agreed, peer: S.Endpoint)

  const NO_OPTIONS := Agreed(None, None, None)

  predicate WellFormed(t: Transfer) {
    MIN_BLOCK_SIZE <= t.blockSize <= MAX_BLOCK_SIZE && Oack.InRange(t.agreed)
  }

  /** The number of the last block, which is the first one shorter than the block size. */
  function LastBlock(t: Transfer): nat
    requires WellFormed(t)
  {
    |t.contents| / t.blockSize + 1
  }

  function BlockEnd(t: Transfer, k: nat): nat { Min(k * t.blockSize, |t.contents|) }

  /** Block `k` of the file, counted from one. */
  function Block(t: Transfer, k: nat): Bytes
    requires k >= 1
  {
    BlockEndsAreOrdered(t, k);
    t.contents[BlockEnd(t, k - 1)..BlockEnd(t, k)]
  }

  lemma BlockEndsAreOrdered(t: Transfer, k: nat)
    requires k >= 1
    ensures BlockEnd(t, k - 1) <= BlockEnd(t, k) <= |t.contents|
  {
    assert (k - 1) * t.blockSize + t.blockSize == k * t.blockSize;
  }

  /** The packets of a session by number: the option acknowledgment is packet 0. */
  function PacketNo(t: Transfer, k: nat): Bytes {
    if k == 0 then OackPacket(t.agreed) else S.DataPacket(k, Block(t, k))
  }

  function FirstPacket(t: Transfer): nat { if t.agreed == NO_OPTIONS then 1 else 0 }

  lemma MoreBlocks(t: Transfer, k: nat)
    requires WellFormed(t) && k >= 1
    ensures k < LastBlock(t) <==> k * t.blockSize <= |t.contents|
    ensures k <= LastBlock(t) <==> (k - 1) * t.blockSize <= |t.contents|
  {
    DivisionBound(|t.contents|, t.blockSize, k);
    DivisionBound(|t.contents|, t.blockSize, k - 1);
  }

  lemma DivisionBound(n: nat, b: nat, k: nat)
    requires b > 0
    ensures k <= n / b <==> k * b <= n
  {
    var q, r := n / b, n % b;
    assert n == q * b + r;
    if k <= q {
      assert k * b <= q * b;
    } else {
      assert k * b >= (q + 1) * b == q * b + b;
    }
  }

  lemma BlockLength(t: Transfer, k: nat)
    requires WellFormed(t) && 1 <= k <= LastBlock(t)
    ensures |Block(t, k)| == BlockEnd(t, k) - (k - 1) * t.blockSize
    ensures |Block(t, k)| == t.blockSize <==> k < LastBlock(t)
    ensures |Block(t, k)| <= t.blockSize
  {
    MoreBlocks(t, k);
    assert (k - 1) * t.blockSize + t.blockSize == k * t.blockSize;
  }

  /** Only the last block is shorter than the block size, and it is empty when the block size
      divides the size of the file. */
  lemma LastBlockIsRemainder(t: Transfer)
    requires WellFormed(t)
    ensures |Block(t, LastBlock(t))| == |t.contents| % t.blockSize
  {
    var n := LastBlock(t);
    BlockLength(t, n);
    MoreBlocks(t, n);
    assert |t.contents| == (n - 1) * t.blockSize + |t.contents| % t.blockSize;
  }

  function Joined(t: Transfer, k: nat): Bytes {
    if k == 0 then [] else Joined(t, k - 1) + Block(t, k)
  }

  lemma {:induction false} BlocksAddUp(t: Transfer, k: nat)
    ensures Joined(t, k) == t.contents[..BlockEnd(t, k)]
  {
    if k == 0 {
      assert BlockEnd(t, 0) == 0 by { assert 0 * t.blockSize == 0; }
    } else {
      BlocksAddUp(t, k - 1);
      BlockEndsAreOrdered(t, k);
    }
  }

  lemma LastBlockEndsTheFile(t: Transfer)
    requires WellFormed(t)
    ensures BlockEnd(t, LastBlock(t)) == |t.contents|
  {
    MoreBlocks(t, LastBlock(t));
  }

  /** The blocks up to the last one are the file. */
  lemma BlocksAreTheFile(t: Transfer)
    requires WellFormed(t)
    ensures Joined(t, LastBlock(t)) == t.contents
  {
    BlocksAddUp(t, LastBlock(t));
    LastBlockEndsTheFile(t);
  }

  // ---- The invariant ----

  function TransferOf(d: S.Data): Transfer
    requires d.Valid()
  {
    Transfer(d.file.contents, d.agreedBlockSize, d.AgreedOptions(), d.agreedRemote)
  }

  /** The stream has delivered the blocks up to number `lastSentBlock`, and is still good unless the
      file has run out. */
  predicate AtBlock(d: S.Data) {
    && d.Valid()
    && d.file.direction.ForReading? && d.lastError.None? && d.resendCount <= S.MAX_RESENDS
    && var t := TransferOf(d); var k := d.lastSentBlock;
       && k <= LastBlock(t) && k <= 65536
       && d.file.pos == BlockEnd(t, k)
       && (k == 0 ==> d.file.good || d.file.contents == [])
       && (k >= 1 ==> d.lastBlockSize == |Block(t, k)| && (d.file.good <==> k < LastBlock(t)))
  }

  /** In addition, the packet of that number is ready in the send buffer. */
  predicate ReadActive(d: S.Data) {
    && AtBlock(d)
    && var t := TransferOf(d);
       FirstPacket(t) <= d.lastSentBlock && d.sendPacket == PacketNo(t, d.lastSentBlock)
  }

  /** The same in terms of the fields alone: the stream stands at the end of block
      `lastSentBlock`, and that block is in the send buffer under its number. */
  predicate BlockIsReady(d: S.Data) {
    var size, k, file := d.agreedBlockSize, d.lastSentBlock, d.file.contents;
    && d.file.pos == Min(k * size, |file|)
    && (k >= 1 ==>
          && (k - 1) * size <= Min(k * size, |file|)
          && d.sendPacket == Header(DATA, k) + file[(k - 1) * size..Min(k * size, |file|)])
  }

  lemma ActiveBlockIsReady(d: S.Data)
    requires ReadActive(d)
    ensures BlockIsReady(d)
  {
    var t, k := TransferOf(d), d.lastSentBlock;
    if k >= 1 {
      MoreBlocks(t, k);
      BlockEndsAreOrdered(t, k);
    }
  }

  predicate ReadInv(s: Session) {
    (s.phase.SendingData? || s.phase.WaitingForAck?) && s.armed && ReadActive(s.data)
  }

  lemma HasMoreIsNotLast(d: S.Data)
    requires AtBlock(d)
    ensures S.HasMoreToSend(d) <==> d.lastSentBlock < LastBlock(TransferOf(d))
  {
    if d.lastSentBlock >= 1 {
      BlockLength(TransferOf(d), d.lastSentBlock);
    }
  }

  lemma BlockAfter(t: Transfer, k: nat)
    requires WellFormed(t) && k < LastBlock(t)
    ensures var at := BlockEnd(t, k);
            && at <= |t.contents|
            && BlockEnd(t, k + 1) == Min(at + t.blockSize, |t.contents|)
            && Block(t, k + 1) == t.contents[at..Min(at + t.blockSize, |t.contents|)]
            && (|Block(t, k + 1)| == t.blockSize <==> k + 1 < LastBlock(t))
  {
    MoreBlocks(t, k + 1);
    assert k * t.blockSize + t.blockSize == (k + 1) * t.blockSize;
    BlockLength(t, k + 1);
  }

  /** Reading on from the end of block `k` yields block `k + 1`, and leaves the stream good exactly
      when there is more. */
  lemma ReadNextBlock(d: S.Data)
    requires AtBlock(d) && d.lastSentBlock < LastBlock(TransferOf(d))
    ensures var t := TransferOf(d); var r := S.Read(d.file, d.agreedBlockSize, S.ReadOk);
            && r.bytes == Block(t, d.lastSentBlock + 1) && !r.bad
            && r.stream == d.file.(pos := BlockEnd(t, d.lastSentBlock + 1),
                                   good := d.lastSentBlock + 1 < LastBlock(t))
  {
    var t, k := TransferOf(d), d.lastSentBlock;
    BlockAfter(t, k);
    if k >= 1 {
      assert d.file.good;
    } else if d.file.contents == [] {
      assert |Block(t, 1)| <= 0;
    }
  }

  predicate ReadFails(d: S.Data, io: S.Io) { io.read.ReadBad? && d.file.good }

  /** `r` is `d` with block `k + 1` in its send buffer and a fresh budget of resends. */
  predicate Advanced(d: S.Data, r: S.Data)
    requires AtBlock(d)
  {
    var t, k := TransferOf(d), d.lastSentBlock + 1;
    && r.Valid()
    && r == d.(file := d.file.(pos := BlockEnd(t, k), good := k < LastBlock(t)),
               lastBlockSize := |Block(t, k)|, lastSentBlock := k, resendCount := 0,
               sendPacket := PacketNo(t, k))
  }

  lemma AdvancedIsActive(d: S.Data, r: S.Data)
    requires AtBlock(d) && d.lastSentBlock < LastBlock(TransferOf(d)) && d.lastSentBlock <= MAX_WORD
    requires Advanced(d, r)
    ensures ReadActive(r) && TransferOf(r) == TransferOf(d)
  {
    BlockEndsAreOrdered(TransferOf(d), r.lastSentBlock);
  }

  lemma FormedIsAdvanced(d: S.Data, outcome: S.ReadOutcome)
    requires AtBlock(d) && d.lastSentBlock < LastBlock(TransferOf(d))
    requires outcome.ReadOk? || !d.file.good
    ensures var r := S.FormDataPacket(d, outcome); r.lastError.None? && Advanced(d, r.(resendCount := 0))
  {
    ReadNextBlock(d);
    assert S.Read(d.file, d.agreedBlockSize, outcome) == S.Read(d.file, d.agreedBlockSize, S.ReadOk);
  }

  lemma FormedAfterFault(d: S.Data, outcome: S.ReadOutcome)
    requires AtBlock(d) && outcome.ReadBad? && d.file.good
    ensures S.FormDataPacket(d, outcome).lastError == Some(S.DiskFull)
  {
  }

  /** The next block goes into the send buffer with a fresh budget of resends, or the session turns
      to the error packet. */
  lemma NextBlockKeepsInvariant(d: S.Data, io: S.Io)
    requires AtBlock(d) && d.lastSentBlock < LastBlock(TransferOf(d)) && d.lastSentBlock <= MAX_WORD
    ensures var o := NextBlock(d, io); var t := TransferOf(d);
            if ReadFails(d, io) then
              o.session.phase.SendingError? && o.session.armed && o.sent == [S.ErrorPacket(3)] && o.written == []
            else
              && ReadInv(o.session) && o.session.phase.SendingData? && TransferOf(o.session.data) == t
              && o.session.data.lastSentBlock == d.lastSentBlock + 1 && o.session.data.resendCount == 0
              && o.sent == [PacketNo(t, d.lastSentBlock + 1)] && o.written == []
  {
    if ReadFails(d, io) {
      FormedAfterFault(d, io.read);
    } else {
      FormedIsAdvanced(d, io.read);
      AdvancedIsActive(d, S.FormDataPacket(d, io.read).(resendCount := 0));
    }
  }

  // ---- Refinement ----

  function ResendsLeft(d: S.Data): nat { if S.CanRetry(d) then S.MAX_RESENDS - d.resendCount else 0 }

  function Abs(s: Session): Sender {
    match s.phase
    case SendingData => Sending(s.data.lastSentBlock, ResendsLeft(s.data))
    case WaitingForAck => Waiting(s.data.lastSentBlock, ResendsLeft(s.data))
    case SendingError => Aborting
    case _ => Stopped
  }

  /** How the standard reads what happens. An ERROR packet is taken from any endpoint. */
  function Classify(s: Session, input: Input, io: S.Io): Signal
    requires Raises(s, input) && !s.phase.Accepting?
  {
    match input
    case SendDone => Sent
    case Expired => Timer
    case Datagram(from, p) =>
      if IsErrorPacket(p) then PeerError
      else if from != s.data.agreedRemote then Foreign
      else if IsAckPacket(p) then Acked(Word(p), ReadFails(s.data, io))
      else Garbage
  }

  function Concrete(t: Transfer, m: Option<Message>): seq<Bytes> {
    match m
    case None => []
    case Some(Packet(n)) => [PacketNo(t, n)]
    case Some(IllegalOperation) => [S.ErrorPacket(4)]
    case Some(ReadFault) => [S.ErrorPacket(3)]
  }

  /** What a step of a read session leads to: another state of the same transfer, the pending error,
      or a session that is listening again with nothing left of the old one. */
  predicate ReadGoesOn(d: S.Data, o: Outcome)
    requires d.Valid()
  {
    && o.written == []
    && match o.session.phase
       case SendingData => ReadInv(o.session) && TransferOf(o.session.data) == TransferOf(d)
       case WaitingForAck => ReadInv(o.session) && TransferOf(o.session.data) == TransferOf(d)
       case SendingError => o.session.armed && o.session.data.Valid()
       case Accepting => o.session == Idle(d)
       case _ => false
  }

  /** The outcome is the step of the abstract sender on `signal`, with the same packet sent. */
  predicate Simulates(a: Sender, d: S.Data, signal: Signal, o: Outcome)
    requires d.Valid()
  {
    && Fits(a, signal)
    && var t := TransferOf(d); var (b, m) := Next(a, signal, LastBlock(t));
       Abs(o.session) == b && o.sent == Concrete(t, m) && ReadGoesOn(d, o)
  }

  /** Fields that take no part in the invariant. */
  lemma Retouched(d: S.Data, received: Bytes, lastRemote: S.Endpoint, resendCount: nat)
    requires ReadActive(d) && resendCount <= S.MAX_RESENDS
    ensures var r := d.(received := received, lastRemote := lastRemote, resendCount := resendCount);
            ReadActive(r) && TransferOf(r) == TransferOf(d) && r.sendPacket == d.sendPacket
  {
    var r := d.(received := received, lastRemote := lastRemote, resendCount := resendCount);
    assert TransferOf(r) == TransferOf(d);
  }

  lemma AdvanceSimulates(d: S.Data, io: S.Io)
    requires ReadActive(d) && d.lastSentBlock <= MAX_WORD && S.HasMoreToSend(d)
    ensures Simulates(Waiting(d.lastSentBlock, ResendsLeft(d)), d,
                      Acked(d.lastSentBlock, ReadFails(d, io)), NextBlock(d, io))
  {
    HasMoreIsNotLast(d);
    NextBlockKeepsInvariant(d, io);
  }

  lemma PassedOverOrEnded(s: Session, from: S.Endpoint, packet: Bytes, io: S.Io)
    requires ReadInv(s) && s.phase.WaitingForAck? && Raises(s, Datagram(from, packet))
    requires ReadActive(s.data.(lastRemote := from, received := packet))
    requires from != s.data.agreedRemote || IsErrorPacket(packet)
    ensures Simulates(Abs(s), s.data.(lastRemote := from, received := packet),
                      Classify(s, Datagram(from, packet), io), AfterAckWait(s, from, packet, io))
  {
  }

  /** Everything but the exact acknowledgment. */
  lemma NoAdvanceSimulates(s: Session, from: S.Endpoint, packet: Bytes, io: S.Io)
    requires ReadInv(s) && s.phase.WaitingForAck? && Raises(s, Datagram(from, packet))
    requires ReadActive(s.data.(lastRemote := from, received := packet))
    requires from != s.data.agreedRemote || !IsAckPacket(packet) || Word(packet) != s.data.lastSentBlock
    ensures Simulates(Abs(s), s.data.(lastRemote := from, received := packet),
                      Classify(s, Datagram(from, packet), io), AfterAckWait(s, from, packet, io))
  {
    if from != s.data.agreedRemote || IsErrorPacket(packet) {
      PassedOverOrEnded(s, from, packet, io);
    }
  }

  lemma AckWaitSimulates(s: Session, from: S.Endpoint, packet: Bytes, io: S.Io)
    requires ReadInv(s) && s.phase.WaitingForAck? && Raises(s, Datagram(from, packet))
    requires ReadActive(s.data.(lastRemote := from, received := packet))
    ensures Simulates(Abs(s), s.data.(lastRemote := from, received := packet),
                      Classify(s, Datagram(from, packet), io), AfterAckWait(s, from, packet, io))
  {
    var d := s.data.(lastRemote := from, received := packet);
    if from != s.data.agreedRemote || !IsAckPacket(packet) || Word(packet) != s.data.lastSentBlock {
      NoAdvanceSimulates(s, from, packet, io);
    } else {
      HasMoreIsNotLast(d);
      if S.HasMoreToSend(d) {
        AdvanceSimulates(d, io);
      }
    }
  }

  lemma SendDoneSimulates(s: Session, io: S.Io)
    requires ReadInv(s) && Raises(s, SendDone)
    ensures Simulates(Abs(s), s.data, Sent, Handle(s, SendDone, io))
  {
    OnSendDone(s, io);
  }

  lemma ResendSimulates(s: Session)
    requires ReadInv(s) && s.phase.WaitingForAck? && S.CanRetry(s.data)
    ensures Simulates(Abs(s), s.data, Timer, AfterExpired(s))
  {
    Retouched(s.data, [], s.data.lastRemote, s.data.resendCount + 1);
  }

  lemma ExpiredSimulates(s: Session, io: S.Io)
    requires ReadInv(s) && Raises(s, Expired)
    ensures Simulates(Abs(s), s.data, Timer, Handle(s, Expired, io))
  {
    OnExpired(s, io);
    if S.CanRetry(s.data) {
      ResendSimulates(s);
    }
  }

  lemma DatagramSimulates(s: Session, from: S.Endpoint, packet: Bytes, io: S.Io)
    requires ReadInv(s) && s.phase.WaitingForAck? && Raises(s, Datagram(from, packet))
    ensures Simulates(Abs(s), s.data, Classify(s, Datagram(from, packet), io), Handle(s, Datagram(from, packet), io))
  {
    OnAckWait(s, from, packet, io);
    Retouched(s.data, packet, from, s.data.resendCount);
    AckWaitSimulates(s, from, packet, io);
  }

  /** The read half of the server is a stop-and-wait sender, packet for packet. */
  lemma ReadRefinesStopAndWait(s: Session, input: Input, io: S.Io)
    requires ReadInv(s) && Raises(s, input)
    ensures Simulates(Abs(s), s.data, Classify(s, input, io), Handle(s, input, io))
  {
    match input
    case SendDone => SendDoneSimulates(s, io);
    case Expired => ExpiredSimulates(s, io);
    case Datagram(from, packet) => DatagramSimulates(s, from, packet, io);
  }

  /** Of the datagrams of other endpoints exactly the ERROR packets reach a waiting sender: they end
      its session, and all others leave it waiting as it was. */
  lemma ForeignErrorEndsTheSession(s: Session, from: S.Endpoint, packet: Bytes, io: S.Io)
    requires s.data.Valid() && s.phase.WaitingForAck? && Raises(s, Datagram(from, packet))
    requires from != s.data.agreedRemote
    ensures var o := Handle(s, Datagram(from, packet), io);
            && (IsErrorPacket(packet) <==> o.session.phase.Accepting?)
            && (IsErrorPacket(packet) <==> o == Quiet(Idle(s.data)))
            && (!IsErrorPacket(packet) <==>
                  o == Quiet(To(WaitingForAck, s.data.(lastRemote := from, received := packet))))
  {
    OnAckWait(s, from, packet, io);
  }

  /** An exact acknowledgment ends the session only at the last block. */
  lemma FinalAckIsOfLastBlock(s: Session, input: Input, io: S.Io)
    requires ReadInv(s) && Raises(s, input) && IsExactAck(Abs(s), Classify(s, input, io))
    requires Handle(s, input, io).session.phase.Accepting?
    ensures s.data.lastSentBlock == LastBlock(TransferOf(s.data))
  {
    ReadRefinesStopAndWait(s, input, io);
  }

  // ---- The start of a session ----

  /** What the stream of a read request delivers: nothing at all when the file did not open. */
  function Readable(lookup: S.Lookup): Bytes {
    if lookup.open.Opened? then lookup.contents else []
  }

  /** The transfer that a read request asks for. The size is told only to a client that offers 0. */
  function Requested(request: Request, lookup: S.Lookup, peer: S.Endpoint): Transfer {
    var b, t := GetBlockSize(request.blockSize), GetTimeOut(request.timeOut);
    Transfer(
      Readable(lookup),
      if b.Some? then b.value else S.DEFAULT_BLOCK_SIZE,
      Agreed(b,
             if t.Some? then Some(t.value / 1000) else None,
             if GetTransferSize(request.transferSize) == Some(0) then lookup.size else None),
      peer)
  }

  predicate IsIdle(s: Session) { s.phase.Accepting? && s.data == Idle(s.data).data }

  lemma InitIsAtBlock(s: Session, from: S.Endpoint, packet: Bytes, request: Request, lookup: S.Lookup)
    requires IsIdle(s) && s.data.Valid()
    ensures var r := S.InitServeReadRequest(Arrived(s, from, packet), request, lookup);
            && r.lastError == (if !NamesMode(request.mode) then Some(S.IllegalTftpOperation)
                               else if S.Refused(request, lookup) then Some(S.FileNotFound) else None)
            && (!S.Refused(request, lookup) ==>
                  AtBlock(r) && r.lastSentBlock == 0 && r.resendCount == 0
                  && TransferOf(r) == Requested(request, lookup, from))
  {
    var r := S.InitServeReadRequest(Arrived(s, from, packet), request, lookup);
    ModesMatchUpToCase(request.mode);
    if !S.Refused(request, lookup) {
      assert r.file == S.OpenStream(S.ForReading, lookup.open, lookup.contents);
      assert BlockEnd(TransferOf(r), 0) == 0 by { assert 0 * r.agreedBlockSize == 0; }
    }
  }

  lemma OackIsActive(d: S.Data)
    requires AtBlock(d) && d.lastSentBlock == 0 && S.HasOptions(d)
    ensures var r := S.FormOackPacket(d).(resendCount := 0);
            ReadActive(r) && TransferOf(r) == TransferOf(d) && r.sendPacket == PacketNo(TransferOf(d), 0)
  {
    var r := S.FormOackPacket(d).(resendCount := 0);
    assert TransferOf(r) == TransferOf(d);
  }

  /** The first packet of a session: the option acknowledgment when an option is agreed, block 1
      otherwise, or an error. */
  predicate ReadStarted(o: Outcome, request: Request, io: S.Io, from: S.Endpoint) {
    && o.written == []
    && if S.Refused(request, io.lookup) then
         o.session.phase.SendingError? && o.session.armed && o.sent == [S.ErrorPacket(S.RefusalCode(request))]
       else
         var t := Requested(request, io.lookup, from);
         if t.agreed == NO_OPTIONS && io.read.ReadBad? && io.lookup.open.Opened? then
           o.session.phase.SendingError? && o.session.armed && o.sent == [S.ErrorPacket(3)]
         else
           && o.session.phase.SendingData? && ReadInv(o.session) && TransferOf(o.session.data) == t
           && o.session.data.lastSentBlock == FirstPacket(t) && o.session.data.resendCount == 0
           && o.sent == [PacketNo(t, FirstPacket(t))]
  }

  lemma RequestSettled(r: S.Data, request: Request, io: S.Io, from: S.Endpoint)
    requires AtBlock(r) && r.lastSentBlock == 0 && !S.Refused(request, io.lookup)
    requires TransferOf(r) == Requested(request, io.lookup, from)
    requires r.file.good <==> io.lookup.open.Opened?
    ensures ReadStarted(AfterReadRequest(r, io), request, io, from)
  {
    if S.HasOptions(r) {
      OackIsActive(r);
    } else {
      NextBlockKeepsInvariant(r, io);
    }
  }

  lemma RequestRefused(r: S.Data, request: Request, io: S.Io, from: S.Endpoint)
    requires r.Valid() && S.Refused(request, io.lookup)
    requires r.lastError == Some(if NamesMode(request.mode) then S.FileNotFound else S.IllegalTftpOperation)
    ensures ReadStarted(AfterReadRequest(r, io), request, io, from)
  {
  }

  lemma AcceptedStarts(r: S.Data, d: S.Data, request: Request, io: S.Io, from: S.Endpoint)
    requires d.Valid() && r == S.InitServeReadRequest(d, request, io.lookup) && !S.Refused(request, io.lookup)
    requires AtBlock(r) && r.lastSentBlock == 0 && TransferOf(r) == Requested(request, io.lookup, from)
    ensures ReadStarted(AfterReadRequest(r, io), request, io, from)
  {
    ModesMatchUpToCase(request.mode);
    assert r.file == S.OpenStream(S.ForReading, io.lookup.open, io.lookup.contents);
    RequestSettled(r, request, io, from);
  }

  /** How a read session begins, for every request datagram. */
  lemma ReadSessionStarts(s: Session, from: S.Endpoint, packet: Bytes, io: S.Io)
    requires IsIdle(s) && s.data.Valid() && Raises(s, Datagram(from, packet)) && OpCode(packet) == READ_REQUEST
    ensures ReadStarted(Handle(s, Datagram(from, packet), io), ParseRequest(packet), io, from)
  {
    var request := ParseRequest(packet);
    OnReadRequest(s, from, packet, io);
    InitIsAtBlock(s, from, packet, request, io.lookup);
    var r := S.InitServeReadRequest(Arrived(s, from, packet), request, io.lookup);
    if S.Refused(request, io.lookup) {
      RequestRefused(r, request, io, from);
    } else {
      AcceptedStarts(r, Arrived(s, from, packet), request, io, from);
    }
  }

  lemma EmptyFileHasOneBlock(t: Transfer)
    requires t.contents == []
    ensures PacketNo(t, 1) == S.DataPacket(1, [])
    ensures WellFormed(t) ==> LastBlock(t) == 1
  {
    assert |Block(t, 1)| <= |t.contents|;
    if WellFormed(t) { MoreBlocks(t, 1); }
  }

  /** A file that is found but fails to open is not refused: whatever options are agreed, the
      session serves a file whose only block is empty. */
  lemma UnopenedFileIsServedAsEmpty(s: Session, from: S.Endpoint, packet: Bytes, io: S.Io)
    requires IsIdle(s) && s.data.Valid() && Raises(s, Datagram(from, packet)) && OpCode(packet) == READ_REQUEST
    requires NamesMode(ParseRequest(packet).mode) && io.lookup.found && io.lookup.open.FailBit?
    ensures var o, t := Handle(s, Datagram(from, packet), io), Requested(ParseRequest(packet), io.lookup, from);
            && o.session.phase.SendingData? && ReadInv(o.session) && TransferOf(o.session.data) == t
            && LastBlock(t) == 1 && PacketNo(t, 1) == S.DataPacket(1, [])
            && o.sent == [if t.agreed == NO_OPTIONS then S.DataPacket(1, []) else OackPacket(t.agreed)]
  {
    ReadSessionStarts(s, from, packet, io);
    EmptyFileHasOneBlock(Requested(ParseRequest(packet), io.lookup, from));
  }

  /** An accepted request serves the file itself exactly when the file opened, or is empty. */
  lemma FileIsServedIffOpened(s: Session, from: S.Endpoint, packet: Bytes, io: S.Io)
    requires IsIdle(s) && s.data.Valid() && Raises(s, Datagram(from, packet)) && OpCode(packet) == READ_REQUEST
    requires Handle(s, Datagram(from, packet), io).session.phase.SendingData?
    ensures Handle(s, Datagram(from, packet), io).session.data.file.contents == io.lookup.contents
            <==> io.lookup.open.Opened? || io.lookup.contents == []
  {
    ReadSessionStarts(s, from, packet, io);
  }
}
