/** Write sessions: the log of blocks written, the acknowledgments, and the row that diverts the
    session to the sender's half of the table. */
module WriteSession {
  import opened Octets
  import opened Options
  import opened RequestParser
  import opened TransitionTable
  import opened Machine
  import S = SessionData

  // ---- Invariants ----

  predicate ForWrite(d: S.Data) {
    && d.Valid() && d.file.direction.ForWriting? && d.lastError.None?
    && d.resendCount <= S.MAX_RESENDS && d.lastSavedBlock <= MAX_WORD
  }

  /** The acknowledgment of the block last saved is ready in the send buffer. */
  predicate WriteActive(d: S.Data) {
    ForWrite(d) && d.lastSentBlock == 0 && d.sendPacket == S.AckPacket(d.lastSavedBlock)
  }

  /** After row 93 the session waits for acknowledgments like a sender; block 1 of such a sender is
      empty, because the file is not open for reading. */
  predicate Diverted(d: S.Data) {
    && ForWrite(d) && d.lastSentBlock <= 1
    && if d.lastSentBlock == 0 then d.sendPacket == S.AckPacket(d.lastSavedBlock)
       else d.lastBlockSize == 0 && d.sendPacket == S.DataPacket(1, [])
  }

  predicate IsReceiving(s: Session) { s.phase.SendingAck? || s.phase.WaitingForData? }
  predicate IsDiverted(s: Session) { s.phase.SendingData? || s.phase.WaitingForAck? }

  predicate WriteInv(s: Session) { s.armed && IsReceiving(s) && WriteActive(s.data) }
  predicate DivertedInv(s: Session) { s.armed && IsDiverted(s) && Diverted(s.data) }

  // ---- Steps ----

  /** Everything a step may touch without touching the file or the session's counters. */
  predicate SameProgress(d: S.Data, e: S.Data) {
    e.file.direction == d.file.direction && e.file.contents == d.file.contents
    && e.lastSavedBlock == d.lastSavedBlock && e.agreedRemote == d.agreedRemote
    && (e.file.good ==> d.file.good)
  }

  /** A block from the peer with a number above the one last saved is written and acknowledged. */
  predicate Saved(d: S.Data, packet: Bytes, o: Outcome)
    requires HEADER_SIZE <= |packet|
  {
    && o.session.phase.SendingAck? && WriteInv(o.session)
    && o.session.data.file == d.file.(contents := d.file.contents + S.Payload(packet))
    && o.session.data.lastSavedBlock == Word(packet) && o.session.data.agreedRemote == d.agreedRemote
    && o.session.data.resendCount == d.resendCount
    && o.sent == [S.AckPacket(Word(packet))]
    && o.written == [Write(Word(packet), S.Payload(packet))]
  }

  /** What a failing write leaves of a block in the file: nothing when the stream had failed before. */
  function Remnant(d: S.Data, packet: Bytes, io: S.Io): Bytes
    requires HEADER_SIZE <= |packet|
  {
    if d.file.good && io.write.WriteFailed?
    then S.Payload(packet)[..Min(io.write.stored, |S.Payload(packet)|)] else []
  }

  /** A failing write may leave part of the block in the file, and ends the session with an error. */
  predicate SaveFailed(d: S.Data, packet: Bytes, io: S.Io, o: Outcome)
    requires HEADER_SIZE <= |packet|
  {
    && Pending(o, 3) && o.session.data.file.direction.ForWriting?
    && o.session.data.file.contents == d.file.contents + Remnant(d, packet, io)
    && o.session.data.lastSavedBlock == d.lastSavedBlock
  }

  predicate Pending(o: Outcome, code: nat) {
    && o.session.phase.SendingError? && o.session.armed && o.session.data.Valid()
    && o.sent == [S.ErrorPacket(code)] && o.written == []
  }

  /** What a datagram does to a session that waits for data. */
  predicate DataWaitStep(d: S.Data, from: S.Endpoint, packet: Bytes, io: S.Io, o: Outcome) {
    if from != d.agreedRemote || (IsDataPacket(packet) && Word(packet) <= d.lastSavedBlock) then
      && o.session.phase.WaitingForAck? && DivertedInv(o.session) && SameProgress(d, o.session.data)
      && o.session.data.lastSentBlock == 0 && o.sent == [] && o.written == []
    else if !IsDataPacket(packet) then
      Pending(o, 4) && SameProgress(d, o.session.data)
    else if d.file.good && io.write.WriteOk? then
      Saved(d, packet, o)
    else
      SaveFailed(d, packet, io, o)
  }

  lemma Retouched(d: S.Data, received: Bytes, lastRemote: S.Endpoint, resendCount: nat)
    requires Diverted(d) && resendCount <= S.MAX_RESENDS
    ensures var r := d.(received := received, lastRemote := lastRemote, resendCount := resendCount);
            Diverted(r) && (WriteActive(d) ==> WriteActive(r)) && r.sendPacket == d.sendPacket
  {
  }

  lemma SaveBlock(d: S.Data, io: S.Io)
    requires WriteActive(d) && IsDataPacket(d.received)
    ensures var r := S.WriteData(d, io.write);
            if d.file.good && io.write.WriteOk? then
              && r.lastError.None?
              && Saved(d, d.received, Send(SendingAck, S.FormAckPacket(r))
                            .(written := [Write(Word(d.received), S.Payload(d.received))]))
            else
              r.lastError.Some? && SaveFailed(d, d.received, io, Send(SendingError, S.FormErrorPacket(r)))
  {
    var r := S.WriteData(d, io.write);
    if d.file.good && io.write.WriteOk? {
      assert WriteActive(S.FormAckPacket(r));
    } else {
      assert d.file.contents + [] == d.file.contents;
    }
  }

  lemma DataWaitOutcome(d: S.Data, s: Session, from: S.Endpoint, packet: Bytes, io: S.Io)
    requires s.data.Valid() && d == s.data.(lastRemote := from, received := packet) && WriteActive(d)
    ensures DataWaitStep(s.data, from, packet, io, AfterDataWait(s, from, packet, io))
  {
    if from == d.agreedRemote && IsDataPacket(packet) && Word(packet) > d.lastSavedBlock {
      SaveBlock(d, io);
    }
  }

  lemma WaitForData(s: Session, from: S.Endpoint, packet: Bytes, io: S.Io)
    requires WriteInv(s) && s.phase.WaitingForData? && Raises(s, Datagram(from, packet))
    ensures DataWaitStep(s.data, from, packet, io, Handle(s, Datagram(from, packet), io))
  {
    OnDataWait(s, from, packet, io);
    Retouched(s.data, packet, from, s.data.resendCount);
    DataWaitOutcome(s.data.(lastRemote := from, received := packet), s, from, packet, io);
  }

  /** A session goes on receiving after a datagram if and only if it brings the peer's next block, or
      a later one, and the write succeeds. Any other packet ends the receiving. */
  lemma ReceivesOnIffSaved(s: Session, from: S.Endpoint, packet: Bytes, io: S.Io)
    requires WriteInv(s) && s.phase.WaitingForData? && Raises(s, Datagram(from, packet))
    ensures IsReceiving(Handle(s, Datagram(from, packet), io).session) <==>
              && from == s.data.agreedRemote && IsDataPacket(packet) && Word(packet) > s.data.lastSavedBlock
              && s.data.file.good && io.write.WriteOk?
  {
    WaitForData(s, from, packet, io);
  }

  lemma ResendAck(s: Session)
    requires WriteInv(s) && s.phase.WaitingForData?
    ensures var o := AfterExpired(s);
            if S.CanRetry(s.data) then
              && WriteInv(o.session) && o.session.phase.SendingAck? && SameProgress(s.data, o.session.data)
              && o.session.data.resendCount == s.data.resendCount + 1
              && o.sent == [S.AckPacket(s.data.lastSavedBlock)] && o.written == []
            else o == Quiet(Idle(s.data))
  {
    if S.CanRetry(s.data) {
      Retouched(s.data, [], s.data.lastRemote, s.data.resendCount + 1);
    }
  }

  /** What a session in the sender's half of the table may still do: it never writes, and it
      acknowledges nothing that is not saved. */
  predicate DivertedStep(d: S.Data, o: Outcome)
    requires Diverted(d)
  {
    && o.written == []
    && (forall i :: 0 <= i < |o.sent| ==>
          o.sent[i] == S.AckPacket(d.lastSavedBlock) || o.sent[i] == S.DataPacket(1, [])
          || o.sent[i] == S.ErrorPacket(4))
    && match o.session.phase
       case SendingData => DivertedInv(o.session) && SameProgress(d, o.session.data)
       case WaitingForAck => DivertedInv(o.session) && SameProgress(d, o.session.data)
       case SendingError => o.session.armed && o.session.data.Valid() && SameProgress(d, o.session.data)
       case Accepting => o.session == Idle(d)
       case _ => false
  }

  lemma EmptyBlock(d: S.Data, io: S.Io)
    requires Diverted(d) && d.lastSentBlock == 0
    ensures DivertedStep(d, NextBlock(d, io))
  {
    var r := S.FormDataPacket(d, io.read);
    assert S.Read(d.file, d.agreedBlockSize, io.read).bytes == [];
  }

  lemma DivertedError(d: S.Data)
    requires Diverted(d)
    ensures DivertedStep(d, Send(SendingError, S.FormProtocolErrorPacket(d)))
  {
  }

  lemma DivertedOutcome(d: S.Data, s: Session, from: S.Endpoint, packet: Bytes, io: S.Io)
    requires s.data.Valid() && d == s.data.(lastRemote := from, received := packet) && Diverted(d)
    ensures DivertedStep(d, AfterAckWait(s, from, packet, io))
  {
    if S.HasErrReceived(d) || !S.FromAgreedEndpoint(d) {
    } else if !S.HasAckReceived(d) {
      DivertedError(d);
    } else if d.lastSentBlock == 0 {
      EmptyBlock(d, io);
    }
  }

  lemma DivertedDatagram(s: Session, from: S.Endpoint, packet: Bytes, io: S.Io)
    requires DivertedInv(s) && s.phase.WaitingForAck? && Raises(s, Datagram(from, packet))
    ensures DivertedStep(s.data, Handle(s, Datagram(from, packet), io))
  {
    OnAckWait(s, from, packet, io);
    Retouched(s.data, packet, from, s.data.resendCount);
    DivertedOutcome(s.data.(lastRemote := from, received := packet), s, from, packet, io);
  }

  lemma DivertedTimer(s: Session)
    requires DivertedInv(s) && s.phase.WaitingForAck?
    ensures DivertedStep(s.data, AfterExpired(s))
  {
    if S.CanRetry(s.data) {
      Retouched(s.data, [], s.data.lastRemote, s.data.resendCount + 1);
    }
  }

  lemma DivertedStays(s: Session, input: Input, io: S.Io)
    requires DivertedInv(s) && Raises(s, input)
    ensures DivertedStep(s.data, Handle(s, input, io))
  {
    match input
    case SendDone => OnSendDone(s, io);
    case Expired =>
      OnExpired(s, io);
      DivertedTimer(s);
    case Datagram(from, packet) => DivertedDatagram(s, from, packet, io);
  }

  /** What each event does after row 93, told by the shape of the packet: the first acknowledgment of
      block 0 brings out an empty block 1 and that of block 1 ends the session, as would an ERROR
      packet of anyone; other packets of the peer are illegal, and those of others change nothing. */
  predicate AfterRow93(s: Session, input: Input, o: Outcome) {
    var d := s.data;
    match input
    case SendDone => o == Quiet(To(WaitingForAck, d))
    case Expired =>
      if d.resendCount < 3 then
        o == Outcome(To(SendingData, d.(received := [], resendCount := d.resendCount + 1)), [d.sendPacket], [])
      else o == Quiet(Idle(d))
    case Datagram(from, p) =>
      if IsErrorPacket(p) then o == Quiet(Idle(d))
      else if from != d.agreedRemote || (IsAckPacket(p) && Word(p) < d.lastSentBlock) then
        o == Quiet(To(WaitingForAck, d.(lastRemote := from, received := p)))
      else if IsAckPacket(p) && Word(p) == 0 then
        && o.session.phase.SendingData? && DivertedInv(o.session) && SameProgress(d, o.session.data)
        && o.session.data.lastSentBlock == 1 && o.session.data.resendCount == 0
        && o.sent == [S.DataPacket(1, [])] && o.written == []
      else if IsAckPacket(p) && Word(p) == d.lastSentBlock then o == Quiet(Idle(d))
      else Pending(o, 4) && SameProgress(d, o.session.data)
    case _ => false
  }

  lemma DatagramAfterRow93(s: Session, from: S.Endpoint, packet: Bytes, io: S.Io)
    requires DivertedInv(s) && s.phase.WaitingForAck? && Raises(s, Datagram(from, packet))
    ensures AfterRow93(s, Datagram(from, packet), AfterAckWait(s, from, packet, io))
  {
    var d := s.data.(lastRemote := from, received := packet);
    Retouched(s.data, packet, from, s.data.resendCount);
    if !IsErrorPacket(packet) && from == d.agreedRemote && IsAckPacket(packet) && Word(packet) == d.lastSentBlock == 0 {
      EmptyBlock(d, io);
      EmptyBlockIsNext(d, io);
    }
  }

  lemma EmptyBlockIsNext(d: S.Data, io: S.Io)
    requires Diverted(d) && d.lastSentBlock == 0
    ensures var o := NextBlock(d, io);
            && o.session.phase.SendingData? && o.session.data.lastSentBlock == 1 && o.session.data.resendCount == 0
            && o.sent == [S.DataPacket(1, [])]
  {
    assert S.Read(d.file, d.agreedBlockSize, io.read).bytes == [];
  }

  lemma EveryEventAfterRow93(s: Session, input: Input, io: S.Io)
    requires DivertedInv(s) && Raises(s, input)
    ensures AfterRow93(s, input, Handle(s, input, io))
  {
    match input
    case SendDone => OnSendDone(s, io);
    case Expired => OnExpired(s, io);
    case Datagram(from, packet) =>
      OnAckWait(s, from, packet, io);
      DatagramAfterRow93(s, from, packet, io);
  }

  /** A block sent again because its acknowledgment was lost is not acknowledged again: it diverts
      the session, and the next DATA packet of the peer is answered with an error. */
  lemma RepeatedBlockEndsTheTransfer(s: Session, again: Bytes, next: Bytes, io: S.Io, io': S.Io)
    requires WriteInv(s) && s.phase.WaitingForData? && Raises(s, Datagram(s.data.agreedRemote, again))
    requires IsDataPacket(again) && Word(again) <= s.data.lastSavedBlock
    requires IsDataPacket(next) && |next| <= MAX_DATAGRAM
    ensures var o := Handle(s, Datagram(s.data.agreedRemote, again), io);
            && o.session.phase.WaitingForAck? && o.sent == []
            && Raises(o.session, Datagram(s.data.agreedRemote, next))
            && Pending(Handle(o.session, Datagram(s.data.agreedRemote, next), io'), 4)
  {
    var peer := s.data.agreedRemote;
    WaitForData(s, peer, again, io);
    var t := Handle(s, Datagram(peer, again), io).session;
    OnAckWait(t, peer, next, io');
  }

  // ---- The start of a session ----

  predicate WriteStarted(o: Outcome, request: Request, io: S.Io, from: S.Endpoint) {
    && o.written == [] && o.session.data.file.contents == [] && o.session.data.lastSavedBlock == 0
    && if S.Refused(request, io.lookup) then
         Pending(o, S.RefusalCode(request))
       else
         && o.session.phase.SendingAck? && WriteInv(o.session)
         && o.session.data.file == S.OpenStream(S.ForWriting, io.lookup.open, [])
         && o.session.data.resendCount == 0 && o.session.data.agreedBlockSize == 512
         && !S.HasOptions(o.session.data) && o.session.data.agreedRemote == from
         && o.sent == [S.AckPacket(0)]
  }

  lemma WriteRequestSettled(d: S.Data, request: Request, io: S.Io, from: S.Endpoint)
    requires d.Valid() && d == Idle(d).data.(agreedRemote := from, received := d.received)
    ensures WriteStarted(AfterWriteRequest(S.InitServeWriteRequest(d, request, io.lookup)), request, io, from)
  {
    var r := S.InitServeWriteRequest(d, request, io.lookup);
    ModesMatchUpToCase(request.mode);
    if r.lastError.None? {
      assert WriteActive(S.FormAckPacket(r));
    }
  }

  /** Every write request is answered with the acknowledgment of block 0 or an error; its options
      are passed over. */
  lemma WriteSessionStarts(s: Session, from: S.Endpoint, packet: Bytes, io: S.Io)
    requires s.phase.Accepting? && s.data == Idle(s.data).data && s.data.Valid()
    requires Raises(s, Datagram(from, packet)) && OpCode(packet) == WRITE_REQUEST
    ensures WriteStarted(Handle(s, Datagram(from, packet), io), ParseRequest(packet), io, from)
  {
    OnWriteRequest(s, from, packet, io);
    WriteRequestSettled(Arrived(s, from, packet), ParseRequest(packet), io, from);
  }
}
