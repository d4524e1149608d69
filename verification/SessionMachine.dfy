/** The session as an object: its members, its two buffers, and its methods, each proved against
    the functions that say what it does. */
module SessionMachine {
  import opened Octets
  import opened Options
  import opened Oack
  import opened RequestParser
  import opened TransitionTable
  import opened Machine
  import S = SessionData

  class TftpSession {
    var phase: Phase
    var armed: bool

    // TransferState
    var agreedBlockSize: nat
    var lastBlockSize: nat
    var lastSentBlock: nat
    var lastSavedBlock: nat
    var resendCount: nat
    var fileSize: Option<nat>
    var lastError: Option<S.ErrorCode>
    var sendLength: nat
    var receivedLength: nat

    // Option, Timer, Connection, File
    var useBlockSize: bool
    var useTimeOut: bool
    var useTransferSize: bool
    var timeOut: nat
    var agreedRemote: S.Endpoint
    var lastRemote: S.Endpoint
    var file: S.Stream

    // Buffer
    const sendBuffer: array<Octet>
    const receiveBuffer: array<Octet>

    /** Everything sent and written so far. */
    ghost var sent: seq<Bytes>
    ghost var written: seq<Write>

    predicate BuffersFit()
      reads this
    {
      && sendBuffer != receiveBuffer && sendBuffer.Length == receiveBuffer.Length == BUFFER_SIZE
      && sendLength <= BUFFER_SIZE && receivedLength <= BUFFER_SIZE
    }

    function Value(): S.Data
      requires BuffersFit()
      reads this, sendBuffer, receiveBuffer
    {
      S.Data(agreedBlockSize, lastBlockSize, lastSentBlock, lastSavedBlock, resendCount,
             fileSize, lastError, useBlockSize, useTimeOut, useTransferSize, timeOut,
             sendBuffer[..sendLength], receiveBuffer[..receivedLength], agreedRemote, lastRemote, file)
    }

    predicate Valid()
      reads this, sendBuffer, receiveBuffer
    {
      BuffersFit() && Value().Valid()
    }

    /** A session that listens has cleared its receive buffer. */
    predicate Cleared()
      reads this, receiveBuffer
    {
      phase.Accepting? && armed ==> forall i :: 0 <= i < receiveBuffer.Length ==> receiveBuffer[i] == NUL
    }

    /** The machine after `start()`. */
    constructor ()
      ensures Valid() && Cleared() && fresh(sendBuffer) && fresh(receiveBuffer)
      ensures State() == To(Accepting, S.IdleData(None, S.DEFAULT_TIME_OUT))
      ensures sent == [] && written == []
    {
      phase, armed := Accepting, true;
      agreedBlockSize, lastBlockSize, lastSentBlock, lastSavedBlock, resendCount := S.DEFAULT_BLOCK_SIZE, 0, 0, 0, 0;
      fileSize, lastError := None, None;
      sendLength, receivedLength := 0, 0;
      useBlockSize, useTimeOut, useTransferSize, timeOut := false, false, false, S.DEFAULT_TIME_OUT;
      agreedRemote, lastRemote, file := S.NO_ENDPOINT, S.NO_ENDPOINT, S.CLOSED_STREAM;
      sendBuffer, receiveBuffer := new Octet[BUFFER_SIZE](_ => NUL), new Octet[BUFFER_SIZE](_ => NUL);
      sent, written := [], [];
    }

    // ---- Actions ----

    /** A payload that is in place behind the header is made into a DATA packet. */
    method PutDataHeader(block: nat, payload: Bytes)
      requires BuffersFit() && HEADER_SIZE + |payload| <= BUFFER_SIZE
      requires sendBuffer[HEADER_SIZE..HEADER_SIZE + |payload|] == payload
      modifies sendBuffer
      ensures sendBuffer[..HEADER_SIZE + |payload|] == S.DataPacket(block, payload)
    {
      SetOpCd(sendBuffer, DATA);
      SetWord(sendBuffer, block);
      ghost var n := HEADER_SIZE + |payload|;
      assert sendBuffer[..n] == sendBuffer[..2] + sendBuffer[2..4] + sendBuffer[4..n];
    }

    /** The stream's bytes go into the send buffer behind the header, whatever is there. */
    method ReadBlock(outcome: S.ReadOutcome) returns (read: S.ReadResult)
      requires Valid()
      modifies this`file, sendBuffer
      ensures read == S.Read(old(file), agreedBlockSize, outcome) && Valid()
      ensures sendBuffer[HEADER_SIZE..HEADER_SIZE + |read.bytes|] == read.bytes
      ensures Value() == old(Value()).(file := read.stream,
                               sendPacket := S.Patched(old(Value()).sendPacket, HEADER_SIZE, read.bytes))
    {
      read := S.Read(file, agreedBlockSize, outcome);
      file := read.stream;
      CopyInto(sendBuffer, HEADER_SIZE, read.bytes);
      assert sendBuffer[..sendLength] == S.Patched(old(sendBuffer[..sendLength]), HEADER_SIZE, read.bytes);
    }

    method NextDataPacket(payload: Bytes)
      requires Valid() && |payload| <= agreedBlockSize
      requires sendBuffer[HEADER_SIZE..HEADER_SIZE + |payload|] == payload
      modifies this`lastBlockSize, this`lastSentBlock, this`sendLength, sendBuffer
      ensures BuffersFit()
      ensures Value() == old(Value()).(lastBlockSize := |payload|, lastSentBlock := old(lastSentBlock) + 1,
                                       sendPacket := S.DataPacket(old(lastSentBlock) + 1, payload))
    {
      lastBlockSize := |payload|;
      lastSentBlock := lastSentBlock + 1;
      sendLength := HEADER_SIZE + lastBlockSize;
      PutDataHeader(lastSentBlock, payload);
    }

    method FormDataPacket(outcome: S.ReadOutcome)
      requires Valid()
      modifies this`file, this`lastError, this`lastBlockSize, this`lastSentBlock, this`sendLength, sendBuffer
      ensures Valid() && Value() == S.FormDataPacket(old(Value()), outcome)
    {
      var read := ReadBlock(outcome);
      if read.bad {
        lastError := Some(S.DiskFull);
      } else {
        NextDataPacket(read.bytes);
      }
    }

    method FormOackPacket()
      requires Valid() && S.HasOptions(Value())
      modifies this`lastSentBlock, this`lastSavedBlock, this`sendLength, sendBuffer
      ensures Valid() && Value() == S.FormOackPacket(old(Value()))
    {
      var options := Value().AgreedOptions();
      sendLength := PrintOack(sendBuffer, options);
      lastSentBlock := 0;
      lastSavedBlock := 0;
      assert sendBuffer[..sendLength] == OackPacket(options);
    }

    method FormAckPacket()
      requires Valid()
      modifies this`sendLength, sendBuffer
      ensures Valid() && Value() == S.FormAckPacket(old(Value()))
    {
      SetOpCd(sendBuffer, ACKNOWLEDGMENT);
      SetWord(sendBuffer, lastSavedBlock);
      sendLength := HEADER_SIZE;
      assert sendBuffer[..sendLength] == S.AckPacket(lastSavedBlock);
    }

    method FormError(code: nat)
      requires Valid()
      modifies this`sendLength, sendBuffer
      ensures Valid() && Value() == old(Value()).(sendPacket := S.ErrorPacket(code))
    {
      SetOpCd(sendBuffer, ERROR);
      SetWord(sendBuffer, code);
      sendBuffer[HEADER_SIZE] := NUL;
      sendLength := HEADER_SIZE + 1;
      assert sendBuffer[..sendLength] == S.ErrorPacket(code);
    }

    method FormErrorPacket()
      requires Valid()
      modifies this`sendLength, sendBuffer
      ensures Valid() && Value() == S.FormErrorPacket(old(Value()))
    {
      FormError(if lastError.Some? then S.Code(lastError.value) else 0);
    }

    method FormProtocolErrorPacket()
      requires Valid()
      modifies this`sendLength, sendBuffer
      ensures Valid() && Value() == S.FormProtocolErrorPacket(old(Value()))
    {
      FormError(S.Code(S.IllegalTftpOperation));
    }

    method WriteData(outcome: S.WriteOutcome)
      requires Valid() && HEADER_SIZE <= receivedLength
      modifies this`file, this`lastError, this`lastBlockSize, this`lastSavedBlock
      ensures Valid() && Value() == S.WriteData(old(Value()), outcome)
    {
      var received := receiveBuffer[..receivedLength];
      var write := S.Write(file, S.Payload(received), outcome);
      file := write.stream;
      if write.fail {
        lastError := Some(S.DiskFull);
      } else {
        lastBlockSize := receivedLength - HEADER_SIZE;
        lastSavedBlock := Word(received);
      }
    }

    method InitServeWriteRequest(request: Request, lookup: S.Lookup)
      requires Valid()
      modifies this`file, this`lastError
      ensures Valid() && Value() == S.InitServeWriteRequest(old(Value()), request, lookup)
    {
      if GetMode(request.mode).Some? {
        if lookup.found {
          file := S.OpenStream(S.ForWriting, lookup.open, []);
          if lookup.open.BadBit? {
            lastError := Some(S.FileNotFound);
          }
        } else {
          lastError := Some(S.FileNotFound);
        }
      } else {
        lastError := Some(S.IllegalTftpOperation);
      }
    }

    method AgreeTransferSize(value: Bytes, size: Option<SizeT>)
      requires Valid()
      modifies this`useTransferSize, this`fileSize
      ensures Valid() && Value() == S.AgreeTransferSize(old(Value()), value, size)
    {
      var requested := GetTransferSize(value);
      if requested.Some? {
        if size.Some? {
          useTransferSize := requested == Some(0);
          fileSize := size;
        }
      }
    }

    method OpenForRead(request: Request, lookup: S.Lookup)
      requires Valid()
      modifies this`file, this`lastError, this`fileSize, this`useTransferSize
      ensures Valid() && Value() == S.OpenForRead(old(Value()), request, lookup)
    {
      if GetMode(request.mode).Some? {
        if lookup.found {
          AgreeTransferSize(request.transferSize, lookup.size);
          file := S.OpenStream(S.ForReading, lookup.open, lookup.contents);
          if lookup.open.BadBit? {
            lastError := Some(S.FileNotFound);
          }
        } else {
          lastError := Some(S.FileNotFound);
        }
      } else {
        lastError := Some(S.IllegalTftpOperation);
      }
    }

    method AgreeTimeOut(value: Bytes)
      requires Valid()
      modifies this`timeOut, this`useTimeOut
      ensures Valid() && Value() == S.AgreeTimeOut(old(Value()), value)
    {
      var requested := GetTimeOut(value);
      if requested.Some? {
        S.TimeOutIsInRange(value);
        timeOut := requested.value;
        useTimeOut := true;
      }
    }

    method AgreeBlockSize(value: Bytes)
      requires Valid()
      modifies this`agreedBlockSize, this`useBlockSize
      ensures Valid() && Value() == S.AgreeBlockSize(old(Value()), value)
    {
      var requested := GetBlockSize(value);
      if requested.Some? {
        agreedBlockSize := requested.value;
        useBlockSize := true;
      }
    }

    method InitServeReadRequest(request: Request, lookup: S.Lookup)
      requires Valid()
      modifies this`file, this`lastError, this`fileSize, this`useTransferSize
      modifies this`timeOut, this`useTimeOut, this`agreedBlockSize, this`useBlockSize
      ensures Valid() && Value() == S.InitServeReadRequest(old(Value()), request, lookup)
    {
      OpenForRead(request, lookup);
      AgreeTimeOut(request.timeOut);
      AgreeBlockSize(request.blockSize);
    }

    method ClearBuffer(buffer: array<Octet>)
      modifies buffer
      ensures forall i :: 0 <= i < buffer.Length ==> buffer[i] == NUL
    {
      forall i | 0 <= i < buffer.Length {
        buffer[i] := NUL;
      }
    }

    /** The time out is left alone, and so is the file size. */
    method ResetTransferState()
      modifies this`agreedBlockSize, this`lastBlockSize, this`lastSentBlock, this`lastSavedBlock, this`resendCount
      modifies this`receivedLength, this`sendLength, this`lastError
      ensures agreedBlockSize == S.DEFAULT_BLOCK_SIZE
              && lastBlockSize == lastSentBlock == lastSavedBlock == resendCount == 0
      ensures receivedLength == sendLength == 0 && lastError == None
    {
      agreedBlockSize := S.DEFAULT_BLOCK_SIZE;
      lastBlockSize, lastSentBlock, lastSavedBlock, resendCount := 0, 0, 0, 0;
      receivedLength, sendLength := 0, 0;
      lastError := None;
    }

    method ResetOthers()
      requires BuffersFit()
      modifies this`file, this`agreedRemote, this`lastRemote, this`useBlockSize, this`useTimeOut, this`useTransferSize
      modifies sendBuffer, receiveBuffer
      ensures file == S.CLOSED_STREAM && agreedRemote == lastRemote == S.NO_ENDPOINT
      ensures !useBlockSize && !useTimeOut && !useTransferSize
    {
      agreedRemote, lastRemote := S.NO_ENDPOINT, S.NO_ENDPOINT;
      file := S.CLOSED_STREAM;
      ClearBuffer(receiveBuffer);
      ClearBuffer(sendBuffer);
      useBlockSize, useTimeOut, useTransferSize := false, false, false;
    }

    method Reset()
      requires Valid()
      modifies this`agreedBlockSize, this`lastBlockSize, this`lastSentBlock, this`lastSavedBlock, this`resendCount
      modifies this`receivedLength, this`sendLength, this`lastError, this`file, this`agreedRemote, this`lastRemote
      modifies this`useBlockSize, this`useTimeOut, this`useTransferSize, sendBuffer, receiveBuffer
      ensures Valid() && Value() == S.ResetSession(old(Value()))
    {
      ResetOthers();
      ResetTransferState();
      assert sendBuffer[..0] == [] && receiveBuffer[..0] == [];
    }

    method PerformRequest(action: Action, e: Event, io: S.Io)
      requires Valid() && (action.InitServeReadRequest? || action.InitServeWriteRequest?) && e.RequestReceived?
      modifies this`file, this`lastError, this`fileSize, this`useTransferSize
      modifies this`timeOut, this`useTimeOut, this`agreedBlockSize, this`useBlockSize
      ensures Valid() && Value() == Machine.Perform(action, old(Value()), e, io)
    {
      if action.InitServeReadRequest? {
        InitServeReadRequest(e.request, io.lookup);
      } else {
        InitServeWriteRequest(e.request, io.lookup);
      }
    }

    /** The actions that build a packet. */
    method PerformForm(action: Action, e: Event, io: S.Io)
      requires Valid() && ActionReady(action, Value(), e)
      requires action.FormAckPacket? || action.FormErrorPacket? || action.FormProtocolErrorPacket?
               || action.FormDataPacket? || action.FormOackPacket?
      modifies this`file, this`lastError, this`lastBlockSize, this`lastSentBlock,
               this`lastSavedBlock, this`sendLength, sendBuffer
      ensures Valid() && Value() == Machine.Perform(action, old(Value()), e, io)
    {
      match action
      case FormAckPacket => FormAckPacket();
      case FormErrorPacket => FormErrorPacket();
      case FormProtocolErrorPacket => FormProtocolErrorPacket();
      case FormDataPacket => FormDataPacket(io.read);
      case FormOackPacket => FormOackPacket();
    }

    method PerformCount(action: Action, e: Event, io: S.Io)
      requires Valid() && (action.NoAction? || action.TimeOut? || action.ResetTimeOut?)
      modifies this`resendCount
      ensures Valid() && Value() == Machine.Perform(action, old(Value()), e, io)
    {
      match action
      case NoAction =>
      case TimeOut => resendCount := resendCount + 1;
      case ResetTimeOut => resendCount := 0;
    }

    method Perform(action: Action, e: Event, io: S.Io)
      requires Valid() && ActionReady(action, Value(), e)
      modifies this, sendBuffer, receiveBuffer
      ensures Valid() && Value() == Machine.Perform(action, old(Value()), e, io)
      ensures unchanged(this`phase, this`armed, this`sent, this`written)
    {
      if action.NoAction? || action.TimeOut? || action.ResetTimeOut? {
        PerformCount(action, e, io);
      } else if action.InitServeReadRequest? || action.InitServeWriteRequest? {
        PerformRequest(action, e, io);
      } else if action.WriteData? {
        WriteData(io.write);
      } else if action.Reset? {
        Reset();
      } else {
        PerformForm(action, e, io);
      }
    }

    // ---- Transitions ----

    function State(): Session
      requires BuffersFit()
      reads this, sendBuffer, receiveBuffer
    {
      Session(phase, armed, Value())
    }

    /** The session is where `o` says, having sent and written what `o` says besides. */
    ghost predicate Did(o: Outcome, sentBefore: seq<Bytes>, writtenBefore: seq<Write>)
      requires BuffersFit()
      reads this, sendBuffer, receiveBuffer
    {
      State() == o.session && sent == sentBefore + o.sent && written == writtenBefore + o.written
    }

    method Enter(target: Phase)
      requires Valid()
      modifies this`phase, this`armed, this`sent, receiveBuffer
      ensures Valid() && Cleared() && Did(Machine.Enter(target, old(Value())), old(sent), old(written))
    {
      phase := target;
      armed := IsStable(phase);
      if phase.Accepting? {
        ClearBuffer(receiveBuffer);
        assert receiveBuffer[..receivedLength] == Zeros(receivedLength);
      } else if IsSending(phase) {
        sent := sent + [sendBuffer[..sendLength]];
      }
    }

    method FireRow(row: Row, e: Event, io: S.Io)
      requires Valid() && ActionReady(row.action, Value(), e)
      modifies this, sendBuffer, receiveBuffer
      ensures Valid() && Cleared() && Did(Machine.FireRow(row, old(Value()), e, io), old(sent), old(written))
    {
      ghost var received := Value().received;
      Perform(row.action, e, io);
      if row.action.WriteData? && !lastError.Some? {
        written := written + [Write(Word(received), S.Payload(received))];
      }
      Enter(row.target);
    }

    /** One event: the row that fires, and then completion transitions until none is enabled. An
        event for which there is no row changes nothing. */
    method ProcessEvent(e: Event, io: S.Io)
      requires Valid() && IsStable(phase) && Cleared()
      modifies this, sendBuffer, receiveBuffer
      ensures Valid() && IsStable(phase) && Cleared()
      ensures Did(Machine.ProcessEvent(old(State()), e, io), old(sent), old(written))
      ensures old(Select(phase, TriggerOf(e), Value())).None? ==>
                unchanged(this) && unchanged(sendBuffer) && unchanged(receiveBuffer)
    {
      ghost var start := State();
      var found := FindRow(phase, TriggerOf(e), Value());
      if found.None? {
        return;
      }
      SelectedActionIsReady(phase, e, Value());
      FireRow(found.value, e, io);
      ghost var first := Machine.FireRow(found.value, start.data, e, io);
      Complete(io);
      JoinTraces(old(sent), first.sent, Machine.Complete(first.session, io).sent);
      JoinTraces(old(written), first.written, Machine.Complete(first.session, io).written);
    }

    /** Completion transitions, one after the other, until none is enabled. */
    method Complete(io: S.Io)
      requires Valid() && Cleared()
      modifies this, sendBuffer, receiveBuffer
      ensures Valid() && IsStable(phase) && Cleared()
      ensures Did(Machine.Complete(old(State()), io), old(sent), old(written))
      decreases Rank(phase)
    {
      ghost var start := State();
      var found := FindRow(phase, OnCompletion, Value());
      if found.None? {
        return;
      }
      UnfoldComplete(start, found.value, io);
      FireRow(found.value, Completion, io);
      ghost var first := Machine.FireRow(found.value, start.data, Completion, io);
      Complete(io);
      JoinTraces(old(sent), first.sent, Machine.Complete(first.session, io).sent);
      JoinTraces(old(written), first.written, Machine.Complete(first.session, io).written);
    }

    // ---- Handlers ----

    /** A datagram lands at the start of the receive buffer. */
    method Store(packet: Bytes)
      requires Valid() && |packet| <= MAX_DATAGRAM
      modifies this`receivedLength, receiveBuffer
      ensures Valid() && Value() == old(Value()).(received := packet) && receivedLength == |packet|
      ensures receiveBuffer[..] == Overlay(old(receiveBuffer[..]), 0, packet)
    {
      CopyInto(receiveBuffer, 0, packet);
      receivedLength := |packet|;
    }

    /** What is behind the datagram in the buffer is still clear. */
    predicate ClearBehind()
      reads this, receiveBuffer
    {
      forall i :: receivedLength <= i < receiveBuffer.Length ==> receiveBuffer[i] == NUL
    }

    method Accept(from: S.Endpoint, packet: Bytes)
      requires Valid() && Cleared() && phase.Accepting? && Raises(State(), Datagram(from, packet))
      modifies this`receivedLength, this`agreedRemote, this`armed, receiveBuffer
      ensures Valid() && Cleared() && ClearBehind() && receivedLength == |packet|
      ensures State() == Session(Accepting, false, Arrived(old(State()), from, packet))
    {
      Store(packet);
      agreedRemote := from;
      armed := false;
      assert forall i :: |packet| <= i < BUFFER_SIZE ==> receiveBuffer[..][i] == NUL;
    }

    method Parse() returns (request: Request)
      requires Valid() && ClearBehind() && SHORT_HEADER_SIZE <= receivedLength <= MAX_DATAGRAM
      ensures request == ParseRequest(Value().received)
    {
      request := ProcessEventFromBuffer(receiveBuffer[..], receivedLength);
      assert receiveBuffer[..][..receivedLength] == receiveBuffer[..receivedLength];
    }

    /** A malformed request raises a failure that no row takes while no error is recorded. */
    method RaiseIfMalformed(packet: Bytes, io: S.Io)
      requires Valid() && Cleared() && phase.Accepting? && lastError.None? && SHORT_HEADER_SIZE <= |packet|
      modifies this, sendBuffer, receiveBuffer
      ensures unchanged(this) && unchanged(sendBuffer) && unchanged(receiveBuffer)
    {
      if Malformed(packet) {
        ProcessEvent(AcceptingFailed, io);
      }
    }

    /** The accept handler. A malformed request is parsed all the same. */
    method OnAccepted(from: S.Endpoint, packet: Bytes, io: S.Io)
      requires Valid() && Cleared() && phase.Accepting? && lastError.None? && Raises(State(), Datagram(from, packet))
      modifies this, sendBuffer, receiveBuffer
      ensures Valid() && IsStable(phase) && Cleared()
      ensures Did(Handle(old(State()), Datagram(from, packet), io), old(sent), old(written))
    {
      MalformedMakesNoDifference(State(), from, packet, io);
      Accept(from, packet);
      RaiseIfMalformed(packet, io);
      var request := Parse();
      ProcessEvent(RequestReceived(request), io);
    }

    method OnAcceptFailed(io: S.Io)
      requires Valid() && Cleared() && Raises(State(), AcceptError)
      modifies this, sendBuffer, receiveBuffer
      ensures Valid() && IsStable(phase) && Cleared()
      ensures Did(Handle(old(State()), AcceptError, io), old(sent), old(written))
    {
      armed := false;
      receivedLength := 0;
      ProcessEvent(AcceptingFailed, io);
    }

    method OnSent(io: S.Io)
      requires Valid() && Cleared() && Raises(State(), SendDone)
      modifies this, sendBuffer, receiveBuffer
      ensures Valid() && IsStable(phase) && Cleared()
      ensures Did(Handle(old(State()), SendDone, io), old(sent), old(written))
    {
      armed := false;
      ProcessEvent(PacketSent, io);
    }

    method OnTimeOut(io: S.Io)
      requires Valid() && Cleared() && Raises(State(), Expired)
      modifies this, sendBuffer, receiveBuffer
      ensures Valid() && IsStable(phase) && Cleared()
      ensures Did(Handle(old(State()), Expired, io), old(sent), old(written))
    {
      armed := false;
      receivedLength := 0;
      ProcessEvent(TimedOut, io);
    }

    method Take(from: S.Endpoint, packet: Bytes)
      requires Valid() && IsWaiting(phase) && |packet| <= MAX_DATAGRAM
      modifies this`receivedLength, this`lastRemote, this`armed, receiveBuffer
      ensures Valid() && Cleared()
      ensures State() == Session(old(phase), false, old(Value()).(lastRemote := from, received := packet))
    {
      Store(packet);
      lastRemote := from;
      armed := false;
    }

    method OnReceived(from: S.Endpoint, packet: Bytes, io: S.Io)
      requires Valid() && Cleared() && IsWaiting(phase) && Raises(State(), Datagram(from, packet))
      modifies this, sendBuffer, receiveBuffer
      ensures Valid() && IsStable(phase) && Cleared()
      ensures Did(Handle(old(State()), Datagram(from, packet), io), old(sent), old(written))
    {
      Take(from, packet);
      ProcessEvent(PacketReceived, io);
    }
  }

  lemma JoinTraces<T>(a: seq<T>, b: seq<T>, c: seq<T>)
    ensures (a + b) + c == a + (b + c)
  {
  }
}
