/** Runs over any number of sessions: what holds in every state the machine can reach. */
module Reachability {
  import opened Octets
  import opened RequestParser
  import opened TransitionTable
  import opened Machine
  import opened Runs
  import S = SessionData
  import R = ReadSession
  import W = WriteSession

  /** The machine after `start()`: listening, with the initial values of its members. */
  function Start(): (s: Session)
    ensures s.data.Valid()
  {
    To(Accepting, S.IdleData(None, S.DEFAULT_TIME_OUT))
  }

  lemma InitialValues()
    ensures var d := Start().data;
            && d.agreedBlockSize == 512 && d.timeOut == 1000 && d.file.direction.Closed?
            && d.lastBlockSize == d.lastSentBlock == d.lastSavedBlock == d.resendCount == 0
            && d.fileSize == None && d.lastError == None && !S.HasOptions(d)
  {
  }

  predicate Possible(s: Session, steps: seq<Step>)
    decreases |steps|
  {
    steps == [] || (s.data.Valid() && Raises(s, steps[0].input)
                    && Possible(Handle(s, steps[0].input, steps[0].io).session, steps[1..]))
  }

  function RunAll(s: Session, steps: seq<Step>): (o: Outcome)
    requires s.data.Valid() && Possible(s, steps)
    ensures o.session.data.Valid()
    decreases |steps|
  {
    if steps == [] then Quiet(s)
    else
      var first := Handle(s, steps[0].input, steps[0].io);
      Then(first, RunAll(first.session, steps[1..]))
  }

  // ---- The invariant ----

  /** The packet of a pending error: the recorded code, or that of an illegal operation. */
  predicate ErrorReady(d: S.Data) {
    d.Valid() && d.sendPacket == S.ErrorPacket(if d.lastError.Some? then S.Code(d.lastError.value) else 4)
  }

  predicate WithinBounds(d: S.Data) {
    && 8 <= d.agreedBlockSize <= 65464 && 4 + d.agreedBlockSize <= 65536 == BUFFER_SIZE
    && d.resendCount <= 3 && d.lastSentBlock <= 65536 && d.lastSavedBlock <= 65535
  }

  /** A session that listens is reset. A session that dropped a datagram is not listening. */
  predicate Inv(s: Session) {
    && s.data.Valid() && WithinBounds(s.data)
    && match s.phase
       case Accepting =>
         && s.data == Idle(s.data).data.(agreedRemote := s.data.agreedRemote, received := s.data.received)
         && (s.armed ==> R.IsIdle(s))
       case SendingError => s.armed && ErrorReady(s.data)
       case SendingAck => W.WriteInv(s)
       case WaitingForData => W.WriteInv(s)
       case SendingData => R.ReadInv(s) || W.DivertedInv(s)
       case WaitingForAck => R.ReadInv(s) || W.DivertedInv(s)
       case _ => false
  }

  /** Whatever a handler leads to stays within bounds, and an error packet is the one that the
      record calls for. */
  predicate Sound(o: Outcome) {
    WithinBounds(o.session.data) && (o.session.phase.SendingError? ==> ErrorReady(o.session.data))
  }

  lemma NextBlockIsSound(d: S.Data, io: S.Io)
    requires d.Valid() && WithinBounds(d) && d.lastError.None? && d.lastSentBlock <= MAX_WORD
    ensures Sound(NextBlock(d, io))
  {
  }

  lemma ReadRequestIsSound(r: S.Data, io: S.Io)
    requires r.Valid() && WithinBounds(r) && r.lastSentBlock == 0
    ensures Sound(AfterReadRequest(r, io))
  {
    if r.lastError.None? && !S.HasOptions(r) {
      NextBlockIsSound(r, io);
    }
  }

  lemma WriteRequestIsSound(r: S.Data)
    requires r.Valid() && WithinBounds(r)
    ensures Sound(AfterWriteRequest(r))
  {
  }

  lemma RequestIsSound(s: Session, from: S.Endpoint, packet: Bytes, io: S.Io)
    requires Listens(s, from, packet) && WithinBounds(s.data) && s.data.lastSentBlock == 0
    ensures var o := Handle(s, Datagram(from, packet), io); Sound(o) || o.session.phase.Accepting?
  {
    var d, request := Arrived(s, from, packet), ParseRequest(packet);
    if OpCode(packet) == READ_REQUEST {
      OnReadRequest(s, from, packet, io);
      ReadRequestIsSound(S.InitServeReadRequest(d, request, io.lookup), io);
    } else if OpCode(packet) == WRITE_REQUEST {
      OnWriteRequest(s, from, packet, io);
      WriteRequestIsSound(S.InitServeWriteRequest(d, request, io.lookup));
    } else {
      OnOtherDatagram(s, from, packet, io);
    }
  }

  lemma AckWaitIsSound(s: Session, from: S.Endpoint, packet: Bytes, io: S.Io)
    requires s.data.Valid() && WithinBounds(s.data) && s.data.lastError.None?
    ensures Sound(AfterAckWait(s, from, packet, io))
  {
    var d := s.data.(lastRemote := from, received := packet);
    if S.HasAckReceived(d) && !S.IsOldAck(d) {
      NextBlockIsSound(d, io);
    }
  }

  lemma WriteIsSound(d: S.Data, io: S.Io)
    requires d.Valid() && WithinBounds(d) && d.lastError.None? && HEADER_SIZE <= |d.received|
    ensures var r := S.WriteData(d, io.write);
            if r.lastError.Some? then Sound(Send(SendingError, S.FormErrorPacket(r)))
            else Sound(Send(SendingAck, S.FormAckPacket(r)))
  {
  }

  lemma DataWaitIsSound(s: Session, from: S.Endpoint, packet: Bytes, io: S.Io)
    requires s.data.Valid() && WithinBounds(s.data) && s.data.lastError.None?
    ensures Sound(AfterDataWait(s, from, packet, io))
  {
    var d := s.data.(lastRemote := from, received := packet);
    if S.HasDataReceived(d) {
      WriteIsSound(d, io);
    }
  }

  lemma StepIsSound(s: Session, input: Input, io: S.Io)
    requires s.data.Valid() && Raises(s, input) && WithinBounds(s.data) && s.data.lastError.None?
    requires s.phase.Accepting? ==> input.Datagram? && s.data.lastSentBlock == 0
    ensures Sound(Handle(s, input, io)) || Handle(s, input, io).session.phase.Accepting?
  {
    match input
    case SendDone => OnSendDone(s, io);
    case Expired => OnExpired(s, io);
    case Datagram(from, packet) =>
      if s.phase.Accepting? {
        RequestIsSound(s, from, packet, io);
      } else if s.phase.WaitingForAck? {
        OnAckWait(s, from, packet, io);
        AckWaitIsSound(s, from, packet, io);
      } else {
        OnDataWait(s, from, packet, io);
        DataWaitIsSound(s, from, packet, io);
      }
  }

  lemma RequestKeepsInv(s: Session, from: S.Endpoint, packet: Bytes, io: S.Io)
    requires Inv(s) && s.phase.Accepting? && Raises(s, Datagram(from, packet))
    ensures Inv(Handle(s, Datagram(from, packet), io).session)
  {
    StepIsSound(s, Datagram(from, packet), io);
    if OpCode(packet) == READ_REQUEST {
      R.ReadSessionStarts(s, from, packet, io);
    } else if OpCode(packet) == WRITE_REQUEST {
      W.WriteSessionStarts(s, from, packet, io);
    } else {
      OnOtherDatagram(s, from, packet, io);
    }
  }

  lemma SenderKeepsInv(s: Session, input: Input, io: S.Io)
    requires Inv(s) && (s.phase.SendingData? || s.phase.WaitingForAck?) && Raises(s, input)
    ensures Inv(Handle(s, input, io).session)
  {
    StepIsSound(s, input, io);
    if R.ReadInv(s) {
      R.ReadRefinesStopAndWait(s, input, io);
    } else {
      W.DivertedStays(s, input, io);
    }
  }

  lemma ReceiverKeepsInv(s: Session, input: Input, io: S.Io)
    requires Inv(s) && W.IsReceiving(s) && Raises(s, input)
    ensures Inv(Handle(s, input, io).session)
  {
    StepIsSound(s, input, io);
    match input
    case SendDone => OnSendDone(s, io);
    case Expired =>
      OnExpired(s, io);
      W.ResendAck(s);
    case Datagram(from, packet) => W.WaitForData(s, from, packet, io);
  }

  lemma StepKeepsInv(s: Session, input: Input, io: S.Io)
    requires Inv(s) && Raises(s, input)
    ensures Inv(Handle(s, input, io).session)
  {
    match s.phase
    case Accepting =>
      if input.Datagram? {
        RequestKeepsInv(s, input.from, input.packet, io);
      } else {
        AcceptErrorIsDropped(s, io);
      }
    case SendingError => OnSendDone(s, io);
    case SendingData => SenderKeepsInv(s, input, io);
    case WaitingForAck => SenderKeepsInv(s, input, io);
    case _ => ReceiverKeepsInv(s, input, io);
  }

  lemma AcceptErrorIsDropped(s: Session, io: S.Io)
    requires Inv(s) && s.phase.Accepting? && Raises(s, AcceptError)
    ensures Handle(s, AcceptError, io) == Quiet(Session(Accepting, false, s.data.(received := [])))
  {
  }

  lemma StartKeepsInv()
    ensures Inv(Start())
  {
  }

  /** The invariant holds in every state that a run from `start()` can reach. */
  lemma {:induction false} ReachableInv(s: Session, steps: seq<Step>)
    requires Inv(s) && Possible(s, steps)
    ensures Inv(RunAll(s, steps).session)
    decreases |steps|
  {
    if steps != [] {
      StepKeepsInv(s, steps[0].input, steps[0].io);
      ReachableInv(Handle(s, steps[0].input, steps[0].io).session, steps[1..]);
    }
  }

  // ---- Consequences ----

  /** Counters and sizes are within bounds in every reachable state, so a header and a block
      always fit the send buffer and no counter comes near the range of `size_t`. */
  lemma ReachableBounds(steps: seq<Step>)
    requires Possible(Start(), steps)
    ensures WithinBounds(RunAll(Start(), steps).session.data)
  {
    StartKeepsInv();
    ReachableInv(Start(), steps);
  }

  /** Once an error is recorded, or an illegal packet answered, the packet on its way is the ERROR
      packet, and after it the session is reset without sending anything else. */
  lemma ErrorEndsTheSession(steps: seq<Step>, input: Input, io: S.Io)
    requires Possible(Start(), steps)
    requires var s := RunAll(Start(), steps).session;
             (s.data.lastError.Some? || s.phase.SendingError?) && Raises(s, input)
    ensures var s := RunAll(Start(), steps).session;
            && s.phase.SendingError? && input.SendDone? && ErrorReady(s.data)
            && Handle(s, input, io) == Quiet(Idle(s.data))
  {
    StartKeepsInv();
    ReachableInv(Start(), steps);
    OnSendDone(RunAll(Start(), steps).session, io);
  }

  /** In a session every event finds a row, and the next operation is started. A listening machine
      goes on only for a read or a write request; no error is ever recorded while it listens, so
      the row for a failed accept never fires. */
  lemma DispatchIsTotal(steps: seq<Step>, input: Input, io: S.Io)
    requires Possible(Start(), steps) && Raises(RunAll(Start(), steps).session, input)
    ensures var s := RunAll(Start(), steps).session;
            && (s.phase.Accepting? ==> Select(Accepting, OnAcceptingFailed, s.data) == None)
            && (Handle(s, input, io).session.armed <==>
                  !s.phase.Accepting? || (input.Datagram? && OpCode(input.packet) in {READ_REQUEST, WRITE_REQUEST}))
  {
    var s := RunAll(Start(), steps).session;
    StartKeepsInv();
    ReachableInv(Start(), steps);
    StepKeepsInv(s, input, io);
    if s.phase.Accepting? {
      if input.Datagram? {
        AcceptedDatagram(s, input.from, input.packet, io);
      } else {
        AcceptErrorIsDropped(s, io);
      }
    } else {
      NoEventIsLost(s, input, io);
    }
  }

  lemma AcceptedDatagram(s: Session, from: S.Endpoint, packet: Bytes, io: S.Io)
    requires Inv(s) && s.phase.Accepting? && Raises(s, Datagram(from, packet))
    ensures Handle(s, Datagram(from, packet), io).session.armed <==> OpCode(packet) in {READ_REQUEST, WRITE_REQUEST}
  {
    if OpCode(packet) == READ_REQUEST {
      R.ReadSessionStarts(s, from, packet, io);
    } else if OpCode(packet) == WRITE_REQUEST {
      W.WriteSessionStarts(s, from, packet, io);
    } else {
      OnOtherDatagram(s, from, packet, io);
    }
  }

  lemma NoEventIsLost(s: Session, input: Input, io: S.Io)
    requires Inv(s) && !s.phase.Accepting? && Raises(s, input)
    ensures Handle(s, input, io).session.armed
  {
    match input
    case SendDone => OnSendDone(s, io);
    case Expired => OnExpired(s, io);
    case Datagram(from, packet) =>
      if s.phase.WaitingForAck? {
        OnAckWait(s, from, packet, io);
      } else {
        OnDataWait(s, from, packet, io);
      }
  }

  /** In every reachable state of a read session that has sent block `k`, the stream stands at the
      end of that block, and the packet to send or resend is that block under its number. */
  lemma ReachableBlock(steps: seq<Step>)
    requires Possible(Start(), steps)
    requires var s := RunAll(Start(), steps).session;
             (s.phase.SendingData? || s.phase.WaitingForAck?) && s.data.file.direction.ForReading?
    ensures R.BlockIsReady(RunAll(Start(), steps).session.data)
  {
    StartKeepsInv();
    ReachableInv(Start(), steps);
    R.ActiveBlockIsReady(RunAll(Start(), steps).session.data);
  }

  // ---- Where packets go ----

  lemma NextBlockKeepsPeer(d: S.Data, io: S.Io)
    requires d.Valid()
    ensures NextBlock(d, io).session.data.agreedRemote == d.agreedRemote
  {
  }

  lemma AckWaitKeepsPeer(s: Session, from: S.Endpoint, packet: Bytes, io: S.Io)
    requires s.data.Valid()
    ensures var o := AfterAckWait(s, from, packet, io);
            if o.session.phase.Accepting? then o.sent == [] else o.session.data.agreedRemote == s.data.agreedRemote
  {
    NextBlockKeepsPeer(s.data.(lastRemote := from, received := packet), io);
  }

  lemma DataWaitKeepsPeer(s: Session, from: S.Endpoint, packet: Bytes, io: S.Io)
    requires s.data.Valid()
    ensures AfterDataWait(s, from, packet, io).session.data.agreedRemote == s.data.agreedRemote
  {
  }

  /** All packets of a session go to one peer: the endpoint they are sent to changes only with the
      reset, which sends nothing. */
  lemma SessionKeepsPeer(s: Session, input: Input, io: S.Io)
    requires InSession(s) && Raises(s, input)
    ensures var o := Handle(s, input, io);
            if o.session.phase.Accepting? then o.sent == [] else o.session.data.agreedRemote == s.data.agreedRemote
  {
    match input
    case SendDone => OnSendDone(s, io);
    case Expired => OnExpired(s, io);
    case Datagram(from, packet) =>
      if s.phase.WaitingForAck? {
        OnAckWait(s, from, packet, io);
        AckWaitKeepsPeer(s, from, packet, io);
      } else {
        OnDataWait(s, from, packet, io);
        DataWaitKeepsPeer(s, from, packet, io);
      }
  }

  lemma RequestSetsPeer(s: Session, from: S.Endpoint, packet: Bytes, io: S.Io)
    requires Listens(s, from, packet) && OpCode(packet) in {READ_REQUEST, WRITE_REQUEST}
    ensures Handle(s, Datagram(from, packet), io).session.data.agreedRemote == from
  {
    var d, request := Arrived(s, from, packet), ParseRequest(packet);
    if OpCode(packet) == READ_REQUEST {
      OnReadRequest(s, from, packet, io);
      ReadRequestKeepsPeer(S.InitServeReadRequest(d, request, io.lookup), io);
      InitKeepsPeer(d, request, io.lookup);
    } else {
      OnWriteRequest(s, from, packet, io);
      InitKeepsPeer(d, request, io.lookup);
    }
  }

  lemma InitKeepsPeer(d: S.Data, request: Request, lookup: S.Lookup)
    requires d.Valid()
    ensures S.InitServeReadRequest(d, request, lookup).agreedRemote == d.agreedRemote
    ensures S.InitServeWriteRequest(d, request, lookup).agreedRemote == d.agreedRemote
  {
  }

  lemma ReadRequestKeepsPeer(r: S.Data, io: S.Io)
    requires r.Valid()
    ensures AfterReadRequest(r, io).session.data.agreedRemote == r.agreedRemote
  {
    NextBlockKeepsPeer(r, io);
  }
}
