/** One session as a state machine: the effect of firing a row, completion transitions, and the
    handlers that turn what happens outside into events. */
module Machine {
  import opened Octets
  import opened RequestParser
  import opened TransitionTable
  import S = SessionData

  /** `armed` says that the asynchronous operation started on entry to the state is outstanding. */
  datatype Session = Session(phase: Phase, armed: bool, data: S.Data)

  /** A block of payload that reached the file, and the number it came under. */
  datatype Write = Write(block: nat, payload: Bytes)

  /** The packets sent and the blocks written, in order, on the way to `session`. */
  datatype Outcome = Outcome(session: Session, sent: seq<Bytes>, written: seq<Write>)

  function Then(first: Outcome, second: Outcome): Outcome {
    Outcome(second.session, first.sent + second.sent, first.written + second.written)
  }

  // ---- Firing a row ----

  /** What an action relies on beyond `Valid`; the guard of its row provides it. */
  predicate ActionReady(action: Action, d: S.Data, e: Event) {
    && (action.WriteData? ==> HEADER_SIZE <= |d.received|)
    && (action.FormOackPacket? ==> S.HasOptions(d))
    && (action.InitServeReadRequest? || action.InitServeWriteRequest? ==> e.RequestReceived?)
  }

  function Perform(action: Action, d: S.Data, e: Event, io: S.Io): (r: S.Data)
    requires d.Valid() && ActionReady(action, d, e)
    ensures r.Valid()
  {
    match action
    case NoAction => d
    case Reset => S.ResetSession(d)
    case TimeOut => d.(resendCount := d.resendCount + 1)
    case ResetTimeOut => d.(resendCount := 0)
    case InitServeReadRequest => S.InitServeReadRequest(d, e.request, io.lookup)
    case InitServeWriteRequest => S.InitServeWriteRequest(d, e.request, io.lookup)
    case FormAckPacket => S.FormAckPacket(d)
    case FormErrorPacket => S.FormErrorPacket(d)
    case FormProtocolErrorPacket => S.FormProtocolErrorPacket(d)
    case FormDataPacket => S.FormDataPacket(d, io.read)
    case FormOackPacket => S.FormOackPacket(d)
    case WriteData => S.WriteData(d, io.write)
  }

  predicate IsSending(phase: Phase) { phase.SendingError? || phase.SendingAck? || phase.SendingData? }
  predicate IsWaiting(phase: Phase) { phase.WaitingForData? || phase.WaitingForAck? }
  predicate IsStable(phase: Phase) { phase.Accepting? || IsSending(phase) || IsWaiting(phase) }

  /** Entry actions: a sending state hands the packet to the socket, a waiting state arms the
      receive and the timer, and `Accepting` clears the receive buffer and listens. */
  function Enter(phase: Phase, d: S.Data): (o: Outcome)
    requires d.Valid()
    ensures o.session.data.Valid()
  {
    var d' := if phase.Accepting? then d.(received := Zeros(|d.received|)) else d;
    Outcome(Session(phase, IsStable(phase), d'), if IsSending(phase) then [d.sendPacket] else [], [])
  }

  function FireRow(row: Row, d: S.Data, e: Event, io: S.Io): (o: Outcome)
    requires d.Valid() && ActionReady(row.action, d, e)
    ensures o.session.data.Valid() && o.session.phase == row.target
  {
    var r := Perform(row.action, d, e, io);
    var written := if row.action.WriteData? && !r.lastError.Some?
                   then [Write(Word(d.received), S.Payload(d.received))] else [];
    Enter(row.target, r).(written := written)
  }

  lemma SelectedActionIsReady(phase: Phase, e: Event, d: S.Data)
    requires Select(phase, TriggerOf(e), d).Some?
    ensures ActionReady(Select(phase, TriggerOf(e), d).value.action, d, e)
  {
  }

  function Rank(phase: Phase): nat {
    match phase
    case ReadRequestReceived => 2
    case WriteRequestReceived => 1
    case DataRead => 1
    case DataWritten => 1
    case Resetted => 1
    case _ => 0
  }

  /** Completion transitions are taken until none is enabled. */
  function Complete(s: Session, io: S.Io): (o: Outcome)
    requires s.data.Valid()
    ensures o.session.data.Valid() && IsStable(o.session.phase)
    decreases Rank(s.phase)
  {
    match Select(s.phase, OnCompletion, s.data)
    case None => Outcome(s, [], [])
    case Some(row) =>
      SelectedActionIsReady(s.phase, Completion, s.data);
      var first := FireRow(row, s.data, Completion, io);
      Then(first, Complete(first.session, io))
  }

  lemma UnfoldComplete(s: Session, row: Row, io: S.Io)
    requires s.data.Valid() && Select(s.phase, OnCompletion, s.data) == Some(row)
    ensures ActionReady(row.action, s.data, Completion) && Rank(row.target) < Rank(s.phase)
    ensures var first := FireRow(row, s.data, Completion, io);
            Complete(s, io) == Then(first, Complete(first.session, io))
  {
    SelectedActionIsReady(s.phase, Completion, s.data);
  }

  /** An event for which no row is enabled is dropped, and nothing is started again. */
  function ProcessEvent(s: Session, e: Event, io: S.Io): (o: Outcome)
    requires s.data.Valid() && IsStable(s.phase)
    ensures o.session.data.Valid() && IsStable(o.session.phase)
  {
    match Select(s.phase, TriggerOf(e), s.data)
    case None => Outcome(s, [], [])
    case Some(row) =>
      SelectedActionIsReady(s.phase, e, s.data);
      var first := FireRow(row, s.data, e, io);
      Then(first, Complete(first.session, io))
  }

  // ---- Handlers ----

  datatype Input =
    | Datagram(from: S.Endpoint, packet: Bytes)
    | AcceptError
    | SendDone
    | Expired

  /** The largest UDP payload over IPv4. */
  const MAX_DATAGRAM: nat := 65507

  /** What can happen in a state whose operation is outstanding. A request of fewer than two octets
      is left out. */
  predicate Raises(s: Session, input: Input) {
    && s.armed
    && match input
       case Datagram(_, packet) =>
         |packet| <= MAX_DATAGRAM && (IsWaiting(s.phase) || (s.phase.Accepting? && SHORT_HEADER_SIZE <= |packet|))
       case AcceptError => s.phase.Accepting?
       case SendDone => IsSending(s.phase)
       case Expired => IsWaiting(s.phase)
  }

  /** A request must hold two octets after its opcode and end in a NUL. */
  predicate Malformed(packet: Bytes)
    requires SHORT_HEADER_SIZE <= |packet|
  {
    |packet| < SHORT_HEADER_SIZE + 2 || packet[|packet| - 1] != NUL
  }

  function Handle(s: Session, input: Input, io: S.Io): (o: Outcome)
    requires s.data.Valid() && Raises(s, input)
    ensures o.session.data.Valid() && IsStable(o.session.phase)
  {
    var idle := s.(armed := false);
    match input
    case AcceptError => ProcessEvent(idle.(data := s.data.(received := [])), AcceptingFailed, io)
    case SendDone => ProcessEvent(idle, PacketSent, io)
    case Expired => ProcessEvent(idle.(data := s.data.(received := [])), TimedOut, io)
    case Datagram(from, packet) =>
      if s.phase.Accepting? then
        var got := idle.(data := s.data.(agreedRemote := from, received := packet));
        var first := if Malformed(packet) then ProcessEvent(got, AcceptingFailed, io) else Outcome(got, [], []);
        Then(first, ProcessEvent(first.session, RequestReceived(ParseRequest(packet)), io))
      else
        ProcessEvent(idle.(data := s.data.(lastRemote := from, received := packet)), PacketReceived, io)
  }

  // ---- What each handler comes to ----

  function To(phase: Phase, d: S.Data): Session { Session(phase, true, d) }

  function Idle(d: S.Data): Session { To(Accepting, S.IdleData(d.fileSize, d.timeOut)) }

  function Quiet(s: Session): Outcome { Outcome(s, [], []) }

  function Send(phase: Phase, d: S.Data): Outcome
    requires d.Valid()
  {
    Outcome(To(phase, d), [d.sendPacket], [])
  }

  lemma CompleteFromResetted(d: S.Data, io: S.Io)
    requires d.Valid()
    ensures Complete(Session(Resetted, false, S.ResetSession(d)), io) == Quiet(Idle(d))
  {
    var r := S.ResetSession(d);
    assert r.received == [] && Zeros(0) == [];
    assert r.(received := Zeros(0)) == r;
    assert FireRow(ROW70, r, Completion, io) == Quiet(Idle(d));
    assert Complete(Idle(d), io) == Quiet(Idle(d));
  }

  lemma CompleteStable(o: Outcome)
    requires o.session.data.Valid() && IsStable(o.session.phase)
    ensures forall io :: Then(o, Complete(o.session, io)) == o
  {
    assert o.sent + [] == o.sent && o.written + [] == o.written;
  }

  /** A stable state has no completion transition, so one row is all that fires. */
  lemma AfterStable(s: Session, e: Event, io: S.Io)
    requires s.data.Valid() && IsStable(s.phase)
    requires Select(s.phase, TriggerOf(e), s.data).Some?
    requires IsStable(Select(s.phase, TriggerOf(e), s.data).value.target)
    ensures ActionReady(Select(s.phase, TriggerOf(e), s.data).value.action, s.data, e)
    ensures ProcessEvent(s, e, io) == FireRow(Select(s.phase, TriggerOf(e), s.data).value, s.data, e, io)
  {
    SelectedActionIsReady(s.phase, e, s.data);
    CompleteStable(FireRow(Select(s.phase, TriggerOf(e), s.data).value, s.data, e, io));
  }

  /** Entering a state without an entry action of its own only performs the action. */
  lemma FireToTransient(row: Row, d: S.Data, e: Event, io: S.Io)
    requires d.Valid() && ActionReady(row.action, d, e) && !IsStable(row.target) && !row.action.WriteData?
    ensures FireRow(row, d, e, io) == Quiet(Session(row.target, false, Perform(row.action, d, e, io)))
  {
  }

  lemma ThenFromQuiet(s: Session, o: Outcome)
    ensures Then(Quiet(s), o) == o
  {
  }

  lemma ThenComplete(s: Session, e: Event, io: S.Io, row: Row)
    requires s.data.Valid() && IsStable(s.phase) && Select(s.phase, TriggerOf(e), s.data) == Some(row)
    requires ActionReady(row.action, s.data, e) && !IsStable(row.target) && !row.action.WriteData?
    ensures ProcessEvent(s, e, io) == Complete(Session(row.target, false, Perform(row.action, s.data, e, io)), io)
  {
    FireToTransient(row, s.data, e, io);
    ThenFromQuiet(Session(row.target, false, Perform(row.action, s.data, e, io)),
                  Complete(Session(row.target, false, Perform(row.action, s.data, e, io)), io));
  }

  lemma AfterReset(s: Session, e: Event, io: S.Io)
    requires s.data.Valid() && IsStable(s.phase)
    requires Select(s.phase, TriggerOf(e), s.data).Some?
    requires var row := Select(s.phase, TriggerOf(e), s.data).value; row.target.Resetted? && row.action.Reset?
    ensures ProcessEvent(s, e, io) == Quiet(Idle(s.data))
  {
    CompleteFromResetted(s.data, io);
  }

  /** What follows an attempt to form a packet: the packet with a fresh budget of resends, or the
      error. */
  function AfterDataRead(r: S.Data): Outcome
    requires r.Valid()
  {
    if r.lastError.Some? then Send(SendingError, S.FormErrorPacket(r)) else Send(SendingData, r.(resendCount := 0))
  }

  function NextBlock(d: S.Data, io: S.Io): Outcome
    requires d.Valid()
  {
    AfterDataRead(S.FormDataPacket(d, io.read))
  }

  lemma CompleteFromDataRead(d: S.Data, io: S.Io)
    requires d.Valid()
    ensures Complete(Session(DataRead, false, d), io) == AfterDataRead(d)
  {
  }

  function AfterSendDone(s: Session): Outcome
    requires s.data.Valid()
  {
    match s.phase
    case SendingData => Quiet(To(WaitingForAck, s.data))
    case SendingAck => Quiet(To(WaitingForData, s.data))
    case _ => Quiet(Idle(s.data))
  }

  lemma OnSendDone(s: Session, io: S.Io)
    requires s.data.Valid() && Raises(s, SendDone)
    ensures Handle(s, SendDone, io) == AfterSendDone(s)
  {
    if s.phase.SendingError? {
      AfterReset(s.(armed := false), PacketSent, io);
    }
  }

  function AfterExpired(s: Session): Outcome
    requires s.data.Valid()
  {
    var d := s.data.(received := []);
    if S.CanRetry(d) then
      Send(if s.phase.WaitingForAck? then SendingData else SendingAck, d.(resendCount := d.resendCount + 1))
    else Quiet(Idle(d))
  }

  lemma OnExpired(s: Session, io: S.Io)
    requires s.data.Valid() && Raises(s, Expired)
    ensures Handle(s, Expired, io) == AfterExpired(s)
  {
    var d := s.data.(received := []);
    if S.CanRetry(d) {
      AfterStable(Session(s.phase, false, d), TimedOut, io);
    } else {
      AfterReset(Session(s.phase, false, d), TimedOut, io);
    }
  }

  function AfterAckWait(s: Session, from: S.Endpoint, packet: Bytes, io: S.Io): Outcome
    requires s.data.Valid()
  {
    var d := s.data.(lastRemote := from, received := packet);
    if S.HasErrReceived(d) then Quiet(Idle(d))
    else if !S.FromAgreedEndpoint(d) then Quiet(To(WaitingForAck, d))
    else if !S.HasAckReceived(d) then Send(SendingError, S.FormProtocolErrorPacket(d))
    else if S.IsOldAck(d) then Quiet(To(WaitingForAck, d))
    else if S.HasMoreToSend(d) then NextBlock(d, io)
    else Quiet(Idle(d))
  }

  lemma AckWaitStays(s: Session, io: S.Io)
    requires s.data.Valid() && s.phase.WaitingForAck? && !S.HasErrReceived(s.data)
    requires !S.FromAgreedEndpoint(s.data) || !S.HasAckReceived(s.data) || S.IsOldAck(s.data)
    ensures ProcessEvent(s, PacketReceived, io)
            == if S.FromAgreedEndpoint(s.data) && !S.HasAckReceived(s.data)
               then Send(SendingError, S.FormProtocolErrorPacket(s.data))
               else Quiet(To(WaitingForAck, s.data))
  {
    AfterStable(s, PacketReceived, io);
  }

  lemma AckWaitEnds(s: Session, io: S.Io)
    requires s.data.Valid() && s.phase.WaitingForAck?
    requires || S.HasErrReceived(s.data)
             || (S.FromAgreedEndpoint(s.data) && S.HasAckReceived(s.data) && !S.IsOldAck(s.data)
                 && !S.HasMoreToSend(s.data))
    ensures ProcessEvent(s, PacketReceived, io) == Quiet(Idle(s.data))
  {
    AfterReset(s, PacketReceived, io);
  }

  lemma AfterNextBlock(s: Session, row: Row, io: S.Io)
    requires s.data.Valid() && IsStable(s.phase) && Select(s.phase, OnPacketReceived, s.data) == Some(row)
    requires row.action == FormDataPacket && row.target == DataRead
    ensures ProcessEvent(s, PacketReceived, io) == NextBlock(s.data, io)
  {
    ThenComplete(s, PacketReceived, io, row);
    CompleteFromDataRead(Perform(FormDataPacket, s.data, PacketReceived, io), io);
  }

  lemma AckWaitAdvances(s: Session, io: S.Io)
    requires s.data.Valid() && s.phase.WaitingForAck? && !S.HasErrReceived(s.data)
    requires S.FromAgreedEndpoint(s.data) && S.HasAckReceived(s.data) && !S.IsOldAck(s.data)
    requires S.HasMoreToSend(s.data)
    ensures ProcessEvent(s, PacketReceived, io) == NextBlock(s.data, io)
  {
    AfterNextBlock(s, Select(s.phase, OnPacketReceived, s.data).value, io);
  }

  lemma OnAckWait(s: Session, from: S.Endpoint, packet: Bytes, io: S.Io)
    requires s.data.Valid() && s.phase.WaitingForAck? && Raises(s, Datagram(from, packet))
    ensures Handle(s, Datagram(from, packet), io) == AfterAckWait(s, from, packet, io)
  {
    var d := s.data.(lastRemote := from, received := packet);
    var got := Session(WaitingForAck, false, d);
    if S.HasErrReceived(d) {
      AckWaitEnds(got, io);
    } else if !S.FromAgreedEndpoint(d) || !S.HasAckReceived(d) || S.IsOldAck(d) {
      AckWaitStays(got, io);
    } else if S.HasMoreToSend(d) {
      AckWaitAdvances(got, io);
    } else {
      AckWaitEnds(got, io);
    }
  }

  function AfterDataWait(s: Session, from: S.Endpoint, packet: Bytes, io: S.Io): Outcome
    requires s.data.Valid()
  {
    var d := s.data.(lastRemote := from, received := packet);
    if !S.FromAgreedEndpoint(d) then Quiet(To(WaitingForAck, d))
    else if !S.HasDataReceived(d) then Send(SendingError, S.FormProtocolErrorPacket(d))
    else if S.IsOldData(d) then Quiet(To(WaitingForAck, d))
    else
      var r := S.WriteData(d, io.write);
      if r.lastError.Some? then Send(SendingError, S.FormErrorPacket(r))
      else Send(SendingAck, S.FormAckPacket(r)).(written := [Write(Word(packet), S.Payload(packet))])
  }

  lemma OnDataWait(s: Session, from: S.Endpoint, packet: Bytes, io: S.Io)
    requires s.data.Valid() && s.phase.WaitingForData? && Raises(s, Datagram(from, packet))
    ensures Handle(s, Datagram(from, packet), io) == AfterDataWait(s, from, packet, io)
  {
    var d := s.data.(lastRemote := from, received := packet);
    var got := Session(WaitingForData, false, d);
    var row := Select(WaitingForData, OnPacketReceived, d).value;
    if row.target.DataWritten? {
      AfterDataWritten(got, row, io);
    } else {
      AfterStable(got, PacketReceived, io);
    }
  }

  lemma CompleteFromDataWritten(d: S.Data, io: S.Io)
    requires d.Valid()
    ensures Complete(Session(DataWritten, false, d), io)
            == if d.lastError.Some? then Send(SendingError, S.FormErrorPacket(d))
               else Send(SendingAck, S.FormAckPacket(d))
  {
  }

  lemma AfterDataWritten(s: Session, row: Row, io: S.Io)
    requires s.data.Valid() && IsStable(s.phase) && HEADER_SIZE <= |s.data.received|
    requires Select(s.phase, OnPacketReceived, s.data) == Some(row)
    requires row.action.WriteData? && row.target.DataWritten?
    ensures ProcessEvent(s, PacketReceived, io)
            == var r := S.WriteData(s.data, io.write);
               if r.lastError.Some? then Send(SendingError, S.FormErrorPacket(r))
               else Send(SendingAck, S.FormAckPacket(r))
                    .(written := [Write(Word(s.data.received), S.Payload(s.data.received))])
  {
    WriteIsFired(row, s.data, io);
    CompleteFromDataWritten(S.WriteData(s.data, io.write), io);
  }

  lemma WriteIsFired(row: Row, d: S.Data, io: S.Io)
    requires d.Valid() && HEADER_SIZE <= |d.received| && row.action.WriteData? && row.target.DataWritten?
    ensures var r := S.WriteData(d, io.write);
            FireRow(row, d, PacketReceived, io)
            == Outcome(Session(DataWritten, false, r), [],
                       if r.lastError.Some? then [] else [Write(Word(d.received), S.Payload(d.received))])
  {
  }

  /** What follows a request that was let in: the options, the first block, or the error. */
  function AfterReadRequest(r: S.Data, io: S.Io): Outcome
    requires r.Valid()
  {
    if S.HasError(r) then Send(SendingError, S.FormErrorPacket(r))
    else if S.HasOptions(r) then AfterDataRead(S.FormOackPacket(r))
    else NextBlock(r, io)
  }

  function AfterWriteRequest(r: S.Data): Outcome
    requires r.Valid()
  {
    if S.HasError(r) then Send(SendingError, S.FormErrorPacket(r)) else Send(SendingAck, S.FormAckPacket(r))
  }

  lemma CompleteToDataRead(r: S.Data, io: S.Io)
    requires r.Valid() && !S.HasError(r)
    ensures Complete(Session(ReadRequestReceived, false, r), io)
            == Complete(Session(DataRead, false,
                        if S.HasOptions(r) then S.FormOackPacket(r) else S.FormDataPacket(r, io.read)), io)
  {
    var row := Select(ReadRequestReceived, OnCompletion, r).value;
    var next := if S.HasOptions(r) then S.FormOackPacket(r) else S.FormDataPacket(r, io.read);
    FireToTransient(row, r, Completion, io);
    assert Perform(row.action, r, Completion, io) == next;
  }

  lemma CompleteFromReadRequest(r: S.Data, io: S.Io)
    requires r.Valid()
    ensures Complete(Session(ReadRequestReceived, false, r), io) == AfterReadRequest(r, io)
  {
    if S.HasError(r) {
      var o := Send(SendingError, S.FormErrorPacket(r));
      assert FireRow(ROW118, r, Completion, io) == o;
      assert Complete(o.session, io) == Quiet(o.session);
    } else {
      CompleteToDataRead(r, io);
      CompleteFromDataRead(if S.HasOptions(r) then S.FormOackPacket(r) else S.FormDataPacket(r, io.read), io);
    }
  }

  lemma CompleteFromWriteRequest(r: S.Data, io: S.Io)
    requires r.Valid()
    ensures Complete(Session(WriteRequestReceived, false, r), io) == AfterWriteRequest(r)
  {
  }

  /** A failed accept resets a machine with an error on record, and is dropped by any other. */
  lemma OnAcceptError(s: Session, io: S.Io)
    requires s.data.Valid() && Raises(s, AcceptError)
    ensures Handle(s, AcceptError, io)
            == if s.data.lastError.Some? then Quiet(Idle(s.data))
               else Quiet(Session(Accepting, false, s.data.(received := [])))
  {
    var got := Session(Accepting, false, s.data.(received := []));
    if s.data.lastError.Some? {
      AfterReset(got, AcceptingFailed, io);
    } else {
      NoRowNoChange(got, AcceptingFailed, io);
    }
  }

  /** A malformed request raises a failure that no row takes, and is then parsed all the same. */
  lemma MalformedMakesNoDifference(s: Session, from: S.Endpoint, packet: Bytes, io: S.Io)
    requires s.data.Valid() && s.phase.Accepting? && s.data.lastError.None? && Raises(s, Datagram(from, packet))
    ensures Handle(s, Datagram(from, packet), io)
            == ProcessEvent(Session(Accepting, false, s.data.(agreedRemote := from, received := packet)),
                            RequestReceived(ParseRequest(packet)), io)
  {
    NoRowNoChange(Session(Accepting, false, s.data.(agreedRemote := from, received := packet)), AcceptingFailed, io);
  }

  lemma ReadRequestIsProcessed(s: Session, e: Event, io: S.Io)
    requires s.data.Valid() && IsStable(s.phase) && e.RequestReceived?
    requires Select(s.phase, OnRequest, s.data) == Some(ROW115)
    ensures ProcessEvent(s, e, io) == AfterReadRequest(Perform(InitServeReadRequest, s.data, e, io), io)
  {
    ThenComplete(s, e, io, ROW115);
    CompleteFromReadRequest(Perform(InitServeReadRequest, s.data, e, io), io);
  }

  lemma WriteRequestIsProcessed(s: Session, e: Event, io: S.Io)
    requires s.data.Valid() && IsStable(s.phase) && e.RequestReceived?
    requires Select(s.phase, OnRequest, s.data) == Some(ROW86)
    ensures ProcessEvent(s, e, io) == AfterWriteRequest(Perform(InitServeWriteRequest, s.data, e, io))
  {
    ThenComplete(s, e, io, ROW86);
    CompleteFromWriteRequest(Perform(InitServeWriteRequest, s.data, e, io), io);
  }

  function Arrived(s: Session, from: S.Endpoint, packet: Bytes): S.Data {
    s.data.(agreedRemote := from, received := packet)
  }

  predicate Listens(s: Session, from: S.Endpoint, packet: Bytes) {
    s.data.Valid() && s.phase.Accepting? && s.data.lastError.None? && Raises(s, Datagram(from, packet))
  }

  lemma PerformsRequest(d: S.Data, request: Request, io: S.Io)
    requires d.Valid()
    ensures Perform(InitServeReadRequest, d, RequestReceived(request), io)
            == S.InitServeReadRequest(d, request, io.lookup)
    ensures Perform(InitServeWriteRequest, d, RequestReceived(request), io)
            == S.InitServeWriteRequest(d, request, io.lookup)
  {
  }

  lemma OnReadRequest(s: Session, from: S.Endpoint, packet: Bytes, io: S.Io)
    requires Listens(s, from, packet) && OpCode(packet) == READ_REQUEST
    ensures Handle(s, Datagram(from, packet), io)
            == AfterReadRequest(S.InitServeReadRequest(Arrived(s, from, packet), ParseRequest(packet), io.lookup), io)
  {
    var d, request := Arrived(s, from, packet), ParseRequest(packet);
    MalformedMakesNoDifference(s, from, packet, io);
    ReadRequestIsProcessed(Session(Accepting, false, d), RequestReceived(request), io);
    PerformsRequest(d, request, io);
  }

  lemma OnWriteRequest(s: Session, from: S.Endpoint, packet: Bytes, io: S.Io)
    requires Listens(s, from, packet) && OpCode(packet) == WRITE_REQUEST
    ensures Handle(s, Datagram(from, packet), io)
            == AfterWriteRequest(S.InitServeWriteRequest(Arrived(s, from, packet), ParseRequest(packet), io.lookup))
  {
    var d, request := Arrived(s, from, packet), ParseRequest(packet);
    MalformedMakesNoDifference(s, from, packet, io);
    WriteRequestIsProcessed(Session(Accepting, false, d), RequestReceived(request), io);
    PerformsRequest(d, request, io);
  }

  lemma NoRowNoChange(s: Session, e: Event, io: S.Io)
    requires s.data.Valid() && IsStable(s.phase) && Select(s.phase, TriggerOf(e), s.data) == None
    ensures ProcessEvent(s, e, io) == Quiet(s)
  {
  }

  /** Any other datagram is dropped, and leaves the session with no receive outstanding. */
  lemma OnOtherDatagram(s: Session, from: S.Endpoint, packet: Bytes, io: S.Io)
    requires Listens(s, from, packet) && OpCode(packet) != READ_REQUEST && OpCode(packet) != WRITE_REQUEST
    ensures Handle(s, Datagram(from, packet), io) == Quiet(Session(Accepting, false, Arrived(s, from, packet)))
  {
    MalformedMakesNoDifference(s, from, packet, io);
    NoRowNoChange(Session(Accepting, false, Arrived(s, from, packet)), RequestReceived(ParseRequest(packet)), io);
  }
}
