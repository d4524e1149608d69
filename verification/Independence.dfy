/** What a session leaves behind. The file size and the time out survive a reset. Neither shows in a
    packet or a write of a later session, but the time out shows in how long the later session waits. */
module Independence {
  import opened Octets
  import opened Options
  import opened Tokenizer
  import opened Oack
  import opened RequestParser
  import opened TransitionTable
  import opened Machine
  import opened Runs
  import opened Reachability
  import S = SessionData
  import R = ReadSession

  /** Equal but for a file size and a time out that no acknowledgment will name. */
  predicate Alike(d: S.Data, e: S.Data) {
    && e == d.(fileSize := e.fileSize, timeOut := e.timeOut)
    && (d.useTransferSize ==> d.fileSize == e.fileSize)
    && (d.useTimeOut ==> d.timeOut == e.timeOut)
  }

  predicate SessionsAlike(s: Session, t: Session) {
    s.phase == t.phase && s.armed == t.armed && Alike(s.data, t.data)
  }

  /** The same packets sent and the same blocks written, and sessions that stay alike. */
  predicate OutcomesAlike(o: Outcome, p: Outcome) {
    SessionsAlike(o.session, p.session) && o.sent == p.sent && o.written == p.written
  }

  lemma SelectAlike(phase: Phase, on: Trigger, d: S.Data, e: S.Data)
    requires Alike(d, e)
    ensures Select(phase, on, d) == Select(phase, on, e)
  {
  }

  lemma OpenAlike(d: S.Data, e: S.Data, request: Request, lookup: S.Lookup)
    requires d.Valid() && e.Valid() && Alike(d, e)
    ensures Alike(S.OpenForRead(d, request, lookup), S.OpenForRead(e, request, lookup))
  {
  }

  lemma TimeOutAlike(d: S.Data, e: S.Data, value: Bytes)
    requires d.Valid() && e.Valid() && Alike(d, e)
    ensures Alike(S.AgreeTimeOut(d, value), S.AgreeTimeOut(e, value))
  {
  }

  lemma ReadRequestAlike(d: S.Data, e: S.Data, request: Request, lookup: S.Lookup)
    requires d.Valid() && e.Valid() && Alike(d, e)
    ensures Alike(S.InitServeReadRequest(d, request, lookup), S.InitServeReadRequest(e, request, lookup))
  {
    OpenAlike(d, e, request, lookup);
    TimeOutAlike(S.OpenForRead(d, request, lookup), S.OpenForRead(e, request, lookup), request.timeOut);
  }

  lemma OackAlike(d: S.Data, e: S.Data)
    requires d.Valid() && e.Valid() && Alike(d, e) && S.HasOptions(d)
    ensures Alike(S.FormOackPacket(d), S.FormOackPacket(e))
  {
    assert d.AgreedOptions() == e.AgreedOptions();
  }

  lemma NextBlockAlike(d: S.Data, e: S.Data, outcome: S.ReadOutcome)
    requires d.Valid() && e.Valid() && Alike(d, e)
    ensures Alike(S.FormDataPacket(d, outcome), S.FormDataPacket(e, outcome))
  {
  }

  lemma WriteAlike(d: S.Data, e: S.Data, outcome: S.WriteOutcome)
    requires d.Valid() && e.Valid() && Alike(d, e) && HEADER_SIZE <= |d.received|
    ensures Alike(S.WriteData(d, outcome), S.WriteData(e, outcome))
  {
  }

  lemma WriteRequestAlike(d: S.Data, e: S.Data, request: Request, lookup: S.Lookup)
    requires d.Valid() && e.Valid() && Alike(d, e)
    ensures Alike(S.InitServeWriteRequest(d, request, lookup), S.InitServeWriteRequest(e, request, lookup))
  {
  }

  lemma ReplyAlike(d: S.Data, e: S.Data)
    requires d.Valid() && e.Valid() && Alike(d, e)
    ensures Alike(S.FormAckPacket(d), S.FormAckPacket(e))
    ensures Alike(S.FormErrorPacket(d), S.FormErrorPacket(e))
    ensures Alike(S.FormProtocolErrorPacket(d), S.FormProtocolErrorPacket(e))
  {
  }

  lemma ResetAlike(d: S.Data, e: S.Data)
    requires d.Valid() && e.Valid() && Alike(d, e)
    ensures Alike(S.ResetSession(d), S.ResetSession(e))
  {
  }

  lemma PerformAlike(action: Action, d: S.Data, e: S.Data, event: Event, io: S.Io)
    requires d.Valid() && e.Valid() && Alike(d, e) && ActionReady(action, d, event)
    ensures Alike(Perform(action, d, event, io), Perform(action, e, event, io))
  {
    match action
    case InitServeReadRequest => ReadRequestAlike(d, e, event.request, io.lookup);
    case FormOackPacket => OackAlike(d, e);
    case FormDataPacket => NextBlockAlike(d, e, io.read);
    case WriteData => WriteAlike(d, e, io.write);
    case _ => SimpleActionAlike(action, d, e, event, io);
  }

  lemma SimpleActionAlike(action: Action, d: S.Data, e: S.Data, event: Event, io: S.Io)
    requires d.Valid() && e.Valid() && Alike(d, e) && ActionReady(action, d, event)
    requires !action.InitServeReadRequest? && !action.FormOackPacket? && !action.FormDataPacket? && !action.WriteData?
    ensures Alike(Perform(action, d, event, io), Perform(action, e, event, io))
  {
    match action
    case InitServeWriteRequest => WriteRequestAlike(d, e, event.request, io.lookup);
    case FormAckPacket => ReplyAlike(d, e);
    case FormErrorPacket => ReplyAlike(d, e);
    case FormProtocolErrorPacket => ReplyAlike(d, e);
    case Reset => ResetAlike(d, e);
    case _ =>
  }

  lemma FireAlike(row: Row, d: S.Data, e: S.Data, event: Event, io: S.Io)
    requires d.Valid() && e.Valid() && Alike(d, e) && ActionReady(row.action, d, event)
    ensures OutcomesAlike(FireRow(row, d, event, io), FireRow(row, e, event, io))
  {
    PerformAlike(row.action, d, e, event, io);
  }

  lemma ThenAlike(o: Outcome, o': Outcome, p: Outcome, p': Outcome)
    requires OutcomesAlike(o, p) && OutcomesAlike(o', p')
    ensures OutcomesAlike(Then(o, o'), Then(p, p'))
  {
  }

  lemma {:induction false} CompleteAlike(s: Session, t: Session, io: S.Io)
    requires s.data.Valid() && t.data.Valid() && SessionsAlike(s, t)
    ensures OutcomesAlike(Complete(s, io), Complete(t, io))
    decreases Rank(s.phase)
  {
    SelectAlike(s.phase, OnCompletion, s.data, t.data);
    var found := Select(s.phase, OnCompletion, s.data);
    if found.Some? {
      UnfoldComplete(s, found.value, io);
      UnfoldComplete(t, found.value, io);
      var sFirst := FireRow(found.value, s.data, Completion, io);
      var tFirst := FireRow(found.value, t.data, Completion, io);
      FireAlike(found.value, s.data, t.data, Completion, io);
      CompleteAlike(sFirst.session, tFirst.session, io);
      ThenAlike(sFirst, Complete(sFirst.session, io), tFirst, Complete(tFirst.session, io));
    }
  }

  lemma ProcessAlike(s: Session, t: Session, event: Event, io: S.Io)
    requires s.data.Valid() && t.data.Valid() && IsStable(s.phase) && SessionsAlike(s, t)
    ensures OutcomesAlike(ProcessEvent(s, event, io), ProcessEvent(t, event, io))
  {
    SelectAlike(s.phase, TriggerOf(event), s.data, t.data);
    var found := Select(s.phase, TriggerOf(event), s.data);
    if found.Some? {
      SelectedActionIsReady(s.phase, event, s.data);
      FireAlike(found.value, s.data, t.data, event, io);
      CompleteAlike(FireRow(found.value, s.data, event, io).session,
                    FireRow(found.value, t.data, event, io).session, io);
    }
  }

  lemma HandleAlike(s: Session, t: Session, input: Input, io: S.Io)
    requires s.data.Valid() && t.data.Valid() && SessionsAlike(s, t) && Raises(s, input)
    ensures Raises(t, input) && OutcomesAlike(Handle(s, input, io), Handle(t, input, io))
  {
    var sIdle, tIdle := s.(armed := false), t.(armed := false);
    var sNone, tNone := sIdle.(data := s.data.(received := [])), tIdle.(data := t.data.(received := []));
    match input
    case AcceptError => ProcessAlike(sNone, tNone, AcceptingFailed, io);
    case SendDone => ProcessAlike(sIdle, tIdle, PacketSent, io);
    case Expired => ProcessAlike(sNone, tNone, TimedOut, io);
    case Datagram(from, packet) =>
      if s.phase.Accepting? {
        var sGot := sIdle.(data := s.data.(agreedRemote := from, received := packet));
        var tGot := tIdle.(data := t.data.(agreedRemote := from, received := packet));
        ProcessAlike(sGot, tGot, AcceptingFailed, io);
        var sFirst := if Malformed(packet) then ProcessEvent(sGot, AcceptingFailed, io) else Outcome(sGot, [], []);
        var tFirst := if Malformed(packet) then ProcessEvent(tGot, AcceptingFailed, io) else Outcome(tGot, [], []);
        ProcessAlike(sFirst.session, tFirst.session, RequestReceived(ParseRequest(packet)), io);
      } else {
        ProcessAlike(sIdle.(data := s.data.(lastRemote := from, received := packet)),
                     tIdle.(data := t.data.(lastRemote := from, received := packet)), PacketReceived, io);
      }
  }

  lemma {:induction false} RunsAlike(s: Session, t: Session, steps: seq<Step>)
    requires s.data.Valid() && t.data.Valid() && SessionsAlike(s, t) && Possible(s, steps)
    ensures Possible(t, steps) && OutcomesAlike(RunAll(s, steps), RunAll(t, steps))
    decreases |steps|
  {
    if steps != [] {
      HandleAlike(s, t, steps[0].input, steps[0].io);
      RunsAlike(Handle(s, steps[0].input, steps[0].io).session,
                Handle(t, steps[0].input, steps[0].io).session, steps[1..]);
    }
  }

  /** Whatever sessions a machine has been through, once it listens again it sends the same packets
      and writes the same blocks as a machine just started, if the same events happen. */
  lemma SessionsAreIndependent(before: seq<Step>, after: seq<Step>)
    requires Possible(Start(), before)
    requires var s := RunAll(Start(), before).session; s.phase.Accepting? && s.armed && Possible(s, after)
    ensures Possible(Start(), after)
    ensures var used := RunAll(RunAll(Start(), before).session, after);
            var unused := RunAll(Start(), after);
            used.sent == unused.sent && used.written == unused.written
  {
    StartKeepsInv();
    ReachableInv(Start(), before);
    RunsAlike(RunAll(Start(), before).session, Start(), after);
  }

  // ---- The time out shows in the waits ----

  /** The time out that a request settles, if it does. The options of a write request are passed over. */
  function SettledTimeOut(packet: Bytes): Option<nat>
    requires SHORT_HEADER_SIZE <= |packet|
  {
    if OpCode(packet) == READ_REQUEST then GetTimeOut(ParseRequest(packet).timeOut) else None
  }

  lemma InitSettlesTimeOut(d: S.Data, request: Request, lookup: S.Lookup)
    requires d.Valid()
    ensures var settled := GetTimeOut(request.timeOut);
            S.InitServeReadRequest(d, request, lookup).timeOut == if settled.Some? then settled.value else d.timeOut
  {
    assert S.OpenForRead(d, request, lookup).timeOut == d.timeOut;
  }

  lemma ReadRequestKeepsTimeOut(r: S.Data, io: S.Io)
    requires r.Valid()
    ensures AfterReadRequest(r, io).session.data.timeOut == r.timeOut
  {
    NextBlockKeepsTimeOut(r, io);
  }

  lemma NextBlockKeepsTimeOut(r: S.Data, io: S.Io)
    requires r.Valid()
    ensures NextBlock(r, io).session.data.timeOut == r.timeOut
  {
  }

  lemma WriteRequestKeepsTimeOut(d: S.Data, request: Request, lookup: S.Lookup)
    requires d.Valid()
    ensures AfterWriteRequest(S.InitServeWriteRequest(d, request, lookup)).session.data.timeOut == d.timeOut
  {
  }

  /** Even a refused request settles the time out. */
  lemma RequestSettlesTimeOut(s: Session, from: S.Endpoint, packet: Bytes, io: S.Io)
    requires Listens(s, from, packet) && OpCode(packet) in {READ_REQUEST, WRITE_REQUEST}
    ensures var settled := SettledTimeOut(packet);
            Handle(s, Datagram(from, packet), io).session.data.timeOut
            == if settled.Some? then settled.value else s.data.timeOut
  {
    var d, request := Arrived(s, from, packet), ParseRequest(packet);
    if OpCode(packet) == READ_REQUEST {
      OnReadRequest(s, from, packet, io);
      InitSettlesTimeOut(d, request, io.lookup);
      ReadRequestKeepsTimeOut(S.InitServeReadRequest(d, request, io.lookup), io);
    } else {
      OnWriteRequest(s, from, packet, io);
      WriteRequestKeepsTimeOut(d, request, io.lookup);
    }
  }

  lemma AckWaitKeepsTimeOut(s: Session, from: S.Endpoint, packet: Bytes, io: S.Io)
    requires s.data.Valid()
    ensures AfterAckWait(s, from, packet, io).session.data.timeOut == s.data.timeOut
  {
    NextBlockKeepsTimeOut(s.data.(lastRemote := from, received := packet), io);
  }

  lemma DataWaitKeepsTimeOut(s: Session, from: S.Endpoint, packet: Bytes, io: S.Io)
    requires s.data.Valid()
    ensures AfterDataWait(s, from, packet, io).session.data.timeOut == s.data.timeOut
  {
  }

  /** Nothing after the request changes it, and a reset does not either. */
  lemma SessionKeepsTimeOut(s: Session, input: Input, io: S.Io)
    requires InSession(s) && Raises(s, input)
    ensures Handle(s, input, io).session.data.timeOut == s.data.timeOut
  {
    match input
    case SendDone => OnSendDone(s, io);
    case Expired => OnExpired(s, io);
    case Datagram(from, packet) =>
      if s.phase.WaitingForAck? {
        OnAckWait(s, from, packet, io);
        AckWaitKeepsTimeOut(s, from, packet, io);
      } else {
        OnDataWait(s, from, packet, io);
        DataWaitKeepsTimeOut(s, from, packet, io);
      }
  }

  /** The waits that a run arms: one for each entry of a waiting state, as long as the time out. */
  function Waits(o: Outcome, steps: seq<Step>): seq<nat>
    requires Feasible(o, steps)
    decreases |steps|
  {
    if steps == [] then []
    else
      var next := Extend(o, steps[0]).session;
      (if IsWaiting(next.phase) then [next.data.timeOut] else []) + Waits(Extend(o, steps[0]), steps[1..])
  }

  predicate AllEqual(waits: seq<nat>, timeOut: nat) { forall i :: 0 <= i < |waits| ==> waits[i] == timeOut }

  lemma ExtendAlike(o: Outcome, p: Outcome, step: Step)
    requires InSession(o.session) && p.session.data.Valid() && SessionsAlike(o.session, p.session)
    requires Raises(o.session, step.input)
    ensures InSession(p.session) && Raises(p.session, step.input)
    ensures SessionsAlike(Extend(o, step).session, Extend(p, step).session)
    ensures Extend(o, step).session.data.timeOut == o.session.data.timeOut
    ensures Extend(p, step).session.data.timeOut == p.session.data.timeOut
  {
    HandleAlike(o.session, p.session, step.input, step.io);
    SessionKeepsTimeOut(o.session, step.input, step.io);
    SessionKeepsTimeOut(p.session, step.input, step.io);
  }

  /** Two sessions that are alike wait at the same points, each one with its own time out. */
  lemma {:induction false} WaitsOfSession(o: Outcome, p: Outcome, steps: seq<Step>)
    requires o.session.data.Valid() && p.session.data.Valid() && SessionsAlike(o.session, p.session)
    requires Feasible(o, steps)
    ensures Feasible(p, steps) && |Waits(o, steps)| == |Waits(p, steps)|
    ensures AllEqual(Waits(o, steps), o.session.data.timeOut) && AllEqual(Waits(p, steps), p.session.data.timeOut)
    decreases |steps|
  {
    if steps != [] {
      ExtendAlike(o, p, steps[0]);
      WaitsOfSession(Extend(o, steps[0]), Extend(p, steps[0]), steps[1..]);
    }
  }

  lemma EqualWaits(a: seq<nat>, b: seq<nat>, x: nat, y: nat)
    requires |a| == |b| && AllEqual(a, x) && AllEqual(b, y)
    ensures a == b <==> a == [] || x == y
  {
    if a == b && a != [] {
      assert a[0] == x && b[0] == y;
    }
  }

  /** A machine that listens again waits exactly as long as one just started, in a session that waits
      at all, if and only if it has the default time out or the request settles one. */
  lemma WaitsAreIndependentIff(s: Session, from: S.Endpoint, packet: Bytes, io: S.Io, steps: seq<Step>)
    requires R.IsIdle(s) && s.data.Valid() && Raises(s, Datagram(from, packet))
    requires OpCode(packet) in {READ_REQUEST, WRITE_REQUEST}
    requires Feasible(Handle(s, Datagram(from, packet), io), steps)
    ensures Raises(Start(), Datagram(from, packet)) && Feasible(Handle(Start(), Datagram(from, packet), io), steps)
    ensures var used := Waits(Handle(s, Datagram(from, packet), io), steps);
            var unused := Waits(Handle(Start(), Datagram(from, packet), io), steps);
            used == unused <==>
              used == [] || s.data.timeOut == S.DEFAULT_TIME_OUT || SettledTimeOut(packet).Some?
  {
    HandleAlike(s, Start(), Datagram(from, packet), io);
    RequestSettlesTimeOut(s, from, packet, io);
    RequestSettlesTimeOut(Start(), from, packet, io);
    var used, unused := Handle(s, Datagram(from, packet), io), Handle(Start(), Datagram(from, packet), io);
    WaitsOfSession(used, unused, steps);
    EqualWaits(Waits(used, steps), Waits(unused, steps), used.session.data.timeOut, unused.session.data.timeOut);
  }

  // ---- A session that does leave a trace ----

  /** A read request for file "f" in mode "octet" with a time out of 255 seconds. */
  const LONG_REQUEST: Bytes := EncodeRequest(READ_REQUEST, "f", "octet", [Pair(TIME_OUT_OPTION, Decimal(255))], [])

  const NO_FILE := S.Io(S.Lookup(false, None, S.FailBit, []), S.ReadOk, S.WriteOk)

  lemma LongRequestSettles()
    ensures OpCode(LONG_REQUEST) == READ_REQUEST && SettledTimeOut(LONG_REQUEST) == Some(1000 * 255)
  {
    var options := [Pair(TIME_OUT_OPTION, Decimal(255))];
    DecimalIsNulFree(255);
    DecimalDenotes(255);
    RequestRoundTrip(READ_REQUEST, "f", "octet", options, [], []);
    assert LONG_REQUEST + [] == LONG_REQUEST;
    OptionNames();
    LastValueConcat([], options, TIME_OUT_OPTION, []);
    assert [] + options == options;
    LongRequestOpCode();
  }

  lemma LongRequestOpCode()
    ensures OpCode(LONG_REQUEST) == READ_REQUEST
  {
    assert LONG_REQUEST[..2] == WordBytes(READ_REQUEST);
  }

  lemma LongRequestIsShort()
    ensures SHORT_HEADER_SIZE <= |LONG_REQUEST| <= 30
  {
    var value := Decimal(255);
    DecimalLength(255, 3);
    var pair := [TIME_OUT_OPTION, value];
    assert Flatten([Pair(TIME_OUT_OPTION, value)]) == pair;
    assert ["f", "octet"] + pair + [] == ["f"] + (["octet"] + ([TIME_OUT_OPTION] + [value]));
    JoinCons("f", ["octet"] + ([TIME_OUT_OPTION] + [value]));
    JoinCons("octet", [TIME_OUT_OPTION] + [value]);
    JoinCons(TIME_OUT_OPTION, [value]);
    JoinCons(value, []);
    assert [value] + [] == [value];
  }

  /** A machine just started that has refused this request listens again, with a time out of 255
      seconds where it had one of a second. */
  lemma RefusedRequestLeavesTimeOut(from: S.Endpoint)
    ensures Raises(Start(), Datagram(from, LONG_REQUEST))
    ensures var refused := Handle(Start(), Datagram(from, LONG_REQUEST), NO_FILE).session;
            && refused.phase.SendingError? && Raises(refused, SendDone)
            && var s := Handle(refused, SendDone, NO_FILE).session;
               R.IsIdle(s) && s.armed && s.data.timeOut == 255000 && Start().data.timeOut == 1000
  {
    LongRequestSettles();
    LongRequestIsShort();
    RequestSettlesTimeOut(Start(), from, LONG_REQUEST, NO_FILE);
    R.ReadSessionStarts(Start(), from, LONG_REQUEST, NO_FILE);
    OnSendDone(Handle(Start(), Datagram(from, LONG_REQUEST), NO_FILE).session, NO_FILE);
  }
}
