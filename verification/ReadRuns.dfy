/** Whole runs of a read session: the packets sent, the retries, the end. */
module ReadRuns {
  import opened Octets
  import opened RequestParser
  import opened Machine
  import opened Runs
  import opened StopAndWait
  import opened ReadSession
  import opened Schedules
  import S = SessionData

  // ---- What a session has sent ----

  function Packets(t: Transfer): nat -> Bytes { k => PacketNo(t, k) }

  predicate WithinBudget(counts: seq<nat>) {
    forall i :: 0 <= i < |counts| ==> 1 <= counts[i] <= 1 + S.MAX_RESENDS
  }

  predicate IsActive(s: Session) { s.phase.SendingData? || s.phase.WaitingForAck? }

  predicate CountsFit(t: Transfer, counts: seq<nat>) {
    && WellFormed(t) && WithinBudget(counts)
    && 1 <= |counts| && FirstPacket(t) + |counts| - 1 <= LastBlock(t)
    && FirstPacket(t) + |counts| - 1 <= 65536
  }

  predicate ActiveHistory(o: Outcome, t: Transfer, counts: seq<nat>) {
    && ReadInv(o.session) && TransferOf(o.session.data) == t && counts != []
    && o.session.data.lastSentBlock == FirstPacket(t) + |counts| - 1
    && o.session.data.resendCount + 1 == counts[|counts| - 1]
    && o.sent == Schedule(Packets(t), FirstPacket(t), counts)
  }

  ghost predicate EndedHistory(o: Outcome, t: Transfer, counts: seq<nat>) {
    && (o.session.phase.SendingError? || o.session.phase.Accepting?) && o.session.data.Valid()
    && (|| o.sent == Schedule(Packets(t), FirstPacket(t), counts)
        || exists code: nat :: o.sent == Schedule(Packets(t), FirstPacket(t), counts) + [S.ErrorPacket(code)])
  }

  /** The history of a session: every packet up to the current one has gone out, in order, each at
      most four times with the same bytes; an error packet, if any, came last. */
  ghost predicate History(o: Outcome, t: Transfer, counts: seq<nat>) {
    && CountsFit(t, counts) && o.written == []
    && if IsActive(o.session) then ActiveHistory(o, t, counts) else EndedHistory(o, t, counts)
  }

  /** The packet counts after a step of the abstract sender. */
  function CountsAfter(a: Sender, signal: Signal, last: nat, counts: seq<nat>): seq<nat>
    requires Fits(a, signal) && counts != []
  {
    match Next(a, signal, last).1
    case Some(Packet(n)) =>
      if signal.Timer? then counts[|counts| - 1 := counts[|counts| - 1] + 1] else counts + [1]
    case _ => counts
  }

  lemma HistoryOnSilence(o: Outcome, t: Transfer, counts: seq<nat>, signal: Signal, step: Outcome)
    requires History(o, t, counts) && IsActive(o.session)
    requires Simulates(Abs(o.session), o.session.data, signal, step)
    requires Next(Abs(o.session), signal, LastBlock(t)).1.None?
    ensures History(Then(o, step), t, counts)
  {
    assert o.sent + [] == o.sent;
  }

  lemma HistoryOnError(o: Outcome, t: Transfer, counts: seq<nat>, step: Outcome, code: nat)
    requires History(o, t, counts) && IsActive(o.session)
    requires step.session.phase.SendingError? && step.session.data.Valid()
    requires step.sent == [S.ErrorPacket(code)] && step.written == []
    ensures History(Then(o, step), t, counts)
  {
  }

  /** A step that sent packet `n`, now the current one, for the `count`th time. */
  predicate SentPacket(step: Outcome, t: Transfer, n: nat, count: nat) {
    && step.session.phase.SendingData? && ReadInv(step.session) && TransferOf(step.session.data) == t
    && step.session.data.lastSentBlock == n && step.session.data.resendCount + 1 == count
    && step.sent == [Packets(t)(n)] && step.written == []
  }

  lemma HistoryOnResend(o: Outcome, t: Transfer, counts: seq<nat>, step: Outcome)
    requires CountsFit(t, counts) && ActiveHistory(o, t, counts) && o.written == []
    requires SentPacket(step, t, o.session.data.lastSentBlock, counts[|counts| - 1] + 1)
    ensures History(Then(o, step), t, counts[|counts| - 1 := counts[|counts| - 1] + 1])
  {
    OneMore(Packets(t), FirstPacket(t), counts);
  }

  lemma HistoryOnAdvance(o: Outcome, t: Transfer, counts: seq<nat>, step: Outcome)
    requires CountsFit(t, counts) && ActiveHistory(o, t, counts) && o.written == []
    requires o.session.data.lastSentBlock + 1 <= LastBlock(t) && o.session.data.lastSentBlock + 1 <= 65536
    requires SentPacket(step, t, o.session.data.lastSentBlock + 1, 1)
    ensures History(Then(o, step), t, counts + [1])
  {
    NextItem(Packets(t), FirstPacket(t), counts);
  }

  lemma PacketIsSent(s: Session, signal: Signal, step: Outcome)
    requires ReadInv(s) && Simulates(Abs(s), s.data, signal, step)
    requires Next(Abs(s), signal, LastBlock(TransferOf(s.data))).1.Some?
    requires Next(Abs(s), signal, LastBlock(TransferOf(s.data))).1.value.Packet?
    ensures var n := s.data.lastSentBlock; var t := TransferOf(s.data);
            if signal.Timer? then SentPacket(step, t, n, s.data.resendCount + 2)
            else signal == Acked(n, false) && n < LastBlock(t) && SentPacket(step, t, n + 1, 1)
  {
  }

  lemma HistoryOnPacket(o: Outcome, t: Transfer, counts: seq<nat>, signal: Signal, step: Outcome)
    requires History(o, t, counts) && IsActive(o.session)
    requires Simulates(Abs(o.session), o.session.data, signal, step)
    requires signal.Acked? ==> signal.number <= MAX_WORD
    requires Next(Abs(o.session), signal, LastBlock(t)).1.Some?
    requires Next(Abs(o.session), signal, LastBlock(t)).1.value.Packet?
    ensures History(Then(o, step), t, CountsAfter(Abs(o.session), signal, LastBlock(t), counts))
  {
    PacketIsSent(o.session, signal, step);
    if signal.Timer? {
      HistoryOnResend(o, t, counts, step);
    } else {
      HistoryOnAdvance(o, t, counts, step);
    }
  }

  /** Any outcome that the abstract sender accounts for keeps the history. */
  lemma HistoryGrows(o: Outcome, t: Transfer, counts: seq<nat>, signal: Signal, step: Outcome)
    requires History(o, t, counts) && IsActive(o.session)
    requires Simulates(Abs(o.session), o.session.data, signal, step)
    requires signal.Acked? ==> signal.number <= MAX_WORD
    ensures History(Then(o, step), t, CountsAfter(Abs(o.session), signal, LastBlock(t), counts))
  {
    match Next(Abs(o.session), signal, LastBlock(t)).1
    case None => HistoryOnSilence(o, t, counts, signal, step);
    case Some(Packet(_)) => HistoryOnPacket(o, t, counts, signal, step);
    case Some(IllegalOperation) => HistoryOnError(o, t, counts, step, 4);
    case Some(ReadFault) => HistoryOnError(o, t, counts, step, 3);
  }

  lemma StepKeepsHistory(o: Outcome, t: Transfer, counts: seq<nat>, step: Step)
    requires History(o, t, counts) && IsActive(o.session) && Raises(o.session, step.input)
    ensures var signal := Classify(o.session, step.input, step.io);
            Fits(Abs(o.session), signal)
            && History(Extend(o, step), t, CountsAfter(Abs(o.session), signal, LastBlock(t), counts))
  {
    ReadRefinesStopAndWait(o.session, step.input, step.io);
    HistoryGrows(o, t, counts, Classify(o.session, step.input, step.io), Handle(o.session, step.input, step.io));
  }

  lemma HistoryAfterError(o: Outcome, t: Transfer, counts: seq<nat>, step: Step)
    requires History(o, t, counts) && o.session.phase.SendingError? && Raises(o.session, step.input)
    ensures Extend(o, step).session == Idle(o.session.data)
    ensures History(Extend(o, step), t, counts)
  {
    OnSendDone(o.session, step.io);
    assert Extend(o, step).sent == o.sent && Extend(o, step).written == o.written;
  }

  lemma HistoryAfterStep(o: Outcome, t: Transfer, counts: seq<nat>, step: Step) returns (next: seq<nat>)
    requires History(o, t, counts) && InSession(o.session) && Raises(o.session, step.input)
    ensures History(Extend(o, step), t, next) && |counts| <= |next|
  {
    if IsActive(o.session) {
      StepKeepsHistory(o, t, counts, step);
      next := CountsAfter(Abs(o.session), Classify(o.session, step.input, step.io), LastBlock(t), counts);
    } else {
      HistoryAfterError(o, t, counts, step);
      next := counts;
    }
  }

  /** Every run of a session keeps the history, and only adds to it. */
  lemma {:induction false} RunKeepsHistory(o: Outcome, t: Transfer, counts: seq<nat>, steps: seq<Step>)
    returns (final: seq<nat>)
    requires History(o, t, counts) && Feasible(o, steps)
    ensures History(RunFrom(o, steps), t, final) && |counts| <= |final|
    decreases |steps|
  {
    final := counts;
    if steps != [] {
      var next := HistoryAfterStep(o, t, counts, steps[0]);
      final := RunKeepsHistory(Extend(o, steps[0]), t, next, steps[1..]);
    }
  }

  /** A session that was let in has sent its first packet once. */
  lemma HistoryStarts(o: Outcome, request: Request, io: S.Io, from: S.Endpoint)
    requires ReadStarted(o, request, io, from) && o.session.phase.SendingData?
    ensures History(o, Requested(request, io.lookup, from), [1])
  {
    var t := Requested(request, io.lookup, from);
    NextItem(Packets(t), FirstPacket(t), []);
    assert [] + [1] == [1];
  }

  // ---- Retries ----

  lemma WireNumber(t: Transfer, k: nat)
    requires k >= 1
    ensures OpCode(PacketNo(t, k)) == DATA && Word(PacketNo(t, k)) == k % 65536
  {
    HeaderRoundTrip(DATA, k, Block(t, k));
  }

  lemma TruncatedDiffer(i: nat, j: nat)
    requires 1 <= i < j <= 65536
    ensures i % 65536 != j % 65536
  {
  }

  /** No two DATA blocks of a session share a block number on the wire. */
  lemma WireNumbersDiffer(t: Transfer, i: nat, j: nat)
    requires 1 <= i < j <= 65536
    ensures Word(PacketNo(t, i)) != Word(PacketNo(t, j))
  {
    WireNumber(t, i);
    WireNumber(t, j);
    TruncatedDiffer(i, j);
  }

  lemma OackOpCode(t: Transfer)
    ensures OpCode(PacketNo(t, 0)) == OPTION_ACKNOWLEDGMENT
  {
    SplitWord(OPTION_ACKNOWLEDGMENT);
    var p := PacketNo(t, 0);
    assert p[..2] == WordBytes(OPTION_ACKNOWLEDGMENT);
    assert p[0] == p[..2][0] && p[1] == p[..2][1];
  }

  lemma PacketsDiffer(t: Transfer, first: nat, n: nat)
    requires first + n <= 65537
    ensures Distinct(Packets(t), first, n)
  {
    forall i, j | first <= i < first + n && first <= j < first + n && Packets(t)(i) == Packets(t)(j)
      ensures i == j
    {
      OackOpCode(t);
      if i >= 1 { WireNumber(t, i); }
      if j >= 1 { WireNumber(t, j); }
      if 1 <= i < j { WireNumbersDiffer(t, i, j); }
      if 1 <= j < i { WireNumbersDiffer(t, j, i); }
    }
  }

  lemma ErrorIsNoPacket(t: Transfer, code: nat, k: nat)
    ensures S.ErrorPacket(code) != PacketNo(t, k)
  {
    HeaderRoundTrip(ERROR, code, [NUL]);
    OackOpCode(t);
    if k >= 1 { WireNumber(t, k); }
  }

  lemma CountInHistory(t: Transfer, counts: seq<nat>, p: Bytes)
    requires CountsFit(t, counts)
    ensures multiset(Schedule(Packets(t), FirstPacket(t), counts))[p] <= 4
    ensures (forall k: nat :: Packets(t)(k) != p) ==> multiset(Schedule(Packets(t), FirstPacket(t), counts))[p] == 0
  {
    var packets, first := Packets(t), FirstPacket(t);
    PacketsDiffer(t, first, |counts|);
    if k :| first <= k < first + |counts| && packets(k) == p {
      CountInSchedule(packets, first, counts, k - first);
    } else {
      NotInSchedule(packets, first, counts, p);
    }
  }

  /** In one read session no packet goes out more than four times: resends are byte for byte the
      first send, and no later packet repeats an earlier one. */
  lemma AtMostFourTimes(o: Outcome, t: Transfer, counts: seq<nat>, p: Bytes)
    requires History(o, t, counts)
    ensures multiset(o.sent)[p] <= 4
  {
    CountInHistory(t, counts, p);
    var sent := Schedule(Packets(t), FirstPacket(t), counts);
    if o.sent != sent {
      var code: nat :| o.sent == sent + [S.ErrorPacket(code)];
      assert multiset(o.sent) == multiset(sent) + multiset{S.ErrorPacket(code)};
      if p == S.ErrorPacket(code) {
        forall k: nat ensures Packets(t)(k) != p {
          ErrorIsNoPacket(t, code, k);
        }
      }
    }
  }

  // ---- From the request on ----

  predicate ReadRequested(s: Session, from: S.Endpoint, packet: Bytes) {
    IsIdle(s) && s.data.Valid() && Raises(s, Datagram(from, packet)) && OpCode(packet) == READ_REQUEST
  }

  lemma ErrorRun(o: Outcome, steps: seq<Step>)
    requires o.session.phase.SendingError? && Feasible(o, steps)
    ensures RunFrom(o, steps).sent == o.sent && RunFrom(o, steps).written == o.written
  {
    if steps != [] {
      OnSendDone(o.session, steps[0].io);
      assert o.sent + [] == o.sent && o.written + [] == o.written;
    }
  }

  /** Whatever happens to a read session after its request, what it has sent is either one error
      packet, or its packets in order, each one to four times, and an error packet at most after
      them. */
  lemma EveryReadRun(s: Session, from: S.Endpoint, packet: Bytes, io: S.Io, steps: seq<Step>) returns (counts: seq<nat>)
    requires ReadRequested(s, from, packet) && Feasible(Handle(s, Datagram(from, packet), io), steps)
    ensures var end := RunFrom(Handle(s, Datagram(from, packet), io), steps);
            || (exists code: nat :: end.sent == [S.ErrorPacket(code)])
            || History(end, Requested(ParseRequest(packet), io.lookup, from), counts)
  {
    var o := Handle(s, Datagram(from, packet), io);
    var request := ParseRequest(packet);
    ReadSessionStarts(s, from, packet, io);
    if o.session.phase.SendingData? {
      HistoryStarts(o, request, io, from);
      counts := RunKeepsHistory(o, Requested(request, io.lookup, from), [1], steps);
    } else {
      ErrorRun(o, steps);
      counts := [];
      assert exists code: nat :: o.sent == [S.ErrorPacket(code)] by {
        assert o.sent == [S.ErrorPacket(S.RefusalCode(request))] || o.sent == [S.ErrorPacket(3)];
      }
    }
  }

  /** Whatever happens to a read session after its request, no packet goes out more than four times. */
  lemma NoPacketMoreThanFourTimes(s: Session, from: S.Endpoint, packet: Bytes, io: S.Io, steps: seq<Step>, p: Bytes)
    requires ReadRequested(s, from, packet) && Feasible(Handle(s, Datagram(from, packet), io), steps)
    ensures multiset(RunFrom(Handle(s, Datagram(from, packet), io), steps).sent)[p] <= 4
  {
    var counts := EveryReadRun(s, from, packet, io, steps);
    var end := RunFrom(Handle(s, Datagram(from, packet), io), steps);
    if code: nat :| end.sent == [S.ErrorPacket(code)] {
      assert multiset(end.sent) == multiset{S.ErrorPacket(code)};
    } else {
      AtMostFourTimes(end, Requested(ParseRequest(packet), io.lookup, from), counts, p);
    }
  }
}
