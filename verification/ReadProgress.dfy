/** How read sessions end: the length of a run, progress, and the limit of sixteen-bit numbers. */
module ReadProgress {
  import opened Octets
  import opened RequestParser
  import opened Machine
  import opened Runs
  import opened StopAndWait
  import opened ReadSession
  import opened ReadRuns
  import opened Schedules
  import S = SessionData

  function SignalOf(o: Outcome, step: Step): Signal
    requires InSession(o.session) && Raises(o.session, step.input)
  {
    Classify(o.session, step.input, step.io)
  }

  // ---- The length of a run ----

  /** The packets of a run that change nothing: old acknowledgments and foreign packets. */
  function IgnoredIn(o: Outcome, steps: seq<Step>): nat
    requires Feasible(o, steps)
    decreases |steps|
  {
    if steps == [] then 0
    else (if IsIgnored(Abs(o.session), SignalOf(o, steps[0])) then 1 else 0)
         + IgnoredIn(Extend(o, steps[0]), steps[1..])
  }

  lemma ActiveStepLowersMeasure(s: Session, t: Transfer, signal: Signal, step: Outcome)
    requires ReadInv(s) && TransferOf(s.data) == t && Simulates(Abs(s), s.data, signal, step)
    ensures 0 <= Measure(Abs(step.session), LastBlock(t))
    ensures if IsIgnored(Abs(s), signal) then Abs(step.session) == Abs(s) && step.sent == []
            else Measure(Abs(step.session), LastBlock(t)) < Measure(Abs(s), LastBlock(t))
  {
    EverySignalCounts(Abs(s), signal, LastBlock(t));
  }

  lemma ActiveEventCounts(s: Session, t: Transfer, step: Step)
    requires ReadInv(s) && TransferOf(s.data) == t && Raises(s, step.input)
    ensures var next, signal := Handle(s, step.input, step.io), Classify(s, step.input, step.io);
            && 0 <= Measure(Abs(next.session), LastBlock(t))
            && if IsIgnored(Abs(s), signal) then Abs(next.session) == Abs(s) && next.sent == []
               else Measure(Abs(next.session), LastBlock(t)) < Measure(Abs(s), LastBlock(t))
  {
    ReadRefinesStopAndWait(s, step.input, step.io);
    ActiveStepLowersMeasure(s, t, Classify(s, step.input, step.io), Handle(s, step.input, step.io));
  }

  lemma StepLowersMeasure(o: Outcome, t: Transfer, counts: seq<nat>, step: Step)
    requires History(o, t, counts) && InSession(o.session) && Raises(o.session, step.input)
    ensures var a, b := Abs(o.session), Abs(Extend(o, step).session);
            && 0 <= Measure(b, LastBlock(t))
            && if IsIgnored(a, SignalOf(o, step)) then b == a && Extend(o, step).sent == o.sent
               else Measure(b, LastBlock(t)) < Measure(a, LastBlock(t))
  {
    if IsActive(o.session) {
      ActiveEventCounts(o.session, t, step);
      assert o.sent + [] == o.sent;
    } else {
      OnSendDone(o.session, step.io);
    }
  }

  /** A session handles no more than `Measure` events besides those it ignores. */
  lemma {:induction false} RunIsBounded(o: Outcome, t: Transfer, counts: seq<nat>, steps: seq<Step>)
    requires History(o, t, counts) && Feasible(o, steps)
    ensures |steps| - IgnoredIn(o, steps) <= Measure(Abs(o.session), LastBlock(t))
    decreases |steps|
  {
    if steps != [] {
      var next := HistoryAfterStep(o, t, counts, steps[0]);
      StepLowersMeasure(o, t, counts, steps[0]);
      RunIsBounded(Extend(o, steps[0]), t, next, steps[1..]);
    } else {
      MeasureIsBounded(o, t, counts);
    }
  }

  /** That is at most eight for each block, and nine more. */
  lemma MeasureIsBounded(o: Outcome, t: Transfer, counts: seq<nat>)
    requires History(o, t, counts)
    ensures 0 <= Measure(Abs(o.session), LastBlock(t)) <= 8 * LastBlock(t) + 9
  {
  }

  // ---- Progress ----

  /** A peer and a disk that cooperate: no error packet, no stray packet from the peer, no fourth
      timeout for a packet, no failing read. Loss, delay and foreign packets are allowed. */
  predicate CooperativeStep(o: Outcome, step: Step)
    requires InSession(o.session) && Raises(o.session, step.input)
  {
    var signal := SignalOf(o, step);
    && IsActive(o.session)
    && match signal
       case Sent => true
       case Acked(n, fault) => n <= o.session.data.lastSentBlock && !fault
       case Foreign => true
       case Timer => S.CanRetry(o.session.data)
       case _ => false
  }

  predicate Cooperative(o: Outcome, steps: seq<Step>)
    requires Feasible(o, steps)
    decreases |steps|
  {
    steps == [] || (CooperativeStep(o, steps[0]) && Cooperative(Extend(o, steps[0]), steps[1..]))
  }

  function ExactAcks(o: Outcome, steps: seq<Step>): nat
    requires Feasible(o, steps)
    decreases |steps|
  {
    if steps == [] then 0
    else (if IsExactAck(Abs(o.session), SignalOf(o, steps[0])) then 1 else 0)
         + ExactAcks(Extend(o, steps[0]), steps[1..])
  }

  lemma CooperativeStepAdvances(o: Outcome, t: Transfer, counts: seq<nat>, step: Step) returns (next: seq<nat>)
    requires History(o, t, counts) && InSession(o.session) && Raises(o.session, step.input)
    requires CooperativeStep(o, step)
    ensures History(Extend(o, step), t, next)
    ensures var k := o.session.data.lastSentBlock;
            if IsExactAck(Abs(o.session), SignalOf(o, step)) then
              if k < LastBlock(t) then
                IsActive(Extend(o, step).session) && Extend(o, step).session.data.lastSentBlock == k + 1
              else Extend(o, step).session.phase.Accepting? && next == counts && Extend(o, step).sent == o.sent
            else IsActive(Extend(o, step).session) && Extend(o, step).session.data.lastSentBlock == k
  {
    StepKeepsHistory(o, t, counts, step);
    next := CountsAfter(Abs(o.session), SignalOf(o, step), LastBlock(t), counts);
    ReadRefinesStopAndWait(o.session, step.input, step.io);
    assert o.sent + [] == o.sent;
  }

  /** Every exact acknowledgment moves the session on by one packet, and the one for the last block
      ends it. The session then has sent exactly the packets up to the last block. */
  lemma {:induction false} Progress(o: Outcome, t: Transfer, counts: seq<nat>, steps: seq<Step>)
    returns (final: seq<nat>)
    requires History(o, t, counts) && IsActive(o.session) && Feasible(o, steps) && Cooperative(o, steps)
    ensures History(RunFrom(o, steps), t, final)
    ensures var k, e, end := o.session.data.lastSentBlock, ExactAcks(o, steps), RunFrom(o, steps);
            && e <= LastBlock(t) - k + 1
            && if e <= LastBlock(t) - k then
                 IsActive(end.session) && end.session.data.lastSentBlock == k + e
               else
                 && end.session.phase.Accepting?
                 && FirstPacket(t) + |final| == LastBlock(t) + 1
                 && end.sent == Schedule(Packets(t), FirstPacket(t), final)
    decreases |steps|
  {
    final := counts;
    if steps != [] {
      var next := CooperativeStepAdvances(o, t, counts, steps[0]);
      if IsActive(Extend(o, steps[0]).session) {
        final := Progress(Extend(o, steps[0]), t, next, steps[1..]);
      } else {
        assert steps[1..] == [];
      }
    }
  }

  // ---- Sixteen bits ----

  /** The session ends because the last block has been acknowledged. */
  predicate IsFinalAck(o: Outcome, step: Step)
    requires InSession(o.session) && Raises(o.session, step.input)
  {
    && IsActive(o.session) && IsExactAck(Abs(o.session), SignalOf(o, step))
    && Extend(o, step).session.phase.Accepting?
  }

  predicate Finishes(o: Outcome, steps: seq<Step>)
    requires Feasible(o, steps)
    decreases |steps|
  {
    steps != [] && (IsFinalAck(o, steps[0]) || Finishes(Extend(o, steps[0]), steps[1..]))
  }

  lemma FinalAckIsForLastBlock(o: Outcome, t: Transfer, counts: seq<nat>, step: Step)
    requires History(o, t, counts) && InSession(o.session) && Raises(o.session, step.input)
    requires IsFinalAck(o, step)
    ensures o.session.data.lastSentBlock == LastBlock(t) <= MAX_WORD
    ensures FirstPacket(t) + |counts| == LastBlock(t) + 1
  {
    FinalAckIsOfLastBlock(o.session, step.input, step.io);
  }

  lemma {:induction false} FinishedFileFits(o: Outcome, t: Transfer, counts: seq<nat>, steps: seq<Step>)
    requires History(o, t, counts) && Feasible(o, steps) && Finishes(o, steps)
    ensures LastBlock(t) <= MAX_WORD
    decreases |steps|
  {
    if IsFinalAck(o, steps[0]) {
      FinalAckIsForLastBlock(o, t, counts, steps[0]);
    } else {
      var next := HistoryAfterStep(o, t, counts, steps[0]);
      FinishedFileFits(Extend(o, steps[0]), t, next, steps[1..]);
    }
  }

  const QUIET_IO := S.Io(S.Lookup(false, None, S.FailBit, []), S.ReadOk, S.WriteOk)

  /** The next step of the run without loss. */
  function LockStep(s: Session): Step
    requires s.data.Valid()
  {
    if s.phase.WaitingForAck?
    then Step(Datagram(s.data.agreedRemote, S.AckPacket(s.data.lastSentBlock)), QUIET_IO)
    else Step(SendDone, QUIET_IO)
  }

  lemma LockStepIsExact(o: Outcome, t: Transfer, counts: seq<nat>)
    requires History(o, t, counts) && IsActive(o.session) && o.session.data.lastSentBlock <= MAX_WORD
    ensures var step := LockStep(o.session);
            && Raises(o.session, step.input) && CooperativeStep(o, step)
            && (o.session.phase.WaitingForAck? ==> IsExactAck(Abs(o.session), SignalOf(o, step)))
            && (o.session.phase.SendingData? ==> Extend(o, step).session.phase.WaitingForAck?)
  {
    var k := o.session.data.lastSentBlock;
    HeaderRoundTrip(ACKNOWLEDGMENT, k, []);
    assert Header(ACKNOWLEDGMENT, k) + [] == Header(ACKNOWLEDGMENT, k);
    assert k % 65536 == k;
    if o.session.phase.SendingData? {
      OnSendDone(o.session, QUIET_IO);
    }
  }

  lemma {:induction false} FinishesInLockStep(o: Outcome, t: Transfer, counts: seq<nat>) returns (steps: seq<Step>)
    requires History(o, t, counts) && IsActive(o.session) && LastBlock(t) <= MAX_WORD
    ensures Feasible(o, steps) && Finishes(o, steps)
    decreases LastBlock(t) - o.session.data.lastSentBlock, o.session.phase.SendingData?
  {
    var step := LockStep(o.session);
    LockStepIsExact(o, t, counts);
    var next := CooperativeStepAdvances(o, t, counts, step);
    var rest := [];
    if IsActive(Extend(o, step).session) {
      rest := FinishesInLockStep(Extend(o, step), t, next);
    }
    steps := [step] + rest;
    assert steps[1..] == rest;
  }

  ghost predicate CanFinish(o: Outcome) {
    exists steps: seq<Step> :: Feasible(o, steps) && Finishes(o, steps)
  }

  /** A read session can be brought to its end by a final acknowledgment if and only if the file is
      shorter than 65535 blocks. */
  lemma FinishesIffFileFits(o: Outcome, t: Transfer, counts: seq<nat>)
    requires History(o, t, counts) && IsActive(o.session)
    ensures CanFinish(o) <==> |t.contents| < 65535 * t.blockSize
  {
    MoreBlocks(t, 65535);
    if LastBlock(t) <= MAX_WORD {
      var steps := FinishesInLockStep(o, t, counts);
    } else if CanFinish(o) {
      var steps: seq<Step> :| Feasible(o, steps) && Finishes(o, steps);
      FinishedFileFits(o, t, counts, steps);
    }
  }

  /** Block 65536 has gone out, or the session is over. */
  predicate IsGivingUp(s: Session) {
    if IsActive(s) then ReadInv(s) && s.data.lastSentBlock == MAX_WORD + 1
    else s.data.Valid() && (s.phase.SendingError? || s.phase.Accepting?)
  }

  /** Only resends are left of such a session. */
  function LeftToGiveUp(s: Session): int { Measure(Abs(s), MAX_WORD + 1) }

  lemma StuckSignal(s: Session, signal: Signal, next: Outcome)
    requires ReadInv(s) && s.data.lastSentBlock == MAX_WORD + 1 && Simulates(Abs(s), s.data, signal, next)
    requires signal.Acked? ==> signal.number <= MAX_WORD
    ensures IsGivingUp(next.session) && 0 <= LeftToGiveUp(next.session)
    ensures LeftToGiveUp(next.session) <= LeftToGiveUp(s) - if IsIgnored(Abs(s), signal) then 0 else 1
  {
    EverySignalCounts(Abs(s), signal, MAX_WORD + 1);
    OnlyExactAckAsksForMore(Abs(s), signal, MAX_WORD + 1, LastBlock(TransferOf(s.data)));
  }

  lemma StuckStep(s: Session, step: Step)
    requires ReadInv(s) && s.data.lastSentBlock == MAX_WORD + 1 && Raises(s, step.input)
    ensures var next, signal := Handle(s, step.input, step.io), Classify(s, step.input, step.io);
            && IsGivingUp(next.session) && !IsExactAck(Abs(s), signal)
            && 0 <= LeftToGiveUp(next.session)
            && LeftToGiveUp(next.session) <= LeftToGiveUp(s) - if IsIgnored(Abs(s), signal) then 0 else 1
  {
    ReadRefinesStopAndWait(s, step.input, step.io);
    StuckSignal(s, Classify(s, step.input, step.io), Handle(s, step.input, step.io));
  }

  /** A session that has sent block 65536 gives up: nothing acknowledges that block, so it is resent
      until the budget is used up, within nine events besides those ignored. */
  lemma {:induction false} Block65536IsGivenUp(o: Outcome, steps: seq<Step>)
    requires IsGivingUp(o.session) && Feasible(o, steps)
    ensures IsGivingUp(RunFrom(o, steps).session) && !Finishes(o, steps)
    ensures |steps| - IgnoredIn(o, steps) <= LeftToGiveUp(o.session) <= 9
    decreases |steps|
  {
    if steps != [] {
      if IsActive(o.session) {
        StuckStep(o.session, steps[0]);
      } else {
        OnSendDone(o.session, steps[0].io);
      }
      Block65536IsGivenUp(Extend(o, steps[0]), steps[1..]);
    }
  }

  // ---- From the request on ----

  /** A run in which every packet is acknowledged in time: after `e` exact acknowledgments the session
      is `e` packets on, and one more than there are packets has ended it, with exactly the packets of
      the transfer sent, each one to four times. */
  lemma RequestProgress(s: Session, from: S.Endpoint, packet: Bytes, io: S.Io, steps: seq<Step>)
    returns (counts: seq<nat>)
    requires ReadRequested(s, from, packet) && Handle(s, Datagram(from, packet), io).session.phase.SendingData?
    requires Feasible(Handle(s, Datagram(from, packet), io), steps)
    requires Cooperative(Handle(s, Datagram(from, packet), io), steps)
    ensures WellFormed(Requested(ParseRequest(packet), io.lookup, from))
    ensures var o, t := Handle(s, Datagram(from, packet), io), Requested(ParseRequest(packet), io.lookup, from);
            var e, end := ExactAcks(o, steps), RunFrom(o, steps);
            && FirstPacket(t) + e <= LastBlock(t) + 1
            && if FirstPacket(t) + e <= LastBlock(t) then
                 IsActive(end.session) && end.session.data.lastSentBlock == FirstPacket(t) + e
               else
                 && end.session.phase.Accepting? && WithinBudget(counts)
                 && FirstPacket(t) + |counts| == LastBlock(t) + 1
                 && end.sent == Schedule(Packets(t), FirstPacket(t), counts)
  {
    var o, t := Handle(s, Datagram(from, packet), io), Requested(ParseRequest(packet), io.lookup, from);
    ReadSessionStarts(s, from, packet, io);
    HistoryStarts(o, ParseRequest(packet), io, from);
    counts := Progress(o, t, [1], steps);
  }

  /** A read request that is answered with a packet of the transfer can be served to the end if and
      only if what the stream delivers is shorter than 65535 blocks of the agreed size. */
  lemma RequestIsServedIffFileFits(s: Session, from: S.Endpoint, packet: Bytes, io: S.Io)
    requires ReadRequested(s, from, packet) && Handle(s, Datagram(from, packet), io).session.phase.SendingData?
    ensures CanFinish(Handle(s, Datagram(from, packet), io)) <==>
              |Readable(io.lookup)| < 65535 * Requested(ParseRequest(packet), io.lookup, from).blockSize
  {
    ReadSessionStarts(s, from, packet, io);
    HistoryStarts(Handle(s, Datagram(from, packet), io), ParseRequest(packet), io, from);
    FinishesIffFileFits(Handle(s, Datagram(from, packet), io), Requested(ParseRequest(packet), io.lookup, from), [1]);
  }

  /** No run of a read session handles more than eight events a block, and nine, besides those that
      it ignores. */
  lemma EveryReadRunIsBounded(s: Session, from: S.Endpoint, packet: Bytes, io: S.Io, steps: seq<Step>)
    requires ReadRequested(s, from, packet) && Handle(s, Datagram(from, packet), io).session.phase.SendingData?
    requires Feasible(Handle(s, Datagram(from, packet), io), steps)
    ensures WellFormed(Requested(ParseRequest(packet), io.lookup, from))
    ensures |steps| - IgnoredIn(Handle(s, Datagram(from, packet), io), steps)
            <= 8 * LastBlock(Requested(ParseRequest(packet), io.lookup, from)) + 9
  {
    var o, t := Handle(s, Datagram(from, packet), io), Requested(ParseRequest(packet), io.lookup, from);
    ReadSessionStarts(s, from, packet, io);
    HistoryStarts(o, ParseRequest(packet), io, from);
    RunIsBounded(o, t, [1], steps);
    MeasureIsBounded(o, t, [1]);
  }
}
