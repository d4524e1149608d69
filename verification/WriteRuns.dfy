/** Whole runs of a write session: the log of blocks, the acknowledgments, the retries. */
module WriteRuns {
  import opened Octets
  import opened Machine
  import opened Runs
  import opened Schedules
  import opened WriteSession
  import S = SessionData
  import R = ReadSession

  // ---- The log ----

  /** Numbers grow strictly, from 1 to 65535. */
  predicate LogOrdered(log: seq<Write>) {
    && (forall i :: 0 <= i < |log| ==> 1 <= log[i].block <= MAX_WORD)
    && (forall i, j :: 0 <= i < j < |log| ==> log[i].block < log[j].block)
  }

  function LastNumber(log: seq<Write>): nat {
    if log == [] then 0 else log[|log| - 1].block
  }

  function Contents(log: seq<Write>): Bytes {
    if log == [] then [] else Contents(log[..|log| - 1]) + log[|log| - 1].payload
  }

  lemma {:induction false} LogIsShort(log: seq<Write>)
    requires LogOrdered(log)
    ensures |log| <= LastNumber(log) <= MAX_WORD
  {
    if |log| > 1 {
      LogIsShort(log[..|log| - 1]);
    }
  }

  // ---- The history ----

  /** Acknowledgment 0 answers the request, acknowledgment `i` the `i`th block written. */
  function Acks(log: seq<Write>): nat -> Bytes {
    i => S.AckPacket(if 1 <= i <= |log| then log[i - 1].block else 0)
  }

  function Sum(counts: seq<nat>): nat {
    if counts == [] then 0 else Sum(counts[..|counts| - 1]) + counts[|counts| - 1]
  }

  predicate AtLeastOnce(counts: seq<nat>) { forall i :: 0 <= i < |counts| ==> counts[i] >= 1 }

  predicate Receiving(o: Outcome, counts: seq<nat>) {
    && WriteInv(o.session)
    && o.session.data.lastSavedBlock == LastNumber(o.written)
    && o.session.data.file.contents == Contents(o.written)
    && |counts| == |o.written| + 1 && AtLeastOnce(counts)
    && Sum(counts) == |counts| + o.session.data.resendCount
    && o.sent == Schedule(Acks(o.written), 0, counts)
  }

  /** While blocks are received, the file is the blocks written, in order; the packets sent are
      their acknowledgments, in order; and all resends of the session together are counted by
      `resendCount`. */
  predicate WriteHistory(o: Outcome, counts: seq<nat>) {
    && LogOrdered(o.written)
    && match o.session.phase
       case SendingAck => Receiving(o, counts)
       case WaitingForData => Receiving(o, counts)
       case SendingData =>
         DivertedInv(o.session) && o.session.data.lastSavedBlock == LastNumber(o.written)
         && o.session.data.file.contents == Contents(o.written)
       case WaitingForAck =>
         DivertedInv(o.session) && o.session.data.lastSavedBlock == LastNumber(o.written)
         && o.session.data.file.contents == Contents(o.written)
       case SendingError =>
         o.session.armed && o.session.data.Valid() && Contents(o.written) <= o.session.data.file.contents
       case Accepting => o.session.data.Valid()
       case _ => false
  }

  lemma {:induction false} SameItems<T>(item: nat -> T, other: nat -> T, first: nat, counts: seq<nat>)
    requires forall k :: first <= k < first + |counts| ==> item(k) == other(k)
    ensures Schedule(item, first, counts) == Schedule(other, first, counts)
  {
    if counts != [] {
      SameItems(item, other, first, counts[..|counts| - 1]);
    }
  }

  lemma SumUpdates(counts: seq<nat>)
    ensures Sum(counts + [1]) == Sum(counts) + 1
    ensures counts != [] ==> Sum(counts[|counts| - 1 := counts[|counts| - 1] + 1]) == Sum(counts) + 1
  {
    assert (counts + [1])[..|counts|] == counts;
    if counts != [] {
      var n := |counts| - 1;
      assert counts[n := counts[n] + 1][..n] == counts[..n];
    }
  }

  lemma LogGrows(log: seq<Write>, w: Write)
    requires LogOrdered(log) && LastNumber(log) < w.block <= MAX_WORD
    ensures LogOrdered(log + [w]) && LastNumber(log + [w]) == w.block
    ensures Contents(log + [w]) == Contents(log) + w.payload
  {
    assert (log + [w])[..|log|] == log;
  }

  lemma BlockReceived(o: Outcome, counts: seq<nat>, packet: Bytes, step: Outcome)
    requires LogOrdered(o.written) && Receiving(o, counts) && IsDataPacket(packet)
    requires Word(packet) > o.session.data.lastSavedBlock && Saved(o.session.data, packet, step)
    ensures WriteHistory(Then(o, step), counts + [1])
  {
    var w := Write(Word(packet), S.Payload(packet));
    var log := o.written + [w];
    LogGrows(o.written, w);
    SumUpdates(counts);
    SameItems(Acks(o.written), Acks(log), 0, counts);
    NextItem(Acks(log), 0, counts);
    assert Acks(log)(|counts|) == S.AckPacket(w.block);
  }

  lemma AckResent(o: Outcome, counts: seq<nat>)
    requires LogOrdered(o.written) && Receiving(o, counts) && o.session.phase.WaitingForData?
             && S.CanRetry(o.session.data)
    ensures WriteHistory(Then(o, AfterExpired(o.session)), counts[|counts| - 1 := counts[|counts| - 1] + 1])
  {
    ResendAck(o.session);
    SumUpdates(counts);
    OneMore(Acks(o.written), 0, counts);
    assert Acks(o.written)(|counts| - 1) == S.AckPacket(o.session.data.lastSavedBlock);
    assert o.written + [] == o.written;
  }

  lemma QuietStep(o: Outcome, counts: seq<nat>, step: Outcome)
    requires WriteHistory(o, counts) && step.written == []
    requires IsReceiving(step.session) ==>
               IsReceiving(o.session) && step.session == To(step.session.phase, o.session.data) && step.sent == []
    requires IsDiverted(step.session) ==>
               !o.session.phase.SendingError? && !o.session.phase.Accepting?
               && DivertedInv(step.session) && SameProgress(o.session.data, step.session.data)
    requires step.session.phase.SendingError? ==>
               step.session.armed && step.session.data.Valid()
               && o.session.data.file.contents <= step.session.data.file.contents && !o.session.phase.Accepting?
    requires IsStable(step.session.phase) && step.session.data.Valid()
    ensures WriteHistory(Then(o, step), counts)
  {
    assert o.written + [] == o.written && o.sent + [] == o.sent;
  }

  lemma DatagramStep(o: Outcome, counts: seq<nat>, from: S.Endpoint, packet: Bytes, io: S.Io) returns (next: seq<nat>)
    requires WriteHistory(o, counts) && o.session.phase.WaitingForData? && Raises(o.session, Datagram(from, packet))
    ensures WriteHistory(Then(o, Handle(o.session, Datagram(from, packet), io)), next) && |counts| <= |next|
  {
    var step := Handle(o.session, Datagram(from, packet), io);
    WaitForData(o.session, from, packet, io);
    if step.written != [] {
      BlockReceived(o, counts, packet, step);
      next := counts + [1];
    } else {
      QuietStep(o, counts, step);
      next := counts;
    }
  }

  lemma DivertedHistoryStep(o: Outcome, counts: seq<nat>, step: Step)
    requires WriteHistory(o, counts) && IsDiverted(o.session) && Raises(o.session, step.input)
    ensures WriteHistory(Extend(o, step), counts)
  {
    DivertedStays(o.session, step.input, step.io);
    QuietStep(o, counts, Handle(o.session, step.input, step.io));
  }

  lemma SendDoneStep(o: Outcome, counts: seq<nat>, io: S.Io)
    requires WriteHistory(o, counts) && !IsDiverted(o.session) && Raises(o.session, SendDone)
    ensures WriteHistory(Extend(o, Step(SendDone, io)), counts)
  {
    OnSendDone(o.session, io);
    QuietStep(o, counts, AfterSendDone(o.session));
  }

  lemma TimerStep(o: Outcome, counts: seq<nat>, io: S.Io) returns (next: seq<nat>)
    requires WriteHistory(o, counts) && !IsDiverted(o.session) && Raises(o.session, Expired)
    ensures WriteHistory(Extend(o, Step(Expired, io)), next) && |counts| <= |next|
  {
    next := counts;
    OnExpired(o.session, io);
    ResendAck(o.session);
    if S.CanRetry(o.session.data) {
      AckResent(o, counts);
      next := counts[|counts| - 1 := counts[|counts| - 1] + 1];
    } else {
      QuietStep(o, counts, AfterExpired(o.session));
    }
  }

  lemma WriteStep(o: Outcome, counts: seq<nat>, step: Step) returns (next: seq<nat>)
    requires WriteHistory(o, counts) && InSession(o.session) && Raises(o.session, step.input)
    ensures WriteHistory(Extend(o, step), next) && |counts| <= |next|
  {
    next := counts;
    if IsDiverted(o.session) {
      DivertedHistoryStep(o, counts, step);
    } else {
      match step.input
      case SendDone => SendDoneStep(o, counts, step.io);
      case Expired => next := TimerStep(o, counts, step.io);
      case Datagram(from, packet) => next := DatagramStep(o, counts, from, packet, step.io);
    }
  }

  /** Every run of a write session keeps the history. */
  lemma {:induction false} WriteRun(o: Outcome, counts: seq<nat>, steps: seq<Step>) returns (final: seq<nat>)
    requires WriteHistory(o, counts) && Feasible(o, steps)
    ensures WriteHistory(RunFrom(o, steps), final) && |counts| <= |final|
    decreases |steps|
  {
    final := counts;
    if steps != [] {
      var next := WriteStep(o, counts, steps[0]);
      final := WriteRun(Extend(o, steps[0]), next, steps[1..]);
    }
  }

  /** A write session resends no more than three times in all, for nothing on its way gives the
      retries back. */
  lemma AtMostThreeResends(o: Outcome, counts: seq<nat>)
    requires WriteHistory(o, counts) && IsReceiving(o.session)
    ensures |o.sent| == 1 + |o.written| + o.session.data.resendCount <= |o.written| + 4
  {
    ScheduleLength(Acks(o.written), 0, counts);
  }

  lemma {:induction false} ScheduleLength<T>(item: nat -> T, first: nat, counts: seq<nat>)
    ensures |Schedule(item, first, counts)| == Sum(counts)
  {
    if counts != [] {
      ScheduleLength(item, first, counts[..|counts| - 1]);
    }
  }

  // ---- After row 93 ----

  /** Once diverted, a session writes nothing more. */
  lemma {:induction false} NothingWrittenOnceDiverted(o: Outcome, counts: seq<nat>, steps: seq<Step>)
    requires WriteHistory(o, counts) && !IsReceiving(o.session) && Feasible(o, steps)
    ensures RunFrom(o, steps).written == o.written && !IsReceiving(RunFrom(o, steps).session)
    decreases |steps|
  {
    if steps != [] {
      var next := WriteStep(o, counts, steps[0]);
      if IsDiverted(o.session) {
        DivertedStays(o.session, steps[0].input, steps[0].io);
      } else {
        OnSendDone(o.session, steps[0].io);
      }
      assert o.written + [] == o.written;
      NothingWrittenOnceDiverted(Extend(o, steps[0]), next, steps[1..]);
    }
  }

  // ---- Termination ----

  function WriteMeasure(s: Session): int {
    2 * (MAX_WORD - s.data.lastSavedBlock) + 2 * (S.MAX_RESENDS - s.data.resendCount)
    + (if s.phase.SendingAck? then 1 else 0)
  }

  /** Every event of a session that receives blocks lowers the measure, or ends the receiving. */
  lemma WriteStepLowersMeasure(s: Session, step: Step)
    requires WriteInv(s) && Raises(s, step.input)
    ensures var t := Handle(s, step.input, step.io).session;
            IsReceiving(t) ==> WriteInv(t) && 0 <= WriteMeasure(t) < WriteMeasure(s)
  {
    match step.input
    case SendDone => OnSendDone(s, step.io);
    case Expired =>
      OnExpired(s, step.io);
      ResendAck(s);
    case Datagram(from, packet) => WaitForData(s, from, packet, step.io);
  }

  /** While blocks are received, a run has no more than 131077 events. */
  lemma {:induction false} ReceivingIsBounded(o: Outcome, counts: seq<nat>, steps: seq<Step>)
    requires WriteHistory(o, counts) && IsReceiving(o.session) && Feasible(o, steps)
    requires IsReceiving(RunFrom(o, steps).session)
    ensures |steps| <= WriteMeasure(o.session) <= 131077
    decreases |steps|
  {
    LogIsShort(o.written);
    if steps != [] {
      var next := WriteStep(o, counts, steps[0]);
      WriteStepLowersMeasure(o.session, steps[0]);
      if IsReceiving(Extend(o, steps[0]).session) {
        ReceivingIsBounded(Extend(o, steps[0]), next, steps[1..]);
      } else {
        NothingWrittenOnceDiverted(Extend(o, steps[0]), next, steps[1..]);
      }
    }
  }

  /** A session that was let in begins with one acknowledgment of block 0 and an empty log. */
  lemma WriteHistoryStarts(o: Outcome)
    requires o.session.phase.SendingAck? && WriteInv(o.session)
    requires o.session.data.lastSavedBlock == 0 && o.session.data.resendCount == 0 && o.session.data.file.contents == []
    requires o.sent == [S.AckPacket(0)] && o.written == []
    ensures WriteHistory(o, [1])
  {
    NextItem(Acks([]), 0, []);
    assert [] + [1] == [1];
    SumUpdates([]);
  }

  /** A write session does not end with its last block: from the state that receives blocks, the
      only way back to listening is the fourth timeout. */
  lemma ReceivingEndsByTimeout(s: Session, step: Step)
    requires WriteInv(s) && Raises(s, step.input)
    ensures Handle(s, step.input, step.io).session.phase.Accepting? <==>
              step.input.Expired? && s.data.resendCount == S.MAX_RESENDS
  {
    match step.input
    case SendDone => OnSendDone(s, step.io);
    case Expired => OnExpired(s, step.io);
    case Datagram(from, packet) => WaitForData(s, from, packet, step.io);
  }

  // ---- The length of a whole session ----

  /** After row 93, packets of other endpoints and old acknowledgments change nothing. */
  predicate IsPassedOver(s: Session, input: Input) {
    && s.phase.WaitingForAck? && input.Datagram? && !IsErrorPacket(input.packet)
    && (|| input.from != s.data.agreedRemote
        || (IsAckPacket(input.packet) && Word(input.packet) < s.data.lastSentBlock))
  }

  /** What is left of the receiving, or after row 93 of the one empty block and its resends. */
  function SessionMeasure(s: Session): int {
    if IsReceiving(s) then 18 + WriteMeasure(s)
    else if IsDiverted(s) then
      2 + 8 * (1 - s.data.lastSentBlock) + 2 * (S.MAX_RESENDS - s.data.resendCount)
      + (if s.phase.SendingData? then 1 else 0)
    else if s.phase.SendingError? then 1 else 0
  }

  predicate Counts(s: Session, input: Input, o: Outcome) {
    if IsPassedOver(s, input) then SessionMeasure(o.session) == SessionMeasure(s) && o.sent == []
    else 0 <= SessionMeasure(o.session) < SessionMeasure(s)
  }

  lemma DivertedDatagramCounts(s: Session, from: S.Endpoint, packet: Bytes, io: S.Io)
    requires DivertedInv(s) && s.phase.WaitingForAck? && Raises(s, Datagram(from, packet))
    ensures Counts(s, Datagram(from, packet), AfterAckWait(s, from, packet, io))
  {
    var d := s.data.(lastRemote := from, received := packet);
    Retouched(s.data, packet, from, s.data.resendCount);
    if d.lastSentBlock == 0 {
      EmptyBlockIsNext(d, io);
    }
  }

  lemma DivertedStepCounts(s: Session, step: Step)
    requires DivertedInv(s) && Raises(s, step.input)
    ensures Counts(s, step.input, Handle(s, step.input, step.io))
  {
    match step.input
    case SendDone => OnSendDone(s, step.io);
    case Expired => OnExpired(s, step.io);
    case Datagram(from, packet) =>
      OnAckWait(s, from, packet, step.io);
      DivertedDatagramCounts(s, from, packet, step.io);
  }

  lemma ReceivingStepCounts(s: Session, step: Step)
    requires WriteInv(s) && Raises(s, step.input)
    ensures Counts(s, step.input, Handle(s, step.input, step.io))
  {
    WriteStepLowersMeasure(s, step);
    match step.input
    case SendDone => OnSendDone(s, step.io);
    case Expired => OnExpired(s, step.io);
    case Datagram(from, packet) => WaitForData(s, from, packet, step.io);
  }

  lemma WriteSessionStepCounts(o: Outcome, counts: seq<nat>, step: Step)
    requires WriteHistory(o, counts) && InSession(o.session) && Raises(o.session, step.input)
    ensures Counts(o.session, step.input, Handle(o.session, step.input, step.io))
  {
    if IsReceiving(o.session) {
      ReceivingStepCounts(o.session, step);
    } else if IsDiverted(o.session) {
      DivertedStepCounts(o.session, step);
    } else {
      OnSendDone(o.session, step.io);
    }
  }

  function PassedOverIn(o: Outcome, steps: seq<Step>): nat
    requires Feasible(o, steps)
    decreases |steps|
  {
    if steps == [] then 0
    else (if IsPassedOver(o.session, steps[0].input) then 1 else 0) + PassedOverIn(Extend(o, steps[0]), steps[1..])
  }

  /** A write session handles no more than `SessionMeasure` events besides those it passes over. */
  lemma {:induction false} WriteSessionIsBounded(o: Outcome, counts: seq<nat>, steps: seq<Step>)
    requires WriteHistory(o, counts) && Feasible(o, steps)
    ensures |steps| - PassedOverIn(o, steps) <= SessionMeasure(o.session)
    decreases |steps|
  {
    if steps != [] {
      var next := WriteStep(o, counts, steps[0]);
      WriteSessionStepCounts(o, counts, steps[0]);
      WriteSessionIsBounded(Extend(o, steps[0]), next, steps[1..]);
    } else {
      MeasureIsPositive(o, counts);
    }
  }

  lemma MeasureIsPositive(o: Outcome, counts: seq<nat>)
    requires WriteHistory(o, counts)
    ensures 0 <= SessionMeasure(o.session) <= 131095
  {
  }

  // ---- From the request on ----

  lemma ErrorRun(o: Outcome, steps: seq<Step>)
    requires o.session.phase.SendingError? && Feasible(o, steps)
    ensures RunFrom(o, steps).written == o.written && !IsReceiving(RunFrom(o, steps).session)
  {
    if steps != [] {
      OnSendDone(o.session, steps[0].io);
      assert o.written + [] == o.written;
    }
  }

  /** Whatever happens to a write session after its request, the numbers of the blocks it writes
      grow strictly, so no block is written twice and there are at most 65535 of them. While it
      receives blocks, the file is what was written, and beyond the acknowledgment of the request
      and of each block there are at most three packets more. */
  lemma EveryWriteRun(s: Session, from: S.Endpoint, packet: Bytes, io: S.Io, steps: seq<Step>)
    requires R.IsIdle(s) && s.data.Valid() && Raises(s, Datagram(from, packet)) && OpCode(packet) == WRITE_REQUEST
    requires Feasible(Handle(s, Datagram(from, packet), io), steps)
    ensures var end := RunFrom(Handle(s, Datagram(from, packet), io), steps);
            && LogOrdered(end.written) && |end.written| <= 65535
            && (IsReceiving(end.session) ==>
                  && end.session.data.file.contents == Contents(end.written)
                  && |end.sent| == 1 + |end.written| + end.session.data.resendCount <= |end.written| + 4)
  {
    var o := Handle(s, Datagram(from, packet), io);
    WriteSessionStarts(s, from, packet, io);
    if o.session.phase.SendingAck? {
      WriteHistoryStarts(o);
      var counts := WriteRun(o, [1], steps);
      var end := RunFrom(o, steps);
      LogIsShort(end.written);
      if IsReceiving(end.session) {
        AtMostThreeResends(end, counts);
      }
    } else {
      ErrorRun(o, steps);
    }
  }

  /** No write session handles more than 131095 events, diverted or not, besides those that it passes
      over after row 93. */
  lemma EveryWriteRunIsBounded(s: Session, from: S.Endpoint, packet: Bytes, io: S.Io, steps: seq<Step>)
    requires R.IsIdle(s) && s.data.Valid() && Raises(s, Datagram(from, packet)) && OpCode(packet) == WRITE_REQUEST
    requires Handle(s, Datagram(from, packet), io).session.phase.SendingAck?
    requires Feasible(Handle(s, Datagram(from, packet), io), steps)
    ensures |steps| - PassedOverIn(Handle(s, Datagram(from, packet), io), steps) <= 131095
  {
    var o := Handle(s, Datagram(from, packet), io);
    WriteSessionStarts(s, from, packet, io);
    WriteHistoryStarts(o);
    WriteSessionIsBounded(o, [1], steps);
    MeasureIsPositive(o, [1]);
  }
}
