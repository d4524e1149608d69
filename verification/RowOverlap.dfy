/** Where rows of the table overlap, and why the order among them does not show. */
module RowOverlap {
  import opened TransitionTable
  import opened Machine
  import S = SessionData

  /** Two different rows are enabled together in two situations only: a peer's ERROR while waiting
      for an acknowledgment, and a refused request that carries a usable option. */
  lemma OverlapIsRare(i: nat, j: nat, phase: Phase, on: Trigger, d: S.Data)
    requires i < j < |TABLE| && Enabled(TABLE[i], phase, on, d) && Enabled(TABLE[j], phase, on, d)
    ensures || (phase.WaitingForAck? && on.OnPacketReceived? && S.HasErrReceived(d) && TABLE[j] == ROW127)
            || (phase.ReadRequestReceived? && on.OnCompletion? && S.HasError(d) && S.HasOptions(d)
                && TABLE[i] == ROW117 && TABLE[j] == ROW118)
  {
    EnabledRowIs(i, phase, on, d);
    EnabledRowIs(j, phase, on, d);
    LineOfIndex(i);
    LineOfIndex(j);
  }

  lemma EnabledRowIs(j: nat, phase: Phase, on: Trigger, d: S.Data)
    requires j < |TABLE| && Enabled(TABLE[j], phase, on, d)
    ensures Select(phase, on, d).Some?
    ensures || TABLE[j] == Select(phase, on, d).value
            || (phase.WaitingForAck? && on.OnPacketReceived? && S.HasErrReceived(d)
                && TABLE[j] == if S.FromAgreedEndpoint(d) then ROW124 else ROW125)
            || (phase.ReadRequestReceived? && on.OnCompletion? && S.HasError(d) && S.HasOptions(d)
                && TABLE[j] == ROW117)
  {
    TableRows();
    WriteGuardsMean(d);
    ReadGuardsMean(d);
    AdvanceGuardsMean(d);
    HoldsNot(HasError, d);
    HoldsNot(CanRetry, d);
    assert j in {0, 1, 2, 3, 4, 5, 6, 7, 8, 9, 10, 11, 12, 13, 14, 15, 16, 17, 18, 19, 20, 21, 22, 23, 24, 25, 26};
  }

  /** In the second situation, either row leads to the same packet, and then to the same session. */
  lemma RefusalIsTheSame(d: S.Data, io: S.Io, io': S.Io)
    requires d.Valid() && S.HasError(d) && S.HasOptions(d)
    ensures var byOack := Complete(FireRow(ROW117, d, Completion, io).session, io);
            var byError := FireRow(ROW118, d, Completion, io);
            && FireRow(ROW117, d, Completion, io).sent == [] && byOack.sent == byError.sent
            && byOack.session.phase == byError.session.phase == SendingError
            && Raises(byOack.session, SendDone) && Raises(byError.session, SendDone)
            && Handle(byOack.session, SendDone, io') == Handle(byError.session, SendDone, io')
  {
    CompleteFromDataRead(S.FormOackPacket(d), io);
    OnSendDone(Complete(FireRow(ROW117, d, Completion, io).session, io).session, io');
    OnSendDone(FireRow(ROW118, d, Completion, io).session, io');
  }
}
