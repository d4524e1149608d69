/** The transition table, its rows in the order of the source, and the rule that picks a row. */
module TransitionTable {
  import opened Octets
  import opened RequestParser
  import S = SessionData

  datatype Phase =
    | Accepting | Resetted | SendingError
    | WriteRequestReceived | SendingAck | WaitingForData | DataWritten
    | ReadRequestReceived | DataRead | SendingData | WaitingForAck

  datatype Event =
    | Completion
    | RequestReceived(request: Request)
    | AcceptingFailed
    | PacketSent
    | PacketReceived
    | TimedOut

  datatype Trigger = OnCompletion | OnRequest | OnAcceptingFailed | OnPacketSent | OnPacketReceived | OnTimedOut

  function TriggerOf(e: Event): Trigger {
    match e
    case Completion => OnCompletion
    case RequestReceived(_) => OnRequest
    case AcceptingFailed => OnAcceptingFailed
    case PacketSent => OnPacketSent
    case PacketReceived => OnPacketReceived
    case TimedOut => OnTimedOut
  }

  // ---- Guards and their combinators ----

  datatype Guard =
    | Always
    | CanRetry | FromAgreedEndpoint | HasError | HasOptions
    | HasReadRequestReceived | HasWriteRequestReceived
    | HasAckReceived | HasDataReceived | HasErrReceived
    | HasMoreToSend | IsOldAck | IsOldData
    | And(left: Guard, right: Guard)
    | Or(left: Guard, right: Guard)
    | Not(inner: Guard)

  function And3(a: Guard, b: Guard, c: Guard): Guard { And(a, And(b, c)) }

  predicate Holds(g: Guard, d: S.Data) {
    match g
    case Always => true
    case CanRetry => S.CanRetry(d)
    case FromAgreedEndpoint => S.FromAgreedEndpoint(d)
    case HasError => S.HasError(d)
    case HasOptions => S.HasOptions(d)
    case HasReadRequestReceived => S.HasReadRequestReceived(d)
    case HasWriteRequestReceived => S.HasWriteRequestReceived(d)
    case HasAckReceived => S.HasAckReceived(d)
    case HasDataReceived => S.HasDataReceived(d)
    case HasErrReceived => S.HasErrReceived(d)
    case HasMoreToSend => S.HasMoreToSend(d)
    case IsOldAck => S.IsOldAck(d)
    case IsOldData => S.IsOldData(d)
    case And(l, r) => Holds(l, d) && Holds(r, d)
    case Or(l, r) => Holds(l, d) || Holds(r, d)
    case Not(inner) => !Holds(inner, d)
  }

  // ---- Rows ----

  datatype Action =
    | NoAction | Reset | TimeOut | ResetTimeOut
    | InitServeWriteRequest | InitServeReadRequest
    | FormAckPacket | FormErrorPacket | FormProtocolErrorPacket | FormDataPacket | FormOackPacket
    | WriteData

  datatype Row = Row(line: nat, source: Phase, on: Trigger, target: Phase, action: Action, guard: Guard)

  // A row carries the number of its line in the source table, and is named by it.
  const ROW69 := Row(69, SendingError, OnPacketSent, Resetted, Reset, Always)
  const ROW70 := Row(70, Resetted, OnCompletion, Accepting, NoAction, Always)
  const ROW71 := Row(71, Accepting, OnAcceptingFailed, Resetted, Reset, HasError)

  const ROW86 := Row(86, Accepting, OnRequest, WriteRequestReceived, InitServeWriteRequest,
    And(Not(HasError), HasWriteRequestReceived))
  const ROW87 := Row(87, WriteRequestReceived, OnCompletion, SendingAck, FormAckPacket, Not(HasError))
  const ROW88 := Row(88, WriteRequestReceived, OnCompletion, SendingError, FormErrorPacket, HasError)
  const ROW89 := Row(89, SendingAck, OnPacketSent, WaitingForData, NoAction, Always)
  const ROW90 := Row(90, WaitingForData, OnTimedOut, SendingAck, TimeOut, CanRetry)
  const ROW91 := Row(91, WaitingForData, OnTimedOut, Resetted, Reset, Not(CanRetry))
  const ROW92 := Row(92, WaitingForData, OnPacketReceived, SendingError, FormProtocolErrorPacket,
    And(FromAgreedEndpoint, Not(HasDataReceived)))
  const ROW93 := Row(93, WaitingForData, OnPacketReceived, WaitingForAck, NoAction,
    Or(Not(FromAgreedEndpoint), And(HasDataReceived, IsOldData)))
  const ROW94 := Row(94, WaitingForData, OnPacketReceived, DataWritten, WriteData,
    And3(FromAgreedEndpoint, HasDataReceived, Not(IsOldData)))
  const ROW95 := Row(95, DataWritten, OnCompletion, SendingAck, FormAckPacket, Not(HasError))
  const ROW96 := Row(96, DataWritten, OnCompletion, SendingError, FormErrorPacket, HasError)

  const HAS_FINAL_ACK_RECEIVED := And3(HasAckReceived, Not(IsOldAck), Not(HasMoreToSend))
  const HAS_INTERMEDIATE_ACK_RECEIVED := And3(HasAckReceived, Not(IsOldAck), HasMoreToSend)
  const HAS_OLD_ACK_RECEIVED := And(HasAckReceived, IsOldAck)

  const ROW115 := Row(115, Accepting, OnRequest, ReadRequestReceived, InitServeReadRequest,
    And(Not(HasError), HasReadRequestReceived))
  const ROW116 := Row(116, ReadRequestReceived, OnCompletion, DataRead, FormDataPacket, Not(Or(HasError, HasOptions)))
  const ROW117 := Row(117, ReadRequestReceived, OnCompletion, DataRead, FormOackPacket, HasOptions)
  const ROW118 := Row(118, ReadRequestReceived, OnCompletion, SendingError, FormErrorPacket, HasError)
  const ROW119 := Row(119, DataRead, OnCompletion, SendingData, ResetTimeOut, Not(HasError))
  const ROW120 := Row(120, DataRead, OnCompletion, SendingError, FormErrorPacket, HasError)
  const ROW121 := Row(121, SendingData, OnPacketSent, WaitingForAck, NoAction, Always)
  const ROW122 := Row(122, WaitingForAck, OnTimedOut, SendingData, TimeOut, CanRetry)
  const ROW123 := Row(123, WaitingForAck, OnTimedOut, Resetted, Reset, Not(CanRetry))
  const ROW124 := Row(124, WaitingForAck, OnPacketReceived, SendingError, FormProtocolErrorPacket,
    And(FromAgreedEndpoint, Not(HasAckReceived)))
  const ROW125 := Row(125, WaitingForAck, OnPacketReceived, WaitingForAck, NoAction,
    Or(Not(FromAgreedEndpoint), HAS_OLD_ACK_RECEIVED))
  const ROW126 := Row(126, WaitingForAck, OnPacketReceived, DataRead, FormDataPacket,
    And(FromAgreedEndpoint, HAS_INTERMEDIATE_ACK_RECEIVED))
  const ROW127 := Row(127, WaitingForAck, OnPacketReceived, Resetted, Reset,
    Or(HasErrReceived, And(FromAgreedEndpoint, HAS_FINAL_ACK_RECEIVED)))

  const COMMON_TABLE := [ROW69, ROW70, ROW71]
  const WRITE_TABLE := [ROW86, ROW87, ROW88, ROW89, ROW90, ROW91, ROW92, ROW93, ROW94, ROW95, ROW96]
  const READ_TABLE := [ROW115, ROW116, ROW117, ROW118, ROW119, ROW120,
    ROW121, ROW122, ROW123, ROW124, ROW125, ROW126, ROW127]
  const TABLE := COMMON_TABLE + (WRITE_TABLE + READ_TABLE)

  predicate Enabled(row: Row, phase: Phase, on: Trigger, d: S.Data) {
    row.source == phase && row.on == on && Holds(row.guard, d)
  }

  /** The dispatch rule: of the enabled rows, the last one in the table fires. */
  ghost predicate Fires(row: Row, phase: Phase, on: Trigger, d: S.Data) {
    exists i ::
      && 0 <= i < |TABLE| && TABLE[i] == row && Enabled(row, phase, on, d)
      && forall j :: i < j < |TABLE| ==> !Enabled(TABLE[j], phase, on, d)
  }

  ghost predicate NoneEnabled(phase: Phase, on: Trigger, d: S.Data) {
    forall i :: 0 <= i < |TABLE| ==> !Enabled(TABLE[i], phase, on, d)
  }

  // ---- The row that fires, state by state ----

  /** A decision procedure for the table: which row fires in which state on which event. */
  function Select(phase: Phase, on: Trigger, d: S.Data): Option<Row> {
    match (phase, on)
    case (Resetted, OnCompletion) => Some(ROW70)
    case (WriteRequestReceived, OnCompletion) => Some(if S.HasError(d) then ROW88 else ROW87)
    case (DataWritten, OnCompletion) => Some(if S.HasError(d) then ROW96 else ROW95)
    case (ReadRequestReceived, OnCompletion) =>
      Some(if S.HasError(d) then ROW118 else if S.HasOptions(d) then ROW117 else ROW116)
    case (DataRead, OnCompletion) => Some(if S.HasError(d) then ROW120 else ROW119)
    case (Accepting, OnAcceptingFailed) => if S.HasError(d) then Some(ROW71) else None
    case (Accepting, OnRequest) =>
      if S.HasError(d) then None
      else if S.HasReadRequestReceived(d) then Some(ROW115)
      else if S.HasWriteRequestReceived(d) then Some(ROW86)
      else None
    case (SendingError, OnPacketSent) => Some(ROW69)
    case (SendingAck, OnPacketSent) => Some(ROW89)
    case (SendingData, OnPacketSent) => Some(ROW121)
    case (WaitingForData, OnTimedOut) => Some(if S.CanRetry(d) then ROW90 else ROW91)
    case (WaitingForAck, OnTimedOut) => Some(if S.CanRetry(d) then ROW122 else ROW123)
    case (WaitingForData, OnPacketReceived) =>
      Some(if !S.FromAgreedEndpoint(d) then ROW93
           else if !S.HasDataReceived(d) then ROW92
           else if S.IsOldData(d) then ROW93 else ROW94)
    case (WaitingForAck, OnPacketReceived) =>
      Some(if S.HasErrReceived(d) then ROW127
           else if !S.FromAgreedEndpoint(d) then ROW125
           else if !S.HasAckReceived(d) then ROW124
           else if S.IsOldAck(d) then ROW125
           else if S.HasMoreToSend(d) then ROW126 else ROW127)
    case _ => None
  }

  lemma FiresIsUnique(a: Row, b: Row, phase: Phase, on: Trigger, d: S.Data)
    requires Fires(a, phase, on, d) && Fires(b, phase, on, d)
    ensures a == b
  {
  }

  lemma TableRows()
    ensures |TABLE| == 27
    ensures TABLE[0] == ROW69 && TABLE[1] == ROW70 && TABLE[2] == ROW71 && TABLE[3] == ROW86
    ensures TABLE[4] == ROW87 && TABLE[5] == ROW88 && TABLE[6] == ROW89 && TABLE[7] == ROW90
    ensures TABLE[8] == ROW91 && TABLE[9] == ROW92 && TABLE[10] == ROW93 && TABLE[11] == ROW94
    ensures TABLE[12] == ROW95 && TABLE[13] == ROW96 && TABLE[14] == ROW115 && TABLE[15] == ROW116
    ensures TABLE[16] == ROW117 && TABLE[17] == ROW118 && TABLE[18] == ROW119 && TABLE[19] == ROW120
    ensures TABLE[20] == ROW121 && TABLE[21] == ROW122 && TABLE[22] == ROW123 && TABLE[23] == ROW124
    ensures TABLE[24] == ROW125 && TABLE[25] == ROW126 && TABLE[26] == ROW127
  {
  }

  function IndexOfLine(line: nat): int {
    if line <= 71 then line - 69 else if line <= 96 then line - 83 else line - 101
  }

  lemma LineOfIndex(j: nat)
    requires j < |TABLE|
    ensures IndexOfLine(TABLE[j].line) == j
  {
    TableRows();
    assert j in {0, 1, 2, 3, 4, 5, 6, 7, 8, 9, 10, 11, 12, 13, 14, 15, 16, 17, 18, 19, 20, 21, 22, 23, 24, 25, 26};
  }

  lemma HoldsAnd3(a: Guard, b: Guard, c: Guard, d: S.Data)
    ensures Holds(And3(a, b, c), d) <==> Holds(a, d) && Holds(b, d) && Holds(c, d)
  {
    assert Holds(And(b, c), d) <==> Holds(b, d) && Holds(c, d);
  }

  lemma HoldsNot(g: Guard, d: S.Data)
    ensures Holds(Not(g), d) <==> !Holds(g, d)
  {
  }

  lemma WriteGuardsMean(d: S.Data)
    ensures Holds(ROW86.guard, d) <==> !S.HasError(d) && S.HasWriteRequestReceived(d)
    ensures Holds(ROW92.guard, d) <==> S.FromAgreedEndpoint(d) && !S.HasDataReceived(d)
    ensures Holds(ROW93.guard, d) <==> !S.FromAgreedEndpoint(d) || (S.HasDataReceived(d) && S.IsOldData(d))
    ensures Holds(ROW94.guard, d) <==> S.FromAgreedEndpoint(d) && S.HasDataReceived(d) && !S.IsOldData(d)
  {
    HoldsNot(HasError, d);
    HoldsNot(HasDataReceived, d);
    HoldsNot(FromAgreedEndpoint, d);
    HoldsNot(IsOldData, d);
    HoldsAnd3(FromAgreedEndpoint, HasDataReceived, Not(IsOldData), d);
  }

  lemma AckGuardsMean(d: S.Data)
    ensures Holds(HAS_FINAL_ACK_RECEIVED, d) <==> S.HasAckReceived(d) && !S.IsOldAck(d) && !S.HasMoreToSend(d)
    ensures Holds(HAS_INTERMEDIATE_ACK_RECEIVED, d) <==> S.HasAckReceived(d) && !S.IsOldAck(d) && S.HasMoreToSend(d)
    ensures Holds(HAS_OLD_ACK_RECEIVED, d) <==> S.HasAckReceived(d) && S.IsOldAck(d)
  {
    HoldsNot(IsOldAck, d);
    HoldsNot(HasMoreToSend, d);
    HoldsAnd3(HasAckReceived, Not(IsOldAck), HasMoreToSend, d);
    HoldsAnd3(HasAckReceived, Not(IsOldAck), Not(HasMoreToSend), d);
  }

  lemma ReadGuardsMean(d: S.Data)
    ensures Holds(ROW115.guard, d) <==> !S.HasError(d) && S.HasReadRequestReceived(d)
    ensures Holds(ROW116.guard, d) <==> !S.HasError(d) && !S.HasOptions(d)
    ensures Holds(ROW124.guard, d) <==> S.FromAgreedEndpoint(d) && !S.HasAckReceived(d)
    ensures Holds(ROW125.guard, d) <==> !S.FromAgreedEndpoint(d) || (S.HasAckReceived(d) && S.IsOldAck(d))
  {
    HoldsNot(HasError, d);
    HoldsNot(HasAckReceived, d);
    HoldsNot(FromAgreedEndpoint, d);
    HoldsNot(Or(HasError, HasOptions), d);
    AckGuardsMean(d);
  }

  lemma AdvanceGuardsMean(d: S.Data)
    ensures Holds(ROW126.guard, d) <==>
              S.FromAgreedEndpoint(d) && S.HasAckReceived(d) && !S.IsOldAck(d) && S.HasMoreToSend(d)
    ensures Holds(ROW127.guard, d) <==>
              S.HasErrReceived(d)
              || (S.FromAgreedEndpoint(d) && S.HasAckReceived(d) && !S.IsOldAck(d) && !S.HasMoreToSend(d))
  {
    AckGuardsMean(d);
    var finalAck := And(FromAgreedEndpoint, HAS_FINAL_ACK_RECEIVED);
    assert Holds(finalAck, d) <==> Holds(FromAgreedEndpoint, d) && Holds(HAS_FINAL_ACK_RECEIVED, d);
    assert Holds(ROW127.guard, d) <==> Holds(HasErrReceived, d) || Holds(finalAck, d);
  }

  /** The guards on a received packet, told by its shape. */
  lemma GuardsOnPackets(d: S.Data)
    ensures S.HasDataReceived(d) <==> IsDataPacket(d.received) && d.lastRemote == d.agreedRemote
    ensures S.HasAckReceived(d) <==> IsAckPacket(d.received) && Word(d.received) <= d.lastSentBlock
    ensures S.HasErrReceived(d) <==> IsErrorPacket(d.received)
  {
  }

  /** The rows that take a received packet, told by the shape of the packet. */
  lemma RowsOnPackets(d: S.Data)
    ensures var p, fromPeer := d.received, d.lastRemote == d.agreedRemote;
            var isBlock := fromPeer && IsDataPacket(p);
            var isAck := fromPeer && IsAckPacket(p) && Word(p) == d.lastSentBlock;
            var more := d.lastSentBlock == 0 || d.lastBlockSize == d.agreedBlockSize;
            && (Holds(ROW92.guard, d) <==> fromPeer && !isBlock)
            && (Holds(ROW93.guard, d) <==> !fromPeer || (isBlock && Word(p) <= d.lastSavedBlock))
            && (Holds(ROW94.guard, d) <==> isBlock && Word(p) > d.lastSavedBlock)
            && (Holds(ROW124.guard, d) <==> fromPeer && !(IsAckPacket(p) && Word(p) <= d.lastSentBlock))
            && (Holds(ROW125.guard, d) <==> !fromPeer || (IsAckPacket(p) && Word(p) < d.lastSentBlock))
            && (Holds(ROW126.guard, d) <==> isAck && more)
            && (Holds(ROW127.guard, d) <==> IsErrorPacket(p) || (isAck && !more))
  {
    WriteGuardsMean(d);
    ReadGuardsMean(d);
    AdvanceGuardsMean(d);
    GuardsOnPackets(d);
  }

  lemma NoLaterRow(j: nat, phase: Phase, on: Trigger, d: S.Data)
    requires j < |TABLE| && Enabled(TABLE[j], phase, on, d)
    ensures Select(phase, on, d).Some?
    ensures var row := Select(phase, on, d).value; Enabled(row, phase, on, d) && TABLE[j].line <= row.line
  {
    TableRows();
    WriteGuardsMean(d);
    ReadGuardsMean(d);
    AdvanceGuardsMean(d);
    HoldsNot(HasError, d);
    HoldsNot(CanRetry, d);
    assert j in {0, 1, 2, 3, 4, 5, 6, 7, 8, 9, 10, 11, 12, 13, 14, 15, 16, 17, 18, 19, 20, 21, 22, 23, 24, 25, 26};
  }

  lemma SelectedRow(phase: Phase, on: Trigger, d: S.Data)
    requires Select(phase, on, d).Some?
    ensures var row := Select(phase, on, d).value; var i := IndexOfLine(row.line);
            0 <= i < |TABLE| && TABLE[i] == row && Enabled(row, phase, on, d)
  {
    TableRows();
    WriteGuardsMean(d);
    ReadGuardsMean(d);
    AdvanceGuardsMean(d);
  }

  lemma LinesAreOrdered(i: nat, j: nat)
    requires i < |TABLE| && j < |TABLE| && TABLE[i].line <= TABLE[j].line
    ensures i <= j
  {
    LineOfIndex(i);
    LineOfIndex(j);
    TableLines(i);
    TableLines(j);
  }

  lemma TableLines(i: nat)
    requires i < |TABLE|
    ensures 69 <= TABLE[i].line <= 71 || 86 <= TABLE[i].line <= 96 || 115 <= TABLE[i].line <= 127
  {
    TableRows();
  }

  /** The row selected stands in the table, behind any row that is enabled. */
  lemma SelectedIsLast(j: nat, phase: Phase, on: Trigger, d: S.Data) returns (i: nat)
    requires j < |TABLE| && Enabled(TABLE[j], phase, on, d)
    ensures j <= i < |TABLE| && Select(phase, on, d) == Some(TABLE[i]) && Enabled(TABLE[i], phase, on, d)
  {
    NoLaterRow(j, phase, on, d);
    SelectedRow(phase, on, d);
    i := IndexOfLine(Select(phase, on, d).value.line);
    LinesAreOrdered(j, i);
  }

  /** The decision procedure is the dispatch rule, and the rule leaves no choice. */
  lemma SelectIsDispatch(phase: Phase, on: Trigger, d: S.Data)
    ensures match Select(phase, on, d)
            case Some(row) => Fires(row, phase, on, d) && forall r :: Fires(r, phase, on, d) ==> r == row
            case None => NoneEnabled(phase, on, d)
  {
    forall j | 0 <= j < |TABLE| && Enabled(TABLE[j], phase, on, d)
      ensures Select(phase, on, d).Some? && j <= IndexOfLine(Select(phase, on, d).value.line)
    {
      var i := SelectedIsLast(j, phase, on, d);
      LineOfIndex(i);
    }
    if Select(phase, on, d).Some? {
      SelectedRow(phase, on, d);
      forall r | Fires(r, phase, on, d)
        ensures r == Select(phase, on, d).value
      {
        FiresIsUnique(r, Select(phase, on, d).value, phase, on, d);
      }
    }
  }

  /** No row from index `i` on is enabled. */
  predicate NoneFrom(i: nat, phase: Phase, on: Trigger, d: S.Data) {
    forall j :: i <= j < |TABLE| ==> !Enabled(TABLE[j], phase, on, d)
  }

  lemma NoneFromEarlier(i: nat, phase: Phase, on: Trigger, d: S.Data)
    requires i < |TABLE| && !Enabled(TABLE[i], phase, on, d) && NoneFrom(i + 1, phase, on, d)
    ensures NoneFrom(i, phase, on, d)
  {
  }

  lemma LastEnabledIsSelected(i: nat, phase: Phase, on: Trigger, d: S.Data)
    requires i < |TABLE| && Enabled(TABLE[i], phase, on, d) && NoneFrom(i + 1, phase, on, d)
    ensures Select(phase, on, d) == Some(TABLE[i])
  {
    var j := SelectedIsLast(i, phase, on, d);
  }

  lemma NoneEnabledIsSelected(phase: Phase, on: Trigger, d: S.Data)
    requires NoneEnabled(phase, on, d)
    ensures Select(phase, on, d) == None
  {
    if Select(phase, on, d).Some? {
      SelectedRow(phase, on, d);
    }
  }

  /** The search of the dispatcher, from the last row to the first. */
  method FindRow(phase: Phase, on: Trigger, d: S.Data) returns (found: Option<Row>)
    ensures found == Select(phase, on, d)
  {
    var i := |TABLE|;
    while i > 0
      invariant 0 <= i <= |TABLE|
      invariant NoneFrom(i, phase, on, d)
    {
      i := i - 1;
      if Enabled(TABLE[i], phase, on, d) {
        LastEnabledIsSelected(i, phase, on, d);
        return Some(TABLE[i]);
      }
      NoneFromEarlier(i, phase, on, d);
    }
    NoneEnabledIsSelected(phase, on, d);
    return None;
  }
}
