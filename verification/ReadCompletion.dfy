/** Read transfers that come to their end: which files a client can receive whole. */
module ReadCompletion {
  import opened Octets
  import opened Oack
  import opened RequestParser
  import opened Machine
  import opened Runs
  import opened StopAndWait
  import opened ReadSession
  import opened ReadRuns
  import opened ReadProgress
  import opened ReadTransfer
  import Paths
  import S = SessionData

  // ---- The client's half of a round ----

  /** Packet `k`, which the client waits for, is in the network. */
  ghost predicate Awaits(sys: System, t: Transfer, bound: nat, k: nat) {
    && SystemInv(sys, t, bound) && FirstPacket(t) <= k < bound && k <= LastBlock(t) <= MAX_WORD
    && PacketNo(t, k) in sys.toClient && sys.client.received == (if k == 0 then 0 else k - 1)
  }

  /** The client has packet `k`, and its acknowledgment is in the network. */
  ghost predicate Acknowledged(sys: System, t: Transfer, bound: nat, k: nat) {
    && SystemInv(sys, t, bound) && sys.client.received == k <= LastBlock(t) <= MAX_WORD
    && S.AckPacket(k) in sys.toServer
  }

  lemma OackIsOack(t: Transfer)
    requires WellFormed(t) && FirstPacket(t) == 0
    ensures IsOack(PacketNo(t, 0))
  {
    OackOpCode(t);
    OackLayout(t.agreed);
  }

  lemma ClientTakesOack(sys: System, t: Transfer, bound: nat)
    requires Awaits(sys, t, bound, 0)
    ensures Acknowledged(After(sys, ClientReceives(PacketNo(t, 0))), t, bound, 0)
  {
    OackIsOack(t);
    OackKeepsInv(sys, t, bound, PacketNo(t, 0));
  }

  lemma BlockWord(t: Transfer, k: nat)
    requires k >= 1
    ensures IsDataPacket(PacketNo(t, k))
    ensures k <= MAX_WORD ==> Word(PacketNo(t, k)) == k
  {
    WireNumber(t, k);
  }

  lemma BlockIsWanted(sys: System, t: Transfer, bound: nat, k: nat)
    requires Awaits(sys, t, bound, k) && k >= 1
    ensures var p, c := PacketNo(t, k), sys.client;
            IsDataPacket(p) && Word(p) == k && Receive(c, p) == (AcceptBlock(c, p), {S.AckPacket(k)})
  {
    BlockWord(t, k);
  }

  lemma ClientTakesBlock(sys: System, t: Transfer, bound: nat, k: nat)
    requires Awaits(sys, t, bound, k) && k >= 1
    ensures Acknowledged(After(sys, ClientReceives(PacketNo(t, k))), t, bound, k)
  {
    BlockIsWanted(sys, t, bound, k);
    BlockKeepsInv(sys, t, bound, PacketNo(t, k));
  }

  lemma ClientTakes(sys: System, t: Transfer, bound: nat, k: nat)
    requires Awaits(sys, t, bound, k)
    ensures Acknowledged(After(sys, ClientReceives(PacketNo(t, k))), t, bound, k)
  {
    if k == 0 {
      ClientTakesOack(sys, t, bound);
    } else {
      ClientTakesBlock(sys, t, bound, k);
    }
  }

  // ---- The server's half ----

  /** The server waits for the acknowledgment of packet `k`, which is in the network. */
  ghost predicate AckIsOut(sys: System, t: Transfer, k: nat) {
    && Acknowledged(sys, t, k + 1, k)
    && sys.server.phase.WaitingForAck? && sys.server.data.lastSentBlock == k
  }

  lemma AckIsExact(sys: System, t: Transfer, k: nat) returns (step: Step)
    requires AckIsOut(sys, t, k)
    ensures Allowed(sys, ServerStep(step)) && Classify(sys.server, step.input, step.io) == Acked(k, false)
  {
    AckShape(k);
    step := Step(Datagram(sys.peer, S.AckPacket(k)), QUIET_IO);
  }

  /** The outcome of the step that moves a session on to packet `k`. */
  predicate Sends(o: Outcome, t: Transfer, k: nat) {
    o.session.phase.SendingData? && o.session.data.lastSentBlock == k && o.sent == [PacketNo(t, k)]
  }

  lemma AdvanceIsSent(s: Session, o: Outcome)
    requires ReadInv(s) && s.phase.WaitingForAck? && s.data.lastSentBlock < LastBlock(TransferOf(s.data))
    requires Simulates(Abs(s), s.data, Acked(s.data.lastSentBlock, false), o)
    ensures Sends(o, TransferOf(s.data), s.data.lastSentBlock + 1)
  {
  }

  lemma EventAdvances(s: Session, t: Transfer, k: nat, input: Input, io: S.Io)
    requires ReadInv(s) && s.phase.WaitingForAck? && TransferOf(s.data) == t && s.data.lastSentBlock == k < LastBlock(t)
    requires Raises(s, input) && Classify(s, input, io) == Acked(k, false)
    ensures Sends(Handle(s, input, io), t, k + 1)
  {
    ReadRefinesStopAndWait(s, input, io);
    AdvanceIsSent(s, Handle(s, input, io));
  }

  lemma ServerIsReading(sys: System, t: Transfer, k: nat)
    requires AckIsOut(sys, t, k)
    ensures ReadInv(sys.server) && TransferOf(sys.server.data) == t
  {
  }

  lemma AckSends(sys: System, t: Transfer, k: nat, step: Step)
    requires AckIsOut(sys, t, k) && k < LastBlock(t) && Allowed(sys, ServerStep(step))
    requires Classify(sys.server, step.input, step.io) == Acked(k, false)
    ensures Sends(Handle(sys.server, step.input, step.io), t, k + 1)
  {
    ServerIsReading(sys, t, k);
    EventAdvances(sys.server, t, k, step.input, step.io);
  }

  lemma AfterAck(sys: System, t: Transfer, k: nat, step: Step) returns (next: System)
    requires AckIsOut(sys, t, k) && k < LastBlock(t) && Allowed(sys, ServerStep(step))
    requires Sends(Handle(sys.server, step.input, step.io), t, k + 1) && AllSent(sys, t, k + 1)
    ensures SystemInv(next, t, k + 2) && AllSent(next, t, k + 2) && IsActive(next.server)
    ensures CanComplete(next) ==> CanComplete(sys)
  {
    var bound := ActiveStepKeepsInv(sys, t, k + 1, step);
    next := After(sys, ServerStep(step));
    AllSentStays(sys, next, t, k + 1, bound);
    if CanComplete(next) {
      Paths.OneMoreStep(Move, IsDone, sys, ServerStep(step));
    }
  }

  lemma AckIsTaken(sys: System, t: Transfer, k: nat) returns (step: Step)
    requires AckIsOut(sys, t, k) && k < LastBlock(t)
    ensures Allowed(sys, ServerStep(step)) && Sends(Handle(sys.server, step.input, step.io), t, k + 1)
  {
    step := AckIsExact(sys, t, k);
    AckSends(sys, t, k, step);
  }

  lemma AckArrives(sys: System, t: Transfer, k: nat) returns (next: System)
    requires AckIsOut(sys, t, k) && k < LastBlock(t) && AllSent(sys, t, k + 1)
    ensures SystemInv(next, t, k + 2) && AllSent(next, t, k + 2) && IsActive(next.server)
    ensures CanComplete(next) ==> CanComplete(sys)
  {
    var step := AckIsTaken(sys, t, k);
    next := AfterAck(sys, t, k, step);
  }

  // ---- From any state ----

  /** The server is in the transfer, `bound - 1` is the packet it has sent last, and the file fits. */
  ghost predicate Underway(sys: System, t: Transfer, bound: nat) {
    SystemInv(sys, t, bound) && AllSent(sys, t, bound) && IsActive(sys.server) && LastBlock(t) <= MAX_WORD
  }

  lemma PacketIsHandedOver(sys: System, t: Transfer, bound: nat) returns (next: System)
    requires Underway(sys, t, bound)
    ensures Underway(next, t, bound) && next.server.phase.WaitingForAck?
    ensures CanComplete(next) ==> CanComplete(sys)
  {
    if sys.server.phase.WaitingForAck? {
      return sys;
    }
    var sent := ServerStep(Step(SendDone, QUIET_IO));
    OnSendDone(sys.server, QUIET_IO);
    ServerChanges(sys, t, bound, AfterSendDone(sys.server), bound);
    next := After(sys, sent);
    if CanComplete(next) {
      Paths.OneMoreStep(Move, IsDone, sys, sent);
    }
  }

  /** A client that has the current packet repeats its acknowledgment, any other takes the packet. */
  lemma AckIsObtained(sys: System, t: Transfer, k: nat) returns (next: System)
    requires Underway(sys, t, k + 1) && sys.server.phase.WaitingForAck?
    ensures AckIsOut(next, t, k) && AllSent(next, t, k + 1) && (CanComplete(next) ==> CanComplete(sys))
  {
    var n := if k >= 1 && sys.client.received == k then ClientRepeats else ClientReceives(PacketNo(t, k));
    if n.ClientRepeats? {
      ClientStepKeepsInv(sys, t, k + 1, n);
    } else {
      ClientTakes(sys, t, k + 1, k);
    }
    next := After(sys, n);
    if CanComplete(next) {
      Paths.OneMoreStep(Move, IsDone, sys, n);
    }
  }

  lemma LastAckIsTheEnd(sys: System, t: Transfer, k: nat)
    requires AckIsOut(sys, t, k) && k == LastBlock(t)
    ensures CanComplete(sys)
  {
    Paths.AlreadyThere(Move, IsDone, sys);
  }

  lemma {:induction false} CompletesWhileActive(sys: System, t: Transfer, k: nat)
    requires Underway(sys, t, k + 1)
    ensures CanComplete(sys)
    decreases LastBlock(t) - k
  {
    var waiting := PacketIsHandedOver(sys, t, k + 1);
    var acked := AckIsObtained(waiting, t, k);
    if k == LastBlock(t) {
      LastAckIsTheEnd(acked, t, k);
    } else {
      var next := AckArrives(acked, t, k);
      CompletesWhileActive(next, t, k + 1);
    }
  }

  /** When all packets have been sent, the client needs the server no more. */
  lemma CompletesWithLastPacket(sys: System, t: Transfer, bound: nat)
    requires SystemInv(sys, t, bound) && AllSent(sys, t, bound) && bound == LastBlock(t) + 1 <= MAX_WORD + 1
    ensures CanComplete(sys)
  {
    var k := LastBlock(t);
    if sys.client.done {
      Paths.AlreadyThere(Move, IsDone, sys);
    } else {
      var n := ClientReceives(PacketNo(t, k));
      ClientTakes(sys, t, bound, k);
      Paths.AlreadyThere(Move, IsDone, After(sys, n));
      Paths.OneMoreStep(Move, IsDone, sys, n);
    }
  }

  // ---- Transfers that cannot complete ----

  /** Without the server a client does not get beyond the packets sent. */
  lemma {:induction false} NothingWithoutServer(sys: System, t: Transfer, bound: nat, steps: seq<NetStep>)
    requires SystemInv(sys, t, bound) && bound <= LastBlock(t) && !IsActive(sys.server) && Runnable(sys, steps)
    ensures !AfterAll(sys, steps).client.done
    decreases |steps|
  {
    if steps != [] {
      var next := StepKeepsInv(sys, t, bound, steps[0]);
      NothingWithoutServer(After(sys, steps[0]), t, bound, steps[1..]);
    }
  }

  lemma CompletedFileFits(sys: System, t: Transfer, bound: nat)
    requires SystemInv(sys, t, bound) && CanComplete(sys)
    ensures LastBlock(t) <= MAX_WORD
    ensures IsActive(sys.server) || bound == LastBlock(t) + 1
  {
    var steps := Paths.PathTo(Move, IsDone, sys);
    var final := RunKeepsInv(sys, t, bound, steps);
    if !IsActive(sys.server) && bound <= LastBlock(t) {
      NothingWithoutServer(sys, t, bound, steps);
    }
  }

  lemma CompletesIff(sys: System, t: Transfer, bound: nat)
    requires SystemInv(sys, t, bound) && AllSent(sys, t, bound)
    ensures CanComplete(sys) <==> LastBlock(t) <= MAX_WORD && (IsActive(sys.server) || bound == LastBlock(t) + 1)
  {
    if LastBlock(t) <= MAX_WORD && IsActive(sys.server) {
      CompletesWhileActive(sys, t, sys.server.data.lastSentBlock);
    } else if LastBlock(t) <= MAX_WORD && bound == LastBlock(t) + 1 {
      CompletesWithLastPacket(sys, t, bound);
    } else if CanComplete(sys) {
      CompletedFileFits(sys, t, bound);
    }
  }

  lemma FitsSixteenBits(t: Transfer)
    requires WellFormed(t)
    ensures LastBlock(t) <= MAX_WORD <==> |t.contents| < 65535 * t.blockSize
  {
    MoreBlocks(t, 65535);
  }

  lemma LastPacketIsSent(sys: System, t: Transfer, bound: nat)
    requires SystemInv(sys, t, bound) && AllSent(sys, t, bound) && LastBlock(t) <= MAX_WORD
    ensures PacketNo(t, LastBlock(t)) in sys.toClient <==> bound == LastBlock(t) + 1
  {
    var last := LastBlock(t);
    if PacketNo(t, last) in sys.toClient {
      var j := LastIsData(sys, t, bound);
      TruncatedAreEqual(j, last);
    }
  }

  lemma LastIsData(sys: System, t: Transfer, bound: nat) returns (j: nat)
    requires SystemInv(sys, t, bound) && LastBlock(t) <= MAX_WORD && PacketNo(t, LastBlock(t)) in sys.toClient
    ensures 1 <= j < bound && j <= 65536 && j % 65536 == LastBlock(t) % 65536
  {
    WireNumber(t, LastBlock(t));
    BlockWord(t, LastBlock(t));
    j := DataNumber(sys, t, bound, PacketNo(t, LastBlock(t)));
  }

  lemma TruncatedAreEqual(i: nat, j: nat)
    requires 1 <= i <= 65536 && 1 <= j <= 65536 && i % 65536 == j % 65536
    ensures i == j
  {
    if i < j { TruncatedDiffer(i, j); }
    if j < i { TruncatedDiffer(j, i); }
  }

  // ---- From the request on ----

  lemma StartedHasSent(o: Outcome, request: Request, io: S.Io, peer: S.Endpoint, bound: nat)
    requires ReadStarted(o, request, io, peer)
    requires bound == FirstPacket(Requested(request, io.lookup, peer)) + if IsActive(o.session) then 1 else 0
    ensures AllSent(System(o.session, NEW_CLIENT, peer, set p | p in o.sent, {}),
                    Requested(request, io.lookup, peer), bound)
  {
  }

  /** A request that is answered with a packet of the transfer: it is not refused, and the block that
      is read at once, when no option is acknowledged first, does not fail. */
  predicate IsServed(request: Request, io: S.Io, peer: S.Endpoint) {
    && !S.Refused(request, io.lookup)
    && !(Requested(request, io.lookup, peer).agreed == NO_OPTIONS && io.read.ReadBad? && io.lookup.open.Opened?)
  }

  lemma ServedIsActive(s: Session, peer: S.Endpoint, packet: Bytes, io: S.Io)
    requires ReadRequested(s, peer, packet)
    ensures IsActive(Begin(s, peer, packet, io).server) <==> IsServed(ParseRequest(packet), io, peer)
  {
    ReadSessionStarts(s, peer, packet, io);
  }

  lemma BeginHasSent(s: Session, peer: S.Endpoint, packet: Bytes, io: S.Io) returns (bound: nat)
    requires ReadRequested(s, peer, packet)
    ensures var sys, t := Begin(s, peer, packet, io), Requested(ParseRequest(packet), io.lookup, peer);
            && SystemInv(sys, t, bound) && AllSent(sys, t, bound)
            && bound == FirstPacket(t) + if IsActive(sys.server) then 1 else 0
  {
    bound := BeginEstablishesInv(s, peer, packet, io);
    ReadSessionStarts(s, peer, packet, io);
    StartedHasSent(Handle(s, Datagram(peer, packet), io), ParseRequest(packet), io, peer, bound);
  }

  lemma ReachedCompletesIff(sys: System, t: Transfer, bound: nat)
    requires SystemInv(sys, t, bound) && AllSent(sys, t, bound)
    ensures CanComplete(sys) <==>
              && |t.contents| < 65535 * t.blockSize
              && (IsActive(sys.server) || PacketNo(t, LastBlock(t)) in sys.toClient)
  {
    CompletesIff(sys, t, bound);
    FitsSixteenBits(t);
    if LastBlock(t) <= MAX_WORD {
      LastPacketIsSent(sys, t, bound);
    }
  }

  /** From every state that a transfer can reach, the client can still receive its file to the end if
      and only if the file is shorter than 65535 blocks and the server is still sending, or has sent
      the last block already. */
  lemma ReadCompletesFromEveryState(s: Session, peer: S.Endpoint, packet: Bytes, io: S.Io, steps: seq<NetStep>)
    requires ReadRequested(s, peer, packet) && Runnable(Begin(s, peer, packet, io), steps)
    ensures WellFormed(Requested(ParseRequest(packet), io.lookup, peer))
    ensures var sys, t := AfterAll(Begin(s, peer, packet, io), steps), Requested(ParseRequest(packet), io.lookup, peer);
            CanComplete(sys) <==>
              && |Readable(io.lookup)| < 65535 * t.blockSize
              && (IsActive(sys.server) || PacketNo(t, LastBlock(t)) in sys.toClient)
  {
    var t := Requested(ParseRequest(packet), io.lookup, peer);
    var bound := BeginHasSent(s, peer, packet, io);
    var final := RunKeepsInv(Begin(s, peer, packet, io), t, bound, steps);
    ReachedCompletesIff(AfterAll(Begin(s, peer, packet, io), steps), t, final);
  }

  /** A client can receive its file to the end if and only if its request is served and the stream
      delivers less than 65535 blocks of the agreed size. */
  lemma ReadCompletesIffFileFits(s: Session, peer: S.Endpoint, packet: Bytes, io: S.Io)
    requires ReadRequested(s, peer, packet)
    ensures CanComplete(Begin(s, peer, packet, io)) <==>
              && IsServed(ParseRequest(packet), io, peer)
              && |Readable(io.lookup)| < 65535 * Requested(ParseRequest(packet), io.lookup, peer).blockSize
  {
    var t := Requested(ParseRequest(packet), io.lookup, peer);
    var bound := BeginHasSent(s, peer, packet, io);
    CompletesIff(Begin(s, peer, packet, io), t, bound);
    ServedIsActive(s, peer, packet, io);
    FitsSixteenBits(t);
  }
}
