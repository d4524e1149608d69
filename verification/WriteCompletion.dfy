/** Write transfers that come to their end: which files a client can deliver whole. */
module WriteCompletion {
  import opened Octets
  import opened RequestParser
  import opened Machine
  import opened Runs
  import opened WriteSession
  import opened WriteTransfer
  import Paths
  import S = SessionData
  import R = ReadSession

  const GOOD_IO := S.Io(S.Lookup(false, None, S.FailBit, []), S.ReadOk, S.WriteOk)

  /** The server can save blocks, the last one saved has been acknowledged, and the file fits. */
  ghost predicate Underway(sys: System, v: View) {
    SystemInv(sys, v) && AckSent(sys, v) && CanSave(sys.server) && LastBlock(sys.client.file) <= MAX_WORD
  }

  // ---- The client's half of a round ----

  lemma AckIsTaken(c: Client, saved: nat)
    requires c.current == saved <= MAX_WORD && saved <= LastBlock(c.file) <= MAX_WORD
    ensures var (d, data) := Receive(c, S.AckPacket(saved));
            if saved == LastBlock(c.file) then d.done
            else d == c.(current := saved + 1) && data == {FilePacket(c.file, saved + 1)}
  {
    HeaderRoundTrip(ACKNOWLEDGMENT, saved, []);
    assert Header(ACKNOWLEDGMENT, saved) + [] == S.AckPacket(saved);
  }

  /** The client's next block is in the network, and the server waits for it. */
  ghost predicate BlockIsOut(sys: System, v: View) {
    && Underway(sys, v) && sys.server.phase.WaitingForData?
    && sys.client.current == v.saved + 1 <= LastBlock(sys.client.file)
    && FilePacket(sys.client.file, v.saved + 1) in sys.toServer
  }

  lemma ClientMovesOn(sys: System, v: View)
    requires Underway(sys, v) && sys.server.phase.WaitingForData?
    requires sys.client.current == v.saved < LastBlock(sys.client.file)
    ensures BlockIsOut(After(sys, ClientReceives(S.AckPacket(v.saved))), v)
  {
    AckIsTaken(sys.client, v.saved);
    ClientStepKeepsInv(sys, v, ClientReceives(S.AckPacket(v.saved)));
  }

  lemma ClientRepeatsBlock(sys: System, v: View)
    requires Underway(sys, v) && sys.server.phase.WaitingForData? && v.saved < LastBlock(sys.client.file)
    requires sys.client.current != v.saved
    ensures Allowed(sys, ClientRepeats) && BlockIsOut(After(sys, ClientRepeats), v)
  {
    ClientStepKeepsInv(sys, v, ClientRepeats);
  }

  /** A client that is on the next block already repeats it, any other takes the acknowledgment. */
  lemma BlockIsObtained(sys: System, v: View) returns (next: System)
    requires Underway(sys, v) && sys.server.phase.WaitingForData? && v.saved < LastBlock(sys.client.file)
    ensures BlockIsOut(next, v) && next.client.file == sys.client.file && (CanComplete(next) ==> CanComplete(sys))
  {
    var n := if sys.client.current == v.saved then ClientReceives(S.AckPacket(v.saved)) else ClientRepeats;
    if n.ClientReceives? {
      ClientMovesOn(sys, v);
    } else {
      ClientRepeatsBlock(sys, v);
    }
    next := After(sys, n);
    if CanComplete(next) {
      Paths.OneMoreStep(Move, IsDone, sys, n);
    }
  }

  // ---- The server's half ----

  lemma AckIsHandedOver(sys: System, v: View) returns (next: System)
    requires Underway(sys, v)
    ensures Underway(next, v) && next.server.phase.WaitingForData? && next.client == sys.client
    ensures CanComplete(next) ==> CanComplete(sys)
  {
    if sys.server.phase.WaitingForData? {
      return sys;
    }
    var sent := ServerStep(Step(SendDone, GOOD_IO));
    OnSendDone(sys.server, GOOD_IO);
    SendDoneKeepsInv(sys, v);
    next := After(sys, sent);
    if CanComplete(next) {
      Paths.OneMoreStep(Move, IsDone, sys, sent);
    }
  }

  lemma BlockIsRaised(sys: System, v: View) returns (step: Step)
    requires BlockIsOut(sys, v)
    ensures step.input == Datagram(sys.peer, FilePacket(sys.client.file, v.saved + 1)) && step.io == GOOD_IO
    ensures Allowed(sys, ServerStep(step))
    ensures IsDataPacket(step.input.packet) && Word(step.input.packet) == v.saved + 1
  {
    var file, k := sys.client.file, v.saved + 1;
    step := Step(Datagram(sys.peer, FilePacket(file, k)), GOOD_IO);
    FilePacketShape(file, k);
    R.BlockLength(Blocks(file), k);
  }

  lemma BlockIsSaved(sys: System, v: View, o: Outcome, packet: Bytes)
    requires BlockIsOut(sys, v) && packet in sys.toServer && IsDataPacket(packet) && Word(packet) == v.saved + 1
    requires Saved(sys.server.data, packet, o)
    ensures Underway(AfterServer(sys, o), v.(saved := v.saved + 1))
  {
    SavedKeepsInv(sys, v, packet, o);
  }

  lemma BlockArrives(sys: System, v: View) returns (next: System)
    requires BlockIsOut(sys, v)
    ensures Underway(next, v.(saved := v.saved + 1)) && next.client.file == sys.client.file
    ensures CanComplete(next) ==> CanComplete(sys)
  {
    var step := BlockIsRaised(sys, v);
    WaitForData(sys.server, step.input.from, step.input.packet, step.io);
    BlockIsSaved(sys, v, Handle(sys.server, step.input, step.io), step.input.packet);
    next := After(sys, ServerStep(step));
    if CanComplete(next) {
      Paths.OneMoreStep(Move, IsDone, sys, ServerStep(step));
    }
  }

  // ---- From any state ----

  /** When the last block has been saved, the client needs the server no more. */
  lemma CompletesWithLastAck(sys: System, v: View)
    requires SystemInv(sys, v) && AckSent(sys, v) && v.saved == LastBlock(sys.client.file) <= MAX_WORD
    ensures CanComplete(sys)
  {
    var n := ClientReceives(S.AckPacket(v.saved));
    LastBlockIsPositive(sys.client.file);
    AckIsTaken(sys.client, v.saved);
    Paths.AlreadyThere(Move, IsDone, After(sys, n));
    Paths.OneMoreStep(Move, IsDone, sys, n);
  }

  lemma LastBlockIsPositive(file: Bytes)
    ensures LastBlock(file) >= 1
  {
    R.MoreBlocks(Blocks(file), 1);
  }

  lemma {:induction false} CompletesWhileSaving(sys: System, v: View)
    requires Underway(sys, v)
    ensures CanComplete(sys)
    decreases LastBlock(sys.client.file) - v.saved
  {
    if v.saved == LastBlock(sys.client.file) {
      CompletesWithLastAck(sys, v);
    } else {
      var waiting := AckIsHandedOver(sys, v);
      var sent := BlockIsObtained(waiting, v);
      var saved := BlockArrives(sent, v);
      CompletesWhileSaving(saved, v.(saved := v.saved + 1));
    }
  }

  // ---- Transfers that cannot complete ----

  lemma CompletedFileFits(sys: System, v: View)
    requires SystemInv(sys, v) && CanComplete(sys)
    ensures LastBlock(sys.client.file) <= MAX_WORD
    ensures CanSave(sys.server) || v.saved == LastBlock(sys.client.file)
  {
    var steps := Paths.PathTo(Move, IsDone, sys);
    var final := RunKeepsInv(sys, v, steps);
  }

  lemma CompletesIff(sys: System, v: View)
    requires SystemInv(sys, v) && AckSent(sys, v)
    ensures CanComplete(sys) <==>
              && LastBlock(sys.client.file) <= MAX_WORD
              && (CanSave(sys.server) || v.saved == LastBlock(sys.client.file))
  {
    if LastBlock(sys.client.file) <= MAX_WORD && CanSave(sys.server) {
      CompletesWhileSaving(sys, v);
    } else if v.saved == LastBlock(sys.client.file) <= MAX_WORD {
      CompletesWithLastAck(sys, v);
    } else if CanComplete(sys) {
      CompletedFileFits(sys, v);
    }
  }

  lemma LastAckIsSent(sys: System, v: View)
    requires SystemInv(sys, v) && AckSent(sys, v) && LastBlock(sys.client.file) <= MAX_WORD
    ensures S.AckPacket(LastBlock(sys.client.file)) in sys.toClient <==> v.saved == LastBlock(sys.client.file)
  {
    var last := LastBlock(sys.client.file);
    LastBlockIsPositive(sys.client.file);
    HeaderRoundTrip(ACKNOWLEDGMENT, last, []);
    assert Header(ACKNOWLEDGMENT, last) + [] == S.AckPacket(last);
    if S.AckPacket(last) in sys.toClient {
      assert AckInv(S.AckPacket(last), v.saved);
    }
  }

  lemma FitsSixteenBits(file: Bytes)
    ensures LastBlock(file) <= MAX_WORD <==> |file| < 65535 * 512
  {
    R.MoreBlocks(Blocks(file), 65535);
  }

  // ---- From the request on ----

  lemma StartedIsReady(s: Session, o: Outcome, request: Request, io: S.Io, peer: S.Endpoint, file: Bytes)
    requires WriteStarted(o, request, io, peer)
    ensures var sys := AfterServer(System(s, Client(file, 0, false), peer, [], {}, {}), o);
            && AckSent(sys, FirstView(request, io.lookup))
            && (CanSave(sys.server) <==> !S.Refused(request, io.lookup) && io.lookup.open.Opened?)
  {
  }

  lemma BeginIsReady(s: Session, peer: S.Endpoint, packet: Bytes, io: S.Io, file: Bytes)
    requires R.IsIdle(s) && s.data.Valid() && Raises(s, Datagram(peer, packet)) && OpCode(packet) == WRITE_REQUEST
    ensures var sys, v := Begin(s, peer, packet, io, file), FirstView(ParseRequest(packet), io.lookup);
            SystemInv(sys, v) && AckSent(sys, v) && (CanSave(sys.server) <==> v.open)
  {
    BeginEstablishesInv(s, peer, packet, io, file);
    WriteSessionStarts(s, peer, packet, io);
    StartedIsReady(s, Handle(s, Datagram(peer, packet), io), ParseRequest(packet), io, peer, file);
  }

  /** From every state that a transfer can reach, the client can still deliver its file to the last
      acknowledgment if and only if the file is shorter than 65535 blocks and the server still receives
      into a good stream, or has acknowledged the last block already. */
  lemma WriteCompletesFromEveryState(s: Session, peer: S.Endpoint, packet: Bytes, io: S.Io, file: Bytes,
                                     steps: seq<NetStep>)
    requires R.IsIdle(s) && s.data.Valid() && Raises(s, Datagram(peer, packet)) && OpCode(packet) == WRITE_REQUEST
    requires Runnable(Begin(s, peer, packet, io, file), steps)
    ensures var sys := AfterAll(Begin(s, peer, packet, io, file), steps);
            CanComplete(sys) <==>
              && |file| < 65535 * 512
              && (|| (IsReceiving(sys.server) && sys.server.data.file.good)
                  || S.AckPacket(LastBlock(file)) in sys.toClient)
  {
    var begin := Begin(s, peer, packet, io, file);
    BeginIsReady(s, peer, packet, io, file);
    var v := RunKeepsInv(begin, FirstView(ParseRequest(packet), io.lookup), steps);
    FitsSixteenBits(file);
    CompletesIff(AfterAll(begin, steps), v);
    if LastBlock(file) <= MAX_WORD {
      LastAckIsSent(AfterAll(begin, steps), v);
    }
  }

  /** A client can deliver its file to the last acknowledgment if and only if the request is let in,
      the file opens on the server, and the client's file is shorter than 65535 blocks. */
  lemma WriteCompletesIffFileFits(s: Session, peer: S.Endpoint, packet: Bytes, io: S.Io, file: Bytes)
    requires R.IsIdle(s) && s.data.Valid() && Raises(s, Datagram(peer, packet)) && OpCode(packet) == WRITE_REQUEST
    ensures CanComplete(Begin(s, peer, packet, io, file)) <==>
              !S.Refused(ParseRequest(packet), io.lookup) && io.lookup.open.Opened? && |file| < 65535 * 512
  {
    BeginIsReady(s, peer, packet, io, file);
    FitsSixteenBits(file);
    LastBlockIsPositive(file);
    CompletesIff(Begin(s, peer, packet, io, file), FirstView(ParseRequest(packet), io.lookup));
  }
}
