/** A write session end to end: a lock-step client of RFC 1350, the server, and a network that
    loses, duplicates, delays and reorders packets and carries those of strangers. */
module WriteTransfer {
  import opened Octets
  import opened RequestParser
  import opened Machine
  import opened Runs
  import opened WriteSession
  import Paths
  import S = SessionData
  import R = ReadSession

  // ---- The client ----

  /** The client is sending block `current`, or waits for the answer to its request while that is 0.
      `done` says that its last block has been acknowledged. */
  datatype Client = Client(file: Bytes, current: nat, done: bool)

  /** The server passes over the options of a write request, so blocks have the default size. */
  function Blocks(file: Bytes): R.Transfer {
    R.Transfer(file, S.DEFAULT_BLOCK_SIZE, R.NO_OPTIONS, S.NO_ENDPOINT)
  }

  function LastBlock(file: Bytes): nat { R.LastBlock(Blocks(file)) }
  function FilePacket(file: Bytes, k: nat): Bytes requires k >= 1 { S.DataPacket(k, R.Block(Blocks(file), k)) }
  function FileUpTo(file: Bytes, k: nat): Bytes { file[..R.BlockEnd(Blocks(file), k)] }

  /** A block number has sixteen bits; a client whose file needs more stops there. */
  function Receive(c: Client, p: Bytes): (Client, set<Bytes>) {
    if !IsAckPacket(p) || Word(p) != c.current then (c, {})
    else if c.current == LastBlock(c.file) then (c.(done := true), {})
    else if c.current < MAX_WORD then (c.(current := c.current + 1), {FilePacket(c.file, c.current + 1)})
    else (c, {})
  }

  // ---- The system ----

  /** `disk` is what has reached the file on the server. */
  datatype System = System(server: Session, client: Client, peer: S.Endpoint, disk: Bytes,
    toClient: set<Bytes>, toServer: set<Bytes>)

  datatype NetStep =
    | ServerStep(step: Step)
    | ClientReceives(packet: Bytes)
    | ClientRepeats
    | ClientAborts(packet: Bytes)

  predicate Allowed(sys: System, n: NetStep) {
    match n
    case ServerStep(step) =>
      && InSession(sys.server) && Raises(sys.server, step.input)
      && (step.input.Datagram? && step.input.from == sys.peer ==> step.input.packet in sys.toServer)
    case ClientReceives(p) => p in sys.toClient
    case ClientRepeats => sys.client.current >= 1
    case ClientAborts(p) => IsErrorPacket(p)
  }

  function Disk(before: Bytes, d: S.Data): Bytes {
    if d.file.direction.ForWriting? then d.file.contents else before
  }

  function AfterServer(sys: System, o: Outcome): System {
    sys.(server := o.session, disk := Disk(sys.disk, o.session.data), toClient := sys.toClient + (set p | p in o.sent))
  }

  function After(sys: System, n: NetStep): System
    requires Allowed(sys, n)
  {
    match n
    case ServerStep(step) => AfterServer(sys, Handle(sys.server, step.input, step.io))
    case ClientReceives(p) =>
      var (c, data) := Receive(sys.client, p);
      sys.(client := c, toServer := sys.toServer + data)
    case ClientRepeats => sys.(toServer := sys.toServer + {FilePacket(sys.client.file, sys.client.current)})
    case ClientAborts(p) => sys.(toServer := sys.toServer + {p})
  }

  function Move(sys: System, n: NetStep): Option<System> {
    if Allowed(sys, n) then Some(After(sys, n)) else None
  }

  predicate Runnable(sys: System, steps: seq<NetStep>) { Paths.Runnable(Move, sys, steps) }

  function AfterAll(sys: System, steps: seq<NetStep>): System
    requires Runnable(sys, steps)
  {
    Paths.AfterAll(Move, sys, steps)
  }

  predicate IsDone(sys: System) { sys.client.done }

  /** The client can still come to its end. */
  ghost predicate CanComplete(sys: System) { Paths.CanReach(Move, IsDone, sys) }

  function Begin(s: Session, peer: S.Endpoint, packet: Bytes, io: S.Io, file: Bytes): System
    requires s.data.Valid() && Raises(s, Datagram(peer, packet))
  {
    AfterServer(System(s, Client(file, 0, false), peer, [], {}, {}), Handle(s, Datagram(peer, packet), io))
  }

  // ---- The invariant ----

  /** What is known of a transfer: the number of the last block saved, whether every write has
      succeeded so far, and whether the file was opened in the first place. */
  datatype View = View(saved: nat, intact: bool, open: bool)

  /** While the session lasts, the file on the server is the client's blocks up to the one last
      saved. A failing write may add a part of the next one, and ends the session. */
  predicate ServerInv(sys: System, v: View) {
    var s, file := sys.server, sys.client.file;
    && (v.saved >= 1 ==> v.open)
    && if IsReceiving(s) || IsDiverted(s) then
         && (if IsReceiving(s) then WriteInv(s) else DivertedInv(s))
         && s.data.agreedRemote == sys.peer && s.data.lastSavedBlock == v.saved
         && s.data.file.contents == sys.disk == FileUpTo(file, v.saved)
         && (s.data.file.good ==> v.open)
       else
         && (s.phase.SendingError? || s.phase.Accepting?) && s.data.Valid()
         && (s.data.file.direction.ForWriting? ==> s.data.file.contents == sys.disk)
         && FileUpTo(file, v.saved) <= sys.disk <= FileUpTo(file, v.saved + 1)
         && (v.intact ==> sys.disk == FileUpTo(file, v.saved))
         && (s.phase.SendingError? ==> s.data.lastSavedBlock == v.saved)
  }

  ghost predicate DataInv(c: Client, p: Bytes) {
    IsErrorPacket(p) || exists j: nat :: 1 <= j <= c.current && p == FilePacket(c.file, j)
  }

  predicate AckInv(p: Bytes, saved: nat) { IsAckPacket(p) ==> Word(p) <= saved }

  predicate ClientInv(c: Client, saved: nat) {
    && saved <= c.current <= saved + 1 && c.current <= LastBlock(c.file) && c.current <= MAX_WORD
    && (c.done ==> saved == LastBlock(c.file))
  }

  ghost predicate SystemInv(sys: System, v: View) {
    && ServerInv(sys, v) && ClientInv(sys.client, v.saved)
    && (forall p :: p in sys.toServer ==> DataInv(sys.client, p))
    && (forall p :: p in sys.toClient ==> AckInv(p, v.saved))
  }

  /** The server can save another block. */
  predicate CanSave(s: Session) { IsReceiving(s) && s.data.file.good }

  /** The last block saved has been acknowledged. */
  predicate AckSent(sys: System, v: View) {
    v.saved >= 1 || IsReceiving(sys.server) ==> S.AckPacket(v.saved) in sys.toClient
  }

  /** A step saves a block only while the server can, acknowledges what it saves, and never brings that
      ability back. */
  predicate Proceeds(sys: System, v: View, after: System, next: View) {
    && (AckSent(sys, v) ==> AckSent(after, next))
    && (!CanSave(sys.server) ==> next.saved == v.saved && !CanSave(after.server))
  }

  // ---- The client's steps ----

  lemma ClientChanges(sys: System, v: View, c: Client, data: set<Bytes>)
    requires SystemInv(sys, v) && ClientInv(c, v.saved)
    requires c.file == sys.client.file && sys.client.current <= c.current
    requires forall p :: p in data ==> DataInv(c, p)
    ensures SystemInv(sys.(client := c, toServer := sys.toServer + data), v)
  {
    forall p | p in sys.toServer
      ensures DataInv(c, p)
    {
      assert DataInv(sys.client, p);
    }
  }

  lemma ClientStepKeepsInv(sys: System, v: View, n: NetStep)
    requires SystemInv(sys, v) && Allowed(sys, n) && !n.ServerStep?
    ensures SystemInv(After(sys, n), v)
  {
    match n
    case ClientReceives(p) =>
      var (c, data) := Receive(sys.client, p);
      assert AckInv(p, v.saved);
      ClientChanges(sys, v, c, data);
    case ClientRepeats =>
      ClientChanges(sys, v, sys.client, {FilePacket(sys.client.file, sys.client.current)});
    case ClientAborts(p) =>
      ClientChanges(sys, v, sys.client, {p});
  }

  // ---- The server's steps ----

  lemma FilePacketShape(file: Bytes, j: nat)
    requires 1 <= j <= MAX_WORD
    ensures Word(FilePacket(file, j)) == j && OpCode(FilePacket(file, j)) == DATA
    ensures S.Payload(FilePacket(file, j)) == R.Block(Blocks(file), j)
  {
    var block := R.Block(Blocks(file), j);
    HeaderRoundTrip(DATA, j, block);
    assert j % 65536 == j;
    assert FilePacket(file, j) == Header(DATA, j) + block;
  }

  lemma BlockIsAppended(file: Bytes, k: nat)
    ensures FileUpTo(file, k) + R.Block(Blocks(file), k + 1) == FileUpTo(file, k + 1)
  {
    R.BlockEndsAreOrdered(Blocks(file), k + 1);
  }

  lemma DataIsOfTheFile(c: Client, packet: Bytes)
    requires DataInv(c, packet) && IsDataPacket(packet) && c.current <= MAX_WORD
    ensures 1 <= Word(packet) <= c.current && S.Payload(packet) == R.Block(Blocks(c.file), Word(packet))
  {
    var j: nat :| 1 <= j <= c.current && packet == FilePacket(c.file, j);
    FilePacketShape(c.file, j);
  }

  lemma NextBlockOnly(sys: System, v: View, packet: Bytes)
    requires SystemInv(sys, v) && packet in sys.toServer
    requires IsDataPacket(packet) && Word(packet) > v.saved
    ensures Word(packet) == v.saved + 1 == sys.client.current
    ensures FileUpTo(sys.client.file, v.saved) + S.Payload(packet) == FileUpTo(sys.client.file, v.saved + 1)
  {
    DataIsOfTheFile(sys.client, packet);
    BlockIsAppended(sys.client.file, v.saved);
  }

  lemma ServerChanges(sys: System, v: View, o: Outcome, next: View)
    requires SystemInv(sys, v) && ClientInv(sys.client, next.saved) && v.saved <= next.saved
    requires ServerInv(AfterServer(sys, o), next)
    requires forall p :: p in o.sent ==> AckInv(p, next.saved)
    ensures SystemInv(AfterServer(sys, o), next)
  {
    forall p | p in sys.toClient
      ensures AckInv(p, next.saved)
    {
      assert AckInv(p, v.saved);
    }
  }

  lemma SentShapes(saved: nat)
    requires saved <= MAX_WORD
    ensures AckInv(S.AckPacket(saved), saved) && AckInv(S.DataPacket(1, []), saved)
    ensures AckInv(S.ErrorPacket(1), saved) && AckInv(S.ErrorPacket(3), saved) && AckInv(S.ErrorPacket(4), saved)
  {
    HeaderRoundTrip(ACKNOWLEDGMENT, saved, []);
    assert Header(ACKNOWLEDGMENT, saved) + [] == S.AckPacket(saved);
    HeaderRoundTrip(DATA, 1, []);
  }

  lemma UpToIsPrefix(file: Bytes, k: nat)
    ensures FileUpTo(file, k) <= FileUpTo(file, k + 1) <= file
  {
    R.BlockEndsAreOrdered(Blocks(file), k + 1);
  }

  lemma SavedKeepsInv(sys: System, v: View, packet: Bytes, o: Outcome)
    requires SystemInv(sys, v) && WriteInv(sys.server) && sys.server.data.file.good && packet in sys.toServer
    requires IsDataPacket(packet) && Word(packet) > v.saved && Saved(sys.server.data, packet, o)
    ensures SystemInv(AfterServer(sys, o), v.(saved := v.saved + 1))
  {
    NextBlockOnly(sys, v, packet);
    SentShapes(v.saved + 1);
    ServerChanges(sys, v, o, v.(saved := v.saved + 1));
  }

  lemma PartFits(disk: Bytes, part: Bytes, payload: Bytes)
    requires part <= payload
    ensures disk <= disk + part <= disk + payload
    ensures part == [] ==> disk + part == disk
  {
  }

  /** What a failing write leaves on the disk. */
  lemma RemnantFits(sys: System, v: View, packet: Bytes, io: S.Io)
    requires SystemInv(sys, v) && packet in sys.toServer && IsDataPacket(packet) && Word(packet) > v.saved
    ensures var file := sys.client.file;
            var disk := FileUpTo(file, v.saved) + Remnant(sys.server.data, packet, io);
            && FileUpTo(file, v.saved) <= disk <= FileUpTo(file, v.saved + 1)
            && (io.write.WriteOk? ==> disk == FileUpTo(file, v.saved))
  {
    NextBlockOnly(sys, v, packet);
    PartFits(FileUpTo(sys.client.file, v.saved), Remnant(sys.server.data, packet, io), S.Payload(packet));
  }

  lemma SaveFailedKeepsInv(sys: System, v: View, packet: Bytes, io: S.Io, o: Outcome)
    requires SystemInv(sys, v) && WriteInv(sys.server) && packet in sys.toServer
    requires IsDataPacket(packet) && Word(packet) > v.saved && SaveFailed(sys.server.data, packet, io, o)
    ensures SystemInv(AfterServer(sys, o), v.(intact := v.intact && io.write.WriteOk?))
  {
    RemnantFits(sys, v, packet, io);
    SentShapes(v.saved);
    ServerChanges(sys, v, o, v.(intact := v.intact && io.write.WriteOk?));
  }

  lemma NotSavedKeepsInv(sys: System, v: View, o: Outcome)
    requires SystemInv(sys, v) && WriteInv(sys.server) && o.session.data.Valid()
    requires SameProgress(sys.server.data, o.session.data)
    requires DivertedInv(o.session) || o.session.phase.SendingError?
    requires o.sent == [] || o.sent == [S.ErrorPacket(4)]
    ensures SystemInv(AfterServer(sys, o), v)
  {
    SentShapes(v.saved);
    UpToIsPrefix(sys.client.file, v.saved);
    ServerChanges(sys, v, o, v);
  }

  /** What is known after a datagram has reached a server that waits for data. */
  function ViewAfter(d: S.Data, v: View, from: S.Endpoint, packet: Bytes, io: S.Io): View {
    if from != d.agreedRemote || !IsDataPacket(packet) || Word(packet) <= d.lastSavedBlock then v
    else if d.file.good && io.write.WriteOk? then v.(saved := v.saved + 1)
    else v.(intact := v.intact && io.write.WriteOk?)
  }

  lemma DataWaitKeepsInv(sys: System, v: View, from: S.Endpoint, packet: Bytes, io: S.Io)
    requires SystemInv(sys, v) && sys.server.phase.WaitingForData?
    requires Allowed(sys, ServerStep(Step(Datagram(from, packet), io)))
    ensures SystemInv(AfterServer(sys, Handle(sys.server, Datagram(from, packet), io)),
                      ViewAfter(sys.server.data, v, from, packet, io))
  {
    var d, o := sys.server.data, Handle(sys.server, Datagram(from, packet), io);
    WaitForData(sys.server, from, packet, io);
    if from == d.agreedRemote && IsDataPacket(packet) && Word(packet) > v.saved {
      if d.file.good && io.write.WriteOk? {
        SavedKeepsInv(sys, v, packet, o);
      } else {
        SaveFailedKeepsInv(sys, v, packet, io, o);
      }
    } else {
      NotSavedKeepsInv(sys, v, o);
    }
  }

  lemma DataWaitProceeds(sys: System, v: View, from: S.Endpoint, packet: Bytes, io: S.Io, o: Outcome)
    requires IsReceiving(sys.server) && sys.server.data.lastSavedBlock == v.saved
    requires DataWaitStep(sys.server.data, from, packet, io, o)
    requires from == sys.server.data.agreedRemote && IsDataPacket(packet) ==> Word(packet) <= v.saved + 1
    ensures Proceeds(sys, v, AfterServer(sys, o), ViewAfter(sys.server.data, v, from, packet, io))
  {
  }

  lemma DatagramKeepsInv(sys: System, v: View, from: S.Endpoint, packet: Bytes, io: S.Io) returns (next: View)
    requires SystemInv(sys, v) && sys.server.phase.WaitingForData?
    requires Allowed(sys, ServerStep(Step(Datagram(from, packet), io)))
    ensures SystemInv(AfterServer(sys, Handle(sys.server, Datagram(from, packet), io)), next)
    ensures Proceeds(sys, v, AfterServer(sys, Handle(sys.server, Datagram(from, packet), io)), next)
    ensures next.open == v.open && (v.intact && io.write.WriteOk? ==> next.intact)
  {
    next := ViewAfter(sys.server.data, v, from, packet, io);
    DataWaitKeepsInv(sys, v, from, packet, io);
    if from == sys.peer && IsDataPacket(packet) && Word(packet) > v.saved {
      NextBlockOnly(sys, v, packet);
    }
    WaitForData(sys.server, from, packet, io);
    DataWaitProceeds(sys, v, from, packet, io, Handle(sys.server, Datagram(from, packet), io));
  }

  lemma DivertedOutcomeKeepsInv(sys: System, v: View, o: Outcome)
    requires SystemInv(sys, v) && IsDiverted(sys.server) && DivertedStep(sys.server.data, o)
    ensures SystemInv(AfterServer(sys, o), v)
  {
    SentShapes(v.saved);
    UpToIsPrefix(sys.client.file, v.saved);
    ServerChanges(sys, v, o, v);
  }

  lemma DivertedKeepsInv(sys: System, v: View, step: Step)
    requires SystemInv(sys, v) && IsDiverted(sys.server) && Allowed(sys, ServerStep(step))
    ensures SystemInv(After(sys, ServerStep(step)), v)
    ensures Proceeds(sys, v, After(sys, ServerStep(step)), v)
  {
    DivertedStays(sys.server, step.input, step.io);
    DivertedOutcomeKeepsInv(sys, v, Handle(sys.server, step.input, step.io));
  }

  lemma TimerKeepsInv(sys: System, v: View)
    requires SystemInv(sys, v) && sys.server.phase.WaitingForData?
    ensures SystemInv(AfterServer(sys, AfterExpired(sys.server)), v)
    ensures Proceeds(sys, v, AfterServer(sys, AfterExpired(sys.server)), v)
  {
    SentShapes(v.saved);
    UpToIsPrefix(sys.client.file, v.saved);
    ResendAck(sys.server);
    ServerChanges(sys, v, AfterExpired(sys.server), v);
  }

  lemma SendDoneKeepsInv(sys: System, v: View)
    requires SystemInv(sys, v) && (sys.server.phase.SendingAck? || sys.server.phase.SendingError?)
    ensures SystemInv(AfterServer(sys, AfterSendDone(sys.server)), v)
    ensures Proceeds(sys, v, AfterServer(sys, AfterSendDone(sys.server)), v)
  {
    UpToIsPrefix(sys.client.file, v.saved);
    ServerChanges(sys, v, AfterSendDone(sys.server), v);
  }

  lemma ServerStepKeepsInv(sys: System, v: View, step: Step) returns (next: View)
    requires SystemInv(sys, v) && Allowed(sys, ServerStep(step))
    ensures SystemInv(After(sys, ServerStep(step)), next)
    ensures Proceeds(sys, v, After(sys, ServerStep(step)), next)
    ensures next.open == v.open && (v.intact && step.io.write.WriteOk? ==> next.intact)
  {
    next := v;
    if IsDiverted(sys.server) {
      DivertedKeepsInv(sys, v, step);
    } else {
      match step.input
      case SendDone =>
        OnSendDone(sys.server, step.io);
        SendDoneKeepsInv(sys, v);
      case Expired =>
        OnExpired(sys.server, step.io);
        TimerKeepsInv(sys, v);
      case Datagram(from, packet) =>
        next := DatagramKeepsInv(sys, v, from, packet, step.io);
    }
  }

  /** What is known when the request has arrived. */
  function FirstView(request: Request, lookup: S.Lookup): View {
    View(0, true, !S.Refused(request, lookup) && lookup.open.Opened?)
  }

  lemma BeginEstablishesInv(s: Session, peer: S.Endpoint, packet: Bytes, io: S.Io, file: Bytes)
    requires R.IsIdle(s) && s.data.Valid() && Raises(s, Datagram(peer, packet)) && OpCode(packet) == WRITE_REQUEST
    ensures SystemInv(Begin(s, peer, packet, io, file), FirstView(ParseRequest(packet), io.lookup))
  {
    WriteSessionStarts(s, peer, packet, io);
    var o := Handle(s, Datagram(peer, packet), io);
    StartedIsConsistent(s, o, ParseRequest(packet), io, peer, file);
  }

  lemma StartedIsConsistent(s: Session, o: Outcome, request: Request, io: S.Io, peer: S.Endpoint, file: Bytes)
    requires WriteStarted(o, request, io, peer)
    ensures SystemInv(AfterServer(System(s, Client(file, 0, false), peer, [], {}, {}), o),
                      FirstView(request, io.lookup))
  {
    SentShapes(0);
    UpToIsPrefix(file, 0);
    assert FileUpTo(file, 0) == [];
  }

  predicate NoWriteFails(steps: seq<NetStep>) {
    forall i :: 0 <= i < |steps| && steps[i].ServerStep? ==> steps[i].step.io.write.WriteOk?
  }

  lemma StepKeepsInv(sys: System, v: View, n: NetStep) returns (next: View)
    requires SystemInv(sys, v) && Allowed(sys, n)
    ensures SystemInv(After(sys, n), next) && Proceeds(sys, v, After(sys, n), next)
    ensures next.open == v.open && (v.intact && (n.ServerStep? ==> n.step.io.write.WriteOk?) ==> next.intact)
    ensures After(sys, n).client.file == sys.client.file
  {
    next := v;
    if n.ServerStep? {
      next := ServerStepKeepsInv(sys, v, n.step);
    } else {
      ClientStepKeepsInv(sys, v, n);
    }
  }

  lemma {:induction false} RunKeepsInv(sys: System, v: View, steps: seq<NetStep>) returns (final: View)
    requires SystemInv(sys, v) && Runnable(sys, steps)
    ensures SystemInv(AfterAll(sys, steps), final) && AfterAll(sys, steps).client.file == sys.client.file
    ensures Proceeds(sys, v, AfterAll(sys, steps), final)
    ensures final.open == v.open && (v.intact && NoWriteFails(steps) ==> final.intact)
    decreases |steps|
  {
    final := v;
    if steps != [] {
      var next := StepKeepsInv(sys, v, steps[0]);
      assert NoWriteFails(steps) ==> NoWriteFails(steps[1..]);
      final := RunKeepsInv(After(sys, steps[0]), next, steps[1..]);
    }
  }

  // ---- Safety ----

  /** The file on the server is the blocks of `file` up to block `k`, the one last saved as long as
      that number is kept. */
  predicate HoldsBlocks(sys: System, file: Bytes, k: nat) {
    && k <= LastBlock(file) && sys.disk == FileUpTo(file, k)
    && (!sys.server.phase.Accepting? ==> sys.server.data.lastSavedBlock == k)
  }

  /** Whatever the network does, the file on the server is a prefix of the client's file; if no write
      fails it is exactly the blocks up to `lastSavedBlock`, also when an error is pending and after
      the session; while the session receives or is diverted it is that in any case; and a client
      whose last block has been acknowledged has its whole file on the server. */
  lemma WriteIsSafe(s: Session, peer: S.Endpoint, packet: Bytes, io: S.Io, file: Bytes, steps: seq<NetStep>)
    requires R.IsIdle(s) && s.data.Valid() && Raises(s, Datagram(peer, packet)) && OpCode(packet) == WRITE_REQUEST
    requires Runnable(Begin(s, peer, packet, io, file), steps)
    ensures var sys := AfterAll(Begin(s, peer, packet, io, file), steps);
            && sys.disk <= file
            && (NoWriteFails(steps) ==> exists k: nat :: HoldsBlocks(sys, file, k))
            && (IsReceiving(sys.server) || IsDiverted(sys.server) ==>
                  && HoldsBlocks(sys, file, sys.server.data.lastSavedBlock)
                  && sys.server.data.file.contents == sys.disk)
            && (sys.client.done ==> sys.disk == file)
  {
    var begin := Begin(s, peer, packet, io, file);
    BeginEstablishesInv(s, peer, packet, io, file);
    var v := RunKeepsInv(begin, FirstView(ParseRequest(packet), io.lookup), steps);
    UpToIsPrefix(file, v.saved);
    UpToIsPrefix(file, v.saved + 1);
    R.MoreBlocks(Blocks(file), LastBlock(file));
    assert v.intact || IsReceiving(AfterAll(begin, steps).server) || IsDiverted(AfterAll(begin, steps).server) ==>
        HoldsBlocks(AfterAll(begin, steps), file, v.saved);
  }
}
