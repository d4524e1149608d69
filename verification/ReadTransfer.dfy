/** A read session end to end: the server, a client of RFC 1350, and a network that loses,
    duplicates, delays and reorders packets and carries those of strangers. */
module ReadTransfer {
  import opened Octets
  import opened Options
  import opened Oack
  import opened RequestParser
  import opened Machine
  import opened Runs
  import opened StopAndWait
  import opened ReadSession
  import opened ReadRuns
  import Paths
  import S = SessionData

  // ---- The client ----

  /** The client expects block `received + 1`, numbers blocks without wrapping around, and learns
      the block size from the option acknowledgment. */
  datatype Client = Client(blockSize: nat, gotOack: bool, received: nat, bytes: Bytes, done: bool)

  const NEW_CLIENT := Client(S.DEFAULT_BLOCK_SIZE, false, 0, [], false)

  function AcceptOack(c: Client, p: Bytes): Client
    requires SHORT_HEADER_SIZE <= |p|
  {
    var b := DecodeOack(p).blockSize;
    c.(gotOack := true, blockSize := if b.Some? then b.value else S.DEFAULT_BLOCK_SIZE)
  }

  function AcceptBlock(c: Client, p: Bytes): Client
    requires HEADER_SIZE <= |p|
  {
    var payload := S.Payload(p);
    c.(received := c.received + 1, bytes := c.bytes + payload, done := |payload| < c.blockSize)
  }

  predicate IsOack(p: Bytes) { |p| >= HEADER_SIZE && OpCode(p) == OPTION_ACKNOWLEDGMENT }

  /** The client after a packet, and the acknowledgments it sends. */
  function Receive(c: Client, p: Bytes): (Client, set<Bytes>) {
    if IsOack(p) && c.received == 0 then (AcceptOack(c, p), {S.AckPacket(0)})
    else if IsDataPacket(p) && Word(p) == c.received + 1 && !c.done then
      (AcceptBlock(c, p), {S.AckPacket(c.received + 1)})
    else if IsDataPacket(p) && Word(p) == c.received then (c, {S.AckPacket(c.received)})
    else (c, {})
  }

  // ---- The system ----

  /** Every packet ever sent stays in the network, so it may arrive late, again, or never. */
  datatype System = System(server: Session, client: Client, peer: S.Endpoint,
    toClient: set<Bytes>, toServer: set<Bytes>)

  datatype NetStep =
    | ServerStep(step: Step)
    | ClientReceives(packet: Bytes)
    | ClientRepeats
    | ClientAborts(packet: Bytes)

  /** The server takes from its peer only what the client sent, and anything from anyone else. */
  predicate Allowed(sys: System, n: NetStep) {
    match n
    case ServerStep(step) =>
      && InSession(sys.server) && Raises(sys.server, step.input)
      && (step.input.Datagram? && step.input.from == sys.peer ==> step.input.packet in sys.toServer)
    case ClientReceives(p) => p in sys.toClient
    case ClientRepeats => sys.client.received >= 1
    case ClientAborts(p) => IsErrorPacket(p)
  }

  function After(sys: System, n: NetStep): System
    requires Allowed(sys, n)
  {
    match n
    case ServerStep(step) =>
      var o := Handle(sys.server, step.input, step.io);
      sys.(server := o.session, toClient := sys.toClient + (set p | p in o.sent))
    case ClientReceives(p) =>
      var (c, acks) := Receive(sys.client, p);
      sys.(client := c, toServer := sys.toServer + acks)
    case ClientRepeats => sys.(toServer := sys.toServer + {S.AckPacket(sys.client.received)})
    case ClientAborts(p) => sys.(toServer := sys.toServer + {p})
  }

  function Move(sys: System, n: NetStep): Option<System> {
    if Allowed(sys, n) then Some(After(sys, n)) else None
  }

  predicate Runnable(sys: System, steps: seq<NetStep>) { Paths.Runnable(Move, sys, steps) }

  function AfterAll(sys: System, steps: seq<NetStep>): System
    requires Runnable(sys, steps)
  {
    Paths.AfterAll(Move, sys, steps)
  }

  predicate IsDone(sys: System) { sys.client.done }

  /** The client can still come to its end. */
  ghost predicate CanComplete(sys: System) { Paths.CanReach(Move, IsDone, sys) }

  /** The request of `peer` has just reached a listening server. */
  function Begin(s: Session, peer: S.Endpoint, packet: Bytes, io: S.Io): System
    requires s.data.Valid() && Raises(s, Datagram(peer, packet))
  {
    var o := Handle(s, Datagram(peer, packet), io);
    System(o.session, NEW_CLIENT, peer, set p | p in o.sent, {})
  }

  // ---- The invariant ----

  /** The packets numbered below `bound` have been sent. */
  ghost predicate SentBelow(t: Transfer, bound: nat, p: Bytes) {
    OpCode(p) == ERROR || exists j: nat :: FirstPacket(t) <= j < bound && p == PacketNo(t, j)
  }

  predicate ClientInv(c: Client, t: Transfer, bound: nat)
    requires WellFormed(t)
  {
    && c.received <= MAX_WORD && (c.received == 0 || c.received < bound)
    && c.bytes == t.contents[..BlockEnd(t, c.received)]
    && (c.gotOack || FirstPacket(t) == 1 ==> c.blockSize == t.blockSize)
    && (c.done <==> c.received == LastBlock(t))
  }

  predicate AckInv(c: Client, t: Transfer, p: Bytes) {
    if IsAckPacket(p) then Word(p) <= c.received && (Word(p) == 0 ==> c.gotOack) else IsErrorPacket(p)
  }

  predicate ServerInv(s: Session, t: Transfer, bound: nat) {
    if IsActive(s) then
      ReadInv(s) && TransferOf(s.data) == t && s.data.lastSentBlock + 1 == bound
    else s.data.Valid() && (s.phase.SendingError? || s.phase.Accepting?)
  }

  predicate TransferInv(t: Transfer, bound: nat) {
    && WellFormed(t) && FirstPacket(t) <= bound <= LastBlock(t) + 1 && bound <= 65537
    && (t.agreed.blockSize.None? ==> t.blockSize == S.DEFAULT_BLOCK_SIZE)
    && (t.agreed.blockSize.Some? ==> t.blockSize == t.agreed.blockSize.value)
  }

  ghost predicate SystemInv(sys: System, t: Transfer, bound: nat) {
    && TransferInv(t, bound) && sys.peer == t.peer
    && ServerInv(sys.server, t, bound)
    && ClientInv(sys.client, t, bound)
    && bound <= sys.client.received + 2
    && (FirstPacket(t) == 0 && bound >= 2 ==> sys.client.gotOack)
    && (forall p :: p in sys.toClient ==> SentBelow(t, bound, p))
    && (forall p :: p in sys.toServer ==> AckInv(sys.client, t, p))
  }

  /** Every packet numbered below `bound` is in the network. */
  ghost predicate AllSent(sys: System, t: Transfer, bound: nat) {
    forall j: nat :: FirstPacket(t) <= j < bound ==> PacketNo(t, j) in sys.toClient
  }

  /** A step sends no packet, or the next one. */
  ghost predicate SendsNext(sys: System, t: Transfer, bound: nat, newBound: nat) {
    newBound == bound || (newBound == bound + 1 && PacketNo(t, bound) in sys.toClient)
  }

  // ---- The client's steps ----

  lemma AckShape(k: nat)
    requires k <= MAX_WORD
    ensures IsAckPacket(S.AckPacket(k)) && Word(S.AckPacket(k)) == k
  {
    HeaderRoundTrip(ACKNOWLEDGMENT, k, []);
    assert Header(ACKNOWLEDGMENT, k) + [] == S.AckPacket(k);
  }

  lemma OackIsUnderstood(sys: System, t: Transfer, bound: nat, p: Bytes)
    requires SystemInv(sys, t, bound) && p in sys.toClient && IsOack(p)
    ensures FirstPacket(t) == 0 && AcceptOack(sys.client, p).blockSize == t.blockSize
  {
    var j: nat :| FirstPacket(t) <= j < bound && p == PacketNo(t, j);
    if j >= 1 { WireNumber(t, j); }
    OackRoundTrip(t.agreed);
  }

  lemma BlockIsNext(sys: System, t: Transfer, bound: nat, p: Bytes)
    requires SystemInv(sys, t, bound) && p in sys.toClient && IsDataPacket(p)
    requires Word(p) == sys.client.received + 1
    ensures var k := sys.client.received + 1;
            && FirstPacket(t) <= k < bound && S.Payload(p) == Block(t, k)
            && sys.client.blockSize == t.blockSize
  {
    var k := sys.client.received + 1;
    var j := DataNumber(sys, t, bound, p);
    assert j == k;
    assert p == S.DataPacket(k, Block(t, k));
  }

  lemma BlockIsAppended(c: Client, t: Transfer, bound: nat, p: Bytes)
    requires TransferInv(t, bound) && ClientInv(c, t, bound)
    requires HEADER_SIZE <= |p| && c.received + 1 < bound && c.received + 1 <= MAX_WORD
             && S.Payload(p) == Block(t, c.received + 1)
    requires c.blockSize == t.blockSize
    ensures ClientInv(AcceptBlock(c, p), t, bound)
  {
    var k := c.received + 1;
    BlockEndsAreOrdered(t, k);
    BlockLength(t, k);
    assert t.contents[..BlockEnd(t, k - 1)] + Block(t, k) == t.contents[..BlockEnd(t, k)];
  }

  /** The client's own knowledge and acknowledgments only grow. */
  lemma ClientChanges(sys: System, t: Transfer, bound: nat, c: Client, acks: set<Bytes>)
    requires SystemInv(sys, t, bound) && ClientInv(c, t, bound)
    requires sys.client.received <= c.received && (sys.client.gotOack ==> c.gotOack)
    requires forall p :: p in acks ==> AckInv(c, t, p)
    ensures SystemInv(sys.(client := c, toServer := sys.toServer + acks), t, bound)
  {
    forall p | p in sys.toServer
      ensures AckInv(c, t, p)
    {
      assert AckInv(sys.client, t, p);
    }
  }

  lemma OackKeepsInv(sys: System, t: Transfer, bound: nat, p: Bytes)
    requires SystemInv(sys, t, bound) && p in sys.toClient && IsOack(p) && sys.client.received == 0
    ensures SystemInv(sys.(client := AcceptOack(sys.client, p), toServer := sys.toServer + {S.AckPacket(0)}), t, bound)
  {
    OackIsUnderstood(sys, t, bound, p);
    AckShape(0);
    ClientChanges(sys, t, bound, AcceptOack(sys.client, p), {S.AckPacket(0)});
  }

  lemma BlockKeepsInv(sys: System, t: Transfer, bound: nat, p: Bytes)
    requires SystemInv(sys, t, bound) && p in sys.toClient && IsDataPacket(p)
    requires Word(p) == sys.client.received + 1
    ensures var ack := S.AckPacket(sys.client.received + 1);
            SystemInv(sys.(client := AcceptBlock(sys.client, p), toServer := sys.toServer + {ack}), t, bound)
  {
    BlockIsNext(sys, t, bound, p);
    BlockIsAppended(sys.client, t, bound, p);
    AckShape(sys.client.received + 1);
    ClientChanges(sys, t, bound, AcceptBlock(sys.client, p), {S.AckPacket(sys.client.received + 1)});
  }

  lemma ReceiveKeepsInv(sys: System, t: Transfer, bound: nat, p: Bytes)
    requires SystemInv(sys, t, bound) && p in sys.toClient
    ensures SystemInv(After(sys, ClientReceives(p)), t, bound)
  {
    var c := sys.client;
    if IsOack(p) && c.received == 0 {
      OackKeepsInv(sys, t, bound, p);
    } else if IsDataPacket(p) && Word(p) == c.received + 1 && !c.done {
      BlockKeepsInv(sys, t, bound, p);
    } else if IsDataPacket(p) && Word(p) == c.received {
      DuplicateIsKnown(sys, t, bound, p);
      ClientChanges(sys, t, bound, c, {S.AckPacket(c.received)});
    } else {
      ClientChanges(sys, t, bound, c, {});
    }
  }

  lemma DataNumber(sys: System, t: Transfer, bound: nat, p: Bytes) returns (j: nat)
    requires SystemInv(sys, t, bound) && p in sys.toClient && IsDataPacket(p)
    ensures 1 <= j < bound && p == PacketNo(t, j) && Word(p) == j % 65536
  {
    assert SentBelow(t, bound, p);
    j :| FirstPacket(t) <= j < bound && p == PacketNo(t, j);
    OackOpCode(t);
    if j >= 1 { WireNumber(t, j); }
  }

  lemma DuplicateIsKnown(sys: System, t: Transfer, bound: nat, p: Bytes)
    requires SystemInv(sys, t, bound) && p in sys.toClient && IsDataPacket(p) && Word(p) == sys.client.received
    ensures AckInv(sys.client, t, S.AckPacket(sys.client.received))
  {
    var k := sys.client.received;
    var j := DataNumber(sys, t, bound, p);
    assert j % 65536 == 0 ==> j >= 65536;
    AckShape(k);
  }

  lemma ClientStepKeepsInv(sys: System, t: Transfer, bound: nat, n: NetStep)
    requires SystemInv(sys, t, bound) && Allowed(sys, n) && !n.ServerStep?
    ensures SystemInv(After(sys, n), t, bound)
  {
    match n
    case ClientReceives(p) => ReceiveKeepsInv(sys, t, bound, p);
    case ClientRepeats =>
      AckShape(sys.client.received);
      ClientChanges(sys, t, bound, sys.client, {S.AckPacket(sys.client.received)});
    case ClientAborts(p) =>
      ClientChanges(sys, t, bound, sys.client, {p});
  }

  // ---- The server's steps ----

  /** An acknowledgment that the server accepts is of a block the client has. */
  lemma ExactAckIsKnown(sys: System, t: Transfer, bound: nat, step: Step)
    requires SystemInv(sys, t, bound) && Allowed(sys, ServerStep(step)) && IsActive(sys.server)
    requires IsExactAck(Abs(sys.server), Classify(sys.server, step.input, step.io))
    ensures sys.server.data.lastSentBlock <= sys.client.received
    ensures sys.server.data.lastSentBlock == 0 ==> sys.client.gotOack
  {
    assert AckInv(sys.client, t, step.input.packet);
  }

  lemma ServerChanges(sys: System, t: Transfer, bound: nat, o: Outcome, newBound: nat)
    requires SystemInv(sys, t, bound) && TransferInv(t, newBound) && ServerInv(o.session, t, newBound)
    requires bound <= newBound <= sys.client.received + 2
    requires FirstPacket(t) == 0 && newBound >= 2 ==> sys.client.gotOack
    requires forall p :: p in o.sent ==> SentBelow(t, newBound, p)
    ensures SystemInv(sys.(server := o.session, toClient := sys.toClient + (set p | p in o.sent)), t, newBound)
  {
    forall p | p in sys.toClient
      ensures SentBelow(t, newBound, p)
    {
      assert SentBelow(t, bound, p);
    }
  }

  lemma ErrorIsSentBelow(t: Transfer, bound: nat, code: nat)
    ensures SentBelow(t, bound, S.ErrorPacket(code))
  {
    HeaderRoundTrip(ERROR, code, [NUL]);
  }

  lemma PacketStepKeepsInv(sys: System, t: Transfer, bound: nat, step: Step, signal: Signal, o: Outcome)
    returns (newBound: nat)
    requires SystemInv(sys, t, bound) && Allowed(sys, ServerStep(step)) && IsActive(sys.server)
    requires signal == Classify(sys.server, step.input, step.io)
             && Simulates(Abs(sys.server), sys.server.data, signal, o)
    requires Next(Abs(sys.server), signal, LastBlock(t)).1.Some?
    requires Next(Abs(sys.server), signal, LastBlock(t)).1.value.Packet?
    ensures SystemInv(sys.(server := o.session, toClient := sys.toClient + (set p | p in o.sent)), t, newBound)
    ensures newBound == bound || (newBound == bound + 1 && o.sent == [PacketNo(t, bound)])
  {
    PacketIsSent(sys.server, signal, o);
    var k := o.session.data.lastSentBlock;
    newBound := k + 1;
    if !signal.Timer? {
      ExactAckIsKnown(sys, t, bound, step);
    }
    assert o.sent == [PacketNo(t, k)];
    ServerChanges(sys, t, bound, o, newBound);
  }

  lemma OtherStepKeepsInv(sys: System, t: Transfer, bound: nat, signal: Signal, o: Outcome)
    requires SystemInv(sys, t, bound) && IsActive(sys.server)
    requires Simulates(Abs(sys.server), sys.server.data, signal, o)
    requires var m := Next(Abs(sys.server), signal, LastBlock(t)).1; m.None? || !m.value.Packet?
    ensures SystemInv(sys.(server := o.session, toClient := sys.toClient + (set p | p in o.sent)), t, bound)
  {
    ErrorIsSentBelow(t, bound, 4);
    ErrorIsSentBelow(t, bound, 3);
    ServerChanges(sys, t, bound, o, bound);
  }

  lemma ActiveStepKeepsInv(sys: System, t: Transfer, bound: nat, step: Step) returns (newBound: nat)
    requires SystemInv(sys, t, bound) && Allowed(sys, ServerStep(step)) && IsActive(sys.server)
    ensures SystemInv(After(sys, ServerStep(step)), t, newBound)
    ensures SendsNext(After(sys, ServerStep(step)), t, bound, newBound)
  {
    var signal := Classify(sys.server, step.input, step.io);
    var o := Handle(sys.server, step.input, step.io);
    ReadRefinesStopAndWait(sys.server, step.input, step.io);
    var m := Next(Abs(sys.server), signal, LastBlock(t)).1;
    newBound := bound;
    if m.Some? && m.value.Packet? {
      newBound := PacketStepKeepsInv(sys, t, bound, step, signal, o);
    } else {
      OtherStepKeepsInv(sys, t, bound, signal, o);
    }
  }

  lemma StepKeepsInv(sys: System, t: Transfer, bound: nat, n: NetStep) returns (newBound: nat)
    requires SystemInv(sys, t, bound) && Allowed(sys, n)
    ensures SystemInv(After(sys, n), t, newBound) && SendsNext(After(sys, n), t, bound, newBound)
    ensures !IsActive(sys.server) ==> newBound == bound && !IsActive(After(sys, n).server)
  {
    newBound := bound;
    if !n.ServerStep? {
      ClientStepKeepsInv(sys, t, bound, n);
    } else if IsActive(sys.server) {
      newBound := ActiveStepKeepsInv(sys, t, bound, n.step);
    } else {
      OnSendDone(sys.server, n.step.io);
      ServerChanges(sys, t, bound, Quiet(Idle(sys.server.data)), bound);
    }
  }

  lemma NewClientIsConsistent(request: Request, lookup: S.Lookup, peer: S.Endpoint)
    requires WellFormed(Requested(request, lookup, peer))
    ensures forall bound: nat :: ClientInv(NEW_CLIENT, Requested(request, lookup, peer), bound)
    ensures LastBlock(Requested(request, lookup, peer)) >= 1
  {
    var t := Requested(request, lookup, peer);
    assert BlockEnd(t, 0) == 0 by { assert 0 * t.blockSize == 0; }
    MoreBlocks(t, 1);
  }

  lemma StartedIsConsistent(o: Outcome, request: Request, io: S.Io, peer: S.Endpoint) returns (bound: nat)
    requires ReadStarted(o, request, io, peer) && o.session.data.Valid()
    ensures SystemInv(System(o.session, NEW_CLIENT, peer, set p | p in o.sent, {}),
                      Requested(request, io.lookup, peer), bound)
    ensures bound == FirstPacket(Requested(request, io.lookup, peer)) + if IsActive(o.session) then 1 else 0
  {
    var t := Requested(request, io.lookup, peer);
    RequestedIsWellFormed(request, io.lookup, peer);
    NewClientIsConsistent(request, io.lookup, peer);
    bound := FirstPacket(t);
    if o.session.phase.SendingData? {
      bound := FirstPacket(t) + 1;
    } else {
      ErrorIsSentBelow(t, bound, S.RefusalCode(request));
      ErrorIsSentBelow(t, bound, 3);
    }
  }

  lemma BeginEstablishesInv(s: Session, peer: S.Endpoint, packet: Bytes, io: S.Io) returns (bound: nat)
    requires IsIdle(s) && s.data.Valid() && Raises(s, Datagram(peer, packet)) && OpCode(packet) == READ_REQUEST
    ensures SystemInv(Begin(s, peer, packet, io), Requested(ParseRequest(packet), io.lookup, peer), bound)
    ensures var t := Requested(ParseRequest(packet), io.lookup, peer);
            bound == FirstPacket(t) + if IsActive(Begin(s, peer, packet, io).server) then 1 else 0
  {
    ReadSessionStarts(s, peer, packet, io);
    bound := StartedIsConsistent(Handle(s, Datagram(peer, packet), io), ParseRequest(packet), io, peer);
  }

  lemma RequestedIsWellFormed(request: Request, lookup: S.Lookup, peer: S.Endpoint)
    ensures WellFormed(Requested(request, lookup, peer))
  {
    if GetTimeOut(request.timeOut).Some? {
      S.TimeOutIsInRange(request.timeOut);
    }
  }

  lemma AllSentStays(sys: System, next: System, t: Transfer, bound: nat, newBound: nat)
    requires SendsNext(next, t, bound, newBound) && sys.toClient <= next.toClient
    ensures AllSent(sys, t, bound) ==> AllSent(next, t, newBound)
  {
  }

  lemma {:induction false} RunKeepsInv(sys: System, t: Transfer, bound: nat, steps: seq<NetStep>)
    returns (newBound: nat)
    requires SystemInv(sys, t, bound) && Runnable(sys, steps)
    ensures SystemInv(AfterAll(sys, steps), t, newBound)
    ensures AllSent(sys, t, bound) ==> AllSent(AfterAll(sys, steps), t, newBound)
    decreases |steps|
  {
    newBound := bound;
    if steps != [] {
      newBound := StepKeepsInv(sys, t, bound, steps[0]);
      AllSentStays(sys, After(sys, steps[0]), t, bound, newBound);
      newBound := RunKeepsInv(After(sys, steps[0]), t, newBound, steps[1..]);
    }
  }

  // ---- Safety ----

  /** Whatever the network does, the client's bytes are a prefix of the file at all times; a client
      that has seen a short block holds the whole file. */
  lemma ReadIsSafe(s: Session, peer: S.Endpoint, packet: Bytes, io: S.Io, steps: seq<NetStep>)
    requires IsIdle(s) && s.data.Valid() && Raises(s, Datagram(peer, packet)) && OpCode(packet) == READ_REQUEST
    requires Runnable(Begin(s, peer, packet, io), steps)
    ensures var c := AfterAll(Begin(s, peer, packet, io), steps).client;
            c.bytes <= Readable(io.lookup) && (c.done ==> c.bytes == Readable(io.lookup))
  {
    var t := Requested(ParseRequest(packet), io.lookup, peer);
    var bound := BeginEstablishesInv(s, peer, packet, io);
    bound := RunKeepsInv(Begin(s, peer, packet, io), t, bound, steps);
    LastBlockEndsTheFile(t);
  }

  /** The step by which the server ends a session on the acknowledgment of the last block. */
  predicate EndsOnFinalAck(sys: System, last: Step) {
    && Allowed(sys, ServerStep(last)) && IsActive(sys.server)
    && IsExactAck(Abs(sys.server), Classify(sys.server, last.input, last.io))
    && After(sys, ServerStep(last)).server.phase.Accepting?
  }

  lemma FinalAckIsKnown(sys: System, t: Transfer, bound: nat, last: Step)
    requires SystemInv(sys, t, bound) && EndsOnFinalAck(sys, last)
    ensures sys.client.received == LastBlock(t)
  {
    FinalAckIsOfLastBlock(sys.server, last.input, last.io);
    ExactAckIsKnown(sys, t, bound, last);
  }

  /** When the server ends the session on a final acknowledgment, the client holds the whole file. */
  lemma FinalAckMeansDelivered(s: Session, peer: S.Endpoint, packet: Bytes, io: S.Io, steps: seq<NetStep>, last: Step)
    requires IsIdle(s) && s.data.Valid() && Raises(s, Datagram(peer, packet)) && OpCode(packet) == READ_REQUEST
    requires Runnable(Begin(s, peer, packet, io), steps)
    requires EndsOnFinalAck(AfterAll(Begin(s, peer, packet, io), steps), last)
    ensures AfterAll(Begin(s, peer, packet, io), steps).client.bytes == Readable(io.lookup)
  {
    var t := Requested(ParseRequest(packet), io.lookup, peer);
    var bound := BeginEstablishesInv(s, peer, packet, io);
    bound := RunKeepsInv(Begin(s, peer, packet, io), t, bound, steps);
    FinalAckIsKnown(AfterAll(Begin(s, peer, packet, io), steps), t, bound, last);
    LastBlockEndsTheFile(t);
  }

  /** A client that is done holds the file that was asked for if and only if the file opened or is
      empty: what the server could not open it serves as an empty file. */
  lemma ReadableIsTheFile(s: Session, peer: S.Endpoint, packet: Bytes, io: S.Io, steps: seq<NetStep>)
    requires IsIdle(s) && s.data.Valid() && Raises(s, Datagram(peer, packet)) && OpCode(packet) == READ_REQUEST
    requires Runnable(Begin(s, peer, packet, io), steps)
    requires AfterAll(Begin(s, peer, packet, io), steps).client.done
    ensures AfterAll(Begin(s, peer, packet, io), steps).client.bytes == io.lookup.contents
            <==> io.lookup.open.Opened? || io.lookup.contents == []
  {
    ReadIsSafe(s, peer, packet, io, steps);
  }
}
