/** What a client sees in answer to what it sends, in octets. */
module Answers {
  import opened Octets
  import opened Options
  import opened Tokenizer
  import opened RequestParser
  import opened Oack
  import opened Machine
  import opened Independence
  import opened WireFormat
  import S = SessionData
  import R = ReadSession
  import W = WriteSession

  /** An ERROR packet with an empty message. */
  function ErrorAnswer(code: nat): seq<Bytes>
    requires code < 256
  {
    [Raw([0, 5, 0, code, 0])]
  }

  lemma ErrorIsAnswered(code: nat)
    requires code < 256
    ensures [S.ErrorPacket(code)] == ErrorAnswer(code)
  {
    ErrorPacketOctets(code);
  }

  predicate Requests(s: Session, from: S.Endpoint, packet: Bytes, opCode: nat)
    requires opCode < 256
  {
    R.IsIdle(s) && s.data.Valid() && Raises(s, Datagram(from, packet)) && packet[..2] == Raw([0, opCode])
  }

  // ---- Requests ----

  /** The first answer to a read request. */
  predicate ReadAnswer(o: Outcome, request: Request, io: S.Io, from: S.Endpoint) {
    var t := R.Requested(request, io.lookup, from);
    if !NamesMode(request.mode) then o.session.phase.SendingError? && o.sent == ErrorAnswer(4)
    else if !io.lookup.found || io.lookup.open.BadBit? then o.session.phase.SendingError? && o.sent == ErrorAnswer(1)
    else if t.agreed != R.NO_OPTIONS then o.session.phase.SendingData? && o.sent == [OackPacket(t.agreed)]
    else if io.read.ReadBad? && io.lookup.open.Opened? then o.session.phase.SendingError? && o.sent == ErrorAnswer(3)
    else o.session.phase.SendingData? && o.sent == [Raw([0, 3, 0, 1]) + R.Block(t, 1)]
  }

  lemma ReadRequestIsAnswered(s: Session, from: S.Endpoint, packet: Bytes, io: S.Io)
    requires Requests(s, from, packet, 1)
    ensures ReadAnswer(Handle(s, Datagram(from, packet), io), ParseRequest(packet), io, from)
  {
    OpCodesOnTheWire(packet);
    R.ReadSessionStarts(s, from, packet, io);
    StartedIsAnswered(Handle(s, Datagram(from, packet), io), ParseRequest(packet), io, from);
  }

  lemma StartedIsAnswered(o: Outcome, request: Request, io: S.Io, from: S.Endpoint)
    requires R.ReadStarted(o, request, io, from)
    ensures ReadAnswer(o, request, io, from)
  {
    ErrorIsAnswered(1);
    ErrorIsAnswered(3);
    ErrorIsAnswered(4);
    DataPacketOctets(1, R.Block(R.Requested(request, io.lookup, from), 1));
  }

  /** The first answer to a write request. */
  predicate WriteAnswer(o: Outcome, request: Request, lookup: S.Lookup) {
    if !NamesMode(request.mode) then o.session.phase.SendingError? && o.sent == ErrorAnswer(4)
    else if !lookup.found || lookup.open.BadBit? then o.session.phase.SendingError? && o.sent == ErrorAnswer(1)
    else o.session.phase.SendingAck? && o.sent == [Raw([0, 4, 0, 0])]
  }

  lemma WriteRequestIsAnswered(s: Session, from: S.Endpoint, packet: Bytes, io: S.Io)
    requires Requests(s, from, packet, 2)
    ensures WriteAnswer(Handle(s, Datagram(from, packet), io), ParseRequest(packet), io.lookup)
  {
    OpCodesOnTheWire(packet);
    W.WriteSessionStarts(s, from, packet, io);
    ErrorIsAnswered(1);
    ErrorIsAnswered(4);
    AckPacketOctets(0);
  }

  lemma EmptyNamesNoMode()
    ensures !NamesMode([])
  {
    assert |"octet"| == 5 && |"netascii"| == 8 && |"mail"| == 4;
  }

  /** A request with at most one NUL behind its opcode has no mode and is refused. */
  lemma ModelessRequestIsRefused(s: Session, from: S.Endpoint, packet: Bytes, io: S.Io)
    requires Requests(s, from, packet, 1) || Requests(s, from, packet, 2)
    requires CountNul(packet[2..]) <= 1
    ensures var o := Handle(s, Datagram(from, packet), io);
            o.session.phase.SendingError? && o.sent == ErrorAnswer(4) && o.written == []
  {
    ModelessRequest(packet);
    EmptyNamesNoMode();
    OpCodesOnTheWire(packet);
    if Requests(s, from, packet, 1) {
      ReadRequestIsAnswered(s, from, packet, io);
      R.ReadSessionStarts(s, from, packet, io);
    } else {
      WriteRequestIsAnswered(s, from, packet, io);
      W.WriteSessionStarts(s, from, packet, io);
    }
  }

  /** `a` is what the options of a request come to: a block size of 8 to 65464, a time out of 1 to 255
      seconds, and the size of the file for a client that offers 0. A value that is no numeral in its
      range comes to nothing. */
  ghost predicate ComesTo(options: seq<Pair>, size: Option<nat>, a: Agreed) {
    && (forall v: nat :: a.blockSize == Some(v) <==> Denotes(LastValue(options, "blksize", []), v) && 8 <= v <= 65464)
    && (forall v: nat :: a.timeOut == Some(v) <==> Denotes(LastValue(options, "timeout", []), v) && 1 <= v <= 255)
    && a.transferSize == if Denotes(LastValue(options, "tsize", []), 0) then size else None
  }

  function AgreedSize(a: Agreed): nat { if a.blockSize.Some? then a.blockSize.value else 512 }

  function Prefix(s: Bytes, n: nat): Bytes { if n < |s| then s[..n] else s }

  /** The packet that opens a transfer: the option acknowledgment, or block 1 when no option is
      agreed. */
  function Opening(a: Agreed, contents: Bytes): Bytes {
    if a == Agreed(None, None, None) then Raw([0, 3, 0, 1]) + Prefix(contents, AgreedSize(a))
    else
      Raw([0, 6]) + OptionText("blksize", a.blockSize) + OptionText("timeout", a.timeOut)
      + OptionText("tsize", a.transferSize)
  }

  /** A read request as a client writes it, its mode and option names in any mixture of cases, for a
      file that is found and opens, is answered with the packet that its options call for. */
  lemma EncodedReadIsServed(s: Session, from: S.Endpoint, io: S.Io, fileName: Bytes, mode: Bytes, options: seq<Pair>,
                            lone: seq<Bytes>, tail: Bytes, a: Agreed)
    requires NulFree(fileName) && NulFree(mode) && PairsNulFree(options) && |lone| <= 1 && AllNulFree(lone)
    requires NulFree(tail) && NamesMode(mode) && ComesTo(options, io.lookup.size, a)
    requires Requests(s, from, EncodeRequest(1, fileName, mode, options, lone) + tail, 1)
    requires io.lookup.found && io.lookup.open.Opened? && io.read.ReadOk?
    ensures var o := Handle(s, Datagram(from, EncodeRequest(1, fileName, mode, options, lone) + tail), io);
            && o.session.phase.SendingData? && o.sent == [Opening(a, io.lookup.contents)] && o.written == []
            && o.session.data.agreedBlockSize == AgreedSize(a) && o.session.data.agreedRemote == from
            && (a.timeOut.Some? ==> o.session.data.timeOut == 1000 * a.timeOut.value)
  {
    var packet := EncodeRequest(1, fileName, mode, options, lone) + tail;
    RequestRoundTrip(1, fileName, mode, options, lone, tail);
    OpCodesOnTheWire(packet);
    R.ReadSessionStarts(s, from, packet, io);
    OptionsComeTo(ParseRequest(packet), io.lookup, from, options, a);
    StartedWithOpening(Handle(s, Datagram(from, packet), io), ParseRequest(packet), io, from, a);
    if a.timeOut.Some? {
      SettledTimeOut(s, from, packet, io, a.timeOut.value);
    }
  }

  lemma SettledTimeOut(s: Session, from: S.Endpoint, packet: Bytes, io: S.Io, seconds: nat)
    requires Requests(s, from, packet, 1) && Denotes(ParseRequest(packet).timeOut, seconds) && 1 <= seconds <= 255
    ensures Handle(s, Datagram(from, packet), io).session.data.timeOut == 1000 * seconds
  {
    OpCodesOnTheWire(packet);
    RequestSettlesTimeOut(s, from, packet, io);
    assert GetTimeOut(ParseRequest(packet).timeOut) == Some(1000 * seconds);
  }

  lemma OptionsComeTo(request: Request, lookup: S.Lookup, peer: S.Endpoint, options: seq<Pair>, a: Agreed)
    requires request.blockSize == LastValue(options, "blksize", [])
    requires request.timeOut == LastValue(options, "timeout", [])
    requires request.transferSize == LastValue(options, "tsize", [])
    requires ComesTo(options, lookup.size, a)
    ensures R.Requested(request, lookup, peer).agreed == a
    ensures R.Requested(request, lookup, peer).blockSize == AgreedSize(a)
  {
    var b, t := GetBlockSize(request.blockSize), GetTimeOut(request.timeOut);
    assert b == a.blockSize;
    assert a.timeOut.Some? ==> t == Some(1000 * a.timeOut.value);
    if t.Some? {
      var v := t.value / 1000;
      assert t == Some(1000 * v);
      assert a.timeOut == Some(v);
    }
  }

  lemma StartedWithOpening(o: Outcome, request: Request, io: S.Io, from: S.Endpoint, a: Agreed)
    requires R.ReadStarted(o, request, io, from) && !S.Refused(request, io.lookup)
    requires io.lookup.open.Opened? && io.read.ReadOk?
    requires R.Requested(request, io.lookup, from).agreed == a
    requires R.Requested(request, io.lookup, from).blockSize == AgreedSize(a)
    ensures o.session.phase.SendingData? && o.sent == [Opening(a, io.lookup.contents)] && o.written == []
    ensures o.session.data.agreedBlockSize == AgreedSize(a) && o.session.data.agreedRemote == from
  {
    var t := R.Requested(request, io.lookup, from);
    if a == R.NO_OPTIONS {
      FirstBlock(t);
      DataPacketOctets(1, R.Block(t, 1));
    } else {
      OackPacketOctets(a);
    }
  }

  lemma FirstBlock(t: R.Transfer)
    ensures R.Block(t, 1) == Prefix(t.contents, t.blockSize)
  {
    assert R.BlockEnd(t, 0) == 0 by { assert 0 * t.blockSize == 0; }
    assert R.BlockEnd(t, 1) == Min(t.blockSize, |t.contents|) by { assert 1 * t.blockSize == t.blockSize; }
  }

  /** The same for a write request; its options are passed over. */
  lemma EncodedWriteIsServed(s: Session, from: S.Endpoint, io: S.Io, fileName: Bytes, mode: Bytes, options: seq<Pair>,
                             lone: seq<Bytes>, tail: Bytes)
    requires NulFree(fileName) && NulFree(mode) && PairsNulFree(options) && |lone| <= 1 && AllNulFree(lone)
    requires NulFree(tail) && NamesMode(mode)
    requires Requests(s, from, EncodeRequest(2, fileName, mode, options, lone) + tail, 2)
    requires io.lookup.found && !io.lookup.open.BadBit?
    ensures var o := Handle(s, Datagram(from, EncodeRequest(2, fileName, mode, options, lone) + tail), io);
            o.session.phase.SendingAck? && o.sent == [Raw([0, 4, 0, 0])] && o.session.data.agreedRemote == from
  {
    var packet := EncodeRequest(2, fileName, mode, options, lone) + tail;
    RequestRoundTrip(2, fileName, mode, options, lone, tail);
    OpCodesOnTheWire(packet);
    W.WriteSessionStarts(s, from, packet, io);
    WriteRequestIsAnswered(s, from, packet, io);
  }

  // ---- Within a session ----

  /** A read that fails when the next block is asked for. */
  lemma FailedReadIsAnswered(s: Session, packet: Bytes, io: S.Io)
    requires R.ReadInv(s) && s.phase.WaitingForAck? && Raises(s, Datagram(s.data.agreedRemote, packet))
    requires s.data.lastSentBlock < R.LastBlock(R.TransferOf(s.data)) && s.data.lastSentBlock < 65536
    requires packet == Raw([0, 4, s.data.lastSentBlock / 256, s.data.lastSentBlock % 256])
    requires io.read.ReadBad? && s.data.file.good
    ensures var o := Handle(s, Datagram(s.data.agreedRemote, packet), io);
            o.session.phase.SendingError? && o.sent == ErrorAnswer(3) && o.written == []
  {
    var from, k := s.data.agreedRemote, s.data.lastSentBlock;
    var d := s.data.(lastRemote := from, received := packet);
    AckPacketOctets(k);
    assert packet == S.AckPacket(k);
    HeaderRoundTrip(ACKNOWLEDGMENT, k, []);
    assert Header(ACKNOWLEDGMENT, k) + [] == packet;
    R.Retouched(s.data, packet, from, s.data.resendCount);
    R.HasMoreIsNotLast(d);
    R.NextBlockKeepsInvariant(d, io);
    OnAckWait(s, from, packet, io);
    ErrorIsAnswered(3);
  }

  /** A write that fails, or a stream that had failed before. */
  lemma FailedWriteIsAnswered(s: Session, packet: Bytes, io: S.Io)
    requires W.WriteInv(s) && s.phase.WaitingForData? && Raises(s, Datagram(s.data.agreedRemote, packet))
    requires 4 <= |packet| && packet[..2] == Raw([0, 3]) && Word(packet) > s.data.lastSavedBlock
    requires io.write.WriteFailed? || !s.data.file.good
    ensures var o := Handle(s, Datagram(s.data.agreedRemote, packet), io);
            o.session.phase.SendingError? && o.sent == ErrorAnswer(3) && o.written == []
  {
    OpCodesOnTheWire(packet);
    W.WaitForData(s, s.data.agreedRemote, packet, io);
    ErrorIsAnswered(3);
  }

  /** A packet of the peer that does not fit the state. */
  lemma IllegalPacketIsAnswered(s: Session, packet: Bytes, io: S.Io)
    requires s.data.Valid() && Raises(s, Datagram(s.data.agreedRemote, packet))
    requires if s.phase.WaitingForAck?
             then !IsErrorPacket(packet) && !(IsAckPacket(packet) && Word(packet) <= s.data.lastSentBlock)
             else s.phase.WaitingForData? && !IsDataPacket(packet)
    ensures var o := Handle(s, Datagram(s.data.agreedRemote, packet), io);
            o.session.phase.SendingError? && o.sent == ErrorAnswer(4) && o.written == []
  {
    ErrorIsAnswered(4);
    if s.phase.WaitingForAck? {
      OnAckWait(s, s.data.agreedRemote, packet, io);
    } else {
      OnDataWait(s, s.data.agreedRemote, packet, io);
    }
  }
}
