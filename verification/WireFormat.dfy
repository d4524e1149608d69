/** What the packets are octet for octet: the numbers of RFC 1350, section 5, and RFC 2347 stand here
    as literals. */
module WireFormat {
  import opened Octets
  import opened Options
  import opened Oack
  import S = SessionData

  predicate AreOctets(values: seq<nat>) { forall i :: 0 <= i < |values| ==> values[i] < 256 }

  /** The octets with the given values. */
  function Raw(values: seq<nat>): (b: Bytes)
    requires AreOctets(values)
    ensures |b| == |values| && forall i :: 0 <= i < |b| ==> b[i] as int == values[i]
  {
    seq(|values|, i requires 0 <= i < |values| => values[i] as char)
  }

  lemma WordsAreBigEndian(a: nat, b: nat, c: nat, d: nat, rest: Bytes)
    requires a < 256 && b < 256 && c < 256 && d < 256
    ensures OpCode(Raw([a, b]) + rest) == 256 * a + b
    ensures Word(Raw([a, b, c, d]) + rest) == 256 * c + d
    ensures WordBytes(256 * a + b) == Raw([a, b])
  {
    assert (256 * a + b) / 256 == a && (256 * a + b) % 256 == b;
  }

  lemma OpCodesOnTheWire(p: Bytes)
    requires |p| >= 2
    ensures OpCode(p) == READ_REQUEST <==> p[..2] == Raw([0, 1])
    ensures OpCode(p) == WRITE_REQUEST <==> p[..2] == Raw([0, 2])
    ensures OpCode(p) == DATA <==> p[..2] == Raw([0, 3])
    ensures OpCode(p) == ACKNOWLEDGMENT <==> p[..2] == Raw([0, 4])
    ensures OpCode(p) == ERROR <==> p[..2] == Raw([0, 5])
    ensures OpCode(p) == OPTION_ACKNOWLEDGMENT <==> p[..2] == Raw([0, 6])
  {
    forall n | 1 <= n <= 6
      ensures OpCode(p) == n <==> p[..2] == Raw([0, n])
    {
      assert p[0] == p[..2][0] && p[1] == p[..2][1];
      assert OpCode(p) == n ==> p[..2] == Raw([0, n]);
    }
  }

  lemma ErrorPacketOctets(code: nat)
    requires code < 65536
    ensures S.ErrorPacket(code) == Raw([0, 5, code / 256, code % 256, 0])
    ensures OpCode(S.ErrorPacket(code)) == 5 && Word(S.ErrorPacket(code)) == code
  {
    assert S.ErrorPacket(code) == Raw([0, 5, code / 256, code % 256, 0]);
    assert S.ErrorPacket(code) == Raw([0, 5, code / 256, code % 256]) + [NUL];
    WordsAreBigEndian(0, 5, code / 256, code % 256, [NUL]);
    HeaderRoundTrip(ERROR, code, [NUL]);
  }

  /** The codes of the errors the server knows. */
  lemma ErrorCodes()
    ensures S.Code(S.FileNotFound) == 1 && S.Code(S.DiskFull) == 3 && S.Code(S.IllegalTftpOperation) == 4
  {
  }

  /** The packet built for a recorded error, and for a packet that does not fit. */
  lemma ErrorsOnTheWire(d: S.Data)
    requires d.Valid()
    ensures S.FormErrorPacket(d).sendPacket
            == (match d.lastError
                case None => Raw([0, 5, 0, 0, 0])
                case Some(FileNotFound) => Raw([0, 5, 0, 1, 0])
                case Some(DiskFull) => Raw([0, 5, 0, 3, 0])
                case Some(IllegalTftpOperation) => Raw([0, 5, 0, 4, 0]))
    ensures S.FormProtocolErrorPacket(d).sendPacket == Raw([0, 5, 0, 4, 0])
  {
    ErrorPacketOctets(4);
    match d.lastError
    case None => ErrorPacketOctets(0);
    case Some(FileNotFound) => ErrorPacketOctets(1);
    case Some(DiskFull) => ErrorPacketOctets(3);
    case Some(IllegalTftpOperation) =>
  }

  lemma AckPacketOctets(block: nat)
    ensures S.AckPacket(block) == Raw([0, 4, block / 256 % 256, block % 256])
  {
  }

  lemma DataPacketOctets(block: nat, payload: Bytes)
    ensures S.DataPacket(block, payload) == Raw([0, 3, block / 256 % 256, block % 256]) + payload
  {
    assert Header(DATA, block) == Raw([0, 3, block / 256 % 256, block % 256]);
  }

  function OptionText(name: Bytes, value: Option<nat>): Bytes {
    if value.Some? then name + Raw([0]) + Decimal(value.value) + Raw([0]) else []
  }

  lemma OackPacketOctets(a: Agreed)
    ensures OackPacket(a) == Raw([0, 6]) + OptionText("blksize", a.blockSize) + OptionText("timeout", a.timeOut)
                             + OptionText("tsize", a.transferSize)
  {
    OackLayout(a);
    assert WordBytes(OPTION_ACKNOWLEDGMENT) == Raw([0, 6]) && Raw([0]) == [NUL];
    assert EntryText(BLOCK_SIZE_OPTION, a.blockSize) == OptionText("blksize", a.blockSize);
    assert EntryText(TIME_OUT_OPTION, a.timeOut) == OptionText("timeout", a.timeOut);
    assert EntryText(TRANSFER_SIZE_OPTION, a.transferSize) == OptionText("tsize", a.transferSize);
  }
}
