/** Octets, 16-bit network words, and the fixed header at the front of every packet. */
module Octets {

  type Octet = c: char | c as int < 256
  type Bytes = seq<Octet>

  /** The range of the 64-bit `size_t` in which file sizes are held. */
  type SizeT = n: nat | n < 0x1_0000_0000_0000_0000

  datatype Option<+T> = None | Some(value: T)

  const NUL: Octet := '\0'
  const BUFFER_SIZE: nat := 65536
  const HEADER_SIZE: nat := 4
  const SHORT_HEADER_SIZE: nat := 2
  const MAX_WORD: nat := 65535

  const READ_REQUEST: nat := 1
  const WRITE_REQUEST: nat := 2
  const DATA: nat := 3
  const ACKNOWLEDGMENT: nat := 4
  const ERROR: nat := 5
  const OPTION_ACKNOWLEDGMENT: nat := 6

  /** Network byte order of a number truncated to 16 bits, as `htons` of a `uint16_t` stores it. */
  function WordBytes(n: nat): (b: Bytes)
    ensures |b| == 2
  {
    [(n / 256 % 256) as char, (n % 256) as char]
  }

  /** Octet `i` of a received packet. The receive buffer is cleared before a request arrives,
      so octets past the end of the datagram read as zero. */
  function OctetAt(p: Bytes, i: nat): (v: nat)
    ensures v < 256
  {
    if i < |p| then p[i] as int else 0
  }

  function OpCode(p: Bytes): (v: nat)
    ensures v <= MAX_WORD
  {
    256 * OctetAt(p, 0) + OctetAt(p, 1)
  }

  function Word(p: Bytes): (v: nat)
    ensures v <= MAX_WORD
  {
    256 * OctetAt(p, 2) + OctetAt(p, 3)
  }

  function Header(opCode: nat, word: nat): (h: Bytes)
    ensures |h| == HEADER_SIZE
  {
    WordBytes(opCode) + WordBytes(word)
  }

  // The shapes of packets. An ERROR packet is longer than its header.
  predicate IsDataPacket(p: Bytes) { |p| >= HEADER_SIZE && OpCode(p) == DATA }
  predicate IsAckPacket(p: Bytes) { |p| == HEADER_SIZE && OpCode(p) == ACKNOWLEDGMENT }
  predicate IsErrorPacket(p: Bytes) { |p| > HEADER_SIZE && OpCode(p) == ERROR }

  lemma SplitWord(n: nat)
    ensures 256 * (n / 256 % 256) + n % 256 == n % 65536
  {
    var q := n / 256;
    assert n == 65536 * (q / 256) + (256 * (q % 256) + n % 256);
    TruncationIsUnique(n, q / 256, 256 * (q % 256) + n % 256);
  }

  lemma TruncationIsUnique(n: int, q: int, r: int)
    requires 0 <= r < 65536 && n == 65536 * q + r
    ensures n % 65536 == r
  {
  }

  /** What a receiver reads back from a header is the opcode and word it was built from,
      each truncated to 16 bits. */
  lemma HeaderRoundTrip(opCode: nat, word: nat, rest: Bytes)
    ensures OpCode(Header(opCode, word) + rest) == opCode % 65536
    ensures Word(Header(opCode, word) + rest) == word % 65536
  {
    SplitWord(opCode);
    SplitWord(word);
    var p := Header(opCode, word) + rest;
    assert p[0] == WordBytes(opCode)[0] && p[1] == WordBytes(opCode)[1];
    assert p[2] == WordBytes(word)[0] && p[3] == WordBytes(word)[1];
  }

  function Zeros(n: nat): (z: Bytes)
    ensures |z| == n && forall i :: 0 <= i < n ==> z[i] == NUL
  {
    seq(n, _ => NUL)
  }

  /** `buffer` with `bytes` written over it from position `at`. */
  function Overlay(buffer: Bytes, at: nat, bytes: Bytes): (r: Bytes)
    requires at + |bytes| <= |buffer|
    ensures |r| == |buffer|
    ensures r[at..at + |bytes|] == bytes
    ensures r[..at] == buffer[..at] && r[at + |bytes|..] == buffer[at + |bytes|..]
  {
    buffer[..at] + bytes + buffer[at + |bytes|..]
  }

  function Min(a: int, b: int): int { if a < b then a else b }

  /** Copies `bytes` into `a` from position `at`: the effect of `std::copy` and `istream::read`. */
  method CopyInto(a: array<Octet>, at: nat, bytes: Bytes)
    requires at + |bytes| <= a.Length
    modifies a
    ensures a[..] == Overlay(old(a[..]), at, bytes)
  {
    forall i | 0 <= i < |bytes| {
      a[at + i] := bytes[i];
    }
    assert a[..] == old(a[..at]) + bytes + old(a[at + |bytes|..]);
  }

  method SetOpCd(a: array<Octet>, opCode: nat)
    requires 2 <= a.Length
    modifies a
    ensures a[..] == Overlay(old(a[..]), 0, WordBytes(opCode))
  {
    a[0] := (opCode / 256 % 256) as char;
    a[1] := (opCode % 256) as char;
    assert a[..] == WordBytes(opCode) + old(a[2..]);
  }

  method SetWord(a: array<Octet>, word: nat)
    requires 4 <= a.Length
    modifies a
    ensures a[..] == Overlay(old(a[..]), 2, WordBytes(word))
  {
    a[2] := (word / 256 % 256) as char;
    a[3] := (word % 256) as char;
    assert a[..] == old(a[..2]) + WordBytes(word) + old(a[4..]);
  }

  lemma HeaderInTwoWrites(buffer: Bytes, opCode: nat, word: nat)
    requires 4 <= |buffer|
    ensures Overlay(Overlay(buffer, 0, WordBytes(opCode)), 2, WordBytes(word))
            == Overlay(buffer, 0, Header(opCode, word))
  {
  }
}
