/** The option acknowledgment: its layout, its printer, and what a client reads back. */
module Oack {
  import opened Octets
  import opened Options
  import opened Tokenizer
  import opened RequestParser

  /** The options that are acknowledged; the time out is in whole seconds. */
  datatype Agreed = Agreed(blockSize: Option<nat>, timeOut: Option<nat>, transferSize: Option<nat>)

  predicate InRange(a: Agreed) {
    && (a.blockSize.Some? ==> 8 <= a.blockSize.value <= 65464)
    && (a.timeOut.Some? ==> 1 <= a.timeOut.value <= 255)
    && (a.transferSize.Some? ==> a.transferSize.value <= SIZE_MAX)
  }

  function Entry(name: Bytes, value: Option<nat>): seq<Pair> {
    if value.Some? then [Pair(name, Decimal(value.value))] else []
  }

  function OackPairs(a: Agreed): seq<Pair> {
    Entry(BLOCK_SIZE_OPTION, a.blockSize) + Entry(TIME_OUT_OPTION, a.timeOut)
    + Entry(TRANSFER_SIZE_OPTION, a.transferSize)
  }

  function OackPacket(a: Agreed): Bytes {
    WordBytes(OPTION_ACKNOWLEDGMENT) + Join(Flatten(OackPairs(a)))
  }

  // ---- What a client reads back ----

  const NO_REQUEST := Request(0, [], [], [], [], [])

  /** The options of an acknowledgment, read as the options of a request are read. */
  function DecodeOack(p: Bytes): Agreed
    requires SHORT_HEADER_SIZE <= |p|
  {
    var r := CollectOptions(NO_REQUEST, Tokens(p[SHORT_HEADER_SIZE..]));
    var t := GetTimeOut(r.timeOut);
    Agreed(GetBlockSize(r.blockSize), if t.Some? then Some(t.value / 1000) else None, GetTransferSize(r.transferSize))
  }

  lemma LastValueConcat(a: seq<Pair>, b: seq<Pair>, name: Bytes, default: Bytes)
    requires |b| <= 1
    ensures LastValue(a + b, name, default)
            == if |b| == 1 && SameUpToCase(b[0].key, name) then b[0].value else LastValue(a, name, default)
  {
    if b == [] {
      assert a + b == a;
    } else {
      assert (a + b)[..|a + b| - 1] == a;
    }
  }

  lemma OptionNames()
    ensures IsBlockSizeOption(BLOCK_SIZE_OPTION)
    ensures IsTimeOutOption(TIME_OUT_OPTION)
    ensures IsTransferSizeOption(TRANSFER_SIZE_OPTION)
  {
  }

  lemma LastValueOfOack(a: Agreed, name: Bytes)
    requires name in {BLOCK_SIZE_OPTION, TIME_OUT_OPTION, TRANSFER_SIZE_OPTION}
    ensures var value := if name == BLOCK_SIZE_OPTION then a.blockSize
                         else if name == TIME_OUT_OPTION then a.timeOut else a.transferSize;
            LastValue(OackPairs(a), name, []) == if value.Some? then Decimal(value.value) else []
  {
    var b, t, s := Entry(BLOCK_SIZE_OPTION, a.blockSize), Entry(TIME_OUT_OPTION, a.timeOut),
      Entry(TRANSFER_SIZE_OPTION, a.transferSize);
    OptionNames();
    OptionsMatchUpToCase(BLOCK_SIZE_OPTION);
    OptionsMatchUpToCase(TIME_OUT_OPTION);
    OptionsMatchUpToCase(TRANSFER_SIZE_OPTION);
    OptionNamesAreDisjoint(BLOCK_SIZE_OPTION);
    OptionNamesAreDisjoint(TIME_OUT_OPTION);
    OptionNamesAreDisjoint(TRANSFER_SIZE_OPTION);
    LastValueConcat(b + t, s, name, []);
    LastValueConcat(b, t, name, []);
    LastValueConcat([], b, name, []);
    assert [] + b == b;
  }

  lemma OackPairsAreNulFree(a: Agreed)
    ensures PairsNulFree(OackPairs(a))
  {
    if a.blockSize.Some? { DecimalIsNulFree(a.blockSize.value); }
    if a.timeOut.Some? { DecimalIsNulFree(a.timeOut.value); }
    if a.transferSize.Some? { DecimalIsNulFree(a.transferSize.value); }
  }

  lemma DecodeNumeral(value: Option<nat>) returns (text: Bytes)
    ensures text == if value.Some? then Decimal(value.value) else []
    ensures forall v: nat :: Denotes(text, v) <==> value == Some(v)
  {
    text := [];
    if value.Some? {
      text := Decimal(value.value);
      DecimalDenotes(value.value);
    }
  }

  lemma TokensOfPairs(pairs: seq<Pair>)
    requires PairsNulFree(pairs)
    ensures var p := WordBytes(OPTION_ACKNOWLEDGMENT) + Join(Flatten(pairs));
            OpCode(p) == OPTION_ACKNOWLEDGMENT && Tokens(p[SHORT_HEADER_SIZE..]) == Flatten(pairs)
  {
    var p := WordBytes(OPTION_ACKNOWLEDGMENT) + Join(Flatten(pairs));
    FlattenIsNulFree(pairs);
    TokensOfRequest(OPTION_ACKNOWLEDGMENT, Flatten(pairs), []);
    assert p + [] == p;
  }

  lemma ValuesOfPairs(pairs: seq<Pair>)
    ensures CollectOptions(NO_REQUEST, Flatten(pairs)) == WithOptions(NO_REQUEST, pairs)
  {
    assert Flatten(pairs) + [] == Flatten(pairs);
    CollectFlattened(NO_REQUEST, pairs, []);
  }

  /** What a client reads from an acknowledgment of the given pairs. */
  lemma DecodedPairs(pairs: seq<Pair>)
    requires PairsNulFree(pairs)
    ensures var p, r := WordBytes(OPTION_ACKNOWLEDGMENT) + Join(Flatten(pairs)), WithOptions(NO_REQUEST, pairs);
            var t := GetTimeOut(r.timeOut);
            && OpCode(p) == OPTION_ACKNOWLEDGMENT
            && DecodeOack(p) == Agreed(GetBlockSize(r.blockSize), if t.Some? then Some(t.value / 1000) else None,
                                       GetTransferSize(r.transferSize))
  {
    TokensOfPairs(pairs);
    ValuesOfPairs(pairs);
  }

  /** A client recovers exactly the options the server agreed to. */
  lemma OackRoundTrip(a: Agreed)
    requires InRange(a)
    ensures OpCode(OackPacket(a)) == OPTION_ACKNOWLEDGMENT
    ensures DecodeOack(OackPacket(a)) == a
  {
    OackPairsAreNulFree(a);
    DecodedPairs(OackPairs(a));
    ValuesDecode(a);
  }

  lemma ValuesDecode(a: Agreed)
    requires InRange(a)
    ensures var r := WithOptions(NO_REQUEST, OackPairs(a)); var t := GetTimeOut(r.timeOut);
            && GetBlockSize(r.blockSize) == a.blockSize && GetTransferSize(r.transferSize) == a.transferSize
            && (if t.Some? then Some(t.value / 1000) else None) == a.timeOut
  {
    LastValueOfOack(a, BLOCK_SIZE_OPTION);
    LastValueOfOack(a, TIME_OUT_OPTION);
    LastValueOfOack(a, TRANSFER_SIZE_OPTION);
    var b := DecodeNumeral(a.blockSize);
    var t := DecodeNumeral(a.timeOut);
    var s := DecodeNumeral(a.transferSize);
    DecodersInvert(a, b, t, s);
  }

  lemma DecodersInvert(a: Agreed, b: Bytes, t: Bytes, s: Bytes)
    requires InRange(a)
    requires forall v: nat :: Denotes(b, v) <==> a.blockSize == Some(v)
    requires forall v: nat :: Denotes(t, v) <==> a.timeOut == Some(v)
    requires forall v: nat :: Denotes(s, v) <==> a.transferSize == Some(v)
    ensures GetBlockSize(b) == a.blockSize
    ensures GetTransferSize(s) == a.transferSize
    ensures GetTimeOut(t) == if a.timeOut.Some? then Some(1000 * a.timeOut.value) else None
  {
    var rb, rt, rs := GetBlockSize(b), GetTimeOut(t), GetTransferSize(s);
    if rt.Some? {
      var seconds := rt.value / 1000;
      assert rt == Some(1000 * seconds);
    }
  }

  // ---- Size ----

  lemma {:induction false} FlattenConcat(a: seq<Pair>, b: seq<Pair>)
    ensures Flatten(a + b) == Flatten(a) + Flatten(b)
  {
    if a == [] {
      assert a + b == b;
    } else {
      FlattenConcat(a[1..], b);
      assert (a + b)[1..] == a[1..] + b;
    }
  }

  function EntryText(name: Bytes, value: Option<nat>): Bytes {
    if value.Some? then name + [NUL] + Decimal(value.value) + [NUL] else []
  }

  lemma JoinEntry(name: Bytes, value: Option<nat>)
    ensures Join(Flatten(Entry(name, value))) == EntryText(name, value)
  {
    if value.Some? {
      var text := Decimal(value.value);
      assert Flatten(Entry(name, value)) == [name] + [text] by {
        assert Flatten(Entry(name, value)[1..]) == [];
      }
      JoinCons(name, [text]);
      JoinCons(text, []);
      assert [text] + [] == [text];
    }
  }

  /** The layout: each agreed option as its name and its value, each ended by a NUL. */
  lemma OackLayout(a: Agreed)
    ensures OackPacket(a) == WordBytes(OPTION_ACKNOWLEDGMENT) + EntryText(BLOCK_SIZE_OPTION, a.blockSize)
                             + EntryText(TIME_OUT_OPTION, a.timeOut) + EntryText(TRANSFER_SIZE_OPTION, a.transferSize)
  {
    var b, t, s := Entry(BLOCK_SIZE_OPTION, a.blockSize), Entry(TIME_OUT_OPTION, a.timeOut),
      Entry(TRANSFER_SIZE_OPTION, a.transferSize);
    FlattenConcat(b + t, s);
    FlattenConcat(b, t);
    JoinConcat(Flatten(b) + Flatten(t), Flatten(s));
    JoinConcat(Flatten(b), Flatten(t));
    JoinEntry(BLOCK_SIZE_OPTION, a.blockSize);
    JoinEntry(TIME_OUT_OPTION, a.timeOut);
    JoinEntry(TRANSFER_SIZE_OPTION, a.transferSize);
  }

  /** Two octets of opcode and at most 14, 12 and 27 of options: the buffer is never too small. */
  lemma OackIsShort(a: Agreed)
    requires InRange(a)
    ensures |OackPacket(a)| <= 55
  {
    OackLayout(a);
    if a.blockSize.Some? {
      assert Pow10(5) == 100000;
      DecimalLength(a.blockSize.value, 5);
    }
    if a.timeOut.Some? {
      assert Pow10(3) == 1000;
      DecimalLength(a.timeOut.value, 3);
    }
    if a.transferSize.Some? {
      assert Pow10(5) == 100_000 && Pow10(10) == 10_000_000_000 && Pow10(15) == 1_000_000_000_000_000;
      assert Pow10(20) == 100_000_000_000_000_000_000;
      DecimalLength(a.transferSize.value, 20);
    }
  }

  // ---- The printer ----

  lemma OverlayAppend(buffer: Bytes, at: nat, a: Bytes, b: Bytes)
    requires at + |a| + |b| <= |buffer|
    ensures Overlay(Overlay(buffer, at, a), at + |a|, b) == Overlay(buffer, at, a + b)
  {
  }

  method CopyName(a: array<Octet>, value: Bytes, target: nat) returns (current: nat)
    requires target + |value| + 1 <= a.Length
    modifies a
    ensures current == target + |value| + 1
    ensures a[..] == Overlay(old(a[..]), target, value + [NUL])
  {
    CopyInto(a, target, value);
    a[target + |value|] := NUL;
    current := target + |value| + 1;
  }

  /** `std::to_chars` fails, and the program exits, when the digits do not fit before the end of
      the buffer. Digits that end exactly there would leave no room for the NUL. */
  method CopyNumber(a: array<Octet>, target: nat, value: nat) returns (ok: bool, current: nat)
    requires target < a.Length && target + |Decimal(value)| != a.Length
    modifies a
    ensures ok <==> target + |Decimal(value)| < a.Length
    ensures ok ==> current == target + |Decimal(value)| + 1
    ensures ok ==> a[..] == Overlay(old(a[..]), target, Decimal(value) + [NUL])
    ensures !ok ==> a[..] == old(a[..])
  {
    var digits := Decimal(value);
    if target + |digits| > a.Length {
      return false, target;
    }
    CopyInto(a, target, digits);
    a[target + |digits|] := NUL;
    return true, target + |digits| + 1;
  }

  /** One option: its name, then its value. The buffer is large enough, so nothing fails. */
  method CopyEntry(a: array<Octet>, target: nat, name: Bytes, value: nat) returns (current: nat)
    requires target + |EntryText(name, Some(value))| <= a.Length
    modifies a
    ensures current == target + |EntryText(name, Some(value))|
    ensures a[..] == Overlay(old(a[..]), target, EntryText(name, Some(value)))
  {
    ghost var before := a[..];
    current := CopyName(a, name, target);
    var ok, next := CopyNumber(a, current, value);
    assert ok;
    OverlayAppend(before, target, name + [NUL], Decimal(value) + [NUL]);
    assert EntryText(name, Some(value)) == name + [NUL] + (Decimal(value) + [NUL]);
    current := next;
  }

  /** Appends an option, if it is agreed, to what has been printed at the front of the buffer. */
  method AppendOption(a: array<Octet>, ghost before: Bytes, ghost done: Bytes, name: Bytes, value: Option<nat>,
                      target: nat) returns (current: nat)
    requires |before| == a.Length && target == |done| && |done| + |EntryText(name, value)| <= a.Length
    requires a[..] == Overlay(before, 0, done)
    modifies a
    ensures current == |done + EntryText(name, value)|
    ensures a[..] == Overlay(before, 0, done + EntryText(name, value))
  {
    current := target;
    if value.Some? {
      current := CopyEntry(a, target, name, value.value);
      OverlayAppend(before, 0, done, EntryText(name, value));
    } else {
      assert done + [] == done;
    }
  }

  /** The packet is built at the front of the send buffer; the result is its length. */
  method PrintOack(sendBuffer: array<Octet>, a: Agreed) returns (length: nat)
    requires InRange(a) && sendBuffer.Length == BUFFER_SIZE
    modifies sendBuffer
    ensures length == |OackPacket(a)| <= 55
    ensures sendBuffer[..] == Overlay(old(sendBuffer[..]), 0, OackPacket(a))
  {
    OackIsShort(a);
    OackLayout(a);
    ghost var before, head := sendBuffer[..], WordBytes(OPTION_ACKNOWLEDGMENT);
    ghost var b, t := EntryText(BLOCK_SIZE_OPTION, a.blockSize), EntryText(TIME_OUT_OPTION, a.timeOut);
    SetOpCd(sendBuffer, OPTION_ACKNOWLEDGMENT);
    var current := SHORT_HEADER_SIZE;
    current := AppendOption(sendBuffer, before, head, BLOCK_SIZE_OPTION, a.blockSize, current);
    current := AppendOption(sendBuffer, before, head + b, TIME_OUT_OPTION, a.timeOut, current);
    length := AppendOption(sendBuffer, before, head + b + t, TRANSFER_SIZE_OPTION, a.transferSize, current);
  }
}
