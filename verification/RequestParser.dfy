/** From a request datagram to the event handed to the session machine. */
module RequestParser {
  import opened Octets
  import opened Options
  import opened Tokenizer

  datatype Request = Request(
    opCode: nat, fileName: Bytes, mode: Bytes,
    blockSize: Bytes, timeOut: Bytes, transferSize: Bytes)

  // ---- What a request datagram says ----

  function StoreOption(r: Request, key: Bytes, value: Bytes): Request {
    if IsBlockSizeOption(key) then r.(blockSize := value)
    else if IsTimeOutOption(key) then r.(timeOut := value)
    else if IsTransferSizeOption(key) then r.(transferSize := value)
    else r
  }

  /** The options as key/value pairs; a key without a value is dropped. */
  function CollectOptions(r: Request, tokens: seq<Bytes>): Request
    decreases |tokens|
  {
    if |tokens| < 2 then r
    else CollectOptions(StoreOption(r, tokens[0], tokens[1]), tokens[2..])
  }

  function ParseTokens(opCode: nat, tokens: seq<Bytes>): Request {
    if |tokens| == 0 then Request(opCode, [], [], [], [], [])
    else if |tokens| == 1 then Request(opCode, tokens[0], [], [], [], [])
    else CollectOptions(Request(opCode, tokens[0], tokens[1], [], [], []), tokens[2..])
  }

  function ParseRequest(p: Bytes): Request
    requires SHORT_HEADER_SIZE <= |p|
  {
    ParseTokens(OpCode(p), Tokens(p[SHORT_HEADER_SIZE..]))
  }

  // ---- The parsing loop ----

  /** Reads the first `n` octets of the receive buffer, which was cleared before they arrived. */
  method ProcessEventFromBuffer(buffer: Bytes, n: nat) returns (r: Request)
    requires |buffer| == BUFFER_SIZE && SHORT_HEADER_SIZE <= n < BUFFER_SIZE
    requires forall i :: n <= i < BUFFER_SIZE ==> buffer[i] == NUL
    ensures r == ParseRequest(buffer[..n])
  {
    r := Request(OpCode(buffer), [], [], [], [], []);
    var tokenIter := new Iterator(buffer, SHORT_HEADER_SIZE, n);
    var end := new Iterator(buffer, n, n);
    ghost var tokens := tokenIter.Remaining();
    assert ParseRequest(buffer[..n]) == ParseTokens(r.opCode, tokens) by {
      assert buffer[SHORT_HEADER_SIZE..n] == buffer[..n][SHORT_HEADER_SIZE..];
    }
    var token := tokenIter.Deref();
    r := r.(fileName := token);
    tokenIter.Increment();
    if tokenIter.current == end.current {
      return;
    }
    token := tokenIter.Deref();
    r := r.(mode := token);
    tokenIter.Increment();
    assert tokens[1..][1..] == tokens[2..];
    if tokenIter.current == end.current {
      return;
    }
    r := ReadOptions(tokenIter, end, r);
  }

  /** The loop over the key/value pairs. */
  method ReadOptions(tokenIter: Iterator, end: Iterator, request: Request) returns (r: Request)
    requires tokenIter != end && tokenIter.Valid() && tokenIter.Remaining() != []
    requires end.current == tokenIter.end < |tokenIter.buffer| && tokenIter.buffer[tokenIter.end] == NUL
    modifies tokenIter
    ensures r == CollectOptions(request, old(tokenIter.Remaining()))
  {
    r := request;
    while true
      invariant tokenIter.Valid() && tokenIter.Remaining() != []
      invariant CollectOptions(r, tokenIter.Remaining()) == CollectOptions(request, old(tokenIter.Remaining()))
      decreases |tokenIter.Remaining()|
    {
      ghost var pending := tokenIter.Remaining();
      var key := tokenIter.Deref();
      tokenIter.Increment();
      if tokenIter.current == end.current {
        break;
      }
      var value := tokenIter.Deref();
      r := StoreOption(r, key, value);
      tokenIter.Increment();
      assert pending[1..][1..] == pending[2..];
      if tokenIter.current == end.current {
        break;
      }
    }
  }

  // ---- The writer's side, and the round trip ----

  datatype Pair = Pair(key: Bytes, value: Bytes)

  predicate PairsNulFree(options: seq<Pair>) {
    forall i :: 0 <= i < |options| ==> NulFree(options[i].key) && NulFree(options[i].value)
  }

  function Flatten(options: seq<Pair>): seq<Bytes> {
    if options == [] then [] else [options[0].key, options[0].value] + Flatten(options[1..])
  }

  /** The value of the last option whose key is `name` up to case, or `default`. */
  function LastValue(options: seq<Pair>, name: Bytes, default: Bytes): Bytes {
    if options == [] then default
    else
      var last := options[|options| - 1];
      if SameUpToCase(last.key, name) then last.value else LastValue(options[..|options| - 1], name, default)
  }

  /** A request as RFC 1350 and RFC 2347 lay it out, with `lone` possibly one trailing key. */
  function EncodeRequest(opCode: nat, fileName: Bytes, mode: Bytes, options: seq<Pair>, lone: seq<Bytes>): Bytes {
    WordBytes(opCode) + Join([fileName, mode] + Flatten(options) + lone)
  }

  lemma {:induction false} LastValueCons(first: Pair, options: seq<Pair>, name: Bytes, default: Bytes)
    ensures LastValue([first] + options, name, default)
            == LastValue(options, name, if SameUpToCase(first.key, name) then first.value else default)
  {
    var all := [first] + options;
    if options != [] {
      assert all[..|all| - 1] == [first] + options[..|options| - 1];
      LastValueCons(first, options[..|options| - 1], name, default);
    } else {
      assert all[..0] == [];
    }
  }

  function WithOptions(r: Request, options: seq<Pair>): Request {
    r.(blockSize := LastValue(options, BLOCK_SIZE_OPTION, r.blockSize),
       timeOut := LastValue(options, TIME_OUT_OPTION, r.timeOut),
       transferSize := LastValue(options, TRANSFER_SIZE_OPTION, r.transferSize))
  }

  lemma {:induction false} CollectFlattened(r: Request, options: seq<Pair>, lone: seq<Bytes>)
    requires |lone| <= 1
    ensures CollectOptions(r, Flatten(options) + lone) == WithOptions(r, options)
    decreases |options|
  {
    if options == [] {
      assert Flatten(options) + lone == lone;
    } else {
      var o, rest := options[0], options[1..];
      var tokens := Flatten(options) + lone;
      assert options == [o] + rest;
      assert tokens[0] == o.key && tokens[1] == o.value && tokens[2..] == Flatten(rest) + lone;
      CollectFlattened(StoreOption(r, o.key, o.value), rest, lone);
      OptionNamesAreDisjoint(o.key);
      OptionsMatchUpToCase(o.key);
      LastValueCons(o, rest, BLOCK_SIZE_OPTION, r.blockSize);
      LastValueCons(o, rest, TIME_OUT_OPTION, r.timeOut);
      LastValueCons(o, rest, TRANSFER_SIZE_OPTION, r.transferSize);
    }
  }

  lemma {:induction false} FlattenIsNulFree(options: seq<Pair>)
    requires PairsNulFree(options)
    ensures AllNulFree(Flatten(options))
  {
    if options != [] {
      FlattenIsNulFree(options[1..]);
    }
  }

  /** Whatever a client writes in a request comes back: the name, the mode, and for each known
      option the value of its last occurrence in any mixture of cases, with unknown options, a
      trailing key and anything behind the last NUL ignored. */
  lemma RequestRoundTrip(opCode: nat, fileName: Bytes, mode: Bytes, options: seq<Pair>, lone: seq<Bytes>, tail: Bytes)
    requires NulFree(fileName) && NulFree(mode) && PairsNulFree(options)
    requires |lone| <= 1 && AllNulFree(lone) && NulFree(tail)
    ensures ParseRequest(EncodeRequest(opCode, fileName, mode, options, lone) + tail)
            == Request(opCode % 65536, fileName, mode,
                       LastValue(options, "blksize", []),
                       LastValue(options, "timeout", []),
                       LastValue(options, "tsize", []))
  {
    var tokens := [fileName, mode] + Flatten(options) + lone;
    FlattenIsNulFree(options);
    TokensOfRequest(opCode, tokens, tail);
    assert EncodeRequest(opCode, fileName, mode, options, lone) == WordBytes(opCode) + Join(tokens);
    assert tokens[2..] == Flatten(options) + lone;
    CollectFlattened(Request(opCode % 65536, fileName, mode, [], [], []), options, lone);
  }

  lemma TokensOfRequest(opCode: nat, tokens: seq<Bytes>, tail: Bytes)
    requires AllNulFree(tokens) && NulFree(tail)
    ensures var p := WordBytes(opCode) + Join(tokens) + tail;
            OpCode(p) == opCode % 65536 && Tokens(p[SHORT_HEADER_SIZE..]) == tokens
  {
    var p := WordBytes(opCode) + Join(tokens) + tail;
    SplitWord(opCode);
    TokensOfJoin(tokens, tail);
    assert p[SHORT_HEADER_SIZE..] == Join(tokens) + tail;
    assert FirstNul(tail) == |tail|;
    assert tokens + Tokens(tail) == tokens;
  }

  // ---- Requests that lack a mode ----

  /** A datagram with at most one NUL behind its opcode is a request without a mode and options; its
      file name is what stands before the NUL, and empty without one. */
  lemma RequestWithoutMode(packet: Bytes, fileName: Bytes, rest: Bytes)
    requires SHORT_HEADER_SIZE <= |packet| && NulFree(fileName) && NulFree(rest)
    ensures packet[SHORT_HEADER_SIZE..] == fileName + [NUL] + rest ==>
              ParseRequest(packet) == Request(OpCode(packet), fileName, [], [], [], [])
    ensures packet[SHORT_HEADER_SIZE..] == rest ==>
              ParseRequest(packet) == Request(OpCode(packet), [], [], [], [], [])
  {
    TokensCons(fileName, rest);
    assert FirstNul(rest) == |rest|;
    assert Tokens(rest) == [];
  }

  /** Every datagram with at most one NUL behind its opcode has one of these two shapes. */
  lemma AtMostOneNul(s: Bytes) returns (before: Bytes, after: Bytes)
    requires CountNul(s) <= 1
    ensures NulFree(before) && NulFree(after)
    ensures s == before + [NUL] + after || s == after
  {
    before, after := [], s;
    OneTokenPerNul(s);
    if FirstNul(s) < |s| {
      before, after := SplitAtFirstNul(s);
      OneTokenPerNul(after);
    }
    NoTokenNoNul(after);
  }

  lemma NoTokenNoNul(s: Bytes)
    requires Tokens(s) == []
    ensures NulFree(s)
  {
    assert FirstNul(s) == |s| && s[..|s|] == s;
  }

  lemma ModelessRequest(packet: Bytes)
    requires SHORT_HEADER_SIZE <= |packet| && CountNul(packet[SHORT_HEADER_SIZE..]) <= 1
    ensures var r := ParseRequest(packet);
            && r == Request(OpCode(packet), r.fileName, [], [], [], []) && NulFree(r.fileName)
            && (if CountNul(packet[SHORT_HEADER_SIZE..]) == 1
                then r.fileName + [NUL] <= packet[SHORT_HEADER_SIZE..] else r.fileName == [])
  {
    var before, after := AtMostOneNul(packet[SHORT_HEADER_SIZE..]);
    RequestWithoutMode(packet, before, after);
    CountNulConcat(before + [NUL], after);
    CountNulConcat(before, [NUL]);
    CountNulOfNulFree(before);
    CountNulOfNulFree(after);
  }

  // ---- All other requests ----

  /** The pairs and the trailing key that a list of tokens holds. */
  lemma {:induction false} TokensArePairs(tokens: seq<Bytes>) returns (options: seq<Pair>, lone: seq<Bytes>)
    requires AllNulFree(tokens)
    ensures tokens == Flatten(options) + lone && |lone| <= 1
    ensures PairsNulFree(options) && AllNulFree(lone)
    decreases |tokens|
  {
    if |tokens| < 2 {
      options, lone := [], tokens;
    } else {
      var first := Pair(tokens[0], tokens[1]);
      options, lone := TokensArePairs(tokens[2..]);
      assert tokens == [tokens[0], tokens[1]] + tokens[2..];
      assert ([first] + options)[1..] == options;
      options := [first] + options;
    }
  }

  lemma OpCodeOctets(p: Bytes)
    requires SHORT_HEADER_SIZE <= |p|
    ensures WordBytes(OpCode(p)) == p[..SHORT_HEADER_SIZE]
  {
  }

  /** With two NULs or more a datagram is the encoding of a request, with something behind it that
      holds no NUL. So the round trip says what is read from it. */
  lemma EveryOtherDatagramIsEncoded(packet: Bytes)
    returns (fileName: Bytes, mode: Bytes, options: seq<Pair>, lone: seq<Bytes>, tail: Bytes)
    requires SHORT_HEADER_SIZE <= |packet| && CountNul(packet[SHORT_HEADER_SIZE..]) >= 2
    ensures NulFree(fileName) && NulFree(mode) && PairsNulFree(options)
    ensures |lone| <= 1 && AllNulFree(lone) && NulFree(tail)
    ensures packet == EncodeRequest(OpCode(packet), fileName, mode, options, lone) + tail
  {
    var body := packet[SHORT_HEADER_SIZE..];
    var tokens := Tokens(body);
    OneTokenPerNul(body);
    tail := RejoinedTokens(body);
    fileName, mode := tokens[0], tokens[1];
    options, lone := TokensArePairs(tokens[2..]);
    OpCodeOctets(packet);
    assert tokens == [fileName, mode] + Flatten(options) + lone;
    assert packet == packet[..SHORT_HEADER_SIZE] + body;
  }
}
