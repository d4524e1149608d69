/** The iterator over the NUL-terminated strings of a request. */
module Tokenizer {
  import opened Octets
  import opened Options

  // ---- What the tokens of a range are ----

  /** The position `std::find` reports for a NUL: the length when there is none. */
  function FirstNul(s: Bytes): (n: nat)
    ensures n <= |s|
    ensures NulFree(s[..n])
    ensures n < |s| ==> s[n] == NUL
  {
    if s == [] || s[0] == NUL then 0
    else
      var n := 1 + FirstNul(s[1..]);
      assert s[..n] == [s[0]] + s[1..][..n - 1];
      n
  }

  lemma FirstNulIsUnique(s: Bytes, n: nat)
    requires n < |s| && s[n] == NUL && forall i :: 0 <= i < n ==> s[i] != NUL
    ensures FirstNul(s) == n
  {
    var k := FirstNul(s);
    assert forall i :: 0 <= i < k ==> s[..k][i] == s[i];
  }

  /** The strings ended by a NUL, in order. What follows the last NUL is not a token. */
  function Tokens(s: Bytes): seq<Bytes> {
    var n := FirstNul(s);
    if n == |s| then [] else [s[..n]] + Tokens(s[n + 1..])
  }

  /** The tokens written one after the other, each followed by a NUL. */
  function Join(tokens: seq<Bytes>): Bytes {
    if tokens == [] then [] else tokens[0] + [NUL] + Join(tokens[1..])
  }

  predicate AllNulFree(tokens: seq<Bytes>) {
    forall i :: 0 <= i < |tokens| ==> NulFree(tokens[i])
  }

  function CountNul(s: Bytes): nat {
    if s == [] then 0 else (if s[0] == NUL then 1 else 0) + CountNul(s[1..])
  }

  lemma {:induction false} CountNulConcat(a: Bytes, b: Bytes)
    ensures CountNul(a + b) == CountNul(a) + CountNul(b)
  {
    if a == [] {
      assert a + b == b;
    } else {
      CountNulConcat(a[1..], b);
      assert (a + b)[1..] == a[1..] + b;
    }
  }

  lemma {:induction false} CountNulOfNulFree(s: Bytes)
    requires NulFree(s)
    ensures CountNul(s) == 0
  {
    if s != [] {
      CountNulOfNulFree(s[1..]);
    }
  }

  /** A string, a NUL and the rest: the one way to read off the first token. */
  lemma TokensCons(t: Bytes, rest: Bytes)
    requires NulFree(t)
    ensures Tokens(t + [NUL] + rest) == [t] + Tokens(rest)
  {
    var s := t + [NUL] + rest;
    FirstNulIsUnique(s, |t|);
    assert s[..|t|] == t;
    assert s[|t| + 1..] == rest;
  }

  lemma SplitAtFirstNul(s: Bytes) returns (t: Bytes, rest: Bytes)
    requires FirstNul(s) < |s|
    ensures NulFree(t) && s == t + [NUL] + rest
    ensures Tokens(s) == [t] + Tokens(rest)
  {
    var n := FirstNul(s);
    t, rest := s[..n], s[n + 1..];
    assert s == t + [NUL] + rest;
  }

  /** Every NUL ends one token, and no token holds a NUL. */
  lemma {:induction false} OneTokenPerNul(s: Bytes)
    ensures |Tokens(s)| == CountNul(s)
    ensures AllNulFree(Tokens(s))
    decreases |s|
  {
    if FirstNul(s) == |s| {
      assert s[..|s|] == s;
      CountNulOfNulFree(s);
    } else {
      var t, rest := SplitAtFirstNul(s);
      OneTokenPerNul(rest);
      CountNulConcat(t + [NUL], rest);
      CountNulConcat(t, [NUL]);
      CountNulOfNulFree(t);
      assert CountNul([NUL]) == 1;
    }
  }

  lemma JoinCons(t: Bytes, tokens: seq<Bytes>)
    ensures Join([t] + tokens) == t + [NUL] + Join(tokens)
  {
    assert ([t] + tokens)[1..] == tokens;
  }

  lemma Regroup(t: Bytes, a: Bytes, b: Bytes)
    ensures t + [NUL] + a + b == t + [NUL] + (a + b)
  {
  }

  lemma {:induction false} JoinEndsInNul(tokens: seq<Bytes>)
    ensures var j := Join(tokens); j != [] ==> j[|j| - 1] == NUL
  {
    if tokens != [] {
      JoinEndsInNul(tokens[1..]);
    }
  }

  /** The tokens rejoined are the longest prefix of the range that ends in a NUL: what is left
      over holds no NUL. */
  lemma {:induction false} RejoinedTokens(s: Bytes) returns (tail: Bytes)
    ensures s == Join(Tokens(s)) + tail && NulFree(tail)
    ensures var j := Join(Tokens(s)); j != [] ==> j[|j| - 1] == NUL
    decreases |s|
  {
    JoinEndsInNul(Tokens(s));
    if FirstNul(s) == |s| {
      assert s[..|s|] == s;
      tail := s;
    } else {
      var t, rest := SplitAtFirstNul(s);
      tail := RejoinedTokens(rest);
      JoinCons(t, Tokens(rest));
      Regroup(t, Join(Tokens(rest)), tail);
    }
  }

  /** Tokens come back from their join, whatever follows it. */
  lemma {:induction false} TokensOfJoin(tokens: seq<Bytes>, rest: Bytes)
    requires AllNulFree(tokens)
    ensures Tokens(Join(tokens) + rest) == tokens + Tokens(rest)
  {
    if tokens == [] {
      assert Join(tokens) + rest == rest;
    } else {
      var t, more := tokens[0], tokens[1..];
      TokensOfJoin(more, rest);
      TokensCons(t, Join(more) + rest);
      Regroup(t, Join(more), rest);
      assert [t] + (more + Tokens(rest)) == tokens + Tokens(rest);
    }
  }

  /** Two lists of tokens with the same join are the same list. */
  lemma JoinIsInjective(a: seq<Bytes>, b: seq<Bytes>)
    requires AllNulFree(a) && AllNulFree(b) && Join(a) == Join(b)
    ensures a == b
  {
    TokensOfJoin(a, []);
    TokensOfJoin(b, []);
    assert Tokens([]) == [];
    assert a + [] == a && b + [] == b;
  }

  lemma {:induction false} JoinConcat(a: seq<Bytes>, b: seq<Bytes>)
    ensures Join(a + b) == Join(a) + Join(b)
  {
    if a == [] {
      assert a + b == b;
    } else {
      JoinConcat(a[1..], b);
      assert (a + b)[1..] == a[1..] + b;
    }
  }

  // ---- The iterator ----

  method Find(buffer: Bytes, begin: nat, end: nat) returns (i: nat)
    requires begin <= end <= |buffer|
    ensures begin <= i <= end
    ensures i == begin + FirstNul(buffer[begin..end])
  {
    i := begin;
    while i != end && buffer[i] != NUL
      invariant begin <= i <= end
      invariant forall j :: begin <= j < i ==> buffer[j] != NUL
      decreases end - i
    {
      i := i + 1;
    }
    ghost var s := buffer[begin..end];
    if i < end {
      FirstNulIsUnique(s, i - begin);
    } else {
      assert forall j :: 0 <= j < |s| ==> s[j] == buffer[begin + j];
    }
  }

  class Iterator {
    const buffer: Bytes
    const end: nat
    var next: nat
    var current: nat

    ghost predicate Valid()
      reads this
    {
      && current <= next <= end <= |buffer|
      && (current == end || next == current + FirstNul(buffer[current..end]) + 1)
    }

    /** The tokens from the current one on. */
    ghost function Remaining(): seq<Bytes>
      requires Valid()
      reads this
    {
      Tokens(buffer[current..end])
    }

    constructor (buffer: Bytes, begin: nat, end: nat)
      requires begin <= end <= |buffer|
      ensures Valid() && this.buffer == buffer && this.end == end
      ensures Remaining() == Tokens(buffer[begin..end])
      ensures Remaining() == [] <==> current == end
      ensures begin == end ==> current == end
    {
      this.buffer, this.end := buffer, end;
      var found := Find(buffer, begin, end);
      this.current := if found != end then begin else end;
      this.next := if found != end then found + 1 else found;
    }

    /** The C string at the current position. At the end of the range it is read from beyond it,
        where the caller's buffer holds a NUL. */
    method Deref() returns (token: Bytes)
      requires Valid()
      requires end < |buffer| && buffer[end] == NUL
      ensures token == if Remaining() == [] then [] else Remaining()[0]
    {
      var stop := Find(buffer, current, |buffer|);
      token := buffer[current..stop];
      ghost var s, tail := buffer[current..end], buffer[current..|buffer|];
      if current != end {
        var n := FirstNul(s);
        assert tail[..n] == s[..n] && tail[n] == s[n];
        FirstNulIsUnique(tail, n);
      } else {
        FirstNulIsUnique(tail, 0);
      }
    }

    method Increment()
      requires Valid()
      modifies this
      ensures Valid()
      ensures Remaining() == if old(Remaining()) == [] then [] else old(Remaining())[1..]
      ensures Remaining() == [] <==> current == end
    {
      ghost var s, n := buffer[current..end], FirstNul(buffer[current..end]);
      assert current != end ==> s[n + 1..] == buffer[next..end];
      current := next;
      next := Find(buffer, current, end);
      if next == end {
        assert Tokens(buffer[old(next)..end]) == [];
        current := end;
        return;
      }
      next := next + 1;
    }
  }
}
