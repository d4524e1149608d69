/** The option and mode decoders, and the decimal numerals they share with the OACK printer. */
module Options {
  import opened Octets

  const BLOCK_SIZE_OPTION: Bytes := "blksize"
  const TIME_OUT_OPTION: Bytes := "timeout"
  const TRANSFER_SIZE_OPTION: Bytes := "tsize"

  const MIN_BLOCK_SIZE: nat := 8
  const MAX_BLOCK_SIZE: nat := 65464
  const SIZE_MAX: nat := 0xFFFF_FFFF_FFFF_FFFF
  const UINT8_MAX: nat := 255

  // ---- Names ----

  /** `tolower` in the "C" locale. */
  function ToLower(c: Octet): Octet {
    if 'A' <= c <= 'Z' then (c as int + 32) as char else c
  }

  /** Only the first argument is folded, so the second must be given in lower case. */
  predicate Equal(value1: Bytes, value2: Bytes) {
    |value1| == |value2| && forall i :: 0 <= i < |value1| ==> ToLower(value1[i]) == value2[i]
  }

  predicate IsBlockSizeOption(key: Bytes) { Equal(key, BLOCK_SIZE_OPTION) }
  predicate IsTimeOutOption(key: Bytes) { Equal(key, TIME_OUT_OPTION) }
  predicate IsTransferSizeOption(key: Bytes) { Equal(key, TRANSFER_SIZE_OPTION) }

  datatype Mode = NetAscii | Octet | Mail

  function GetMode(mode: Bytes): Option<Mode> {
    if Equal(mode, "octet") then Some(Mode.Octet)
    else if Equal(mode, "netascii") then Some(NetAscii)
    else if Equal(mode, "mail") then Some(Mail)
    else None
  }

  /** No key is taken for two different options, so the order of the three tests does not matter. */
  lemma OptionNamesAreDisjoint(key: Bytes)
    ensures !(IsBlockSizeOption(key) && IsTimeOutOption(key))
    ensures !(IsBlockSizeOption(key) && IsTransferSizeOption(key))
    ensures !(IsTimeOutOption(key) && IsTransferSizeOption(key))
  {
    if |key| == 7 {
      assert ToLower(key[0]) == BLOCK_SIZE_OPTION[0] ==> ToLower(key[0]) != TIME_OUT_OPTION[0];
    }
  }

  // ---- What the names match ----

  /** The same octet, or the same letter in the other case. */
  predicate SameLetter(a: Octet, b: Octet) {
    || a == b
    || ('A' <= a <= 'Z' && b as int == a as int + 32)
    || ('a' <= a <= 'z' && b as int == a as int - 32)
  }

  predicate SameUpToCase(a: Bytes, b: Bytes) {
    |a| == |b| && forall i :: 0 <= i < |a| ==> SameLetter(a[i], b[i])
  }

  predicate HasNoCapital(s: Bytes) { forall i :: 0 <= i < |s| ==> !('A' <= s[i] <= 'Z') }

  predicate NamesMode(mode: Bytes) {
    SameUpToCase(mode, "octet") || SameUpToCase(mode, "netascii") || SameUpToCase(mode, "mail")
  }

  lemma EqualIsSameUpToCase(value1: Bytes, value2: Bytes)
    requires HasNoCapital(value2)
    ensures Equal(value1, value2) <==> SameUpToCase(value1, value2)
  {
    if |value1| == |value2| {
      assert forall i :: 0 <= i < |value1| ==> (ToLower(value1[i]) == value2[i] <==> SameLetter(value1[i], value2[i]));
    }
  }

  /** A key names an option if and only if it is the option's name in any mixture of cases. */
  lemma OptionsMatchUpToCase(key: Bytes)
    ensures IsBlockSizeOption(key) <==> SameUpToCase(key, "blksize")
    ensures IsTimeOutOption(key) <==> SameUpToCase(key, "timeout")
    ensures IsTransferSizeOption(key) <==> SameUpToCase(key, "tsize")
  {
    EqualIsSameUpToCase(key, "blksize");
    EqualIsSameUpToCase(key, "timeout");
    EqualIsSameUpToCase(key, "tsize");
  }

  /** The three modes, and nothing else, are known in any mixture of cases. */
  lemma ModesMatchUpToCase(mode: Bytes)
    ensures GetMode(mode) == Some(Mode.Octet) <==> SameUpToCase(mode, "octet")
    ensures GetMode(mode) == Some(NetAscii) <==> SameUpToCase(mode, "netascii")
    ensures GetMode(mode) == Some(Mail) <==> SameUpToCase(mode, "mail")
    ensures GetMode(mode).Some? <==> NamesMode(mode)
  {
    EqualIsSameUpToCase(mode, "octet");
    EqualIsSameUpToCase(mode, "netascii");
    EqualIsSameUpToCase(mode, "mail");
  }

  lemma SameUpToCaseIsTransitive(a: Bytes, b: Bytes, c: Bytes)
    requires SameUpToCase(a, b)
    ensures SameUpToCase(a, c) <==> SameUpToCase(b, c)
  {
    if |a| == |c| {
      forall i | 0 <= i < |a|
        ensures SameLetter(a[i], c[i]) <==> SameLetter(b[i], c[i])
      {
        assert SameLetter(a[i], b[i]);
      }
    }
  }

  /** The case of letters makes no difference to what a key or a mode names. */
  lemma CaseMakesNoDifference(a: Bytes, b: Bytes)
    requires SameUpToCase(a, b)
    ensures IsBlockSizeOption(a) <==> IsBlockSizeOption(b)
    ensures IsTimeOutOption(a) <==> IsTimeOutOption(b)
    ensures IsTransferSizeOption(a) <==> IsTransferSizeOption(b)
    ensures GetMode(a) == GetMode(b)
  {
    OptionsMatchUpToCase(a);
    OptionsMatchUpToCase(b);
    ModesMatchUpToCase(a);
    ModesMatchUpToCase(b);
    SameUpToCaseIsTransitive(a, b, "blksize");
    SameUpToCaseIsTransitive(a, b, "timeout");
    SameUpToCaseIsTransitive(a, b, "tsize");
    SameUpToCaseIsTransitive(a, b, "octet");
    SameUpToCaseIsTransitive(a, b, "netascii");
    SameUpToCaseIsTransitive(a, b, "mail");
  }

  // ---- Numerals ----

  predicate IsDigit(c: Octet) { '0' <= c <= '9' }

  predicate AllDigits(s: Bytes) { forall i :: 0 <= i < |s| ==> IsDigit(s[i]) }

  /** The number a string of decimal digits stands for. */
  function Numeral(s: Bytes): nat
    requires AllDigits(s)
  {
    if s == [] then 0
    else 10 * Numeral(s[..|s| - 1]) + (s[|s| - 1] as int - '0' as int)
  }

  function DigitPrefix(s: Bytes): (n: nat)
    ensures n <= |s| && AllDigits(s[..n])
    ensures n < |s| ==> !IsDigit(s[n])
  {
    if s == [] || !IsDigit(s[0]) then 0
    else
      var n := 1 + DigitPrefix(s[1..]);
      assert s[..n] == [s[0]] + s[1..][..n - 1];
      n
  }

  datatype Scan = Scanned(consumed: nat, value: nat) | InvalidArgument | OutOfRange

  /** `std::from_chars` for an unsigned type with the given largest value. */
  function FromChars(s: Bytes, max: nat): Scan {
    var n := DigitPrefix(s);
    if n == 0 then InvalidArgument
    else if Numeral(s[..n]) > max then OutOfRange
    else Scanned(n, Numeral(s[..n]))
  }

  /** The whole of `s` is a decimal numeral for `v`. */
  predicate Denotes(s: Bytes, v: nat) {
    s != [] && AllDigits(s) && Numeral(s) == v
  }

  lemma WholeNumeral(s: Bytes, max: nat)
    ensures forall v: nat :: FromChars(s, max) == Scanned(|s|, v) <==> Denotes(s, v) && v <= max
    ensures FromChars(s, max).Scanned? ==> s != []
  {
    assert s[..|s|] == s;
    var n := DigitPrefix(s);
    if AllDigits(s) && n < |s| {
      assert false;
    }
  }

  lemma OneDigit(c: Octet, v: nat)
    ensures Denotes([c], v) <==> '0' <= c <= '9' && v == c as int - 48
  {
    assert [c][0] == c && [c][..0] == [];
    assert AllDigits([c]) <==> IsDigit(c);
    if IsDigit(c) {
      assert Numeral([c]) == 10 * Numeral([c][..0]) + (c as int - '0' as int);
    }
  }

  /** A numeral of one digit, and of one digit more. */
  lemma DigitsOfNumeral(s: Bytes, c: Octet, v: nat)
    ensures Denotes([c], v) <==> '0' <= c <= '9' && v == c as int - 48
    ensures s != [] ==> (Denotes(s + [c], v) <==> Denotes(s, v / 10) && c as int == 48 + v % 10)
  {
    var more := s + [c];
    OneDigit(c, v);
    assert more[..|more| - 1] == s && more[|more| - 1] == c;
    assert AllDigits(more) ==> AllDigits(s) && IsDigit(c) by {
      assert forall i :: 0 <= i < |s| ==> more[i] == s[i];
    }
  }

  lemma DigitIsListed(c: Octet)
    requires IsDigit(c)
    ensures c in "0123456789"
  {
    assert "0123456789"[c as int - 48] == c;
  }

  predicate IsValidBlockSize(value: nat) {
    !(value < MIN_BLOCK_SIZE || value > MAX_BLOCK_SIZE)
  }

  function GetBlockSize(value: Bytes): (r: Option<nat>)
    ensures forall v: nat :: r == Some(v) <==> Denotes(value, v) && 8 <= v <= 65464
  {
    WholeNumeral(value, SIZE_MAX);
    match FromChars(value, SIZE_MAX)
    case Scanned(n, v) => if n != |value| || !IsValidBlockSize(v) then None else Some(v)
    case _ => None
  }

  /** The result is in milliseconds. */
  function GetTimeOut(value: Bytes): (r: Option<nat>)
    ensures forall v: nat :: r == Some(1000 * v) <==> Denotes(value, v) && 1 <= v <= 255
    ensures r.Some? ==> r.value % 1000 == 0
  {
    WholeNumeral(value, UINT8_MAX);
    match FromChars(value, UINT8_MAX)
    case Scanned(n, v) => if n != |value| || v == 0 then None else Some(1000 * v)
    case _ => None
  }

  function GetTransferSize(value: Bytes): (r: Option<nat>)
    ensures forall v: nat :: r == Some(v) <==> Denotes(value, v) && v < 0x1_0000_0000_0000_0000
  {
    WholeNumeral(value, SIZE_MAX);
    match FromChars(value, SIZE_MAX)
    case Scanned(n, v) => if n != |value| then None else Some(v)
    case _ => None
  }

  /** A value with anything but digits in it, or nothing at all, is no option value. */
  lemma OnlyDigitsAreDecoded(value: Bytes)
    requires value == [] || exists i :: 0 <= i < |value| && value[i] !in "0123456789"
    ensures GetBlockSize(value) == None && GetTimeOut(value) == None && GetTransferSize(value) == None
  {
    forall v: nat
      ensures !Denotes(value, v)
    {
      if i :| 0 <= i < |value| && value[i] !in "0123456789" {
        if IsDigit(value[i]) { DigitIsListed(value[i]); }
      }
    }
    if GetTimeOut(value).Some? {
      TimeOutsAreWholeSeconds(value);
    }
    assert GetBlockSize(value).Some? ==> Denotes(value, GetBlockSize(value).value);
    assert GetTransferSize(value).Some? ==> Denotes(value, GetTransferSize(value).value);
  }

  lemma TimeOutsAreWholeSeconds(value: Bytes)
    requires GetTimeOut(value).Some?
    ensures Denotes(value, GetTimeOut(value).value / 1000)
  {
    var v := GetTimeOut(value).value / 1000;
    assert GetTimeOut(value) == Some(1000 * v);
  }

  /** `std::to_chars` in base ten. */
  function Decimal(n: nat): (s: Bytes)
    ensures s != [] && AllDigits(s)
  {
    var last: Octet := (n % 10 + '0' as int) as char;
    if n < 10 then [last] else Decimal(n / 10) + [last]
  }

  lemma {:induction false} DecimalDenotes(n: nat)
    ensures Denotes(Decimal(n), n)
  {
    var s := Decimal(n);
    if n < 10 {
      assert s[..0] == [];
    } else {
      DecimalDenotes(n / 10);
      assert s[..|s| - 1] == Decimal(n / 10);
    }
  }

  function Pow10(k: nat): (p: nat)
    ensures p > 0
  {
    if k == 0 then 1 else 10 * Pow10(k - 1)
  }

  lemma {:induction false} DecimalLength(n: nat, k: nat)
    requires 1 <= k && n < Pow10(k)
    ensures |Decimal(n)| <= k
  {
    if n >= 10 {
      assert Pow10(1) == 10 * Pow10(0);
      DecimalLength(n / 10, k - 1);
    }
  }

  predicate NulFree(s: Bytes) { forall i :: 0 <= i < |s| ==> s[i] != NUL }

  lemma DecimalIsNulFree(n: nat)
    ensures NulFree(Decimal(n))
  {
    assert forall i :: 0 <= i < |Decimal(n)| ==> IsDigit(Decimal(n)[i]);
  }
}
