/** The C library conversions the samples rely on: `atoi` (decimal text to int),
    `sprintf("%d")` (int to decimal text) and the string routines on fixed buffers. */
module CStrings {
  import opened Sdk

  predicate IsDigit(c: char) {
    '0' <= c <= '9'
  }

  /** The white space that `atoi` skips before the number (C's isspace). */
  predicate IsSpace(c: char) {
    c == ' ' || c == '\t' || c == '\n' || c == '\r' || c == '\U{000B}' || c == '\U{000C}'
  }

  function DigitValue(c: char): (d: nat)
    requires IsDigit(c)
    ensures d < 10
  {
    (c as int) - ('0' as int)
  }

  function DigitChar(d: nat): (c: char)
    requires d < 10
    ensures IsDigit(c) && DigitValue(c) == d
  {
    (('0' as int) + d) as char
  }

  function SkipSpaces(s: string): (t: string)
    ensures |t| <= |s| && t == s[|s| - |t|..]
    ensures t == [] || !IsSpace(t[0])
  {
    if s != [] && IsSpace(s[0]) then SkipSpaces(s[1..]) else s
  }

  /** The longest prefix of `s` made of decimal digits. */
  function LeadingDigits(s: string): (ds: string)
    ensures |ds| <= |s| && ds == s[..|ds|]
    ensures forall i :: 0 <= i < |ds| ==> IsDigit(ds[i])
    ensures |ds| < |s| ==> !IsDigit(s[|ds|])
  {
    if s != [] && IsDigit(s[0]) then [s[0]] + LeadingDigits(s[1..]) else []
  }

  /** The value of a string of decimal digits, most significant first. */
  function DigitsValue(ds: string): nat
    requires forall i :: 0 <= i < |ds| ==> IsDigit(ds[i])
  {
    if ds == [] then 0 else DigitsValue(ds[..|ds| - 1]) * 10 + DigitValue(ds[|ds| - 1])
  }

  /** C's `atoi`: skip white space, read an optional sign and then as many digits as
      follow. A string with no digits reads as 0. (Overflow of C's int is undefined
      behaviour in C; the model does not bound the value.) */
  function Atoi(s: string): int {
    var t := SkipSpaces(s);
    if t != [] && t[0] == '-' then 0 - (DigitsValue(LeadingDigits(t[1..])) as int)
    else if t != [] && t[0] == '+' then DigitsValue(LeadingDigits(t[1..]))
    else DigitsValue(LeadingDigits(t))
  }

  const LONG_MIN: int := -0x8000_0000_0000_0000
  const LONG_MAX: int := 0x7fff_ffff_ffff_ffff
  const INT_MIN: int := -0x8000_0000
  const INT_MAX: int := 0x7fff_ffff

  /** Conversion of an integer to a 32-bit int: its low 32 bits, read as two's
      complement. */
  function ToInt32(x: int): (r: int)
    ensures INT_MIN <= r <= INT_MAX
    ensures INT_MIN <= x <= INT_MAX ==> r == x
    ensures ToU32(r) == ToU32(x)
  {
    var low := x % U32_LIMIT;
    if low > INT_MAX then low - U32_LIMIT else low
  }

  /** `atoi` as the GNU C library computes it on a 64-bit system: `strtol`, which
      clamps to the range of a long, then a conversion to a 32-bit int. */
  function CAtoi(s: string): (r: int)
    ensures INT_MIN <= r <= INT_MAX
    ensures INT_MIN <= Atoi(s) <= INT_MAX ==> r == Atoi(s)
  {
    var a := Atoi(s);
    ToInt32(if a < LONG_MIN then LONG_MIN else if a > LONG_MAX then LONG_MAX else a)
  }

  /** `sprintf("%d", n)` for a non-negative n. */
  function Decimal(n: nat): (s: string)
    ensures s != []
    ensures forall i :: 0 <= i < |s| ==> IsDigit(s[i])
  {
    if n < 10 then [DigitChar(n)] else Decimal(n / 10) + [DigitChar(n % 10)]
  }

  lemma {:induction false} DecimalValue(n: nat)
    ensures DigitsValue(Decimal(n)) == n
  {
    var s := Decimal(n);
    if n >= 10 {
      DecimalValue(n / 10);
      assert s[..|s| - 1] == Decimal(n / 10);
    }
  }

  lemma {:induction false} AllDigitsAreLeading(s: string)
    requires forall i :: 0 <= i < |s| ==> IsDigit(s[i])
    ensures LeadingDigits(s) == s
  {
    if s != [] {
      AllDigitsAreLeading(s[1..]);
    }
  }

  /** Reading back what `sprintf("%d")` printed gives the number: atoi(Decimal(n)) == n. */
  lemma AtoiDecimal(n: nat)
    ensures Atoi(Decimal(n)) == n
  {
    var s := Decimal(n);
    assert SkipSpaces(s) == s;
    AllDigitsAreLeading(s);
    DecimalValue(n);
  }

  /** `sprintf("%d", x)` for any int: a minus sign before the digits of a negative value. */
  function IntText(x: int): (s: string)
    ensures s != [] && (s[0] == '-' <==> x < 0)
  {
    if x < 0 then "-" + Decimal(0 - x) else Decimal(x)
  }

  /** An unsigned 32-bit value passed where `%d` expects an int: the same 32 bits read
      as a two's-complement int. */
  function AsInt32(x: U32): (r: int)
    ensures INT_MIN <= r <= INT_MAX
    ensures ToU32(r) == x
    ensures x <= INT_MAX <==> r == x
  {
    ToInt32(x)
  }

  /** `atoi` reads back whatever `sprintf("%d")` printed of an int. */
  lemma CAtoiIntText(x: int)
    requires INT_MIN <= x <= INT_MAX
    ensures CAtoi(IntText(x)) == x
  {
    AtoiIntText(x);
  }

  lemma AtoiIntText(x: int)
    ensures Atoi(IntText(x)) == x
  {
    if x < 0 {
      AtoiNegative(0 - x);
    } else {
      AtoiDecimal(x);
    }
  }

  lemma AtoiNegative(n: nat)
    ensures Atoi("-" + Decimal(n)) == 0 - n
  {
    var d := Decimal(n);
    var t := "-" + d;
    assert SkipSpaces(t) == t;
    assert t[1..] == d;
    AllDigitsAreLeading(d);
    DecimalValue(n);
  }

  /** Text that does not start with white space, a sign or a digit reads as 0. */
  lemma AtoiNoNumber(s: string)
    requires s != [] && !IsSpace(s[0]) && !IsDigit(s[0]) && s[0] != '-' && s[0] != '+'
    ensures Atoi(s) == 0
  {
    assert SkipSpaces(s) == s;
  }

  /** A C string holds no NUL character; the NUL ends it. */
  predicate NoNul(s: string) {
    forall k :: 0 <= k < |s| ==> s[k] != '\0'
  }

  function Nuls(n: nat): (r: seq<char>)
    ensures |r| == n && forall k :: 0 <= k < n ==> r[k] == '\0'
  {
    seq(n, _ => '\0')
  }

  /** `strlen` on a buffer: the index of its first NUL, or None when the buffer holds
      none (reading on is undefined behaviour in C). */
  function Strlen(buf: seq<char>): (r: Option<nat>)
    ensures r.Some? ==> r.value < |buf| && buf[r.value] == '\0' && NoNul(buf[..r.value])
    ensures r.None? ==> NoNul(buf)
  {
    if buf == [] then None
    else if buf[0] == '\0' then Some(0)
    else match Strlen(buf[1..])
      case None => None
      case Some(l) => assert buf[..l + 1] == [buf[0]] + buf[1..][..l]; Some(l + 1)
  }

  /** `strncpy(dest, src, n)`: the first `n` characters of `src`, padded with NULs up to
      `n` when `src` is shorter; the rest of the buffer is untouched. */
  function Strncpy(dest: seq<char>, src: string, n: nat): (r: seq<char>)
    requires n <= |dest|
    ensures |r| == |dest| && r[n..] == dest[n..]
    ensures n <= |src| ==> r[..n] == src[..n]
    ensures |src| < n ==> r[..|src|] == src && r[|src|..n] == Nuls(n - |src|)
  {
    if n <= |src| then src[..n] + dest[n..] else src + Nuls(n - |src|) + dest[n..]
  }

  /** `strncat(dest, src, n)`: at most `n` characters of `src` and a NUL written from the
      first NUL of `dest` on; None when `dest` holds no NUL or the writes would run past
      its end (both undefined behaviour in C). */
  function Strncat(dest: seq<char>, src: string, n: nat): (r: Option<seq<char>>)
    ensures r.Some? ==> |r.value| == |dest|
    ensures r.Some? <==> Strlen(dest).Some? && Strlen(dest).value + Min(n, |src|) < |dest|
  {
    match Strlen(dest)
    case None => None
    case Some(l) =>
      var m := Min(n, |src|);
      if l + m >= |dest| then None
      else Some(dest[..l] + src[..m] + ['\0'] + dest[l + m + 1..])
  }

  function Min(a: nat, b: nat): nat { if a <= b then a else b }

  /** The C string a buffer holds: everything before its first NUL. */
  function CString(buf: seq<char>): (s: string)
    ensures NoNul(s)
  {
    match Strlen(buf)
    case Some(l) => buf[..l]
    case None => buf
  }

  /** A buffer with a NUL at index `k` has a length of at most `k`. */
  lemma {:induction false} StrlenAtMost(buf: seq<char>, k: nat)
    requires k < |buf| && buf[k] == '\0'
    ensures Strlen(buf).Some? && Strlen(buf).value <= k
  {
    if buf[0] != '\0' {
      StrlenAtMost(buf[1..], k - 1);
    }
  }

  /** A NUL-free text followed by a NUL reads back as that text. */
  lemma {:induction false} CStringOfTerminated(s: string, rest: seq<char>)
    requires NoNul(s)
    ensures Strlen(s + ['\0'] + rest) == Some(|s|)
    ensures CString(s + ['\0'] + rest) == s
  {
    if s != [] {
      assert (s + ['\0'] + rest)[1..] == s[1..] + ['\0'] + rest;
      CStringOfTerminated(s[1..], rest);
    }
  }
}
