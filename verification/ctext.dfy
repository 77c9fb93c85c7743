/** The C library text primitives the parsers rely on, over one line read
    by `fgets` (a `seq<char>` that may end in '\n'):
    `memcmp` against a key, `memchr` for the ':' delimiter, the NUL-terminated
    view of a fixed buffer (`strlen`), and `atoi`. */
module CText {
  import opened Common

  /** The key comparison of the parsers: the line starts with the key.
      The bytes after a shorter line are its terminator, which never equals
      a key character, so a short line never matches. */
  predicate StartsWith(line: seq<char>, key: seq<char>)
  {
    |key| <= |line| && line[..|key|] == key
  }

  /** The prefix test is `memcmp` over the line buffer: the first |key|
      bytes of the buffer equal the key's, a line shorter than the key
      failing at its terminator (the key holds no NUL). */
  lemma StartsWithIsMemcmp(line: seq<char>, key: seq<char>)
    requires forall k :: 0 <= k < |key| ==> key[k] != '\0'
    ensures StartsWith(line, key) <==> forall k :: 0 <= k < |key| ==> Buf(line, k) == key[k]
    ensures StartsWith(line, key) <==> |key| <= |line| && forall k :: 0 <= k < |key| ==> line[k] == key[k]
  {
    if |line| < |key| {
      assert Buf(line, |line|) != key[|line|];
    }
  }

  /** The delimiter search of the parsers: position of the first ':' of the
      line. */
  function ColonIndex(line: seq<char>): (r: Option<nat>)
    ensures r.Some? ==> r.value < |line| && line[r.value] == ':'
    ensures r.Some? ==> forall k :: 0 <= k < r.value ==> line[k] != ':'
    ensures r.None? <==> forall k :: 0 <= k < |line| ==> line[k] != ':'
  {
    if |line| == 0 then None
    else if line[0] == ':' then Some(0)
    else match ColonIndex(line[1..])
      case None => None
      case Some(k) => Some(k + 1)
  }

  predicate HasColon(line: seq<char>)
  {
    ColonIndex(line).Some?
  }

  /** Byte `k` of the 256-byte `fgets` buffer holding `line`: the line itself,
      then its NUL terminator. Bytes past the terminator are taken to be NUL. */
  function Buf(line: seq<char>, k: nat): char
  {
    if k < |line| then line[k] else '\0'
  }

  /** The C string stored in a buffer: everything before the first NUL. */
  function CString(buf: seq<char>): (s: seq<char>)
    ensures |s| <= |buf| && s == buf[..|s|]
    ensures forall k :: 0 <= k < |s| ==> s[k] != '\0'
    ensures |s| < |buf| ==> buf[|s|] == '\0'
  {
    if |buf| == 0 || buf[0] == '\0' then []
    else [buf[0]] + CString(buf[1..])
  }

  /** Size of the zeroed name buffer of `getCpuName` (source/os.c:323). */
  const NameBufferSize: nat := 65

  /** `n` zero bytes, as `calloc` hands them out. */
  function Zeros(n: nat): (z: seq<char>)
    ensures |z| == n && forall k :: 0 <= k < n ==> z[k] == '\0'
  {
    seq(n, _ => '\0')
  }

  /** A buffer whose prefix `text` is followed by a NUL holds exactly `text`. */
  lemma {:induction false} CStringOfTerminated(buf: seq<char>, text: seq<char>)
    requires |text| < |buf| && buf[..|text|] == text && buf[|text|] == '\0'
    requires forall k :: 0 <= k < |text| ==> text[k] != '\0'
    ensures CString(buf) == text
  {
    if |text| == 0 {
    } else {
      assert buf[0] == text[0];
      assert buf[1..][..|text| - 1] == text[1..];
      CStringOfTerminated(buf[1..], text[1..]);
    }
  }

  // ---- atoi -------------------------------------------------------------

  /** `isspace` in the C locale: ' ', '\t', '\n', '\v', '\f', '\r'. */
  predicate IsSpace(c: char)
  {
    c == ' ' || 9 <= c as int <= 13
  }

  predicate IsDigit(c: char)
  {
    '0' <= c <= '9'
  }

  function DigitValue(c: char): nat
    requires IsDigit(c)
  {
    c as int - '0' as int
  }

  /** A character standing for one byte of a C buffer. */
  predicate IsByte(c: char)
  {
    c as int < 0x100
  }

  /** A `char` standing for one byte. */
  type Byte = c: char | IsByte(c)

  predicate AllDigits(s: seq<char>)
  {
    forall k :: 0 <= k < |s| ==> IsDigit(s[k])
  }

  /** The maximal run of decimal digits at the start of `s`. */
  function LeadingDigits(s: seq<char>): (ds: seq<char>)
    ensures |ds| <= |s| && ds == s[..|ds|] && AllDigits(ds)
    ensures |ds| < |s| ==> !IsDigit(s[|ds|])
  {
    if |s| == 0 || !IsDigit(s[0]) then []
    else [s[0]] + LeadingDigits(s[1..])
  }

  /** The value of a decimal numeral, most significant digit first. */
  function DigitsValue(ds: seq<char>): nat
    requires AllDigits(ds)
  {
    if |ds| == 0 then 0
    else DigitsValue(ds[..|ds| - 1]) * 10 + DigitValue(ds[|ds| - 1])
  }

  /** `atoi`: skip leading white space, take an optional sign, then the
      maximal run of digits; no digits gives 0. The value is the
      mathematical one: callers state when it must fit in an `int`
      (an out-of-range `atoi` is undefined behaviour in C). */
  function Atoi(s: seq<char>): (r: int)
    ensures (forall k :: 0 <= k < |s| ==> !IsDigit(s[k])) ==> r == 0
  {
    if |s| > 0 && IsSpace(s[0]) then Atoi(s[1..])
    else if |s| > 0 && s[0] == '-' then -(DigitsValue(LeadingDigits(s[1..])) as int)
    else if |s| > 0 && s[0] == '+' then DigitsValue(LeadingDigits(s[1..]))
    else DigitsValue(LeadingDigits(s))
  }

  /** The decimal rendering of a natural number (as `printf("%d")` writes it). */
  function Decimal(n: nat): (s: seq<char>)
    ensures |s| > 0 && AllDigits(s)
  {
    if n < 10 then ['0' + n as char]
    else Decimal(n / 10) + ['0' + (n % 10) as char]
  }

  function Pow10(d: nat): (p: nat)
    ensures p >= 1
  {
    if d == 0 then 1 else 10 * Pow10(d - 1)
  }

  /** A number below 10^d has at most d decimal digits. */
  lemma {:induction false} DecimalLengthBelow(n: nat, d: nat)
    requires 1 <= d && n < Pow10(d)
    ensures |Decimal(n)| <= d
  {
    if n >= 10 {
      var q := n / 10;
      assert n == 10 * q + n % 10;
      assert q < Pow10(d - 1);
      DecimalLengthBelow(q, d - 1);
    }
  }

  /** A 32-bit value is at most ten decimal digits long. */
  lemma DecimalLength(n: nat)
    requires n < 0x1_0000_0000
    ensures |Decimal(n)| <= 10
  {
    assert Pow10(10) == 10_000_000_000;
    DecimalLengthBelow(n, 10);
  }

  lemma {:induction false} DigitsValueOfDecimal(n: nat)
    ensures DigitsValue(Decimal(n)) == n
  {
    if n >= 10 {
      var s := Decimal(n);
      assert s[..|s| - 1] == Decimal(n / 10);
      DigitsValueOfDecimal(n / 10);
    }
  }

  lemma {:induction false} LeadingDigitsOfNumeral(ds: seq<char>, rest: seq<char>)
    requires AllDigits(ds)
    requires |rest| > 0 ==> !IsDigit(rest[0])
    ensures LeadingDigits(ds + rest) == ds
  {
    if |ds| > 0 {
      assert (ds + rest)[1..] == ds[1..] + rest;
      LeadingDigitsOfNumeral(ds[1..], rest);
    }
  }

  /** `atoi` of a numeral followed by anything that does not continue it. */
  lemma AtoiOfNumeral(negative: bool, n: nat, rest: seq<char>)
    requires |rest| > 0 ==> !IsDigit(rest[0])
    ensures Atoi((if negative then "-" else "") + Decimal(n) + rest) == (if negative then -(n as int) else n)
  {
    var digits := Decimal(n) + rest;
    LeadingDigitsOfNumeral(Decimal(n), rest);
    DigitsValueOfDecimal(n);
    assert LeadingDigits(digits) == Decimal(n);
    if negative {
      var s := "-" + digits;
      assert s == (if negative then "-" else "") + Decimal(n) + rest;
      assert s[0] == '-' && !IsSpace(s[0]) && s[1..] == digits;
      assert Atoi(s) == -(DigitsValue(LeadingDigits(digits)) as int);
    } else {
      assert digits == (if negative then "-" else "") + Decimal(n) + rest;
      assert digits[0] == Decimal(n)[0];
      assert IsDigit(digits[0]) && !IsSpace(digits[0]) && digits[0] != '-' && digits[0] != '+';
      assert Atoi(digits) == DigitsValue(LeadingDigits(digits));
    }
  }

  /** `atoi` inverts `%d` formatting: leading white space, an optional '-',
      the numeral, then anything that does not continue the numeral. */
  lemma {:induction false} AtoiOfDecimal(pad: seq<char>, negative: bool, n: nat, rest: seq<char>)
    requires forall k :: 0 <= k < |pad| ==> IsSpace(pad[k])
    requires |rest| > 0 ==> !IsDigit(rest[0])
    ensures Atoi(pad + (if negative then "-" else "") + Decimal(n) + rest) == (if negative then -(n as int) else n)
  {
    var sign := if negative then "-" else "";
    var s := pad + sign + Decimal(n) + rest;
    if |pad| > 0 {
      assert s[0] == pad[0] && s[1..] == pad[1..] + sign + Decimal(n) + rest;
      AtoiOfDecimal(pad[1..], negative, n, rest);
    } else {
      assert s == sign + Decimal(n) + rest;
      AtoiOfNumeral(negative, n, rest);
    }
  }
}
