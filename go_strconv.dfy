/** The number formatting and parsing the archive indexer borrows from Go's
    `strconv` and `fmt`: base-10 `ParseInt`/`Atoi`, `Itoa`, the `%05d` verb
    and the `%q` verb (`strconv.Quote`). */
module GoStrconv {

  import opened Wrappers

  const MinInt64: int := -0x8000_0000_0000_0000
  const MaxInt64: int := 0x7FFF_FFFF_FFFF_FFFF

  predicate IsDigit(c: char)
  {
    '0' <= c <= '9'
  }

  predicate AllDigits(s: string)
  {
    forall k :: 0 <= k < |s| ==> IsDigit(s[k])
  }

  function DigitValue(c: char): (d: nat)
    requires IsDigit(c)
    ensures d < 10
  {
    c as int - '0' as int
  }

  function DigitChar(d: nat): (c: char)
    requires d < 10
    ensures IsDigit(c) && DigitValue(c) == d
  {
    ('0' as int + d) as char
  }

  /** The number a string of decimal digits denotes (leading zeros allowed). */
  function DecimalValue(s: string): nat
    requires AllDigits(s)
  {
    if s == [] then 0 else DecimalValue(s[..|s| - 1]) * 10 + DigitValue(s[|s| - 1])
  }

  /** The decimal digits of `n`, without leading zeros. */
  function Decimal(n: nat): (r: string)
    ensures |r| >= 1 && AllDigits(r)
    ensures n > 0 ==> r[0] != '0'
    ensures DecimalValue(r) == n
  {
    if n < 10 then [DigitChar(n)]
    else
      var high := Decimal(n / 10);
      var r := high + [DigitChar(n % 10)];
      assert r[..|r| - 1] == high;
      r
  }

  /** `strconv.ParseInt(s, 10, 64)`, which is also what `strconv.Atoi` does on
      a 64-bit platform: an optional sign, at least one decimal digit, and a
      value that fits in 64 bits. */
  function ParseInt(s: string): (r: Result<int>)
    ensures r.Ok? ==> MinInt64 <= r.value <= MaxInt64
  {
    var signed := |s| > 0 && (s[0] == '+' || s[0] == '-');
    var body := if signed then s[1..] else s;
    if body == [] || !AllDigits(body) then Err(InvalidNumber(s))
    else
      var mag: int := DecimalValue(body);
      var v: int := if signed && s[0] == '-' then -mag else mag;
      if MinInt64 <= v <= MaxInt64 then Ok(v) else Err(InvalidNumber(s))
  }

  /** `strconv.Itoa`. */
  function Itoa(n: int): string
  {
    if n < 0 then "-" + Decimal(-n) else Decimal(n)
  }

  /** `ParseInt` reads back every 64-bit number `Itoa` writes. */
  lemma ParseItoa(n: int)
    requires MinInt64 <= n <= MaxInt64
    ensures ParseInt(Itoa(n)) == Ok(n)
  {
    if n < 0 {
      var d := Decimal(-n);
      var t := "-" + d;
      assert t[0] == '-' && t[1..] == d;
      ParseSigned(d, '-');
    } else {
      var d := Decimal(n);
      assert IsDigit(d[0]);
      ParseDigits(d);
    }
  }

  /** A sign followed by digits parses to the signed value, when it fits. */
  lemma ParseSigned(d: string, sign: char)
    requires d != [] && AllDigits(d) && (sign == '-' || sign == '+')
    requires if sign == '-' then DecimalValue(d) <= -MinInt64 else DecimalValue(d) <= MaxInt64
    ensures ParseInt([sign] + d) == Ok(if sign == '-' then 0 - DecimalValue(d) as int else DecimalValue(d))
  {
    var t := [sign] + d;
    assert t[0] == sign && t[1..] == d;
  }

  /** A plain string of digits parses to the number it denotes, when that
      number fits in 64 bits. */
  lemma ParseDigits(s: string)
    requires s != [] && AllDigits(s) && DecimalValue(s) <= MaxInt64
    ensures ParseInt(s) == Ok(DecimalValue(s))
  {
    assert IsDigit(s[0]);
  }

  /** Leading zeros do not change the value of a digit string. */
  lemma {:induction false} DecimalValueLeadingZeros(z: string, s: string)
    requires AllDigits(s) && forall k :: 0 <= k < |z| ==> z[k] == '0'
    ensures AllDigits(z + s) && DecimalValue(z + s) == DecimalValue(s)
    decreases |s|
  {
    if s == [] {
      assert z + s == z;
      AllZeros(z);
    } else {
      var t := z + s;
      assert t[..|t| - 1] == z + s[..|s| - 1];
      DecimalValueLeadingZeros(z, s[..|s| - 1]);
    }
  }

  lemma {:induction false} AllZeros(z: string)
    requires forall k :: 0 <= k < |z| ==> z[k] == '0'
    ensures AllDigits(z) && DecimalValue(z) == 0
    decreases |z|
  {
    if z != [] {
      AllZeros(z[..|z| - 1]);
    }
  }

  /** A run of `n` zero characters. */
  function Zeros(n: nat): (r: string)
    ensures |r| == n && forall k :: 0 <= k < n ==> r[k] == '0'
  {
    seq(n, _ => '0')
  }

  /** Left-pads `s` with zeros to at least `width` characters. */
  function PadZeros(s: string, width: nat): string
  {
    if |s| >= width then s else Zeros(width - |s|) + s
  }

  /** `fmt.Sprintf("%05d", n)`: the sign counts toward the width of five. */
  function Format05d(n: int): string
  {
    if n >= 0 then PadZeros(Decimal(n), 5) else "-" + PadZeros(Decimal(-n), 4)
  }

  /** Below 100000 `%05d` writes exactly five digits, and they denote `n`. */
  lemma Format05dSmall(n: int)
    requires 0 <= n <= 99999
    ensures |Format05d(n)| == 5 && AllDigits(Format05d(n))
    ensures DecimalValue(Format05d(n)) == n
  {
    DecimalLength(n);
    var d := Decimal(n);
    if |d| < 5 {
      DecimalValueLeadingZeros(Zeros(5 - |d|), d);
    }
  }

  /** The length of the decimal form grows by one digit per power of ten. */
  lemma {:induction false} DecimalLength(n: nat)
    ensures n < 10 ==> |Decimal(n)| == 1
    ensures n < 100 ==> |Decimal(n)| <= 2
    ensures n < 1000 ==> |Decimal(n)| <= 3
    ensures n < 10000 ==> |Decimal(n)| <= 4
    ensures n < 100000 ==> |Decimal(n)| <= 5
    ensures n >= 10 ==> |Decimal(n)| == |Decimal(n / 10)| + 1
  {
    if n >= 10 {
      DecimalLength(n / 10);
    }
  }

  /** The last digit of the decimal form is the remainder modulo ten, and
      what precedes it is the decimal form of the quotient. */
  lemma DecimalLast(n: nat)
    ensures Decimal(n)[|Decimal(n)| - 1] == DigitChar(n % 10)
    ensures n >= 10 ==> Decimal(n)[..|Decimal(n)| - 1] == Decimal(n / 10)
  {
  }

  /** Dropping trailing digits divides the value by ten at least once per
      digit dropped, so a proper prefix denotes at most a tenth. */
  lemma {:induction false} DecimalValuePrefix(s: string, m: nat)
    requires AllDigits(s) && m < |s|
    ensures AllDigits(s[..m]) && DecimalValue(s[..m]) <= DecimalValue(s) / 10
    decreases |s|
  {
    var init := s[..|s| - 1];
    assert DecimalValue(s) / 10 == DecimalValue(init);
    if m < |init| {
      DecimalValuePrefix(init, m);
      assert init[..m] == s[..m];
    } else {
      assert init == s[..m];
    }
  }

  /** `Itoa` writes only digits and a leading minus. */
  lemma ItoaChars(n: int)
    ensures forall k :: 0 <= k < |Itoa(n)| ==> IsDigit(Itoa(n)[k]) || Itoa(n)[k] == '-'
  {
  }

  /** Multiplying by ten appends one zero digit. */
  lemma DecimalTimesTen(m: nat)
    requires m > 0
    ensures Decimal(10 * m) == Decimal(m) + "0"
  {
    assert (10 * m) / 10 == m && (10 * m) % 10 == 0;
  }

  // ---------------------------------------------------------------------
  // strconv.Quote and its inverse

  function HexDigit(d: nat): char
    requires d < 16
  {
    if d < 10 then ('0' as int + d) as char else ('a' as int + d - 10) as char
  }

  /** Value of a hexadecimal digit of either case. */
  function HexValue(c: char): (r: Option<nat>)
    ensures r.Some? ==> r.value < 16
  {
    if '0' <= c <= '9' then Some(c as int - '0' as int)
    else if 'a' <= c <= 'f' then Some(c as int - 'a' as int + 10)
    else if 'A' <= c <= 'F' then Some(c as int - 'A' as int + 10)
    else None
  }

  /** The escape for one character used by `strconv.Quote` on ASCII; every
      character outside ASCII is kept as it is, including the ones that
      Go's Unicode printability table would have escaped as `\u` or `\U`. */
  function EscapeChar(c: char): string
  {
    if c == '"' then "\\\""
    else if c == '\\' then "\\\\"
    else if c as int == 7 then "\\a"
    else if c as int == 8 then "\\b"
    else if c as int == 12 then "\\f"
    else if c as int == 10 then "\\n"
    else if c as int == 13 then "\\r"
    else if c as int == 9 then "\\t"
    else if c as int == 11 then "\\v"
    else if c as int < 0x20 || c as int == 0x7F then
      "\\x" + [HexDigit(c as int / 16), HexDigit(c as int % 16)]
    else [c]
  }

  function Escape(s: string): string
  {
    if s == [] then "" else EscapeChar(s[0]) + Escape(s[1..])
  }

  /** `strconv.Quote`, the `%q` verb on a string. */
  function Quote(s: string): string
  {
    "\"" + Escape(s) + "\""
  }

  /** The character a one-letter escape stands for. */
  function SimpleUnescape(e: char): Option<char>
  {
    if e == 'a' then Some(7 as char)
    else if e == 'b' then Some(8 as char)
    else if e == 'f' then Some(12 as char)
    else if e == 'n' then Some(10 as char)
    else if e == 'r' then Some(13 as char)
    else if e == 't' then Some(9 as char)
    else if e == 'v' then Some(11 as char)
    else if e == '\\' then Some('\\')
    else if e == '"' then Some('"')
    else None
  }

  function Prepend(c: char, rest: Option<string>): Option<string>
  {
    match rest
    case None => None
    case Some(r) => Some([c] + r)
  }

  /** Decodes the body of a double-quoted Go string literal. */
  function Unescape(t: string): Option<string>
    decreases |t|
  {
    if t == [] then Some([])
    else if t[0] == '"' then None
    else if t[0] != '\\' then Prepend(t[0], Unescape(t[1..]))
    else if |t| < 2 then None
    else if t[1] == 'x' then
      if |t| < 4 then None
      else
        match (HexValue(t[2]), HexValue(t[3]))
        case (Some(h), Some(l)) => Prepend((16 * h + l) as char, Unescape(t[4..]))
        case _ => None
    else
      match SimpleUnescape(t[1])
      case Some(c) => Prepend(c, Unescape(t[2..]))
      case None => None
  }

  /** `strconv.Unquote` for double-quoted literals. */
  function Unquote(q: string): Option<string>
  {
    if |q| >= 2 && q[0] == '"' && q[|q| - 1] == '"' then Unescape(q[1..|q| - 1]) else None
  }

  lemma UnescapeOne(c: char, rest: string)
    ensures Unescape(EscapeChar(c) + rest) == Prepend(c, Unescape(rest))
  {
    var e := EscapeChar(c);
    var t := e + rest;
    if (c as int < 0x20 && c as int !in {7, 8, 9, 10, 11, 12, 13}) || c as int == 0x7F {
      var n := c as int;
      assert HexValue(HexDigit(n / 16)) == Some(n / 16);
      assert HexValue(HexDigit(n % 16)) == Some(n % 16);
      assert t[4..] == rest;
      assert (16 * (n / 16) + n % 16) as char == c;
    } else if |e| == 2 {
      assert t[2..] == rest;
    } else {
      assert t[1..] == rest;
    }
  }

  /** Unescaping undoes escaping. */
  lemma {:induction false} UnescapeEscape(s: string)
    ensures Unescape(Escape(s)) == Some(s)
    decreases |s|
  {
    if s != [] {
      UnescapeOne(s[0], Escape(s[1..]));
      UnescapeEscape(s[1..]);
      assert [s[0]] + s[1..] == s;
    }
  }

  /** `strconv.Unquote(strconv.Quote(s)) == s`: the quoted form names exactly `s`. */
  lemma QuoteRoundTrip(s: string)
    ensures Unquote(Quote(s)) == Some(s)
  {
    var q := Quote(s);
    assert q[1..|q| - 1] == Escape(s);
    UnescapeEscape(s);
  }

  /** Characters `Quote` leaves as they are: printable ASCII other than the
      double quote and the backslash. */
  predicate QuoteSafe(c: char)
  {
    0x20 <= c as int < 0x7F && c != '"' && c != '\\'
  }

  /** A string of safe characters is quoted by surrounding it with quotes;
      DICOM UIDs (digits and dots) are such strings. */
  lemma {:induction false} QuoteSafeString(s: string)
    requires forall k :: 0 <= k < |s| ==> QuoteSafe(s[k])
    ensures Quote(s) == "\"" + s + "\""
  {
    EscapeSafe(s);
  }

  lemma {:induction false} EscapeSafe(s: string)
    requires forall k :: 0 <= k < |s| ==> QuoteSafe(s[k])
    ensures Escape(s) == s
    decreases |s|
  {
    if s != [] {
      EscapeSafe(s[1..]);
      assert [s[0]] + s[1..] == s;
    }
  }
}
