/** The Kotlin standard-library string operations the app relies on:
    `trim()`, `toIntOrNull()`, `Int.toString()` and `split(...)`. */
module KotlinText {
  import opened Wrappers

  // ---------------------------------------------------------------------------
  // trim()
  // ---------------------------------------------------------------------------

  /** Kotlin's `Char.isWhitespace()` on the JVM: `Character.isWhitespace(c)`
      or `Character.isSpaceChar(c)`. */
  predicate IsWhitespace(c: char) {
    || c == '\t' || c == '\n' || c == '\U{B}' || c == '\U{C}' || c == '\r'
    || ('\U{1C}' <= c <= '\U{1F}')
    || c == ' ' || c == '\U{A0}' || c == '\U{1680}'
    || ('\U{2000}' <= c <= '\U{200A}')
    || c == '\U{2028}' || c == '\U{2029}' || c == '\U{202F}' || c == '\U{205F}' || c == '\U{3000}'
  }

  predicate AllWhitespace(s: string) {
    forall k :: 0 <= k < |s| ==> IsWhitespace(s[k])
  }

  /** Drops the leading whitespace: the result is a suffix of `s`, does not
      start with whitespace, and everything dropped was whitespace. */
  function TrimStart(s: string): (r: string)
    ensures |r| <= |s| && r == s[|s| - |r|..]
    ensures r == [] || !IsWhitespace(r[0])
    ensures forall k :: 0 <= k < |s| - |r| ==> IsWhitespace(s[k])
  {
    if s != [] && IsWhitespace(s[0]) then TrimStart(s[1..]) else s
  }

  /** Drops the trailing whitespace: the result is a prefix of `s`, does not
      end with whitespace, and everything dropped was whitespace. */
  function TrimEnd(s: string): (r: string)
    ensures |r| <= |s| && r == s[..|r|]
    ensures r == [] || !IsWhitespace(r[|r| - 1])
    ensures forall k :: |r| <= k < |s| ==> IsWhitespace(s[k])
  {
    if s != [] && IsWhitespace(s[|s| - 1]) then TrimEnd(s[..|s| - 1]) else s
  }

  /** Kotlin's `String.trim()`. */
  function Trim(s: string): (r: string)
    ensures |r| <= |s|
    ensures r == [] || (!IsWhitespace(r[0]) && !IsWhitespace(r[|r| - 1]))
    ensures r == [] <==> AllWhitespace(s)
  {
    var t := TrimStart(s);
    var r := TrimEnd(t);
    assert r == [] ==> t == [];
    r
  }

  /** A string with no whitespace at either end is left alone by `trim()`. */
  lemma TrimOfTrimmed(s: string)
    requires s == [] || (!IsWhitespace(s[0]) && !IsWhitespace(s[|s| - 1]))
    ensures Trim(s) == s
  {
    assert TrimStart(s) == s;
    assert TrimEnd(s) == s;
  }

  /** `trim()` removes whitespace at the two ends and nothing else: the result
      is the slice of `s` that starts after the leading whitespace, and all
      that lies before and after that slice is whitespace. */
  lemma TrimRemovesOnlyEnds(s: string)
    ensures var i := |s| - |TrimStart(s)|;
      && AllWhitespace(s[..i])
      && |Trim(s)| <= |s[i..]| && Trim(s) == s[i..][..|Trim(s)|]
      && AllWhitespace(s[i..][|Trim(s)|..])
  {
    var t := TrimStart(s);
    assert Trim(s) == TrimEnd(t);
    LeadingWhitespace(s);
    TrailingWhitespace(t);
  }

  /** What `TrimStart` drops is whitespace. */
  lemma LeadingWhitespace(s: string)
    ensures AllWhitespace(s[..|s| - |TrimStart(s)|])
  {
    var head := s[..|s| - |TrimStart(s)|];
    assert forall k :: 0 <= k < |head| ==> head[k] == s[k];
  }

  /** What `TrimEnd` drops is whitespace. */
  lemma TrailingWhitespace(t: string)
    ensures AllWhitespace(t[|TrimEnd(t)|..])
  {
    var tail := t[|TrimEnd(t)|..];
    assert forall k :: 0 <= k < |tail| ==> tail[k] == t[|TrimEnd(t)| + k];
  }

  /** `trim()` is idempotent. */
  lemma TrimIdempotent(s: string)
    ensures Trim(Trim(s)) == Trim(s)
  {
    TrimOfTrimmed(Trim(s));
  }

  // ---------------------------------------------------------------------------
  // Decimal digits, toIntOrNull() and Int.toString()
  // ---------------------------------------------------------------------------

  const IntMin: int := -0x8000_0000
  const IntMax: int := 0x7fff_ffff

  /** The range of a Kotlin `Int`. */
  predicate IsInt32(n: int) {
    IntMin <= n <= IntMax
  }

  predicate IsDigit(c: char) {
    '0' <= c <= '9'
  }

  predicate AllDigits(s: string) {
    forall k :: 0 <= k < |s| ==> IsDigit(s[k])
  }

  function DigitValue(c: char): (d: nat)
    requires IsDigit(c)
    ensures d < 10
  {
    (c as int) - ('0' as int)
  }

  function DigitChar(d: nat): (c: char)
    requires d < 10
    ensures IsDigit(c) && DigitValue(c) == d
  {
    (('0' as int) + d) as char
  }

  /** The value of a string of decimal digits, most significant first. */
  function DigitsValue(s: string): nat
    requires AllDigits(s)
  {
    if s == [] then 0 else DigitsValue(s[..|s| - 1]) * 10 + DigitValue(s[|s| - 1])
  }

  /** The digits of a numeral: what follows a leading sign, if any. */
  function DigitPart(s: string): (d: string)
    requires s != []
    ensures |d| == |s| || |d| == |s| - 1
  {
    if s[0] == '+' || s[0] == '-' then s[1..] else s
  }

  /** The value a numeral denotes: its digits' value, negated after a `-`. */
  function NumeralValue(s: string): int
    requires s != [] && AllDigits(DigitPart(s))
  {
    if s[0] == '-' then -(DigitsValue(DigitPart(s)) as int) else DigitsValue(DigitPart(s))
  }

  /** Kotlin's `String.toIntOrNull()` (radix 10): an optional `+` or `-`, then
      at least one digit, and a value that fits in an `Int`; otherwise `null`. */
  function ToIntOrNull(s: string): (r: Option<int>)
    ensures r.Some? ==> IsInt32(r.value)
    ensures r.Some? ==> s != [] && (s[0] == '+' || s[0] == '-' || IsDigit(s[0]))
    ensures r.Some? ==> DigitPart(s) != [] && AllDigits(DigitPart(s)) && r.value == NumeralValue(s)
  {
    if s == [] then None
    else if s[0] == '-' || s[0] == '+' then
      var body := s[1..];
      if body == [] || !AllDigits(body) then None
      else
        var v: int := if s[0] == '-' then -(DigitsValue(body) as int) else DigitsValue(body);
        if IsInt32(v) then Some(v) else None
    else if AllDigits(s) && IsInt32(DigitsValue(s)) then Some(DigitsValue(s))
    else None
  }

  /** Conversely, every numeral whose value is an `Int` parses to that value:
      leading zeros and a leading `+` are accepted. */
  lemma ToIntOrNullAcceptsNumeral(s: string)
    requires s != [] && DigitPart(s) != [] && AllDigits(DigitPart(s))
    requires IsInt32(NumeralValue(s))
    ensures ToIntOrNull(s) == Some(NumeralValue(s))
  {
    if s[0] != '-' && s[0] != '+' {
      assert AllDigits(s);
    }
  }

  /** Leading zeros are accepted. */
  lemma ToIntOrNullLeadingZeros()
    ensures ToIntOrNull("007") == Some(7)
  {
    var z := "007";
    assert DigitPart(z) == z && AllDigits(z);
    assert z[..2] == "00" && z[..2][..1] == "0" && z[..2][..1][..0] == [];
    assert DigitsValue("0") == 0;
    assert DigitsValue("00") == 0;
    assert DigitsValue(z) == 7;
    ToIntOrNullAcceptsNumeral(z);
  }

  /** A plus sign is accepted, and a minus sign negates. */
  lemma ToIntOrNullSigns()
    ensures ToIntOrNull("+4") == Some(4)
    ensures ToIntOrNull("-12") == Some(-12)
  {
    assert DigitPart("+4") == "4";
    ToIntOrNullAcceptsNumeral("+4");
    assert DigitPart("-12") == "12" && "12"[..1] == "1";
    ToIntOrNullAcceptsNumeral("-12");
  }

  /** A string holding a character that is neither a digit nor a leading sign
      does not parse. */
  lemma ToIntOrNullRejectsNonDigit(s: string, k: nat)
    requires k < |s| && !IsDigit(s[k])
    requires k > 0 || (s[0] != '-' && s[0] != '+')
    ensures ToIntOrNull(s) == None
  {
    if s[0] == '-' || s[0] == '+' {
      assert s[1..][k - 1] == s[k];
    }
  }

  /** Decimal representation of a natural number, without leading zeros. */
  function NatToString(n: nat): (s: string)
    ensures s != [] && AllDigits(s) && DigitsValue(s) == n
    ensures s[0] == '0' ==> s == "0"
  {
    if n < 10 then [DigitChar(n)]
    else
      var prefix := NatToString(n / 10);
      var s := prefix + [DigitChar(n % 10)];
      assert s[..|s| - 1] == prefix;
      s
  }

  /** Kotlin's `Int.toString()`: decimal, with a leading `-` for negatives. */
  function IntToString(n: int): (s: string)
    ensures s != []
    ensures s[0] == '-' <==> n < 0
    ensures AllDigits(s[1..])
    ensures n >= 0 ==> AllDigits(s)
    ensures n < 0 ==> |s| >= 2
    ensures s[if n < 0 then 1 else 0] == '0' ==> n == 0 && s == "0"
  {
    if n < 0 then "-" + NatToString(-n) else NatToString(n)
  }

  /** `toIntOrNull` inverts `toString` on every `Int`. */
  lemma {:induction false} IntToStringRoundTrip(n: int)
    requires IsInt32(n)
    ensures ToIntOrNull(IntToString(n)) == Some(n)
  {
    var s := IntToString(n);
    if n < 0 {
      assert s[1..] == NatToString(-n);
    } else {
      assert AllDigits(s);
    }
  }

  /** Distinct `Int`s print differently. */
  lemma IntToStringInjective(a: int, b: int)
    requires IsInt32(a) && IsInt32(b)
    requires IntToString(a) == IntToString(b)
    ensures a == b
  {
    IntToStringRoundTrip(a);
    IntToStringRoundTrip(b);
  }

  // ---------------------------------------------------------------------------
  // split(sep)
  // ---------------------------------------------------------------------------

  /** Joins the pieces back together with the separator between them. */
  function Join(parts: seq<string>, sep: char): string
    requires |parts| >= 1
  {
    if |parts| == 1 then parts[0] else parts[0] + [sep] + Join(parts[1..], sep)
  }

  /** The number of occurrences of `c` in `s`. */
  function Occurrences(s: string, c: char): nat {
    multiset(s)[c]
  }

  predicate NoSeparator(parts: seq<string>, sep: char) {
    forall i :: 0 <= i < |parts| ==> sep !in parts[i]
  }

  lemma OccurrencesCons(s: string, c: char)
    requires s != []
    ensures Occurrences(s, c) == (if s[0] == c then 1 else 0) + Occurrences(s[1..], c)
  {
    assert s == [s[0]] + s[1..];
    assert multiset(s) == multiset{s[0]} + multiset(s[1..]);
  }

  /** A separator in front starts a new, empty first piece. */
  function StartPiece(rest: seq<string>, sep: char): (parts: seq<string>)
    requires |rest| >= 1 && NoSeparator(rest, sep)
    ensures |parts| == |rest| + 1 && NoSeparator(parts, sep)
    ensures Join(parts, sep) == [sep] + Join(rest, sep)
  {
    var parts := [""] + rest;
    assert parts[1..] == rest;
    assert forall i :: 1 <= i < |parts| ==> parts[i] == rest[i - 1];
    parts
  }

  /** Any other character in front extends the first piece. */
  function ExtendPiece(c: char, rest: seq<string>, sep: char): (parts: seq<string>)
    requires c != sep && |rest| >= 1 && NoSeparator(rest, sep)
    ensures |parts| == |rest| && NoSeparator(parts, sep)
    ensures Join(parts, sep) == [c] + Join(rest, sep)
  {
    var parts := [[c] + rest[0]] + rest[1..];
    assert forall i :: 1 <= i < |parts| ==> parts[i] == rest[i];
    assert sep !in [c] + rest[0];
    if |rest| == 1 then parts
    else
      assert parts[1..] == rest[1..];
      calc {
        Join(parts, sep);
        ([c] + rest[0]) + [sep] + Join(rest[1..], sep);
        [c] + (rest[0] + [sep] + Join(rest[1..], sep));
      }
      parts
  }

  /** Kotlin's `split(sep)` without a limit: empty pieces are kept, including a
      trailing one, so there is always one more piece than separators. */
  function Split(s: string, sep: char): (parts: seq<string>)
    ensures |parts| == Occurrences(s, sep) + 1
    ensures NoSeparator(parts, sep)
    ensures Join(parts, sep) == s
  {
    if s == [] then [""]
    else
      var rest := Split(s[1..], sep);
      OccurrencesCons(s, sep);
      assert s == [s[0]] + s[1..];
      if s[0] == sep then StartPiece(rest, sep) else ExtendPiece(s[0], rest, sep)
  }

  /** The position of the first `c` in `s`, or `|s|` when there is none. */
  function IndexOf(s: string, c: char): (i: nat)
    ensures i <= |s|
  {
    if s == [] then 0 else if s[0] == c then 0 else 1 + IndexOf(s[1..], c)
  }

  lemma {:induction false} IndexOfAfterPrefix(a: string, c: char, x: string)
    requires c !in a
    ensures IndexOf(a + [c] + x, c) == |a|
  {
    if a != [] {
      assert (a + [c] + x)[1..] == a[1..] + [c] + x;
      IndexOfAfterPrefix(a[1..], c, x);
    }
  }

  /** When neither `a` nor `b` holds the separator `c`, the text before the
      first `c` is determined: `a + [c] + x == b + [c] + y` forces `a == b`. */
  lemma PrefixBeforeSeparator(a: string, b: string, c: char, x: string, y: string)
    requires c !in a && c !in b
    requires a + [c] + x == b + [c] + y
    ensures a == b && x == y
  {
    var u := a + [c] + x;
    IndexOfAfterPrefix(a, c, x);
    IndexOfAfterPrefix(b, c, y);
    assert a == u[..|a|] && b == u[..|b|];
    assert x == u[|a| + 1..] && y == u[|b| + 1..];
  }

  // ---------------------------------------------------------------------------
  // String.length
  // ---------------------------------------------------------------------------

  /** Kotlin's `String.length` counts UTF-16 code units: a character outside
      the Basic Multilingual Plane takes two. */
  predicate IsAstral(c: char) {
    c as int > 0xFFFF
  }

  function Utf16Length(s: string): (n: nat)
    ensures |s| <= n <= 2 * |s|
    ensures n == |s| <==> forall k :: 0 <= k < |s| ==> !IsAstral(s[k])
    ensures n == 2 * |s| <==> forall k :: 0 <= k < |s| ==> IsAstral(s[k])
  {
    if s == [] then 0
    else
      var rest := Utf16Length(s[1..]);
      assert forall k :: 1 <= k < |s| ==> s[1..][k - 1] == s[k];
      (if IsAstral(s[0]) then 2 else 1) + rest
  }

  /** The length of a concatenation is the sum of the lengths. */
  lemma {:induction false} Utf16LengthAppend(a: string, b: string)
    ensures Utf16Length(a + b) == Utf16Length(a) + Utf16Length(b)
  {
    if a == [] {
      assert a + b == b;
    } else {
      assert (a + b)[0] == a[0] && (a + b)[1..] == a[1..] + b;
      Utf16LengthAppend(a[1..], b);
    }
  }

  /** One code unit for a character of the Basic Multilingual Plane, two for
      any other (a surrogate pair). */
  lemma Utf16LengthOfChar(c: char)
    ensures Utf16Length([c]) == if IsAstral(c) then 2 else 1
  {
  }
}
