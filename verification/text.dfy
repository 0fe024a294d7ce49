/**
 * Character and string primitives the client borrows from the Swift standard
 * library and Foundation. Character classes that consult Unicode tables in
 * the original (`\d`, `.whitespacesAndNewlines`, `lowercased()`) are restricted
 * to ASCII here.
 */
module Text {
  import opened Optional

  predicate IsDigit(c: char) { '0' <= c <= '9' }

  predicate IsAsciiLetter(c: char) { ('a' <= c <= 'z') || ('A' <= c <= 'Z') }

  predicate IsAsciiAlphanumeric(c: char) { IsAsciiLetter(c) || IsDigit(c) }

  predicate IsAscii(c: char) { c as int < 128 }

  predicate IsAsciiLower(c: char) { 'a' <= c <= 'z' }

  /** A non-empty word of lower-case ASCII letters, digits and `_`, as the site's query values are. */
  predicate IsQueryWord(s: string)
  {
    |s| > 0 && forall k | 0 <= k < |s| :: IsAsciiLower(s[k]) || IsDigit(s[k]) || s[k] == '_'
  }

  /** A non-empty name of lower-case ASCII letters and dots, as SF Symbols are named. */
  predicate IsSymbolName(s: string)
  {
    |s| > 0 && forall k | 0 <= k < |s| :: IsAsciiLower(s[k]) || s[k] == '.'
  }

  /** A non-empty label starting with an upper-case ASCII letter. */
  predicate IsCapitalised(s: string)
  {
    |s| > 0 && 'A' <= s[0] <= 'Z'
  }

  predicate AllAscii(s: string) { forall k | 0 <= k < |s| :: IsAscii(s[k]) }

  /** `.whitespacesAndNewlines` over ASCII: space and U+0009 through U+000D. */
  predicate IsWhitespace(c: char) { c == ' ' || (9 <= c as int <= 13) }

  /** The ASCII line terminators a regex `.` refuses to match. */
  predicate IsNewline(c: char) { 10 <= c as int <= 13 }

  predicate AllDigits(s: string) { forall k | 0 <= k < |s| :: IsDigit(s[k]) }

  predicate HasPrefix(s: string, prefix: string) { |prefix| <= |s| && s[..|prefix|] == prefix }

  /** `s.hasSuffix(suffix)` */
  predicate HasSuffix(s: string, suffix: string) { |suffix| <= |s| && s[|s| - |suffix|..] == suffix }

  /** `s.contains(sub)`: `sub` occurs at some position of `s`. */
  predicate Contains(s: string, sub: string)
    decreases |s|
  {
    HasPrefix(s, sub) || (|s| > 0 && Contains(s[1..], sub))
  }

  /** Length of the longest prefix of `s` whose characters all satisfy `p`. */
  function RunLength(s: string, p: char -> bool): (n: nat)
    ensures n <= |s|
    ensures forall k | 0 <= k < n :: p(s[k])
    ensures n < |s| ==> !p(s[n])
    decreases |s|
  {
    if |s| > 0 && p(s[0]) then 1 + RunLength(s[1..], p) else 0
  }

  /** A run of `p`-characters stopped by a non-`p` character (or the end) has exactly that length. */
  lemma {:induction false} RunLengthOf(s: string, p: char -> bool, n: nat)
    requires n <= |s|
    requires forall k | 0 <= k < n :: p(s[k])
    requires n == |s| || !p(s[n])
    ensures RunLength(s, p) == n
    decreases n
  {
    if n > 0 {
      RunLengthOf(s[1..], p, n - 1);
    }
  }

  // ---------------------------------------------------------------------------
  // Swift's `Int(_: String)` and `"\(n)"`
  // ---------------------------------------------------------------------------

  const Int64Min: int := -0x8000_0000_0000_0000
  const Int64Max: int := 0x7FFF_FFFF_FFFF_FFFF

  predicate InInt64(v: int) { Int64Min <= v <= Int64Max }

  function DigitValue(c: char): nat
    requires IsDigit(c)
  {
    c as int - '0' as int
  }

  function DigitChar(d: nat): char
    requires d < 10
  {
    ('0' as int + d) as char
  }

  /** The value of a string of decimal digits, most significant first. */
  function DigitsValue(s: string): nat
    requires AllDigits(s)
    decreases |s|
  {
    if |s| == 0 then 0 else 10 * DigitsValue(s[..|s| - 1]) + DigitValue(s[|s| - 1])
  }

  /** An optional `+` or `-` sign and the text after it. */
  predicate IsSigned(s: string) { |s| > 0 && (s[0] == '+' || s[0] == '-') }

  function Magnitude(s: string): string
  {
    if IsSigned(s) then s[1..] else s
  }

  /** The shape `Int(_:)` accepts: an optional sign, then one or more ASCII digits and nothing else. */
  predicate IsIntegerLiteral(s: string)
  {
    |Magnitude(s)| > 0 && AllDigits(Magnitude(s))
  }

  /** The value an integer literal denotes, before any range check. */
  function LiteralValue(s: string): int
    requires IsIntegerLiteral(s)
  {
    if s[0] == '-' then 0 - (DigitsValue(Magnitude(s)) as int) else DigitsValue(Magnitude(s))
  }

  /**
   * Swift's failable `Int(_: String)`: an optional `+` or `-` followed by one
   * or more decimal digits and nothing else, whose value fits in 64 bits;
   * anything else, including the empty string, is `nil`.
   */
  function ParseInt(s: string): (r: Option<int>)
    ensures r.Some? <==> IsIntegerLiteral(s) && InInt64(LiteralValue(s))
    ensures r.Some? ==> r.value == LiteralValue(s)
    ensures |s| == 0 ==> r.None?
    ensures |s| > 0 && AllDigits(s) && DigitsValue(s) <= Int64Max ==> r == Some(DigitsValue(s))
    ensures |s| > 0 && AllDigits(s) && DigitsValue(s) > Int64Max ==> r.None?
  {
    if |s| > 0 && (s[0] == '+' || s[0] == '-') then
      var digits := s[1..];
      if |digits| > 0 && AllDigits(digits) then
        var v: int := if s[0] == '-' then 0 - (DigitsValue(digits) as int) else DigitsValue(digits);
        if InInt64(v) then Some(v) else None
      else None
    else if |s| > 0 && AllDigits(s) && DigitsValue(s) <= Int64Max then Some(DigitsValue(s))
    else None
  }

  /** Text with anything besides one leading sign and digits, such as `12x`, `1 2`, `+` or `--5`, is not a number. */
  lemma ParseIntRejectsOthers(s: string, k: nat)
    requires k < |s| && !IsDigit(s[k]) && (k > 0 || !IsSigned(s) || |s| == 1)
    ensures ParseInt(s) == None
  {
    if IsSigned(s) && k > 0 {
      assert Magnitude(s)[k - 1] == s[k];
    }
  }

  /** `Int(s) ?? 0`: the lenient parse used for every count the pages print. */
  function IntOrZero(s: string): (r: int)
    ensures InInt64(r)
    ensures r == 0 || ParseInt(s) == Some(r)
    ensures ParseInt(s).None? ==> r == 0
  {
    ParseInt(s).GetOr(0)
  }

  function NatDigits(n: nat): string
    decreases n
  {
    if n < 10 then [DigitChar(n)] else NatDigits(n / 10) + [DigitChar(n % 10)]
  }

  /** `"\(n)"`: the decimal rendering of an integer. */
  function DecimalString(n: int): string
  {
    if n < 0 then "-" + NatDigits(-n) else NatDigits(n)
  }

  lemma {:induction false} NatDigitsValue(n: nat)
    ensures |NatDigits(n)| > 0
    ensures AllDigits(NatDigits(n))
    ensures DigitsValue(NatDigits(n)) == n
    decreases n
  {
    if n >= 10 {
      NatDigitsValue(n / 10);
      var s := NatDigits(n);
      assert s[..|s| - 1] == NatDigits(n / 10);
    }
  }

  /** Rendering a 64-bit integer and reading it back with `Int(_:)` is the identity. */
  lemma DecimalStringRoundTrip(n: int)
    requires InInt64(n)
    ensures ParseInt(DecimalString(n)) == Some(n)
  {
    if n < 0 {
      NatDigitsValue(-n);
      assert DecimalString(n)[1..] == NatDigits(-n);
    } else {
      NatDigitsValue(n);
    }
  }

  // ---------------------------------------------------------------------------
  // The first match of the regex `(\d+)`
  // ---------------------------------------------------------------------------

  /** Position of the first decimal digit of `s`, if there is one. */
  function FirstDigitIndex(s: string): (r: Option<nat>)
    ensures r.None? ==> forall k | 0 <= k < |s| :: !IsDigit(s[k])
    ensures r.Some? ==> r.value < |s| && IsDigit(s[r.value])
    ensures r.Some? ==> forall k | 0 <= k < r.value :: !IsDigit(s[k])
    decreases |s|
  {
    if |s| == 0 then None
    else if IsDigit(s[0]) then Some(0)
    else match FirstDigitIndex(s[1..])
      case None => None
      case Some(i) => Some(i + 1)
  }

  /**
   * The text of `s.firstMatch(of: /(\d+)/)`: the leftmost run of digits,
   * extended as far as it goes.
   */
  function FirstDigitRun(s: string): (r: Option<string>)
    ensures r.None? <==> forall k | 0 <= k < |s| :: !IsDigit(s[k])
    ensures r.Some? ==> |r.value| > 0 && AllDigits(r.value)
    ensures r.Some? ==>
      var i := FirstDigitIndex(s).value;
      && i + |r.value| <= |s|
      && s[i..i + |r.value|] == r.value
      && (i + |r.value| == |s| || !IsDigit(s[i + |r.value|]))
  {
    match FirstDigitIndex(s)
    case None => None
    case Some(i) =>
      var n := RunLength(s[i..], IsDigit);
      Some(s[i..i + n])
  }

  /**
   * `Int(text.firstMatch(of: /(\d+)/)?.0 ?? "0") ?? 0`: how every counter on a
   * page (votes, comments, new comments) is read.
   */
  function CountIn(text: string): (r: int)
    ensures 0 <= r <= Int64Max
    ensures (forall k | 0 <= k < |text| :: !IsDigit(text[k])) ==> r == 0
    ensures FirstDigitRun(text).Some? && DigitsValue(FirstDigitRun(text).value) <= Int64Max ==>
              r == DigitsValue(FirstDigitRun(text).value)
    ensures FirstDigitRun(text).Some? && DigitsValue(FirstDigitRun(text).value) > Int64Max ==> r == 0
  {
    IntOrZero(FirstDigitRun(text).GetOr("0"))
  }

  /** The lenient parse reads a rendered 64-bit integer back as itself. */
  lemma IntOrZeroOfDecimal(n: int)
    requires InInt64(n)
    ensures IntOrZero(DecimalString(n)) == n
  {
    DecimalStringRoundTrip(n);
  }

  /** A non-negative count printed by the site is read back as itself. */
  lemma CountInDecimal(n: int)
    requires 0 <= n <= Int64Max
    ensures CountIn(DecimalString(n)) == n
  {
    NatDigitsValue(n);
    var s := DecimalString(n);
    assert FirstDigitIndex(s) == Some(0);
    RunLengthOf(s, IsDigit, |s|);
    assert s[0..|s|] == s;
    assert FirstDigitRun(s) == Some(s);
  }

  /** A counter label such as `12 comments` is read as its number. */
  lemma CountInLabel(n: int, suffix: string)
    requires 0 <= n <= Int64Max
    requires |suffix| == 0 || !IsDigit(suffix[0])
    ensures CountIn(DecimalString(n) + suffix) == n
  {
    NatDigitsValue(n);
    var d := DecimalString(n);
    var s := d + suffix;
    assert s[..|d|] == d;
    assert FirstDigitIndex(s) == Some(0);
    RunLengthOf(s, IsDigit, |d|);
    assert s[0..|d|] == d;
    assert FirstDigitRun(s) == Some(d);
  }

  // ---------------------------------------------------------------------------
  // Trimming and lowercasing
  // ---------------------------------------------------------------------------

  /** Number of whitespace characters at the end of `s`. */
  function TrailingSpace(s: string): (n: nat)
    ensures n <= |s|
    ensures forall k | |s| - n <= k < |s| :: IsWhitespace(s[k])
    ensures n < |s| ==> !IsWhitespace(s[|s| - n - 1])
    decreases |s|
  {
    if |s| > 0 && IsWhitespace(s[|s| - 1]) then 1 + TrailingSpace(s[..|s| - 1]) else 0
  }

  /**
   * Trailing whitespace after position `n` that is preceded by a
   * non-whitespace character has exactly that length.
   */
  lemma {:induction false} TrailingSpaceOf(s: string, n: nat)
    requires n <= |s|
    requires forall k | n <= k < |s| :: IsWhitespace(s[k])
    requires n == 0 || !IsWhitespace(s[n - 1])
    ensures TrailingSpace(s) == |s| - n
    decreases |s|
  {
    if |s| > n {
      TrailingSpaceOf(s[..|s| - 1], n);
    }
  }

  /**
   * `s.trimmingCharacters(in: .whitespacesAndNewlines)`: the stretch of `s`
   * that starts after its leading whitespace and is followed only by
   * whitespace, with no whitespace at either end.
   */
  function Trimmed(s: string): (r: string)
    ensures var i := RunLength(s, IsWhitespace);
            && i + |r| <= |s| && r == s[i..i + |r|]
            && forall k | i + |r| <= k < |s| :: IsWhitespace(s[k])
    ensures |r| > 0 ==> !IsWhitespace(r[0]) && !IsWhitespace(r[|r| - 1])
    ensures (forall k | 0 <= k < |s| :: IsWhitespace(s[k])) ==> r == ""
    ensures |s| > 0 && !IsWhitespace(s[0]) && !IsWhitespace(s[|s| - 1]) ==> r == s
  {
    var rest := s[RunLength(s, IsWhitespace)..];
    rest[..|rest| - TrailingSpace(rest)]
  }

  /**
   * Whatever way `s` splits into whitespace, a core that neither starts nor
   * ends with whitespace, and whitespace, trimming gives that core.
   */
  lemma TrimmedOf(s: string, i: nat, j: nat)
    requires i <= j <= |s|
    requires forall k | 0 <= k < i :: IsWhitespace(s[k])
    requires forall k | j <= k < |s| :: IsWhitespace(s[k])
    requires i < j ==> !IsWhitespace(s[i]) && !IsWhitespace(s[j - 1])
    ensures Trimmed(s) == s[i..j]
  {
    if i < j {
      RunLengthOf(s, IsWhitespace, i);
      var rest := s[i..];
      TrailingSpaceOf(rest, j - i);
      assert rest[..j - i] == s[i..j];
    }
  }

  function LowerChar(c: char): (r: char)
  {
    if 'A' <= c <= 'Z' then (c as int + 32) as char else c
  }

  /** `s.lowercased()` over ASCII. */
  function Lowercased(s: string): (r: string)
    ensures |r| == |s|
    ensures forall k | 0 <= k < |s| :: r[k] == LowerChar(s[k])
  {
    seq(|s|, k requires 0 <= k < |s| => LowerChar(s[k]))
  }
}
