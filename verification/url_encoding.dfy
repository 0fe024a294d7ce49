/**
 * `urlPrepSearch` and `urlPrepMarkdown`: how search terms and Markdown bodies
 * are made safe for a query string or a form body, on top of Foundation's
 * `addingPercentEncoding(withAllowedCharacters: .urlQueryAllowed)`.
 */
module UrlEncoding {
  import opened Text

  /** The characters `.urlQueryAllowed` leaves alone: ASCII letters and digits and ``!$&'()*+,-./:;=?@_~``. */
  predicate IsQueryAllowed(c: char): (r: bool)
    ensures IsAsciiAlphanumeric(c) ==> r
    ensures r ==> IsAscii(c) && c !in {' ', '%', '#', '"', '<', '>', '[', ']', '\\', '^', '`', '{', '|', '}'}
  {
    IsAsciiAlphanumeric(c) ||
    c in {'!', '$', '&', '\'', '(', ')', '*', '+', ',', '-', '.', '/', ':', ';', '=', '?', '@', '_', '~'}
  }

  /** The UTF-8 bytes of a character, most significant first. */
  function Utf8(c: char): (r: seq<int>)
    ensures 1 <= |r| <= 4
    ensures forall k | 0 <= k < |r| :: 0 <= r[k] < 256
    ensures c as int < 0x80 ==> r == [c as int]
  {
    var v := c as int;
    if v < 0x80 then [v]
    else if v < 0x800 then [0xC0 + v / 0x40, 0x80 + v % 0x40]
    else if v < 0x1_0000 then [0xE0 + v / 0x1000, 0x80 + (v / 0x40) % 0x40, 0x80 + v % 0x40]
    else [0xF0 + v / 0x4_0000, 0x80 + (v / 0x1000) % 0x40, 0x80 + (v / 0x40) % 0x40, 0x80 + v % 0x40]
  }

  const HexDigits: string := "0123456789ABCDEF"

  /** `%XY` with upper-case hexadecimal digits, as Foundation writes them. */
  function PercentByte(b: int): (r: string)
    requires 0 <= b < 256
    ensures |r| == 3 && r[0] == '%'
    ensures r[1] in HexDigits && r[2] in HexDigits
  {
    ['%', HexDigits[b / 16], HexDigits[b % 16]]
  }

  function PercentBytes(bs: seq<int>): (r: string)
    requires forall k | 0 <= k < |bs| :: 0 <= bs[k] < 256
    ensures |r| == 3 * |bs|
    ensures forall k | 0 <= k < |r| :: r[k] == '%' || r[k] in HexDigits
    decreases |bs|
  {
    if |bs| == 0 then "" else PercentByte(bs[0]) + PercentBytes(bs[1..])
  }

  /** How one character comes out of the percent-encoder. */
  function EncodeChar(c: char): (r: string)
    ensures IsQueryAllowed(c) ==> r == [c]
    ensures !IsQueryAllowed(c) ==> |r| >= 3 && r[0] == '%'
    ensures forall k | 0 <= k < |r| :: IsQueryAllowed(r[k]) || r[k] == '%'
  {
    if IsQueryAllowed(c) then [c] else PercentBytes(Utf8(c))
  }

  /** `addingPercentEncoding(withAllowedCharacters: .urlQueryAllowed)` */
  function PercentEncode(s: string): (r: string)
    ensures forall k | 0 <= k < |r| :: IsQueryAllowed(r[k]) || r[k] == '%'
    ensures |r| >= |s|
    decreases |s|
  {
    if |s| == 0 then "" else EncodeChar(s[0]) + PercentEncode(s[1..])
  }

  /** Text made only of allowed characters is left as it is. */
  lemma {:induction false} PercentEncodeAllowed(s: string)
    requires forall k | 0 <= k < |s| :: IsQueryAllowed(s[k])
    ensures PercentEncode(s) == s
    decreases |s|
  {
    if |s| > 0 {
      PercentEncodeAllowed(s[1..]);
      assert [s[0]] + s[1..] == s;
    }
  }

  /**
   * The words the client puts in query strings itself (orders, periods)
   * pass through the encoding and through `urlPrepSearch` unchanged.
   */
  lemma QueryWordsNeedNoEscaping(s: string)
    requires IsQueryWord(s)
    ensures PercentEncode(s) == s
    ensures UrlPrepSearch(s) == s
  {
    PercentEncodeAllowed(s);
  }

  /** `replacingOccurrences(of: [c], with: rep)` */
  function ReplaceChar(s: string, c: char, rep: string): (r: string)
    ensures c !in rep ==> c !in r
    ensures (forall k | 0 <= k < |s| :: s[k] != c) ==> r == s
    decreases |s|
  {
    if |s| == 0 then ""
    else (if s[0] == c then rep else [s[0]]) + ReplaceChar(s[1..], c, rep)
  }

  /** A character that neither occurs in `s` nor in the replacement does not occur afterwards either. */
  lemma {:induction false} ReplaceCharKeepsAbsent(s: string, c: char, rep: string, d: char)
    requires d !in s && d !in rep
    ensures d !in ReplaceChar(s, c, rep)
    decreases |s|
  {
    if |s| > 0 {
      assert d !in s[1..] by {
        assert forall k | 0 <= k < |s[1..]| :: s[1..][k] == s[k + 1];
      }
      ReplaceCharKeepsAbsent(s[1..], c, rep, d);
    }
  }

  /**
   * `urlPrepSearch`: spaces become `+`, the result is percent-encoded, and
   * `&` is escaped so that it cannot end the `q` item.
   */
  function UrlPrepSearch(text: string): (r: string)
    ensures ' ' !in r && '&' !in r
  {
    var encoded := PercentEncode(ReplaceChar(text, ' ', "+"));
    assert ' ' !in encoded;
    ReplaceCharKeepsAbsent(encoded, '&', "%26", ' ');
    ReplaceChar(encoded, '&', "%26")
  }

  /**
   * `urlPrepMarkdown`: percent-encoded, then `+` escaped so that it does not
   * read back as a space, then spaces turned into `+`, then `&` escaped.
   */
  function UrlPrepMarkdown(text: string): (r: string)
    ensures ' ' !in r && '+' !in r && '&' !in r
  {
    var encoded := PercentEncode(text);
    assert ' ' !in encoded;
    ReplaceCharKeepsAbsent(encoded, '+', "%2B", ' ');
    var escaped := ReplaceChar(encoded, '+', "%2B");
    var spaced := ReplaceChar(escaped, ' ', "+");
    ReplaceCharKeepsAbsent(spaced, '&', "%26", ' ');
    ReplaceCharKeepsAbsent(spaced, '&', "%26", '+');
    ReplaceChar(spaced, '&', "%26")
  }

  /**
   * The step of `urlPrepMarkdown` that turns spaces into `+` never fires:
   * the percent-encoder has already written every space as `%20`.
   */
  lemma MarkdownSpaceStepIsIdle(text: string)
    ensures var escaped := ReplaceChar(PercentEncode(text), '+', "%2B");
            ReplaceChar(escaped, ' ', "+") == escaped
  {
    var encoded := PercentEncode(text);
    assert ' ' !in encoded;
    ReplaceCharKeepsAbsent(encoded, '+', "%2B", ' ');
    var escaped := ReplaceChar(encoded, '+', "%2B");
    assert forall k | 0 <= k < |escaped| :: escaped[k] != ' ';
  }

  /** A space and a plus sign in a search both come out as `+`, so `urlPrepSearch` is not injective. */
  lemma SearchMergesSpaceAndPlus()
    ensures UrlPrepSearch("a b") == UrlPrepSearch("a+b") == "a+b"
  {
    assert ReplaceChar("a b", ' ', "+") == "a+b";
    assert ReplaceChar("a+b", ' ', "+") == "a+b";
    assert PercentEncode("a+b") == "a+b" by {
      assert PercentEncode("b") == "b";
      assert PercentEncode("+b") == "+b";
    }
  }

  // ---------------------------------------------------------------------------
  // Reading an encoded form value back
  // ---------------------------------------------------------------------------

  function HexValue(c: char): (r: int)
    requires c in HexDigits
    ensures 0 <= r < 16 && HexDigits[r] == c
  {
    if '0' <= c <= '9' then c as int - '0' as int else c as int - 'A' as int + 10
  }

  /**
   * How a server reads a form value: `+` is a space and `%XY` the character
   * with code XY (the identity of UTF-8 for ASCII); anything else stands for
   * itself.
   */
  function FormDecode(s: string): string
    decreases |s|
  {
    if |s| == 0 then ""
    else if s[0] == '+' then " " + FormDecode(s[1..])
    else if |s| >= 3 && s[0] == '%' && s[1] in HexDigits && s[2] in HexDigits then
      [(16 * HexValue(s[1]) + HexValue(s[2])) as char] + FormDecode(s[3..])
    else [s[0]] + FormDecode(s[1..])
  }

  lemma {:induction false} ReplaceCharConcat(a: string, b: string, c: char, rep: string)
    ensures ReplaceChar(a + b, c, rep) == ReplaceChar(a, c, rep) + ReplaceChar(b, c, rep)
    decreases |a|
  {
    if |a| == 0 {
      assert a + b == b;
    } else {
      assert (a + b)[1..] == a[1..] + b;
      ReplaceCharConcat(a[1..], b, c, rep);
    }
  }

  /** What `urlPrepMarkdown` makes of one character. */
  function MarkdownChar(c: char): string
  {
    ReplaceChar(ReplaceChar(ReplaceChar(EncodeChar(c), '+', "%2B"), ' ', "+"), '&', "%26")
  }

  /** What `urlPrepSearch` makes of one character. */
  function SearchChar(c: char): string
  {
    ReplaceChar(PercentEncode(ReplaceChar([c], ' ', "+")), '&', "%26")
  }

  lemma {:induction false} UrlPrepMarkdownCons(c: char, rest: string)
    ensures UrlPrepMarkdown([c] + rest) == MarkdownChar(c) + UrlPrepMarkdown(rest)
  {
    var s := [c] + rest;
    assert s[0] == c && s[1..] == rest;
    assert PercentEncode(s) == EncodeChar(c) + PercentEncode(rest);
    ReplaceCharConcat(EncodeChar(c), PercentEncode(rest), '+', "%2B");
    var a1 := ReplaceChar(EncodeChar(c), '+', "%2B");
    var b1 := ReplaceChar(PercentEncode(rest), '+', "%2B");
    ReplaceCharConcat(a1, b1, ' ', "+");
    ReplaceCharConcat(ReplaceChar(a1, ' ', "+"), ReplaceChar(b1, ' ', "+"), '&', "%26");
  }

  lemma {:induction false} UrlPrepSearchCons(c: char, rest: string)
    ensures UrlPrepSearch([c] + rest) == SearchChar(c) + UrlPrepSearch(rest)
  {
    var s := [c] + rest;
    assert s[0] == c && s[1..] == rest;
    ReplaceCharConcat([c], rest, ' ', "+");
    var a := ReplaceChar([c], ' ', "+");
    var b := ReplaceChar(rest, ' ', "+");
    assert |a| == 1;
    assert PercentEncode(a + b) == EncodeChar(a[0]) + PercentEncode(b) by {
      assert (a + b)[0] == a[0] && (a + b)[1..] == b;
    }
    assert PercentEncode(a) == EncodeChar(a[0]) by {
      assert PercentEncode(a[1..]) == "";
    }
    ReplaceCharConcat(PercentEncode(a), PercentEncode(b), '&', "%26");
  }

  /** An escape of one ASCII character reads back as that character. */
  lemma DecodePercentByte(c: char, rest: string)
    requires IsAscii(c)
    ensures FormDecode(PercentByte(c as int) + rest) == [c] + FormDecode(rest)
  {
    var p := PercentByte(c as int);
    var s := p + rest;
    assert s[0] == '%' && s[1] == p[1] && s[2] == p[2] && s[3..] == rest;
    assert HexValue(p[1]) == (c as int) / 16 && HexValue(p[2]) == (c as int) % 16 by {
      var h1 := HexValue(p[1]);
      var h2 := HexValue(p[2]);
      assert HexDigits[h1] == HexDigits[(c as int) / 16];
      assert HexDigits[h2] == HexDigits[(c as int) % 16];
      HexDigitsDistinct(h1, (c as int) / 16);
      HexDigitsDistinct(h2, (c as int) % 16);
    }
  }

  lemma HexDigitsDistinct(i: int, j: int)
    requires 0 <= i < 16 && 0 <= j < 16 && HexDigits[i] == HexDigits[j]
    ensures i == j
  {
  }

  lemma ReplaceSingle(d: char, c: char, rep: string)
    ensures ReplaceChar([d], c, rep) == if d == c then rep else [d]
  {
    assert [d][1..] == "";
  }

  lemma EncodeAsciiChar(c: char)
    requires IsAscii(c)
    ensures EncodeChar(c) == if IsQueryAllowed(c) then [c] else PercentByte(c as int)
  {
    if !IsQueryAllowed(c) {
      assert PercentBytes([c as int]) == PercentByte(c as int) + PercentBytes([]);
    }
  }

  /** An escape is untouched by the replacements of `+`, space and `&`. */
  lemma EscapeUntouched(b: int, c: char, rep: string)
    requires 0 <= b < 256 && c in {'+', ' ', '&'}
    ensures ReplaceChar(PercentByte(b), c, rep) == PercentByte(b)
  {
    var p := PercentByte(b);
    assert forall k | 0 <= k < |p| :: p[k] != c;
  }

  lemma PercentEncodeSingle(c: char)
    ensures PercentEncode([c]) == EncodeChar(c)
  {
    assert PercentEncode([c][1..]) == "";
  }

  lemma MarkdownCharShape(c: char)
    requires IsAscii(c)
    ensures MarkdownChar(c) == if c == '+' || c == '&' || !IsQueryAllowed(c) then PercentByte(c as int) else [c]
  {
    EncodeAsciiChar(c);
    if c == '+' {
      ReplaceSingle(c, '+', "%2B");
      assert PercentByte(c as int) == "%2B";
      EscapeUntouched(c as int, ' ', "+");
      EscapeUntouched(c as int, '&', "%26");
    } else if c == '&' {
      ReplaceSingle(c, '+', "%2B");
      ReplaceSingle(c, ' ', "+");
      ReplaceSingle(c, '&', "%26");
      assert PercentByte(c as int) == "%26";
    } else if IsQueryAllowed(c) {
      ReplaceSingle(c, '+', "%2B");
      ReplaceSingle(c, ' ', "+");
      ReplaceSingle(c, '&', "%26");
    } else {
      EscapeUntouched(c as int, '+', "%2B");
      EscapeUntouched(c as int, ' ', "+");
      EscapeUntouched(c as int, '&', "%26");
    }
  }

  lemma SearchCharShape(c: char)
    requires IsAscii(c)
    ensures SearchChar(c) == if c == ' ' || c == '+' then "+"
                             else if c == '&' || !IsQueryAllowed(c) then PercentByte(c as int)
                             else [c]
  {
    ReplaceSingle(c, ' ', "+");
    if c == ' ' || c == '+' {
      PercentEncodeSingle('+');
      ReplaceSingle('+', '&', "%26");
    } else {
      PercentEncodeSingle(c);
      EncodeAsciiChar(c);
      if c == '&' {
        ReplaceSingle(c, '&', "%26");
        assert PercentByte(c as int) == "%26";
      } else if IsQueryAllowed(c) {
        ReplaceSingle(c, '&', "%26");
      } else {
        EscapeUntouched(c as int, '&', "%26");
      }
    }
  }

  lemma DecodeMarkdownChar(c: char, rest: string)
    requires IsAscii(c)
    ensures FormDecode(MarkdownChar(c) + rest) == [c] + FormDecode(rest)
  {
    MarkdownCharShape(c);
    if c == '+' || c == '&' || !IsQueryAllowed(c) {
      DecodePercentByte(c, rest);
    } else {
      assert ([c] + rest)[1..] == rest;
    }
  }

  lemma DecodeSearchChar(c: char, rest: string)
    requires IsAscii(c)
    ensures FormDecode(SearchChar(c) + rest) == (if c == '+' then " " else [c]) + FormDecode(rest)
  {
    SearchCharShape(c);
    if c == ' ' || c == '+' {
      assert ("+" + rest)[1..] == rest;
    } else if c == '&' || !IsQueryAllowed(c) {
      DecodePercentByte(c, rest);
    } else {
      assert ([c] + rest)[1..] == rest;
    }
  }

  /** A Markdown body of ASCII text survives `urlPrepMarkdown` and form decoding unchanged. */
  lemma {:induction false} MarkdownRoundTrip(text: string)
    requires AllAscii(text)
    ensures FormDecode(UrlPrepMarkdown(text)) == text
    decreases |text|
  {
    if |text| > 0 {
      var c := text[0];
      var rest := text[1..];
      assert text == [c] + rest;
      UrlPrepMarkdownCons(c, rest);
      DecodeMarkdownChar(c, UrlPrepMarkdown(rest));
      MarkdownRoundTrip(rest);
    }
  }

  /**
   * A search term of ASCII text reads back with every `+` turned into a
   * space: the server cannot tell the two apart.
   */
  lemma {:induction false} SearchRoundTrip(text: string)
    requires AllAscii(text)
    ensures FormDecode(UrlPrepSearch(text)) == ReplaceChar(text, '+', " ")
    decreases |text|
  {
    if |text| > 0 {
      var c := text[0];
      var rest := text[1..];
      assert text == [c] + rest;
      UrlPrepSearchCons(c, rest);
      DecodeSearchChar(c, UrlPrepSearch(rest));
      SearchRoundTrip(rest);
    }
  }
}
