/** The few properties of text strings that the benchmark code relies on. */
module Text {
  const NUL: char := '\U{0}'

  /** The characters that strip() removes. */
  predicate IsSpace(c: char) {
    || '\U{9}' <= c <= '\U{D}' || '\U{1C}' <= c <= ' ' || c == '\U{85}' || c == '\U{A0}' || c == '\U{1680}'
    || '\U{2000}' <= c <= '\U{200A}' || c == '\U{2028}' || c == '\U{2029}' || c == '\U{202F}' || c == '\U{205F}'
    || c == '\U{3000}'
  }

  function StripLeft(s: string): string {
    if s != [] && IsSpace(s[0]) then StripLeft(s[1..]) else s
  }

  function StripRight(s: string): string {
    if s != [] && IsSpace(s[|s| - 1]) then StripRight(s[..|s| - 1]) else s
  }

  function Strip(s: string): string {
    StripRight(StripLeft(s))
  }

  /** What strip() leaves: the text between its outermost characters that are no space. */
  lemma StripIs(s: string)
    ensures exists i, j :: 0 <= i <= j <= |s| && Strip(s) == s[i..j]
              && (forall k | 0 <= k < i || j <= k < |s| :: IsSpace(s[k])) && (i < j ==> !IsSpace(s[i]) && !IsSpace(s[j - 1]))
  {
    hide IsSpace;
    var i := StripLeftAt(s);
    var t := s[i..];
    var j := StripRightAt(t);
    assert t[..j] == s[i..i + j] && forall k | i <= k < |s| :: s[k] == t[k - i];
    if j > 0 { assert t[0] == s[i]; }
  }

  /** strip() leaves a text alone exactly when there is no space at either end. */
  lemma StripsNothingIff(s: string)
    ensures Strip(s) == s <==> s == "" || (!IsSpace(s[0]) && !IsSpace(s[|s| - 1]))
  {
    hide IsSpace;
    StripIs(s);
    var i, j :| 0 <= i <= j <= |s| && Strip(s) == s[i..j]
                && (forall k | 0 <= k < i || j <= k < |s| :: IsSpace(s[k])) && (i < j ==> !IsSpace(s[i]) && !IsSpace(s[j - 1]));
    if s != "" && !IsSpace(s[0]) && !IsSpace(s[|s| - 1]) {
      assert i == 0 && j == |s|;
    }
  }

  lemma {:induction false} StripLeftAt(s: string) returns (i: nat)
    ensures i <= |s| && StripLeft(s) == s[i..] && (forall k | 0 <= k < i :: IsSpace(s[k])) && (i < |s| ==> !IsSpace(s[i]))
  {
    hide IsSpace;
    if s != [] && IsSpace(s[0]) {
      var k := StripLeftAt(s[1..]);
      i := k + 1;
      assert s[1..][k..] == s[i..] && forall j | 1 <= j < i :: s[j] == s[1..][j - 1];
    } else {
      i := 0;
    }
  }

  lemma {:induction false} StripRightAt(s: string) returns (j: nat)
    ensures j <= |s| && StripRight(s) == s[..j] && (forall k | j <= k < |s| :: IsSpace(s[k])) && (j > 0 ==> !IsSpace(s[j - 1]))
  {
    hide IsSpace;
    if s != [] && IsSpace(s[|s| - 1]) {
      j := StripRightAt(s[..|s| - 1]);
      assert s[..|s| - 1][..j] == s[..j];
    } else {
      j := |s|;
    }
  }

  /** The code points of white space. */
  lemma IsSpaceIff(c: char)
    ensures IsSpace(c) <==>
              c as int in {9, 10, 11, 12, 13, 28, 29, 30, 31, 32, 0x85, 0xA0, 0x1680, 0x2000, 0x2001, 0x2002, 0x2003, 0x2004, 0x2005,
                           0x2006, 0x2007, 0x2008, 0x2009, 0x200A, 0x2028, 0x2029, 0x202F, 0x205F, 0x3000}
  {
  }

  // ----- sizes of JSON text restricted to ASCII -----

  /** Escapes are two, six, or, as a surrogate pair, twelve characters long. */
  function EscapedSize(c: char): nat {
    if c == '"' || c == '\\' || '\U{8}' <= c <= '\U{A}' || c == '\U{C}' || c == '\U{D}' then 2
    else if ' ' <= c <= '~' then 1
    else if c <= '\U{FFFF}' then 6 else 12
  }

  function CharsSize(s: string): nat {
    if s == "" then 0 else EscapedSize(s[0]) + CharsSize(s[1..])
  }

  function StringSize(s: string): nat {
    2 + CharsSize(s)
  }

  function DecimalSize(n: nat): nat {
    if n < 10 then 1 else 1 + DecimalSize(n / 10)
  }

  // ----- the text whose size that is -----

  function Hex(n: nat): char
    requires n < 16
  {
    if n < 10 then ('0' as int + n) as char else ('a' as int + n - 10) as char
  }

  function HexFour(n: nat): string
    requires n < 0x1_0000
  {
    [Hex(n / 0x1000), Hex(n / 0x100 % 16), Hex(n / 16 % 16), Hex(n % 16)]
  }

  /** A character inside a JSON string restricted to ASCII. */
  function Escaped(c: char): string {
    if c == '"' then "\\\""
    else if c == '\\' then "\\\\"
    else if c == '\U{8}' then "\\b"
    else if c == '\U{9}' then "\\t"
    else if c == '\U{A}' then "\\n"
    else if c == '\U{C}' then "\\f"
    else if c == '\U{D}' then "\\r"
    else if ' ' <= c <= '~' then [c]
    else if c <= '\U{FFFF}' then "\\u" + HexFour(c as int)
    else
      var n := c as int - 0x1_0000;
      "\\u" + HexFour(0xD800 + n / 0x400) + "\\u" + HexFour(0xDC00 + n % 0x400)
  }

  function Characters(s: string): string {
    if s == "" then "" else Escaped(s[0]) + Characters(s[1..])
  }

  function Quoted(s: string): string {
    "\"" + Characters(s) + "\""
  }

  function Decimal(n: nat): string {
    if n < 10 then [('0' as int + n) as char] else Decimal(n / 10) + [('0' as int + n % 10) as char]
  }

  lemma EscapedHasSize(c: char)
    ensures |Escaped(c)| == EscapedSize(c)
  {
  }

  lemma {:induction false} CharactersHaveSize(s: string)
    ensures |Characters(s)| == CharsSize(s) && |Quoted(s)| == StringSize(s)
  {
    hide Escaped, EscapedSize;
    if s != "" {
      EscapedHasSize(s[0]);
      CharactersHaveSize(s[1..]);
    }
  }

  lemma {:induction false} DecimalHasSize(n: nat)
    ensures |Decimal(n)| == DecimalSize(n)
  {
    if n >= 10 { DecimalHasSize(n / 10); }
  }

  lemma {:induction false} CharsSizeBound(s: string)
    ensures CharsSize(s) <= 12 * |s|
  {
    if s != "" {
      CharsSizeBound(s[1..]);
    }
  }

  lemma {:induction false} DecimalSizeBound(n: nat, digits: nat)
    requires 1 <= digits && n < Power10(digits)
    ensures DecimalSize(n) <= digits
    decreases digits
  {
    if n >= 10 {
      DecimalSizeBound(n / 10, digits - 1);
    }
  }

  function Power10(n: nat): nat {
    if n == 0 then 1 else 10 * Power10(n - 1)
  }

  // ----- sizes of UTF-8 JSON text that escapes only what it must -----

  function Utf8Size(c: char): nat {
    if c == '"' || c == '\\' || '\U{8}' <= c <= '\U{A}' || c == '\U{C}' || c == '\U{D}' then 2
    else if c < ' ' then 6
    else if c <= '\U{7F}' then 1
    else if c <= '\U{7FF}' then 2
    else if c <= '\U{FFFF}' then 3 else 4
  }

  function Utf8CharsSize(s: string): nat {
    if s == "" then 0 else Utf8Size(s[0]) + Utf8CharsSize(s[1..])
  }

  function Utf8StringSize(s: string): nat {
    2 + Utf8CharsSize(s)
  }

  // ----- the bytes whose number that is -----

  function Ascii(s: string): (bytes: seq<int>)
    ensures |bytes| == |s|
  {
    seq(|s|, i requires 0 <= i < |s| => s[i] as int)
  }

  /** The encoding of RFC 3629. */
  function Utf8(c: char): seq<int> {
    var n := c as int;
    if n < 0x80 then [n]
    else if n < 0x800 then [0xC0 + n / 0x40, 0x80 + n % 0x40]
    else if n < 0x1_0000 then [0xE0 + n / 0x1000, 0x80 + n / 0x40 % 0x40, 0x80 + n % 0x40]
    else [0xF0 + n / 0x4_0000, 0x80 + n / 0x1000 % 0x40, 0x80 + n / 0x40 % 0x40, 0x80 + n % 0x40]
  }

  /** A character inside a JSON string that escapes only what it must. */
  function Utf8Escaped(c: char): seq<int> {
    if c == '"' || c == '\\' || '\U{8}' <= c <= '\U{A}' || c == '\U{C}' || c == '\U{D}' then Ascii(Escaped(c))
    else if c < ' ' then Ascii("\\u" + HexFour(c as int))
    else Utf8(c)
  }

  function Utf8Characters(s: string): seq<int> {
    if s == "" then [] else Utf8Escaped(s[0]) + Utf8Characters(s[1..])
  }

  function Utf8Quoted(s: string): seq<int> {
    Ascii("\"") + Utf8Characters(s) + Ascii("\"")
  }

  lemma Utf8EscapedHasSize(c: char)
    ensures |Utf8Escaped(c)| == Utf8Size(c)
  {
  }

  lemma {:induction false} Utf8QuotedHasSize(s: string)
    ensures |Utf8Characters(s)| == Utf8CharsSize(s) && |Utf8Quoted(s)| == Utf8StringSize(s)
  {
    hide Utf8Escaped, Utf8Size;
    if s != "" {
      Utf8EscapedHasSize(s[0]);
      Utf8QuotedHasSize(s[1..]);
    }
  }

  lemma {:induction false} Utf8CharsSizeBound(s: string)
    ensures Utf8CharsSize(s) <= 6 * |s|
  {
    if s != "" {
      Utf8CharsSizeBound(s[1..]);
    }
  }
}
