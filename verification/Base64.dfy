/** Base64 as Python encodes it and strictly decodes it: section 4 of RFC 4648. */
module Base64 {
  import opened Common

  type Byte = b: int | 0 <= b < 256
  type Sextet = v: int | 0 <= v < 64

  /** The base 64 alphabet, by position. */
  function Letter(v: Sextet): char {
    if v < 26 then ('A' as int + v) as char
    else if v < 52 then ('a' as int + v - 26) as char
    else if v < 62 then ('0' as int + v - 52) as char
    else if v == 62 then '+' else '/'
  }

  function Value(c: char): Option<Sextet> {
    if 'A' <= c <= 'Z' then Some(c as int - 'A' as int)
    else if 'a' <= c <= 'z' then Some(c as int - 'a' as int + 26)
    else if '0' <= c <= '9' then Some(c as int - '0' as int + 52)
    else if c == '+' then Some(62)
    else if c == '/' then Some(63)
    else None
  }

  // Three bytes against four sextets.
  function Sextet0(a: Byte): Sextet { a / 4 }
  function Sextet1(a: Byte, b: Byte): Sextet { a % 4 * 16 + b / 16 }
  function Sextet2(b: Byte, c: Byte): Sextet { b % 16 * 4 + c / 64 }
  function Sextet3(c: Byte): Sextet { c % 64 }
  function Byte0(w: Sextet, x: Sextet): Byte { w * 4 + x / 16 }
  function Byte1(x: Sextet, y: Sextet): Byte { x % 16 * 16 + y / 4 }
  function Byte2(y: Sextet, z: Sextet): Byte { y % 4 * 64 + z }

  /** Whole groups of three bytes become four letters; a short last group is padded with '='. */
  function Encode(s: seq<Byte>): (t: string)
    ensures |t| == 4 * ((|s| + 2) / 3)
  {
    if |s| == 0 then ""
    else if |s| == 1 then [Letter(Sextet0(s[0])), Letter(Sextet1(s[0], 0)), '=', '=']
    else if |s| == 2 then [Letter(Sextet0(s[0])), Letter(Sextet1(s[0], s[1])), Letter(Sextet2(s[1], 0)), '=']
    else Group(s[0], s[1], s[2]) + Encode(s[3..])
  }

  function Group(a: Byte, b: Byte, c: Byte): string {
    [Letter(Sextet0(a)), Letter(Sextet1(a, b)), Letter(Sextet2(b, c)), Letter(Sextet3(c))]
  }

  /** One group of four characters; padding is allowed only where it ends the text. */
  function DecodeGroup(w: char, x: char, y: char, z: char, last: bool): Option<seq<Byte>> {
    if Value(w).None? || Value(x).None? then None
    else
      var a, b := Value(w).value, Value(x).value;
      if y == '=' then
        if z == '=' && last then Some([Byte0(a, b)]) else None
      else if Value(y).None? then None
      else
        var c := Value(y).value;
        if z == '=' then
          if last then Some([Byte0(a, b), Byte1(b, c)]) else None
        else if Value(z).None? then None
        else Some([Byte0(a, b), Byte1(b, c), Byte2(c, Value(z).value)])
  }

  /** b64decode(validate=True): no stray character, no missing or misplaced padding. */
  function Decode(t: string): Option<seq<Byte>> {
    if t == "" then Some([])
    else if |t| < 4 then None
    else
      var head := DecodeGroup(t[0], t[1], t[2], t[3], |t| == 4);
      var tail := Decode(t[4..]);
      if head.None? || tail.None? then None else Some(head.value + tail.value)
  }

  // ----- the encoding of the standard -----

  const UPPER: string := "ABCDEFGHIJKLMNOPQRSTUVWXYZ"
  const LOWER: string := "abcdefghijklmnopqrstuvwxyz"

  /** Table 1 of RFC 4648. */
  const ALPHABET: string := UPPER + LOWER + "0123456789+/"

  /** The bits of three bytes from the left. */
  function Number(a: int, b: int, c: int): int {
    a * 0x1_0000 + b * 0x100 + c
  }

  /** 24 bits from the left in four letters. */
  function Quad(n: int): string
    requires 0 <= n < 0x100_0000
  {
    [ALPHABET[n / 0x4_0000], ALPHABET[n / 0x1000 % 64], ALPHABET[n / 64 % 64], ALPHABET[n % 64]]
  }

  lemma AlphabetLetter(v: Sextet)
    ensures Letter(v) == ALPHABET[v]
  {
    if v < 26 {
      assert UPPER[v] == ('A' as int + v) as char;
    } else if v < 52 {
      assert LOWER[v - 26] == ('a' as int + (v - 26)) as char;
    } else {
      assert "0123456789+/"[v - 52] == Letter(v);
    }
  }

  lemma NumberSextets(a: Byte, b: Byte, c: Byte)
    ensures var n := Number(a, b, c);
            && n / 0x4_0000 == Sextet0(a) && n / 0x1000 % 64 == Sextet1(a, b)
            && n / 64 % 64 == Sextet2(b, c) && n % 64 == Sextet3(c)
  {
    var n := Number(a, b, c);
    assert n == 0x4_0000 * (a / 4) + (a % 4 * 0x1_0000 + b * 0x100 + c);
    assert n == 0x1000 * (a * 16 + b / 16) + (b % 16 * 0x100 + c);
    assert a * 16 + b / 16 == 64 * (a / 4) + Sextet1(a, b);
    assert n == 64 * (a * 1024 + b * 4 + c / 64) + c % 64;
    assert a * 1024 + b * 4 + c / 64 == 64 * (a * 16 + b / 16) + Sextet2(b, c);
  }

  lemma GroupIsQuad(a: Byte, b: Byte, c: Byte)
    ensures 0 <= Number(a, b, c) < 0x100_0000 && Group(a, b, c) == Quad(Number(a, b, c))
  {
    NumberSextets(a, b, c);
    AlphabetLetter(Sextet0(a));
    AlphabetLetter(Sextet1(a, b));
    AlphabetLetter(Sextet2(b, c));
    AlphabetLetter(Sextet3(c));
    hide Letter, Sextet0, Sextet1, Sextet2, Sextet3;
  }

  /** The i-th group of three bytes as a number, filled with zero bits. */
  function NumberAt(s: seq<Byte>, i: nat): (n: int)
    requires 3 * i < |s|
    ensures 0 <= n < 0x100_0000
  {
    var left := |s| - 3 * i;
    Number(s[3 * i], if left > 1 then s[3 * i + 1] else 0, if left > 2 then s[3 * i + 2] else 0)
  }

  /**
   * Section 4 of RFC 4648: three bytes are a number from the left, written as four letters of the alphabet; a last group
   * of one or two bytes is filled with zero bits, and its letters that hold no bit of it are '='.
   */
  lemma {:induction false} EncodesAsStandard(s: seq<Byte>, i: nat)
    requires 3 * i < |s|
    ensures var (left, n) := (|s| - 3 * i, NumberAt(s, i));
            Encode(s)[4 * i..4 * i + 4] ==
              if left > 2 then Quad(n) else if left == 2 then Quad(n)[..3] + "=" else Quad(n)[..2] + "=="
  {
    hide Quad, NumberAt, Encode;
    if i > 0 {
      LaterGroup(s, i);
      NumberTail(s, i);
      EncodesAsStandard(s[3..], i - 1);
    } else {
      FirstGroup(s);
    }
  }

  lemma EncodeStep(s: seq<Byte>)
    requires |s| >= 3
    ensures Encode(s) == Group(s[0], s[1], s[2]) + Encode(s[3..]) && |Group(s[0], s[1], s[2])| == 4
  {
    hide Letter;
  }

  lemma AfterFour(g: string, r: string, k: nat)
    requires |g| == 4 && k + 4 <= |r|
    ensures (g + r)[k + 4..k + 8] == r[k..k + 4] && (g + r)[..4] == g
  {
  }

  lemma GroupsCover(n: nat, i: nat)
    requires 3 * i < n
    ensures 4 * i + 4 <= 4 * ((n + 2) / 3)
  {
  }

  lemma NumberTail(s: seq<Byte>, i: nat)
    requires 0 < 3 * i < |s|
    ensures NumberAt(s, i) == NumberAt(s[3..], i - 1)
  {
    hide Number;
  }

  lemma LaterGroup(s: seq<Byte>, i: nat)
    requires 0 < 3 * i < |s|
    ensures |Encode(s)| >= 4 * i + 4 && |Encode(s[3..])| >= 4 * i
    ensures Encode(s)[4 * i..4 * i + 4] == Encode(s[3..])[4 * (i - 1)..4 * (i - 1) + 4]
  {
    hide Group, Encode;
    GroupsCover(|s|, i);
    GroupsCover(|s| - 3, i - 1);
    EncodeStep(s);
    AfterFour(Group(s[0], s[1], s[2]), Encode(s[3..]), 4 * (i - 1));
  }

  lemma FirstGroup(s: seq<Byte>)
    requires s != []
    ensures var n := NumberAt(s, 0);
            Encode(s)[..4] == if |s| > 2 then Quad(n) else if |s| == 2 then Quad(n)[..3] + "=" else Quad(n)[..2] + "=="
  {
    hide Encode, Group, Quad, Number;
    if |s| >= 3 {
      GroupIsQuad(s[0], s[1], s[2]);
      EncodeStep(s);
    } else {
      ShortEncodes(s);
    }
  }

  lemma ShortEncodes(s: seq<Byte>)
    requires 1 <= |s| <= 2
    ensures var n := Number(s[0], if |s| > 1 then s[1] else 0, 0);
            0 <= n < 0x100_0000 && Encode(s) == Encode(s)[..4]
            && Encode(s) == if |s| == 2 then Quad(n)[..3] + "=" else Quad(n)[..2] + "=="
  {
    hide Letter, Quad, Number, Sextet0, Sextet1, Sextet2;
    var b := if |s| == 2 then s[1] else 0;
    GroupIsQuad(s[0], b, 0);
    var g := Group(s[0], b, 0);
    assert g[..3] == [g[0], g[1], g[2]] && g[..2] == [g[0], g[1]];
  }

  lemma LetterValue(v: Sextet)
    ensures Value(Letter(v)) == Some(v) && Letter(v) != '='
  {
  }

  lemma ValueLetter(c: char)
    requires Value(c).Some?
    ensures Letter(Value(c).value) == c && c != '='
  {
  }

  lemma Packs(a: Byte, b: Byte, c: Byte)
    ensures Byte0(Sextet0(a), Sextet1(a, b)) == a
    ensures Byte1(Sextet1(a, b), Sextet2(b, c)) == b
    ensures Byte2(Sextet2(b, c), Sextet3(c)) == c
  {
  }

  lemma Unpacks(w: Sextet, x: Sextet, y: Sextet, z: Sextet)
    ensures Sextet0(Byte0(w, x)) == w
    ensures Sextet1(Byte0(w, x), Byte1(x, y)) == x
    ensures Sextet2(Byte1(x, y), Byte2(y, z)) == y
    ensures Sextet3(Byte2(y, z)) == z
    ensures Sextet1(Byte0(w, x), 0) == x <==> x % 16 == 0
    ensures Sextet2(Byte1(x, y), 0) == y <==> y % 4 == 0
  {
    assert Byte0(w, x) % 4 == x / 16;
    assert Byte1(x, y) / 16 == x % 16 && Byte1(x, y) % 16 == y / 4;
    assert Byte2(y, z) / 64 == y % 4;
  }

  lemma GroupDecodes(a: Byte, b: Byte, c: Byte, last: bool)
    ensures var g := Group(a, b, c); DecodeGroup(g[0], g[1], g[2], g[3], last) == Some([a, b, c])
  {
    hide Letter, Value, Sextet0, Sextet1, Sextet2, Sextet3, Byte0, Byte1, Byte2;
    LetterValue(Sextet0(a));
    LetterValue(Sextet1(a, b));
    LetterValue(Sextet2(b, c));
    LetterValue(Sextet3(c));
    Packs(a, b, c);
  }

  lemma DecodeFour(w: char, x: char, y: char, z: char)
    ensures Decode([w, x, y, z]) == DecodeGroup(w, x, y, z, true)
  {
    hide DecodeGroup;
    var t := [w, x, y, z];
    assert t[4..] == "" && Decode("") == Some([]);
    var head := DecodeGroup(w, x, y, z, true);
    if head.Some? {
      assert head.value + [] == head.value;
    }
  }

  lemma PaddedGroups(a: Byte, b: Byte)
    ensures DecodeGroup(Letter(Sextet0(a)), Letter(Sextet1(a, 0)), '=', '=', true) == Some([a])
    ensures DecodeGroup(Letter(Sextet0(a)), Letter(Sextet1(a, b)), Letter(Sextet2(b, 0)), '=', true) == Some([a, b])
  {
    hide Letter, Value, Sextet0, Sextet1, Sextet2, Byte0, Byte1, Byte2;
    LetterValue(Sextet0(a));
    LetterValue(Sextet1(a, 0));
    LetterValue(Sextet1(a, b));
    LetterValue(Sextet2(b, 0));
    Packs(a, 0, 0);
    Packs(a, b, 0);
  }

  lemma TailDecodes(s: seq<Byte>)
    requires 1 <= |s| <= 2
    ensures Decode(Encode(s)) == Some(s)
  {
    hide Letter, Value, Sextet0, Sextet1, Sextet2, Decode, DecodeGroup;
    if |s| == 1 {
      PaddedGroups(s[0], 0);
      DecodeFour(Letter(Sextet0(s[0])), Letter(Sextet1(s[0], 0)), '=', '=');
      assert s == [s[0]];
    } else {
      PaddedGroups(s[0], s[1]);
      DecodeFour(Letter(Sextet0(s[0])), Letter(Sextet1(s[0], s[1])), Letter(Sextet2(s[1], 0)), '=');
      assert s == [s[0], s[1]];
    }
  }

  lemma PrependGroup(a: Byte, b: Byte, c: Byte, rest: string)
    requires Decode(rest).Some?
    ensures Decode(Group(a, b, c) + rest) == Some([a, b, c] + Decode(rest).value)
  {
    hide Letter, Value, Sextet0, Sextet1, Sextet2, Sextet3, Byte0, Byte1, Byte2, DecodeGroup;
    var t := Group(a, b, c) + rest;
    assert t[4..] == rest;
    GroupDecodes(a, b, c, |t| == 4);
  }

  /** Decoding what was encoded gives the bytes back. */
  lemma {:induction false} RoundTrip(s: seq<Byte>)
    ensures Decode(Encode(s)) == Some(s)
  {
    hide Letter, Value, Decode, DecodeGroup, Group;
    if |s| >= 3 {
      RoundTrip(s[3..]);
      PrependGroup(s[0], s[1], s[2], Encode(s[3..]));
      assert s == [s[0], s[1], s[2]] + s[3..];
    } else if s != [] {
      TailDecodes(s);
    } else {
      EmptyDecodes();
    }
  }

  lemma EmptyDecodes()
    ensures Decode(Encode([])) == Some([])
  {
  }

  /** The bits a padded last group leaves over are zero. */
  predicate Canonical(t: string)
    requires Decode(t).Some?
  {
    if |t| < 4 then true
    else if |t| > 4 then Canonical(t[4..])
    else if t[2] == '=' then Value(t[1]).value % 16 == 0
    else if t[3] == '=' then Value(t[2]).value % 4 == 0
    else true
  }

  lemma FullGroup(w: char, x: char, y: char, z: char, last: bool)
    requires DecodeGroup(w, x, y, z, last).Some? && y != '=' && z != '='
    ensures var s := DecodeGroup(w, x, y, z, last).value;
            |s| == 3 && Group(s[0], s[1], s[2]) == [w, x, y, z]
  {
    hide Letter, Value, Sextet0, Sextet1, Sextet2, Sextet3, Byte0, Byte1, Byte2;
    ValueLetter(w);
    ValueLetter(x);
    ValueLetter(y);
    ValueLetter(z);
    Unpacks(Value(w).value, Value(x).value, Value(y).value, Value(z).value);
  }

  lemma LettersDiffer(v: Sextet, u: Sextet)
    ensures Letter(v) == Letter(u) <==> v == u
  {
    LetterValue(v);
    LetterValue(u);
  }

  lemma ShortGroup(w: char, x: char, y: char)
    requires DecodeGroup(w, x, y, '=', true).Some?
    ensures var s := DecodeGroup(w, x, y, '=', true).value;
            Encode(s) == [w, x, y, '='] <==> (if y == '=' then Value(x).value % 16 == 0 else Value(y).value % 4 == 0)
  {
    hide Letter, Value, Sextet0, Sextet1, Sextet2, Sextet3, Byte0, Byte1, Byte2;
    ValueLetter(w);
    ValueLetter(x);
    var s := DecodeGroup(w, x, y, '=', true).value;
    var a, b := Value(w).value, Value(x).value;
    if y == '=' {
      Unpacks(a, b, 0, 0);
      assert Encode(s) == [w, Letter(Sextet1(s[0], 0)), '=', '='];
      LettersDiffer(Sextet1(s[0], 0), b);
    } else {
      ValueLetter(y);
      var c := Value(y).value;
      Unpacks(a, b, c, 0);
      assert Encode(s) == [w, x, Letter(Sextet2(s[1], 0)), '='];
      LettersDiffer(Sextet2(s[1], 0), c);
    }
  }

  lemma LastGroup(t: string)
    requires |t| == 4 && Decode(t).Some?
    ensures Encode(Decode(t).value) == t <==> Canonical(t)
  {
    hide Letter, Sextet0, Sextet1, Sextet2, Sextet3, Byte0, Byte1, Byte2;
    assert t[4..] == "" && t == [t[0], t[1], t[2], t[3]];
    var s := DecodeGroup(t[0], t[1], t[2], t[3], true).value;
    assert Decode(t).value == s;
    if t[3] == '=' {
      ShortGroup(t[0], t[1], t[2]);
    } else {
      FullGroup(t[0], t[1], t[2], t[3], true);
      assert s[3..] == [];
      assert Encode(s) == Group(s[0], s[1], s[2]) + Encode(s[3..]);
    }
  }

  lemma HeadReencodes(s: seq<Byte>, t: string)
    requires |s| >= 3 && |t| >= 4 && Group(s[0], s[1], s[2]) == t[..4]
    ensures Encode(s) == t <==> Encode(s[3..]) == t[4..]
  {
    hide Group;
    assert t == t[..4] + t[4..];
    assert Encode(s)[4..] == Encode(s[3..]);
  }

  /**
   * The strict decoder ignores the leftover bits of a padded group, so several texts decode alike:
   * an accepted text is the encoding of its bytes exactly when those bits are zero.
   */
  lemma {:induction false} ReencodesIffCanonical(t: string)
    requires Decode(t).Some?
    ensures Encode(Decode(t).value) == t <==> Canonical(t)
  {
    if |t| == 4 {
      LastGroup(t);
    } else if t != "" {
      hide Letter, Value, Group, Encode;
      var head := DecodeGroup(t[0], t[1], t[2], t[3], false);
      FullGroup(t[0], t[1], t[2], t[3], false);
      ReencodesIffCanonical(t[4..]);
      var s, rest := Decode(t).value, Decode(t[4..]).value;
      assert s[..3] == head.value && s[3..] == rest;
      assert t[..4] == [t[0], t[1], t[2], t[3]];
      HeadReencodes(s, t);
    } else {
      assert Encode([]) == "";
    }
  }

  lemma SpareBits()
    ensures DecodeGroup('Q', 'Q', '=', '=', true) == DecodeGroup('Q', 'R', '=', '=', true) == Some([65])
  {
    assert Value('Q') == Some(16) && Value('R') == Some(17);
  }

  /** Two accepted texts with the same bytes, only one of which the encoder writes. */
  lemma NotInjective()
    ensures Decode(['Q', 'Q', '=', '=']) == Decode(['Q', 'R', '=', '=']) == Some([65])
    ensures Encode([65]) == ['Q', 'Q', '=', '=']
  {
    assert Letter(16) == 'Q' && Sextet0(65) == 16 && Sextet1(65, 0) == 16;
    hide Letter, Decode, DecodeGroup;
    DecodeFour('Q', 'Q', '=', '=');
    DecodeFour('Q', 'R', '=', '=');
    SpareBits();
  }
}
