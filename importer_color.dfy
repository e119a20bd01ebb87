/** The importer's colour conversions between `#rrggbb` strings and RGB
    triples, as in section 4.2.1 of CSS Color Module Level 3. `hexToRgb`
    works by a regular-expression replacement, `substring(1)`, a global
    `match(/.{2}/g)` and `parseInt(x, 16)`, each modelled here. */
module ImporterColor {
  import opened JsValues

  predicate IsHexDigit(c: char) {
    '0' <= c <= '9' || 'a' <= c <= 'f' || 'A' <= c <= 'F'
  }

  function DigitValue(c: char): (v: nat)
    requires IsHexDigit(c)
    ensures v < 16
  {
    if '0' <= c <= '9' then c as int - '0' as int
    else if 'a' <= c <= 'f' then c as int - 'a' as int + 10
    else c as int - 'A' as int + 10
  }

  /** Lower-case hex digit of a value below 16. */
  function HexChar(d: nat): (c: char)
    requires d < 16
    ensures IsHexDigit(c) && DigitValue(c) == d && !('A' <= c <= 'F')
  {
    if d < 10 then ('0' as int + d) as char else ('a' as int + d - 10) as char
  }

  // -------------------------------------------------------------------
  // hexToRgb
  // -------------------------------------------------------------------

  /** `replace(/^#?([a-f\d])([a-f\d])([a-f\d])$/i, "#" + r + r + g + g + b + b)`:
      a whole string of three hex digits, with or without a leading '#',
      becomes the six-digit form; any other string is kept. */
  function ExpandShorthand(hex: string): (r: string)
    ensures |hex| == 3 && IsHexDigit(hex[0]) && IsHexDigit(hex[1]) && IsHexDigit(hex[2]) ==>
              r == ['#', hex[0], hex[0], hex[1], hex[1], hex[2], hex[2]]
    ensures |hex| == 4 && hex[0] == '#' && IsHexDigit(hex[1]) && IsHexDigit(hex[2]) && IsHexDigit(hex[3]) ==>
              r == ['#', hex[1], hex[1], hex[2], hex[2], hex[3], hex[3]]
    ensures !(|hex| == 3 && IsHexDigit(hex[0]) && IsHexDigit(hex[1]) && IsHexDigit(hex[2])) &&
            !(|hex| == 4 && hex[0] == '#' && IsHexDigit(hex[1]) && IsHexDigit(hex[2]) && IsHexDigit(hex[3])) ==>
              r == hex
  {
    var body := if |hex| == 4 && hex[0] == '#' then hex[1..] else hex;
    if |body| == 3 && IsHexDigit(body[0]) && IsHexDigit(body[1]) && IsHexDigit(body[2]) then
      ['#', body[0], body[0], body[1], body[1], body[2], body[2]]
    else hex
  }

  /** `substring(1)` */
  function Substring1(s: string): (r: string)
    ensures |s| >= 1 ==> r == s[1..]
    ensures |s| == 0 ==> r == []
  {
    if |s| >= 1 then s[1..] else []
  }

  /** The characters `.` does not match. */
  predicate IsLineTerminator(c: char) {
    c == '\n' || c == '\r' || c == '\U{2028}' || c == '\U{2029}'
  }

  /** `match(/.{2}/g)`: every match of two characters that are not line
      terminators, from left to right; no match gives null, modelled as the
      empty list. */
  function Pairs(s: string): (r: seq<string>)
    ensures forall k :: 0 <= k < |r| ==> |r[k]| == 2 && !IsLineTerminator(r[k][0]) && !IsLineTerminator(r[k][1])
    decreases |s|
  {
    if |s| < 2 then []
    else if !IsLineTerminator(s[0]) && !IsLineTerminator(s[1]) then [s[..2]] + Pairs(s[2..])
    else Pairs(s[1..])
  }

  /** On text without line terminators the matches are the consecutive
      two-character chunks; a trailing odd character is dropped. */
  lemma {:induction false} PairsChunks(s: string)
    requires forall i :: 0 <= i < |s| ==> !IsLineTerminator(s[i])
    ensures |Pairs(s)| == |s| / 2
    ensures forall k :: 0 <= k < |s| / 2 ==> Pairs(s)[k] == s[2 * k..2 * k + 2]
    decreases |s|
  {
    if |s| >= 2 {
      var rest := s[2..];
      PairsChunks(rest);
      assert Pairs(s) == [s[..2]] + Pairs(rest);
      forall k | 1 <= k < |s| / 2 ensures Pairs(s)[k] == s[2 * k..2 * k + 2] {
        assert Pairs(s)[k] == Pairs(rest)[k - 1];
        assert rest[2 * (k - 1)..2 * (k - 1) + 2] == s[2 * k..2 * k + 2];
      }
    }
  }

  /** The white space and line terminators `parseInt` skips. */
  predicate IsWhiteSpace(c: char) {
    c == '\t' || c == '\U{000B}' || c == '\U{000C}' || c == ' ' || c == '\U{00A0}' || c == '\U{FEFF}' ||
    c == '\U{1680}' || '\U{2000}' <= c <= '\U{200A}' || c == '\U{202F}' || c == '\U{205F}' || c == '\U{3000}' ||
    IsLineTerminator(c)
  }

  function TrimStart(s: string): (r: string)
    ensures |r| <= |s| && r == s[|s| - |r|..]
    ensures |r| > 0 ==> !IsWhiteSpace(r[0])
    decreases |s|
  {
    if |s| > 0 && IsWhiteSpace(s[0]) then TrimStart(s[1..]) else s
  }

  /** The longest prefix of hex digits. */
  function HexPrefix(s: string): (r: string)
    ensures r <= s
    ensures forall i :: 0 <= i < |r| ==> IsHexDigit(r[i])
    ensures |r| < |s| ==> !IsHexDigit(s[|r|])
    decreases |s|
  {
    if |s| > 0 && IsHexDigit(s[0]) then [s[0]] + HexPrefix(s[1..]) else []
  }

  /** The value of a string of hex digits. */
  function HexValue(d: string): nat
    requires forall i :: 0 <= i < |d| ==> IsHexDigit(d[i])
    decreases |d|
  {
    if |d| == 0 then 0 else 16 * HexValue(d[..|d| - 1]) + DigitValue(d[|d| - 1])
  }

  /** `parseInt(s, 16)`: leading white space, a sign and a `0x` prefix are
      skipped, then the longest run of hex digits is read; no digit at all
      gives NaN, modelled as None. */
  function ParseHex(s: string): Option<int> {
    var t := TrimStart(s);
    var negative := |t| > 0 && t[0] == '-';
    var u := if |t| > 0 && (t[0] == '-' || t[0] == '+') then t[1..] else t;
    var v := if |u| >= 2 && u[0] == '0' && (u[1] == 'x' || u[1] == 'X') then u[2..] else u;
    var d := HexPrefix(v);
    var n: int := if negative then 0 - HexValue(d) else HexValue(d);
    if |d| == 0 then None else Some(n)
  }

  /** `hexToRgb(hex)`: a string that gives no pair makes `.map` of null
      throw. */
  function HexToRgb(hex: string): Outcome<seq<Option<int>>> {
    var pairs := Pairs(Substring1(ExpandShorthand(hex)));
    if |pairs| == 0 then TypeError else Ok(ParseAll(pairs))
  }

  /** `.map(x => parseInt(x, 16))` */
  function ParseAll(pairs: seq<string>): (r: seq<Option<int>>)
    ensures |r| == |pairs|
    ensures forall k :: 0 <= k < |pairs| ==> r[k] == ParseHex(pairs[k])
  {
    if |pairs| == 0 then [] else [ParseHex(pairs[0])] + ParseAll(pairs[1..])
  }

  lemma HexDigitNotSkipped(c: char)
    requires IsHexDigit(c)
    ensures !IsWhiteSpace(c) && !IsLineTerminator(c) && c != '-' && c != '+' && c != 'x' && c != 'X'
  {
  }

  lemma TrimPair(x: char, y: char)
    requires IsHexDigit(x)
    ensures TrimStart([x, y]) == [x, y]
  {
    HexDigitNotSkipped(x);
    hide IsWhiteSpace;
    assert [x, y][0] == x;
  }

  lemma HexPrefixPair(x: char, y: char)
    requires IsHexDigit(x) && IsHexDigit(y)
    ensures HexPrefix([x, y]) == [x, y]
  {
    assert [x, y][1..] == [y];
    assert [y][1..] == [];
  }

  lemma HexValuePair(x: char, y: char)
    requires IsHexDigit(x) && IsHexDigit(y)
    ensures HexValue([x, y]) == 16 * DigitValue(x) + DigitValue(y)
  {
    assert [x, y][..1] == [x];
    assert [x][..0] == [];
    assert HexValue([x]) == DigitValue(x);
  }

  /** Two hex digits read as one byte. */
  lemma ParseHexPair(x: char, y: char)
    requires IsHexDigit(x) && IsHexDigit(y)
    ensures ParseHex([x, y]) == Some(16 * DigitValue(x) + DigitValue(y))
    ensures 0 <= 16 * DigitValue(x) + DigitValue(y) <= 255
  {
    TrimPair(x, y);
    HexPrefixPair(x, y);
    HexValuePair(x, y);
    HexDigitNotSkipped(x);
    HexDigitNotSkipped(y);
    hide TrimStart, HexPrefix, HexValue, IsWhiteSpace, IsHexDigit;
  }

  lemma HexToRgbPairs(hex: string)
    requires |Pairs(Substring1(ExpandShorthand(hex)))| > 0
    ensures HexToRgb(hex) == Ok(ParseAll(Pairs(Substring1(ExpandShorthand(hex)))))
  {
  }

  /** The result of `hexToRgb` on a string whose pairs are the three given
      pairs of hex digits. */
  lemma ReadThree(hex: string, p: seq<string>)
    requires Pairs(Substring1(ExpandShorthand(hex))) == p && |p| == 3
    requires forall k :: 0 <= k < 3 ==> |p[k]| == 2 && IsHexDigit(p[k][0]) && IsHexDigit(p[k][1])
    ensures HexToRgb(hex) == Ok([Some(16 * DigitValue(p[0][0]) + DigitValue(p[0][1])),
                                 Some(16 * DigitValue(p[1][0]) + DigitValue(p[1][1])),
                                 Some(16 * DigitValue(p[2][0]) + DigitValue(p[2][1]))])
  {
    hide *;
    HexToRgbPairs(hex);
    var r := ParseAll(p);
    forall k | 0 <= k < 3 ensures r[k] == Some(16 * DigitValue(p[k][0]) + DigitValue(p[k][1])) {
      assert p[k] == [p[k][0], p[k][1]];
      ParseHexPair(p[k][0], p[k][1]);
    }
    assert r == [r[0], r[1], r[2]];
  }

  lemma HexNoTerminator(s: string)
    requires forall i :: 0 <= i < |s| ==> IsHexDigit(s[i])
    ensures forall i :: 0 <= i < |s| ==> !IsLineTerminator(s[i])
  {
    forall i | 0 <= i < |s| ensures !IsLineTerminator(s[i]) {
      HexDigitNotSkipped(s[i]);
    }
  }

  /** The pairs `hexToRgb` reads from '#' and six hex digits. */
  lemma SixDigitPairs(hex: string)
    requires |hex| == 7 && hex[0] == '#' && forall i :: 1 <= i < 7 ==> IsHexDigit(hex[i])
    ensures Pairs(Substring1(ExpandShorthand(hex))) == [hex[1..3], hex[3..5], hex[5..7]]
  {
    var body := hex[1..];
    assert forall i :: 0 <= i < |body| ==> IsHexDigit(body[i]);
    assert ExpandShorthand(hex) == hex;
    HexNoTerminator(body);
    PairsChunks(body);
    hide *;
    assert body[0..2] == hex[1..3] && body[2..4] == hex[3..5] && body[4..6] == hex[5..7];
  }

  /** Six hex digits after '#' give three integers in 0 .. 255, each read
      from its pair of digits. */
  lemma SixDigits(hex: string)
    requires |hex| == 7 && hex[0] == '#' && forall i :: 1 <= i < 7 ==> IsHexDigit(hex[i])
    ensures HexToRgb(hex) == Ok([Some(16 * DigitValue(hex[1]) + DigitValue(hex[2])),
                                 Some(16 * DigitValue(hex[3]) + DigitValue(hex[4])),
                                 Some(16 * DigitValue(hex[5]) + DigitValue(hex[6]))])
    ensures forall v :: v in HexToRgb(hex).value ==> v.Some? && 0 <= v.value <= 255
  {
    hide *;
    SixDigitPairs(hex);
    var pairs := [hex[1..3], hex[3..5], hex[5..7]];
    SlicePairs(hex);
    ParseHexPair(hex[1], hex[2]);
    ParseHexPair(hex[3], hex[4]);
    ParseHexPair(hex[5], hex[6]);
    ReadThree(hex, pairs);
  }

  lemma SlicePairs(hex: string)
    requires |hex| == 7
    ensures var pairs := [hex[1..3], hex[3..5], hex[5..7]];
            forall k :: 0 <= k < 3 ==> |pairs[k]| == 2 && pairs[k][0] == hex[2 * k + 1] && pairs[k][1] == hex[2 * k + 2]
  {
  }

  lemma ShorthandExpands(hex: string)
    requires |hex| == 3 || (|hex| == 4 && hex[0] == '#')
    requires forall i :: |hex| - 3 <= i < |hex| ==> IsHexDigit(hex[i])
    ensures var r := hex[|hex| - 3]; var g := hex[|hex| - 2]; var b := hex[|hex| - 1];
            var long := ['#', r, r, g, g, b, b];
            ExpandShorthand(hex) == long && ExpandShorthand(long) == long &&
            forall i :: 1 <= i < 7 ==> IsHexDigit(long[i])
  {
  }

  /** The shorthand `#rgb`, or `rgb`, reads as `#rrggbb`. */
  lemma Shorthand(hex: string)
    requires |hex| == 3 || (|hex| == 4 && hex[0] == '#')
    requires forall i :: |hex| - 3 <= i < |hex| ==> IsHexDigit(hex[i])
    ensures var r := hex[|hex| - 3]; var g := hex[|hex| - 2]; var b := hex[|hex| - 1];
            HexToRgb(hex) == Ok([Some(17 * DigitValue(r)), Some(17 * DigitValue(g)), Some(17 * DigitValue(b))])
  {
    hide *;
    var r := hex[|hex| - 3];
    var g := hex[|hex| - 2];
    var b := hex[|hex| - 1];
    var long := ['#', r, r, g, g, b, b];
    ShorthandExpands(hex);
    SameExpansion(hex, long);
    SixDigits(long);
  }

  lemma SameExpansion(a: string, b: string)
    requires ExpandShorthand(a) == ExpandShorthand(b)
    ensures HexToRgb(a) == HexToRgb(b)
  {
  }

  lemma MissingHashPairs()
    ensures Pairs(Substring1(ExpandShorthand("aabbcc"))) == ["ab", "bc"]
  {
    var hex := "aabbcc";
    var body := "abbcc";
    assert ExpandShorthand(hex) == hex by {
      assert |hex| != 3 && |hex| != 4;
    }
    assert Substring1(hex) == body;
    assert forall i :: 0 <= i < |body| ==> !IsLineTerminator(body[i]);
    PairsChunks(body);
    assert body[0..2] == "ab" && body[2..4] == "bc";
  }

  /** Without '#' a six-digit string loses its first digit: the pairs are
      read from the second digit on and the last digit is dropped. */
  lemma MissingHash()
    ensures HexToRgb("aabbcc") == Ok([Some(0xab), Some(0xbc)])
  {
    hide *;
    MissingHashPairs();
    HexToRgbPairs("aabbcc");
    PairAb();
    var r := ParseAll(["ab", "bc"]);
    assert r == [r[0], r[1]];
  }

  lemma PairAb()
    ensures ParseHex("ab") == Some(0xab) && ParseHex("bc") == Some(0xbc)
  {
    hide *;
    LetterDigits();
    ParseHexPair('a', 'b');
    ParseHexPair('b', 'c');
  }

  lemma LetterDigits()
    ensures IsHexDigit('a') && IsHexDigit('b') && IsHexDigit('c')
    ensures DigitValue('a') == 10 && DigitValue('b') == 11 && DigitValue('c') == 12
    ensures "ab" == ['a', 'b'] && "bc" == ['b', 'c']
  {
  }

  // -------------------------------------------------------------------
  // rgbToHex
  // -------------------------------------------------------------------

  /** The lower-case hex digits of a natural number, without leading zeros. */
  function HexNat(n: nat): (r: string)
    ensures |r| >= 1
    ensures forall i :: 0 <= i < |r| ==> IsHexDigit(r[i])
    decreases n
  {
    if n < 16 then [HexChar(n)] else HexNat(n / 16) + [HexChar(n % 16)]
  }

  /** `Number(c).toString(16)` for an integer. */
  function NumberToHex(c: int): string {
    if c < 0 then "-" + HexNat(-c) else HexNat(c)
  }

  /** `componentToHex(c)`: a single digit gets a leading zero. */
  function ComponentToHex(c: int): string {
    var hex := NumberToHex(c);
    if |hex| == 1 then "0" + hex else hex
  }

  /** `rgbToHex(r, g, b)` */
  function RgbToHex(r: int, g: int, b: int): string {
    "#" + ComponentToHex(r) + ComponentToHex(g) + ComponentToHex(b)
  }

  /** A byte is written as two lower-case hex digits, zero-padded, whose
      value is the byte. */
  lemma ComponentByte(c: int)
    requires 0 <= c <= 255
    ensures |ComponentToHex(c)| == 2
    ensures IsHexDigit(ComponentToHex(c)[0]) && IsHexDigit(ComponentToHex(c)[1])
    ensures !('A' <= ComponentToHex(c)[0] <= 'F') && !('A' <= ComponentToHex(c)[1] <= 'F')
    ensures 16 * DigitValue(ComponentToHex(c)[0]) + DigitValue(ComponentToHex(c)[1]) == c
  {
    if c >= 16 {
      assert HexNat(c / 16) == [HexChar(c / 16)];
    }
  }

  /** '#' and three two-digit components. */
  lemma ConcatShape(a: string, b: string, c: string)
    requires |a| == 2 && |b| == 2 && |c| == 2
    ensures var s := "#" + a + b + c;
            |s| == 7 && s[0] == '#' &&
            s[1] == a[0] && s[2] == a[1] && s[3] == b[0] && s[4] == b[1] && s[5] == c[0] && s[6] == c[1]
  {
  }

  /** `rgbToHex` is '#' followed by six lower-case hex digits. */
  lemma RgbToHexShape(r: int, g: int, b: int)
    requires 0 <= r <= 255 && 0 <= g <= 255 && 0 <= b <= 255
    ensures var s := RgbToHex(r, g, b);
            |s| == 7 && s[0] == '#' &&
            forall i :: 1 <= i < 7 ==> IsHexDigit(s[i]) && !('A' <= s[i] <= 'F')
  {
    hide *;
    ComponentByte(r);
    ComponentByte(g);
    ComponentByte(b);
    RgbToHexDef(r, g, b);
    ConcatShape(ComponentToHex(r), ComponentToHex(g), ComponentToHex(b));
  }

  lemma RgbToHexDef(r: int, g: int, b: int)
    ensures RgbToHex(r, g, b) == "#" + ComponentToHex(r) + ComponentToHex(g) + ComponentToHex(b)
  {
  }

  /** Reading back what `rgbToHex` wrote gives the triple. */
  lemma RoundTrip(r: int, g: int, b: int)
    requires 0 <= r <= 255 && 0 <= g <= 255 && 0 <= b <= 255
    ensures HexToRgb(RgbToHex(r, g, b)) == Ok([Some(r), Some(g), Some(b)])
  {
    hide *;
    var s := RgbToHex(r, g, b);
    ComponentByte(r);
    ComponentByte(g);
    ComponentByte(b);
    RgbToHexDef(r, g, b);
    ConcatShape(ComponentToHex(r), ComponentToHex(g), ComponentToHex(b));
    RgbToHexShape(r, g, b);
    SixDigits(s);
  }
}
