/** JavaScript string operations used by the addons, on `string` (a sequence of
    Unicode scalar values; JavaScript counts UTF-16 code units instead, which
    agree on characters of the Basic Multilingual Plane). Case mapping is
    ASCII only. */
module JsText {

  // ---------------------------------------------------------------------
  // Case mapping (String.prototype.toLowerCase / toUpperCase on ASCII)
  // ---------------------------------------------------------------------

  function LowerChar(c: char): char {
    if 'A' <= c <= 'Z' then (c as int + 32) as char else c
  }

  function UpperChar(c: char): char {
    if 'a' <= c <= 'z' then (c as int - 32) as char else c
  }

  function Lower(s: string): (r: string)
    ensures |r| == |s|
    ensures forall i :: 0 <= i < |s| ==> r[i] == LowerChar(s[i])
  {
    seq(|s|, i requires 0 <= i < |s| => LowerChar(s[i]))
  }

  function Upper(s: string): (r: string)
    ensures |r| == |s|
    ensures forall i :: 0 <= i < |s| ==> r[i] == UpperChar(s[i])
  {
    seq(|s|, i requires 0 <= i < |s| => UpperChar(s[i]))
  }

  // ---------------------------------------------------------------------
  // Searching
  // ---------------------------------------------------------------------

  predicate StartsWith(s: string, prefix: string) {
    prefix <= s
  }

  predicate OccursAt(s: string, sub: string, i: int) {
    0 <= i && i + |sub| <= |s| && s[i..i + |sub|] == sub
  }

  /** String.prototype.indexOf: the least position of `sub` in `s`, or -1. */
  function IndexOf(s: string, sub: string): (r: int)
    ensures -1 <= r <= |s|
    ensures r >= 0 ==> OccursAt(s, sub, r) && forall j :: 0 <= j < r ==> !OccursAt(s, sub, j)
    ensures r == -1 ==> forall j :: !OccursAt(s, sub, j)
  {
    IndexFrom(s, sub, 0)
  }

  function IndexFrom(s: string, sub: string, k: nat): (r: int)
    requires k <= |s| + 1
    requires forall j :: 0 <= j < k ==> !OccursAt(s, sub, j)
    ensures -1 <= r <= |s|
    ensures r >= 0 ==> k <= r && OccursAt(s, sub, r) && forall j :: 0 <= j < r ==> !OccursAt(s, sub, j)
    ensures r == -1 ==> forall j :: !OccursAt(s, sub, j)
    decreases |s| + 1 - k
  {
    if k + |sub| > |s| then -1
    else if s[k..k + |sub|] == sub then k
    else IndexFrom(s, sub, k + 1)
  }

  /** String.prototype.includes */
  predicate Contains(s: string, sub: string) {
    IndexOf(s, sub) >= 0
  }

  lemma ContainsIff(s: string, sub: string)
    ensures Contains(s, sub) <==> exists i :: OccursAt(s, sub, i)
  {
  }

  /** A prefix occurrence is the first one. */
  lemma StartsWithIndexZero(s: string, sub: string)
    requires StartsWith(s, sub)
    ensures IndexOf(s, sub) == 0
  {
    assert OccursAt(s, sub, 0);
  }

  // ---------------------------------------------------------------------
  // Split and join on a one-character separator
  // ---------------------------------------------------------------------

  /** Position of the first `c` in `s`, or |s| when there is none. */
  function FirstIndex(s: string, c: char): (i: nat)
    ensures i <= |s|
    ensures i < |s| ==> s[i] == c
    ensures forall j :: 0 <= j < i ==> s[j] != c
  {
    if |s| == 0 then 0 else if s[0] == c then 0 else 1 + FirstIndex(s[1..], c)
  }

  /** String.prototype.split with a one-character separator. */
  function Split(s: string, c: char): (parts: seq<string>)
    ensures |parts| >= 1
    ensures forall k :: 0 <= k < |parts| ==> c !in parts[k]
    decreases |s|
  {
    var i := FirstIndex(s, c);
    if i == |s| then [s] else [s[..i]] + Split(s[i + 1..], c)
  }

  /** Array.prototype.join */
  function Join(parts: seq<string>, sep: string): string
  {
    if |parts| == 0 then ""
    else if |parts| == 1 then parts[0]
    else parts[0] + sep + Join(parts[1..], sep)
  }

  /** Splitting and joining back gives the original text. */
  lemma {:induction false} JoinSplit(s: string, c: char)
    ensures Join(Split(s, c), [c]) == s
    decreases |s|
  {
    var i := FirstIndex(s, c);
    if i < |s| {
      var rest := s[i + 1..];
      var parts := Split(rest, c);
      assert Split(s, c) == [s[..i]] + parts;
      JoinSplit(rest, c);
      hide Split, FirstIndex;
      assert Join([s[..i]] + parts, [c]) == s[..i] + [c] + Join(parts, [c]) by {
        assert ([s[..i]] + parts)[1..] == parts;
      }
      assert s == s[..i] + [c] + rest;
    }
  }

  /** Joining one more part appends the separator and the part. */
  lemma {:induction false} JoinSnoc(parts: seq<string>, x: string, sep: string)
    requires |parts| >= 1
    ensures Join(parts + [x], sep) == Join(parts, sep) + sep + x
    decreases |parts|
  {
    if |parts| == 1 {
      assert (parts + [x])[1..] == [x];
    } else {
      assert (parts + [x])[1..] == parts[1..] + [x];
      JoinSnoc(parts[1..], x, sep);
    }
  }

  lemma FirstIndexAfter(a: string, c: char, b: string)
    requires c !in a
    ensures FirstIndex(a + [c] + b, c) == |a|
  {
    var s := a + [c] + b;
    assert s[|a|] == c;
    assert forall j :: 0 <= j < |a| ==> s[j] == a[j];
  }

  /** Joining parts free of the separator and splitting again gives the
      parts back. */
  lemma {:induction false} SplitJoin(parts: seq<string>, c: char)
    requires |parts| >= 1 && forall k :: 0 <= k < |parts| ==> c !in parts[k]
    ensures Split(Join(parts, [c]), c) == parts
    decreases |parts|
  {
    if |parts| == 1 {
      assert c !in parts[0];
    } else {
      var rest := Join(parts[1..], [c]);
      var s := parts[0] + [c] + rest;
      assert Join(parts, [c]) == s;
      FirstIndexAfter(parts[0], c, rest);
      assert s[..|parts[0]|] == parts[0];
      assert s[|parts[0]| + 1..] == rest;
      SplitJoin(parts[1..], c);
      assert parts == [parts[0]] + parts[1..];
    }
  }

  /** A split has one part exactly when the separator does not occur. */
  lemma SplitSingle(s: string, c: char)
    ensures |Split(s, c)| == 1 <==> c !in s
  {
    if c in s {
      var k :| 0 <= k < |s| && s[k] == c;
      assert FirstIndex(s, c) < |s|;
    }
  }

  /** `parts.pop(); parts.join(sep)` after splitting: everything before the
      last separator. */
  lemma DropLastPart(s: string, c: char)
    requires |Split(s, c)| >= 2
    ensures var parts := Split(s, c);
            Join(parts[..|parts| - 1], [c]) + [c] + parts[|parts| - 1] == s
  {
    var parts := Split(s, c);
    var init := parts[..|parts| - 1];
    var last := parts[|parts| - 1];
    assert parts == init + [last];
    hide *;
    JoinSplit(s, c);
    JoinSnoc(init, last, [c]);
  }

  /** The first part of a split is the text before the first separator. */
  lemma SplitHead(s: string, c: char)
    ensures Split(s, c)[0] == s[..FirstIndex(s, c)]
  {
  }

  /** The second part of a split, when there is one. */
  lemma SplitSecond(s: string, c: char)
    requires FirstIndex(s, c) < |s|
    ensures var i := FirstIndex(s, c);
            |Split(s, c)| >= 2 &&
            Split(s, c)[1] == s[i + 1..][..FirstIndex(s[i + 1..], c)]
  {
  }

  /** The text after the last `c`: a suffix of `s` without `c` that is all
      of `s` or follows a `c`. */
  predicate IsLastSegment(s: string, c: char, t: string) {
    |t| <= |s| && t == s[|s| - |t|..] &&
    (forall j :: |s| - |t| <= j < |s| ==> s[j] != c) &&
    (|t| < |s| ==> s[|s| - |t| - 1] == c)
  }

  /** Only one suffix is the last segment. */
  lemma LastSegmentUnique(s: string, c: char, t: string, u: string)
    requires IsLastSegment(s, c, t) && IsLastSegment(s, c, u)
    ensures t == u
  {
  }

  /** A last segment of the text after a separator is one of the whole
      text. */
  lemma SegmentExtend(s: string, c: char, i: nat, t: string)
    requires i < |s| && s[i] == c && IsLastSegment(s[i + 1..], c, t)
    ensures IsLastSegment(s, c, t)
  {
    var rest := s[i + 1..];
    assert s[|s| - |t|..] == rest[|rest| - |t|..];
    assert forall j :: |s| - |t| <= j < |s| ==> s[j] == rest[j - i - 1];
  }

  /** The last part of a split is the text after the last separator. */
  lemma {:induction false} SplitLast(s: string, c: char)
    ensures IsLastSegment(s, c, Split(s, c)[|Split(s, c)| - 1])
    decreases |s|
  {
    var i := FirstIndex(s, c);
    if i == |s| {
      assert Split(s, c) == [s];
      assert s[|s| - |s|..] == s;
    } else {
      var rest := s[i + 1..];
      var parts := Split(rest, c);
      assert Split(s, c) == [s[..i]] + parts;
      var t := parts[|parts| - 1];
      assert Split(s, c)[|Split(s, c)| - 1] == t;
      hide *;
      SplitLast(rest, c);
      SegmentExtend(s, c, i, t);
    }
  }

  /** Lower-casing keeps the positions of a separator that is not a
      letter, so it maps the last segment to the last segment. */
  lemma LowerLastSegment(s: string, c: char, t: string)
    requires IsLastSegment(s, c, t) && !('A' <= c <= 'Z') && !('a' <= c <= 'z')
    ensures IsLastSegment(Lower(s), c, Lower(t))
  {
    assert forall j :: 0 <= j < |s| ==> (Lower(s)[j] == c <==> s[j] == c);
    assert Lower(s)[|s| - |t|..] == Lower(t);
  }

  // ---------------------------------------------------------------------
  // Decimal digits
  // ---------------------------------------------------------------------

  function DigitChar(d: nat): char
    requires d < 10
  {
    ('0' as int + d) as char
  }

  predicate IsDigit(c: char) {
    '0' <= c <= '9'
  }

  /** Number.prototype.toString() of a non-negative integer. */
  function NatToString(n: nat): (r: string)
    ensures |r| >= 1
    ensures forall i :: 0 <= i < |r| ==> IsDigit(r[i])
    decreases n
  {
    if n < 10 then [DigitChar(n)] else NatToString(n / 10) + [DigitChar(n % 10)]
  }

  /** Number.prototype.toString() of an integer. */
  function IntToString(n: int): string {
    if n < 0 then "-" + NatToString(-n) else NatToString(n)
  }

  /** Reads a string of decimal digits back as a number. */
  function ParseDigits(s: string): nat
    requires forall i :: 0 <= i < |s| ==> IsDigit(s[i])
  {
    if |s| == 0 then 0
    else
      assert IsDigit(s[|s| - 1]);
      ParseDigits(s[..|s| - 1]) * 10 + (s[|s| - 1] as int - '0' as int)
  }

  lemma {:induction false} ParseNatToString(n: nat)
    ensures ParseDigits(NatToString(n)) == n
    decreases n
  {
    if n >= 10 {
      var r := NatToString(n);
      ParseNatToString(n / 10);
      assert r[..|r| - 1] == NatToString(n / 10);
    }
  }

  /** Distinct numbers have distinct decimal texts. */
  lemma NatToStringInjective(m: nat, n: nat)
    requires NatToString(m) == NatToString(n)
    ensures m == n
  {
    ParseNatToString(m);
    ParseNatToString(n);
  }
}
