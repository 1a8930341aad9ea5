/** Character-level helpers shared by the date formatter and the file-name
    builder: decimal rendering of integers (Python's str() of an int and
    strftime's zero-padded fields), stripping of leading zeros (str.lstrip("0"))
    and left-to-right substring replacement (str.replace). */
module Text {

  predicate IsDigit(c: char) {
    '0' <= c <= '9'
  }

  predicate AllDigits(s: string) {
    forall i :: 0 <= i < |s| ==> IsDigit(s[i])
  }

  function DigitChar(d: nat): (c: char)
    requires d < 10
    ensures IsDigit(c) && (c == '0' <==> d == 0)
  {
    ('0' as int + d) as char
  }

  function DigitValue(c: char): nat {
    if IsDigit(c) then (c as int - '0' as int) else 0
  }

  function Pow10(n: nat): (p: nat)
    ensures p >= 1
  {
    if n == 0 then 1 else 10 * Pow10(n - 1)
  }

  /** The shortest decimal rendering of n, as Python's str(n). */
  function Decimal(n: nat): (s: string)
    ensures |s| >= 1
    decreases n
  {
    if n < 10 then [DigitChar(n)] else Decimal(n / 10) + [DigitChar(n % 10)]
  }

  /** Reads a string of digits back as a number (the inverse of Decimal and Fixed). */
  function ParseDecimal(s: string): nat
    decreases |s|
  {
    if |s| == 0 then 0 else 10 * ParseDecimal(s[..|s| - 1]) + DigitValue(s[|s| - 1])
  }

  /** n written with exactly `width` digits, zero-padded on the left,
      as strftime's %I, %M, %S (width 2) and %f (width 6) write it. */
  function Fixed(n: nat, width: nat): (s: string)
    requires n < Pow10(width)
    ensures |s| == width
    decreases width
  {
    if width == 0 then [] else Fixed(n / 10, width - 1) + [DigitChar(n % 10)]
  }

  /** Python's s.lstrip("0"). */
  function StripLeadingZeros(s: string): string
    decreases |s|
  {
    if |s| > 0 && s[0] == '0' then StripLeadingZeros(s[1..]) else s
  }

  predicate StartsWith(s: string, prefix: string) {
    |prefix| <= |s| && s[..|prefix|] == prefix
  }

  predicate EndsWith(s: string, suffix: string) {
    |suffix| <= |s| && s[|s| - |suffix|..] == suffix
  }

  predicate Contains(s: string, c: char) {
    exists i :: 0 <= i < |s| && s[i] == c
  }

  /** p appears in s as a contiguous piece starting at index i. */
  predicate OccursAt(p: string, s: string, i: int) {
    0 <= i <= |s| - |p| && s[i..i + |p|] == p
  }

  /** p appears in s as a contiguous piece. */
  predicate Occurs(p: string, s: string) {
    exists i :: 0 <= i <= |s| - |p| && OccursAt(p, s, i)
  }

  /** Python's s.replace(pattern, replacement): every occurrence of the
      (non-empty) pattern, taken left to right without overlap. */
  function Replace(s: string, pattern: string, replacement: string): string
    requires |pattern| > 0
    decreases |s|
  {
    if |s| < |pattern| then s
    else if s[..|pattern|] == pattern then replacement + Replace(s[|pattern|..], pattern, replacement)
    else [s[0]] + Replace(s[1..], pattern, replacement)
  }

  lemma {:induction false} DecimalRoundTrip(n: nat)
    ensures ParseDecimal(Decimal(n)) == n
    decreases n
  {
    var s := Decimal(n);
    if n < 10 {
      assert s[..0] == [];
    } else {
      DecimalRoundTrip(n / 10);
      assert s[..|s| - 1] == Decimal(n / 10);
    }
  }

  lemma DecimalInjective(a: nat, b: nat)
    ensures Decimal(a) == Decimal(b) ==> a == b
  {
    DecimalRoundTrip(a);
    DecimalRoundTrip(b);
  }

  lemma {:induction false} FixedRoundTrip(n: nat, width: nat)
    requires n < Pow10(width)
    ensures ParseDecimal(Fixed(n, width)) == n
    decreases width
  {
    if width > 0 {
      var s := Fixed(n, width);
      FixedRoundTrip(n / 10, width - 1);
      assert s[..|s| - 1] == Fixed(n / 10, width - 1);
    }
  }

  /** strftime's two-digit field with its leading zeros stripped is the
      plain decimal rendering, for 1 <= n < 100 (the %I hour, 1..12). */
  lemma StripTwoDigits(n: nat, rest: string)
    requires 1 <= n < 100
    ensures StripLeadingZeros(Fixed(n, 2) + rest) == Decimal(n) + rest
  {
    assert Fixed(n / 10, 1) == Fixed(n / 100, 0) + [DigitChar(n / 10 % 10)];
    var f := Fixed(n, 2);
    assert f == [DigitChar(n / 10 % 10)] + [DigitChar(n % 10)];
    if n < 10 {
      assert n / 10 % 10 == 0 && n % 10 == n;
      var t := [DigitChar(n)] + rest;
      assert (f + rest)[0] == '0';
      assert (f + rest)[1..] == t;
      assert t[0] != '0';
      assert StripLeadingZeros(t) == t;
    } else {
      assert n / 10 % 10 == n / 10 && n / 10 < 10;
      assert Decimal(n / 10) == [DigitChar(n / 10)];
      assert Decimal(n) == f;
    }
  }

  /** A one-character replacement is a character map: same length, and each
      position holds the replacement exactly where the input held the pattern. */
  lemma {:induction false} ReplaceCharAt(s: string, a: char, b: char)
    ensures |Replace(s, [a], [b])| == |s|
    ensures forall i :: 0 <= i < |s| ==> Replace(s, [a], [b])[i] == (if s[i] == a then b else s[i])
    decreases |s|
  {
    if |s| > 0 {
      ReplaceCharAt(s[1..], a, b);
      var r := Replace(s, [a], [b]);
      var tail := Replace(s[1..], [a], [b]);
      assert r == [if s[0] == a then b else s[0]] + tail;
    }
  }

  /** After replacing character a by a different character b, no a is left,
      and a character other than a is present exactly when it was, or it is b. */
  lemma ReplaceCharRemoves(s: string, a: char, b: char, c: char)
    requires a != b
    ensures !Contains(Replace(s, [a], [b]), a)
    ensures c != a && c != b ==> (Contains(Replace(s, [a], [b]), c) <==> Contains(s, c))
  {
    ReplaceCharAt(s, a, b);
    var r := Replace(s, [a], [b]);
    if c != a && c != b && Contains(r, c) {
      var i :| 0 <= i < |r| && r[i] == c;
      assert s[i] == c;
    }
    if c != a && c != b && Contains(s, c) {
      var i :| 0 <= i < |s| && s[i] == c;
      assert r[i] == c;
    }
  }

  /** Removing every occurrence of ".json" from stem + ".json", when ".json"
      does not occur in the stem, gives back the stem. No occurrence can
      straddle the stem and the extension: ".json" holds its only '.' first. */
  lemma {:induction false} RemoveJsonSuffix(stem: string)
    requires !Occurs(".json", stem)
    ensures Replace(stem + ".json", ".json", "") == stem
    decreases |stem|
  {
    var s := stem + ".json";
    if |stem| == 0 {
      assert s == ".json";
      assert ".json"[5..] == [];
    } else {
      if |stem| >= 5 {
        assert s[..5] == stem[0..5];
        assert !OccursAt(".json", stem, 0);
      } else {
        assert s[..5][|stem|] == '.' && ".json"[|stem|] != '.';
      }
      assert s[..5] != ".json";
      assert !Occurs(".json", stem[1..]) by {
        forall i | 0 <= i <= |stem[1..]| - 5 ensures !OccursAt(".json", stem[1..], i) {
          assert !OccursAt(".json", stem, i + 1);
          assert stem[1..][i..i + 5] == stem[i + 1..i + 6];
        }
      }
      RemoveJsonSuffix(stem[1..]);
      assert s[1..] == stem[1..] + ".json";
    }
  }
}
