/**
 * String helpers shared by the scripts, the console and the factories:
 * JavaScript and Python whitespace trimming, ASCII lower-casing, suffix tests,
 * single-character split/join, UTF-16 code units and the code-unit order that
 * JavaScript's default `sort()` uses, and Python's decimal rendering of ints.
 */
module Text {

  // ---------------------------------------------------------------------------
  // Whitespace and trimming
  // ---------------------------------------------------------------------------

  /** The characters JavaScript's `trim()` removes and its regex `\s` matches. */
  predicate IsJsWhitespace(c: char) {
    var n := c as int;
    (0x09 <= n <= 0x0D) || n == 0x20 || n == 0xA0 || n == 0x1680
    || (0x2000 <= n <= 0x200A) || n == 0x2028 || n == 0x2029 || n == 0x202F
    || n == 0x205F || n == 0x3000 || n == 0xFEFF
  }

  /** The characters Python's `str.strip()` removes (those `str.isspace()` accepts). */
  predicate IsPyWhitespace(c: char) {
    var n := c as int;
    (0x09 <= n <= 0x0D) || (0x1C <= n <= 0x20) || n == 0x85 || n == 0xA0 || n == 0x1680
    || (0x2000 <= n <= 0x200A) || n == 0x2028 || n == 0x2029 || n == 0x202F
    || n == 0x205F || n == 0x3000
  }

  predicate AllWhitespace(s: string, ws: char -> bool) {
    forall i :: 0 <= i < |s| ==> ws(s[i])
  }

  /** Drops the leading characters that satisfy `ws`. */
  function TrimStart(s: string, ws: char -> bool): (r: string)
    ensures |r| <= |s| && r == s[|s| - |r|..]
    ensures forall i :: 0 <= i < |s| - |r| ==> ws(s[i])
    ensures |r| > 0 ==> !ws(r[0])
  {
    if |s| == 0 || !ws(s[0]) then s else TrimStart(s[1..], ws)
  }

  /** Drops the trailing characters that satisfy `ws`. */
  function TrimEnd(s: string, ws: char -> bool): (r: string)
    ensures |r| <= |s| && r == s[..|r|]
    ensures forall i :: |r| <= i < |s| ==> ws(s[i])
    ensures |r| > 0 ==> !ws(r[|r| - 1])
  {
    if |s| == 0 || !ws(s[|s| - 1]) then s else TrimEnd(s[..|s| - 1], ws)
  }

  function Trim(s: string, ws: char -> bool): string {
    TrimEnd(TrimStart(s, ws), ws)
  }

  /** JavaScript `s.trim()`. */
  function JsTrim(s: string): string {
    Trim(s, IsJsWhitespace)
  }

  /** Python `s.strip()`. */
  function PyStrip(s: string): string {
    Trim(s, IsPyWhitespace)
  }

  /** A trimmed string is empty exactly when every character was whitespace. */
  lemma TrimEmptyIff(s: string, ws: char -> bool)
    ensures Trim(s, ws) == [] <==> AllWhitespace(s, ws)
  {
    var a := TrimStart(s, ws);
    if |a| > 0 {
      assert a[0] == s[|s| - |a|];
    }
  }

  /** Neither the first nor the last character satisfies `ws`. */
  predicate Unpadded(s: string, ws: char -> bool) {
    |s| == 0 || (!ws(s[0]) && !ws(s[|s| - 1]))
  }

  /** A string is its own trim exactly when it is unpadded. */
  lemma UnpaddedIff(s: string, ws: char -> bool)
    ensures Unpadded(s, ws) <==> Trim(s, ws) == s
  {
    var a := TrimStart(s, ws);
    var t := Trim(s, ws);
    if |t| > 0 {
      assert t[0] == a[0];
    }
    if Unpadded(s, ws) && |s| > 0 {
      assert a == s;
    }
  }

  /** The trimmed string neither starts nor ends with whitespace, so trimming again changes nothing. */
  lemma TrimIdempotent(s: string, ws: char -> bool)
    ensures Trim(Trim(s, ws), ws) == Trim(s, ws)
  {
    var t := Trim(s, ws);
    var a := TrimStart(s, ws);
    if |t| > 0 {
      assert t[0] == a[0];
    }
  }

  /** Trimming keeps a contiguous piece of the input. */
  lemma TrimIsSlice(s: string, ws: char -> bool)
    ensures var t := Trim(s, ws);
            var start := |s| - |TrimStart(s, ws)|;
            start + |t| <= |s| && t == s[start..start + |t|]
  {
  }

  /** Trimming a string that contains no `c` yields a string with no `c`. */
  lemma TrimKeepsAbsence(s: string, ws: char -> bool, c: char)
    requires c !in s
    ensures c !in Trim(s, ws)
  {
    TrimIsSlice(s, ws);
    var t := Trim(s, ws);
    var start := |s| - |TrimStart(s, ws)|;
    forall i | 0 <= i < |t| ensures t[i] != c {
      assert t[i] == s[start + i];
    }
  }

  /** A string that starts and ends with non-whitespace is its own trim. */
  lemma TrimOfSolid(s: string, ws: char -> bool)
    requires |s| > 0 && !ws(s[0]) && !ws(s[|s| - 1])
    ensures Trim(s, ws) == s
  {
  }

  /** A suffix that starts and ends with non-whitespace survives trimming. */
  lemma TrimKeepsSolidSuffix(stem: string, ext: string, ws: char -> bool)
    requires |ext| > 0 && !ws(ext[0]) && !ws(ext[|ext| - 1])
    ensures EndsWith(Trim(stem + ext, ws), ext)
  {
    var s := stem + ext;
    var a := TrimStart(s, ws);
    assert s[|stem|] == ext[0];
    assert |a| >= |ext|;
    assert a[|a| - |ext|..] == ext;
    assert a[|a| - 1] == ext[|ext| - 1];
  }

  // ---------------------------------------------------------------------------
  // Case and suffixes
  // ---------------------------------------------------------------------------

  function LowerChar(c: char): char {
    if 'A' <= c <= 'Z' then (c as int + 32) as char else c
  }

  /** `toLowerCase()` / `lower()` on the ASCII range. */
  function ToLowerAscii(s: string): (r: string)
    ensures |r| == |s|
    ensures forall i :: 0 <= i < |s| ==> r[i] == LowerChar(s[i])
  {
    seq(|s|, i requires 0 <= i < |s| => LowerChar(s[i]))
  }

  lemma LowerCharIdempotent(c: char)
    ensures LowerChar(LowerChar(c)) == LowerChar(c)
  {
  }

  predicate EndsWith(s: string, suffix: string) {
    |suffix| <= |s| && s[|s| - |suffix|..] == suffix
  }

  /** Lower-casing maps a suffix to the lower-cased suffix. */
  lemma LowerKeepsSuffix(s: string, ext: string)
    requires EndsWith(s, ext)
    ensures EndsWith(ToLowerAscii(s), ToLowerAscii(ext))
  {
    var l := ToLowerAscii(s);
    var le := ToLowerAscii(ext);
    assert forall i :: 0 <= i < |ext| ==> l[|s| - |ext| + i] == le[i];
    assert l[|l| - |le|..] == le;
  }

  // ---------------------------------------------------------------------------
  // Split and join on one separator character
  // ---------------------------------------------------------------------------

  /** JavaScript `s.split(sep)` for a one-character separator: never empty, "" gives [""]. */
  function Split(s: string, sep: char): (parts: seq<string>)
    ensures |parts| >= 1
    ensures forall k :: 0 <= k < |parts| ==> sep !in parts[k]
  {
    if |s| == 0 then [""]
    else
      var rest := Split(s[1..], sep);
      if s[0] == sep then [""] + rest else [[s[0]] + rest[0]] + rest[1..]
  }

  /** JavaScript `parts.join(sep)`. */
  function Join(parts: seq<string>, sep: char): string
    requires |parts| >= 1
  {
    if |parts| == 1 then parts[0] else parts[0] + [sep] + Join(parts[1..], sep)
  }

  lemma {:induction false} JoinSplit(s: string, sep: char)
    ensures Join(Split(s, sep), sep) == s
  {
    if |s| > 0 {
      JoinSplit(s[1..], sep);
      var rest := Split(s[1..], sep);
      if s[0] != sep {
        var parts := [[s[0]] + rest[0]] + rest[1..];
        if |rest| > 1 {
          assert parts[1..] == rest[1..];
        }
      }
    }
  }

  lemma {:induction false} SplitOfHead(p: string, tail: string, sep: char)
    requires sep !in p
    ensures Split(p + [sep] + tail, sep) == [p] + Split(tail, sep)
    decreases |p|
  {
    if |p| == 0 {
      assert p + [sep] + tail == [sep] + tail;
      assert ([sep] + tail)[1..] == tail;
    } else {
      assert (p + [sep] + tail)[1..] == p[1..] + [sep] + tail;
      SplitOfHead(p[1..], tail, sep);
      assert [p[0]] + p[1..] == p;
    }
  }

  lemma {:induction false} SplitOfPlain(p: string, sep: char)
    requires sep !in p
    ensures Split(p, sep) == [p]
    decreases |p|
  {
    if |p| > 0 {
      SplitOfPlain(p[1..], sep);
      assert [p[0]] + p[1..] == p;
    }
  }

  /** Splitting a join of separator-free parts gives the parts back. */
  lemma {:induction false} SplitJoin(parts: seq<string>, sep: char)
    requires |parts| >= 1
    requires forall k :: 0 <= k < |parts| ==> sep !in parts[k]
    ensures Split(Join(parts, sep), sep) == parts
    decreases |parts|
  {
    if |parts| == 1 {
      SplitOfPlain(parts[0], sep);
    } else {
      SplitJoin(parts[1..], sep);
      SplitOfHead(parts[0], Join(parts[1..], sep), sep);
      assert [parts[0]] + parts[1..] == parts;
    }
  }

  // ---------------------------------------------------------------------------
  // UTF-16 code units and JavaScript's default string order
  // ---------------------------------------------------------------------------

  /** A UTF-16 code unit, 0 to 0xFFFF. */
  type CodeUnit = x: int | 0 <= x < 0x10000

  /** The UTF-16 code units of one character (a surrogate pair above U+FFFF). */
  function CharUnits(c: char): (u: seq<CodeUnit>)
    ensures 1 <= |u| <= 2
  {
    var n := c as int;
    if n < 0x10000 then [n]
    else
      var m := n - 0x10000;
      [0xD800 + m / 0x400, 0xDC00 + m % 0x400]
  }

  /** The UTF-16 encoding of a string: what `length`, `charCodeAt` and `<` on strings see. */
  function Utf16(s: string): (u: seq<CodeUnit>)
    ensures |u| >= |s|
  {
    if |s| == 0 then [] else CharUnits(s[0]) + Utf16(s[1..])
  }

  /** A character's units are never the start of a different character's units. */
  lemma CharUnitsPrefix(c: char, d: char, x: seq<CodeUnit>, y: seq<CodeUnit>)
    requires CharUnits(c) + x == CharUnits(d) + y
    ensures c == d && x == y
  {
    var cu, du := CharUnits(c), CharUnits(d);
    assert cu[0] == (cu + x)[0] == (du + y)[0] == du[0];
    if |cu| == 1 && |du| == 1 {
      assert x == (cu + x)[1..] == (du + y)[1..] == y;
    } else if |cu| == 2 && |du| == 2 {
      assert cu[1] == (cu + x)[1] == (du + y)[1] == du[1];
      var m, j := c as int - 0x10000, d as int - 0x10000;
      assert m == (m / 0x400) * 0x400 + m % 0x400;
      assert j == (j / 0x400) * 0x400 + j % 0x400;
      assert x == (cu + x)[2..] == (du + y)[2..] == y;
    }
  }

  /** Different strings have different UTF-16 encodings. */
  lemma {:induction false} Utf16Injective(a: string, b: string)
    requires Utf16(a) == Utf16(b)
    ensures a == b
    decreases |a|
  {
    if |a| > 0 && |b| > 0 {
      CharUnitsPrefix(a[0], b[0], Utf16(a[1..]), Utf16(b[1..]));
      Utf16Injective(a[1..], b[1..]);
      assert a == [a[0]] + a[1..] && b == [b[0]] + b[1..];
    }
  }

  /** Lexicographic order on code-unit sequences, a proper prefix first. */
  predicate LexLess(a: seq<CodeUnit>, b: seq<CodeUnit>) {
    if |b| == 0 then false
    else if |a| == 0 then true
    else if a[0] != b[0] then a[0] < b[0]
    else LexLess(a[1..], b[1..])
  }

  lemma {:induction false} LexTrichotomy(a: seq<CodeUnit>, b: seq<CodeUnit>)
    ensures LexLess(a, b) || LexLess(b, a) || a == b
    ensures !(LexLess(a, b) && LexLess(b, a))
    decreases |a|
  {
    if |a| > 0 && |b| > 0 && a[0] == b[0] {
      LexTrichotomy(a[1..], b[1..]);
      if a[1..] == b[1..] {
        assert a == [a[0]] + a[1..] && b == [b[0]] + b[1..];
      }
    }
  }

  lemma {:induction false} LexTransitive(a: seq<CodeUnit>, b: seq<CodeUnit>, c: seq<CodeUnit>)
    requires LexLess(a, b) && LexLess(b, c)
    ensures LexLess(a, c)
    decreases |a|
  {
    if |a| > 0 && a[0] == b[0] && b[0] == c[0] {
      LexTransitive(a[1..], b[1..], c[1..]);
    }
  }

  /** A shared prefix does not change the order. */
  lemma {:induction false} LexCommonPrefix(u: seq<CodeUnit>, a: seq<CodeUnit>, b: seq<CodeUnit>)
    ensures LexLess(u + a, u + b) == LexLess(a, b)
    decreases |u|
  {
    if |u| > 0 {
      LexCommonPrefix(u[1..], a, b);
      assert (u + a)[1..] == u[1..] + a && (u + b)[1..] == u[1..] + b;
    } else {
      assert u + a == a && u + b == b;
    }
  }

  /** JavaScript's `<` on strings (and the default `sort()` order): compare UTF-16 code units. */
  predicate StringLess(a: string, b: string) {
    LexLess(Utf16(a), Utf16(b))
  }

  /** The code-unit order is a strict total order on strings. */
  lemma StringLessTotal(a: string, b: string)
    ensures a != b ==> StringLess(a, b) || StringLess(b, a)
    ensures !(StringLess(a, b) && StringLess(b, a))
    ensures !StringLess(a, a)
  {
    LexTrichotomy(Utf16(a), Utf16(b));
    LexTrichotomy(Utf16(a), Utf16(a));
    if Utf16(a) == Utf16(b) {
      Utf16Injective(a, b);
    }
  }

  lemma StringLessTransitive(a: string, b: string, c: string)
    requires StringLess(a, b) && StringLess(b, c)
    ensures StringLess(a, c)
  {
    LexTransitive(Utf16(a), Utf16(b), Utf16(c));
  }

  // ---------------------------------------------------------------------------
  // Decimal rendering of integers (Python `str(int)`)
  // ---------------------------------------------------------------------------

  function DigitChar(d: nat): char
    requires d < 10
  {
    ('0' as int + d) as char
  }

  function NatDigits(n: nat): (r: string)
    ensures |r| >= 1
    ensures n >= 10 ==> |r| >= 2
    ensures '-' !in r
  {
    if n < 10 then [DigitChar(n)] else NatDigits(n / 10) + [DigitChar(n % 10)]
  }

  /** Python `str(n)` for an int. */
  function Decimal(n: int): string {
    if n < 0 then "-" + NatDigits(-n) else NatDigits(n)
  }

  /** Strings that agree up to a first differing BMP character are ordered by that character. */
  lemma {:induction false} StringLessAtFirstDifference(p: string, c: char, d: char, x: string, y: string)
    requires c as int < d as int < 0x10000
    ensures StringLess(p + [c] + x, p + [d] + y)
    decreases |p|
  {
    var a, b := p + [c] + x, p + [d] + y;
    if |p| == 0 {
      assert a[0] == c && a[1..] == x && b[0] == d && b[1..] == y;
      assert Utf16(a) == [c as int] + Utf16(x);
      assert Utf16(b) == [d as int] + Utf16(y);
    } else {
      StringLessAtFirstDifference(p[1..], c, d, x, y);
      assert a[0] == p[0] && a[1..] == p[1..] + [c] + x;
      assert b[0] == p[0] && b[1..] == p[1..] + [d] + y;
      LexCommonPrefix(CharUnits(p[0]), Utf16(a[1..]), Utf16(b[1..]));
    }
  }
}
