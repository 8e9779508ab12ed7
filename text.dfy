/**
  String helpers shared by the model: the parts of JavaScript's String API the
  application uses (ASCII case mapping, `includes`, `split`, global `replace`
  of a literal pattern, `String(n)` for integers, `parseInt`, and the code-unit ordering
  that stands in for `localeCompare`).
 */
module Text {
  import opened Wrappers

  // ---------------------------------------------------------------------------
  // Case mapping (ASCII letters only)
  // ---------------------------------------------------------------------------

  function Lower(c: char): char {
    if 'A' <= c <= 'Z' then (c as int + 32) as char else c
  }

  function Upper(c: char): char {
    if 'a' <= c <= 'z' then (c as int - 32) as char else c
  }

  /** `s.toLowerCase()` */
  function LowerStr(s: string): (r: string)
    ensures |r| == |s|
  {
    seq(|s|, i requires 0 <= i < |s| => Lower(s[i]))
  }

  /** `s.toUpperCase()` */
  function UpperStr(s: string): (r: string)
    ensures |r| == |s|
  {
    seq(|s|, i requires 0 <= i < |s| => Upper(s[i]))
  }

  predicate HasNoUpper(s: string) {
    forall i :: 0 <= i < |s| ==> !('A' <= s[i] <= 'Z')
  }

  /** Lower-casing is idempotent and its result has no upper-case letter. */
  lemma LowerStrIdempotent(s: string)
    ensures HasNoUpper(LowerStr(s))
    ensures LowerStr(LowerStr(s)) == LowerStr(s)
  {
    var l := LowerStr(s);
    forall i | 0 <= i < |s| ensures !('A' <= l[i] <= 'Z') && Lower(l[i]) == l[i] {
      assert l[i] == Lower(s[i]);
    }
  }

  /** A string without upper-case letters survives upper-casing and lower-casing again. */
  lemma LowerOfUpper(s: string)
    requires HasNoUpper(s)
    ensures LowerStr(UpperStr(s)) == s
  {
    var u := UpperStr(s);
    forall i | 0 <= i < |s| ensures LowerStr(u)[i] == s[i] {
      assert u[i] == Upper(s[i]);
    }
  }

  // ---------------------------------------------------------------------------
  // Substring search: `s.includes(p)`
  // ---------------------------------------------------------------------------

  /** `p` occurs in `s` starting at index `i`. */
  predicate OccursAt(s: string, p: string, i: int) {
    0 <= i && i + |p| <= |s| && s[i..i + |p|] == p
  }

  /** The characters of an occurrence, position by position. */
  lemma OccursChars(s: string, p: string, i: int)
    requires OccursAt(s, p, i)
    ensures forall t :: i <= t < i + |p| ==> s[t] == p[t - i]
  {
    forall t | i <= t < i + |p|
      ensures s[t] == p[t - i]
    {
      assert s[i..i + |p|][t - i] == s[t];
    }
  }

  /** `s.includes(p)`: some occurrence exists (the empty string occurs everywhere). */
  predicate Contains(s: string, p: string) {
    exists i | 0 <= i <= |s| - |p| :: OccursAt(s, p, i)
  }

  /** Character-by-character comparison of `p[j..]` against `s` at offset `i + j`. */
  predicate MatchFrom(s: string, p: string, i: nat, j: nat)
    requires i + |p| <= |s| && j <= |p|
    decreases |p| - j
  {
    j == |p| || (s[i + j] == p[j] && MatchFrom(s, p, i, j + 1))
  }

  /** Left-to-right scan for an occurrence at index `i` or later. */
  predicate ScanFrom(s: string, p: string, i: nat)
    decreases |s| - i
  {
    i + |p| <= |s| && (MatchFrom(s, p, i, 0) || ScanFrom(s, p, i + 1))
  }

  lemma {:induction false} MatchFromIff(s: string, p: string, i: nat, j: nat)
    requires i + |p| <= |s| && j <= |p|
    ensures MatchFrom(s, p, i, j) <==> s[i + j..i + |p|] == p[j..]
    decreases |p| - j
  {
    if j < |p| {
      MatchFromIff(s, p, i, j + 1);
      assert s[i + j..i + |p|] == [s[i + j]] + s[i + j + 1..i + |p|];
      assert p[j..] == [p[j]] + p[j + 1..];
    }
  }

  /** The scan finds exactly the occurrences at index `i` or later. */
  lemma {:induction false} ScanFromIff(s: string, p: string, i: nat)
    ensures ScanFrom(s, p, i) <==> exists k :: i <= k && OccursAt(s, p, k)
    decreases |s| - i
  {
    if i + |p| <= |s| {
      MatchFromIff(s, p, i, 0);
      ScanFromIff(s, p, i + 1);
      if MatchFrom(s, p, i, 0) {
        assert OccursAt(s, p, i);
      }
      if exists k :: i <= k && OccursAt(s, p, k) {
        var k :| i <= k && OccursAt(s, p, k);
        assert k == i || (i + 1 <= k && OccursAt(s, p, k));
      }
    }
  }

  lemma ContainsIffScan(s: string, p: string)
    ensures Contains(s, p) <==> ScanFrom(s, p, 0)
  {
    ScanFromIff(s, p, 0);
  }

  lemma ContainsSelf(s: string)
    ensures Contains(s, s)
  {
    assert OccursAt(s, s, 0);
  }

  lemma ContainsEmpty(s: string)
    ensures Contains(s, "")
  {
    assert OccursAt(s, "", 0);
  }

  /** An occurrence of `p` carries every character of `p` into `s`. */
  lemma ContainsHasChars(s: string, p: string, c: char)
    ensures Contains(s, p) && c in p ==> c in s
  {
    if Contains(s, p) && c in p {
      var i :| 0 <= i <= |s| - |p| && OccursAt(s, p, i);
      var k :| 0 <= k < |p| && p[k] == c;
      assert s[i + k] == s[i..i + |p|][k];
    }
  }

  /** An occurrence that straddles the end of `x` holds the last character of `x`. */
  lemma StraddleHoldsLast(x: string, y: string, p: string, i: int)
    requires OccursAt(x + y, p, i)
    ensures i < |x| < i + |p| ==> x[|x| - 1] in p
  {
    if i < |x| < i + |p| {
      assert (x + y)[i..i + |p|][|x| - 1 - i] == x[|x| - 1];
    }
  }

  /** An occurrence cannot straddle a character `p` does not hold. */
  lemma ContainsAcrossBreak(x: string, y: string, p: string)
    requires |x| > 0 && x[|x| - 1] !in p
    ensures Contains(x + y, p) ==> Contains(x, p) || Contains(y, p)
  {
    if Contains(x + y, p) {
      var s := x + y;
      var i :| 0 <= i <= |s| - |p| && OccursAt(s, p, i);
      StraddleHoldsLast(x, y, p, i);
      if i + |p| <= |x| {
        assert x[i..i + |p|] == s[i..i + |p|];
        assert OccursAt(x, p, i);
      } else {
        assert y[i - |x|..i - |x| + |p|] == s[i..i + |p|];
        assert OccursAt(y, p, i - |x|);
      }
    }
  }

  /** Lower-casing works character by character, so it distributes over concatenation. */
  lemma LowerStrAppend(x: string, y: string)
    ensures LowerStr(x + y) == LowerStr(x) + LowerStr(y)
  {
  }

  /** A lower-case letter absent from `s` in both cases is absent from `LowerStr(s)`. */
  lemma LowerStrAbsent(s: string, c: char)
    requires 'a' <= c <= 'z' && c !in s && Upper(c) !in s
    ensures c !in LowerStr(s)
  {
    forall i | 0 <= i < |s|
      ensures LowerStr(s)[i] != c
    {
      assert s[i] != c && s[i] != Upper(c);
    }
  }

  // ---------------------------------------------------------------------------
  // `s.split(sep)` for a one-character separator, and its inverse `join`
  // ---------------------------------------------------------------------------

  function Split(s: string, sep: char): (r: seq<string>)
    ensures |r| >= 1
    decreases |s|
  {
    if |s| == 0 then [""]
    else
      var rest := Split(s[1..], sep);
      if s[0] == sep then [""] + rest else [[s[0]] + rest[0]] + rest[1..]
  }

  function Join(parts: seq<string>, sep: char): string
    decreases |parts|
  {
    if |parts| == 0 then ""
    else if |parts| == 1 then parts[0]
    else parts[0] + [sep] + Join(parts[1..], sep)
  }

  /** Joining the pieces of a split with the same separator gives the string back. */
  lemma {:induction false} JoinSplit(s: string, sep: char)
    ensures Join(Split(s, sep), sep) == s
    decreases |s|
  {
    if |s| > 0 {
      var rest := Split(s[1..], sep);
      JoinSplit(s[1..], sep);
      if s[0] == sep {
        assert Split(s, sep) == [""] + rest;
        assert s == [sep] + s[1..];
      } else {
        var r := Split(s, sep);
        assert r == [[s[0]] + rest[0]] + rest[1..];
        if |rest| == 1 {
          assert s == [s[0]] + rest[0];
        } else {
          assert rest == [rest[0]] + rest[1..];
          assert Join(rest, sep) == rest[0] + [sep] + Join(rest[1..], sep);
          assert s == [s[0]] + s[1..];
        }
      }
    }
  }

  /** A string without the separator splits into itself alone. */
  lemma {:induction false} SplitNoSeparator(s: string, sep: char)
    requires sep !in s
    ensures Split(s, sep) == [s]
    decreases |s|
  {
    if |s| > 0 {
      SplitNoSeparator(s[1..], sep);
      assert s == [s[0]] + s[1..];
    }
  }

  /** Text up to the first separator is the first piece; the rest is split the same way. */
  lemma {:induction false} SplitFirst(x: string, sep: char, y: string)
    requires sep !in x
    ensures Split(x + [sep] + y, sep) == [x] + Split(y, sep)
    decreases |x|
  {
    var s := x + [sep] + y;
    if |x| == 0 {
      assert s == [sep] + y;
      assert s[1..] == y;
    } else {
      assert s[0] == x[0];
      assert s[1..] == x[1..] + [sep] + y;
      SplitFirst(x[1..], sep, y);
      assert x == [x[0]] + x[1..];
    }
  }

  /** Joining one more piece appends a separator and the piece. */
  lemma {:induction false} JoinSnoc(parts: seq<string>, x: string, sep: char)
    requires |parts| >= 1
    ensures Join(parts + [x], sep) == Join(parts, sep) + [sep] + x
    decreases |parts|
  {
    if |parts| > 1 {
      assert (parts + [x])[1..] == parts[1..] + [x];
      JoinSnoc(parts[1..], x, sep);
    }
  }

  /** Pieces free of the separator are recovered by splitting their join. */
  lemma {:induction false} SplitJoin(parts: seq<string>, sep: char)
    requires |parts| >= 1
    requires forall k :: 0 <= k < |parts| ==> sep !in parts[k]
    ensures Split(Join(parts, sep), sep) == parts
    decreases |parts|
  {
    if |parts| == 1 {
      SplitNoSeparator(parts[0], sep);
    } else {
      SplitJoin(parts[1..], sep);
      SplitFirst(parts[0], sep, Join(parts[1..], sep));
      assert parts == [parts[0]] + parts[1..];
    }
  }

  /** No piece of a split contains the separator. */
  lemma {:induction false} SplitPiecesFree(s: string, sep: char)
    ensures forall k :: 0 <= k < |Split(s, sep)| ==> sep !in Split(s, sep)[k]
    decreases |s|
  {
    if |s| > 0 {
      SplitPiecesFree(s[1..], sep);
    }
  }

  // ---------------------------------------------------------------------------
  // Global replacement of a literal pattern: `s.replace(/pat/g, rep)`
  // ---------------------------------------------------------------------------

  /** Leftmost, non-overlapping replacement of every occurrence of `pat`. */
  function ReplaceAll(s: string, pat: string, rep: string): string
    requires |pat| > 0
    decreases |s|
  {
    if |s| < |pat| then s
    else if s[..|pat|] == pat then rep + ReplaceAll(s[|pat|..], pat, rep)
    else [s[0]] + ReplaceAll(s[1..], pat, rep)
  }

  /** A pattern that does not occur leaves the text unchanged. */
  lemma {:induction false} ReplaceAllAbsent(s: string, pat: string, rep: string)
    requires |pat| > 0 && !Contains(s, pat)
    ensures ReplaceAll(s, pat, rep) == s
    decreases |s|
  {
    if |s| >= |pat| {
      assert !OccursAt(s, pat, 0);
      if Contains(s[1..], pat) {
        var k :| 0 <= k <= |s[1..]| - |pat| && OccursAt(s[1..], pat, k);
        assert s[1..][k..k + |pat|] == s[k + 1..k + 1 + |pat|];
        assert OccursAt(s, pat, k + 1);
      }
      ReplaceAllAbsent(s[1..], pat, rep);
      assert s == [s[0]] + s[1..];
    }
  }

  /** Text in which no occurrence can start (it lacks the pattern's first character) passes through unchanged. */
  lemma {:induction false} ReplaceAllSkip(x: string, y: string, pat: string, rep: string)
    requires |pat| > 0 && pat[0] !in x
    ensures ReplaceAll(x + y, pat, rep) == x + ReplaceAll(y, pat, rep)
    decreases |x|
  {
    var s := x + y;
    if |x| == 0 {
      assert s == y;
    } else {
      assert s[1..] == x[1..] + y;
      ReplaceAllSkip(x[1..], y, pat, rep);
      if |s| < |pat| {
        assert ReplaceAll(x[1..] + y, pat, rep) == x[1..] + y;
      } else {
        assert s[..|pat|][0] == x[0] != pat[0];
        assert ReplaceAll(s, pat, rep) == [x[0]] + ReplaceAll(s[1..], pat, rep);
      }
      assert x == [x[0]] + x[1..];
    }
  }

  /**
    Text before the first occurrence is kept, the occurrence is replaced, and the
    replacement goes on in the rest; `x` must not hold the pattern's first character,
    so no occurrence can start inside `x`.
   */
  lemma ReplaceAllAt(x: string, pat: string, y: string, rep: string)
    requires |pat| > 0 && pat[0] !in x
    ensures ReplaceAll(x + pat + y, pat, rep) == x + rep + ReplaceAll(y, pat, rep)
  {
    assert x + pat + y == x + (pat + y);
    ReplaceAllSkip(x, pat + y, pat, rep);
    assert (pat + y)[..|pat|] == pat;
    assert (pat + y)[|pat|..] == y;
  }

  /** An occurrence in `t` is still one after text is put in front. */
  lemma ContainsAfter(a: string, t: string, p: string)
    requires Contains(t, p)
    ensures Contains(a + t, p)
  {
    var k :| 0 <= k <= |t| - |p| && OccursAt(t, p, k);
    assert (a + t)[|a| + k..|a| + k + |p|] == t[k..k + |p|];
    assert OccursAt(a + t, p, |a| + k);
  }

  /** An occurrence in `a + t` cannot start inside `a` when `a` lacks its first character, so it lies in `t`. */
  lemma ContainsSkipPrefix(a: string, t: string, p: string)
    requires |p| > 0 && p[0] !in a
    ensures Contains(a + t, p) ==> Contains(t, p)
  {
    if Contains(a + t, p) {
      var k :| 0 <= k <= |a + t| - |p| && OccursAt(a + t, p, k);
      assert (a + t)[k..k + |p|][0] == (a + t)[k];
      assert forall j :: 0 <= j < |a| ==> (a + t)[j] in a;
      assert t[k - |a|..k - |a| + |p|] == (a + t)[k..k + |p|];
      assert OccursAt(t, p, k - |a|);
    }
  }

  /** An occurrence in `[c] + t` starts at its first character or lies in `t`. */
  lemma ContainsCons(c: char, t: string, p: string)
    ensures Contains([c] + t, p) ==> OccursAt([c] + t, p, 0) || Contains(t, p)
  {
    if Contains([c] + t, p) && !OccursAt([c] + t, p, 0) {
      var k :| 0 <= k <= |[c] + t| - |p| && OccursAt([c] + t, p, k);
      assert t[k - 1..k - 1 + |p|] == ([c] + t)[k..k + |p|];
      assert OccursAt(t, p, k - 1);
    }
  }

  // ---------------------------------------------------------------------------
  // Decimal numerals: `String(n)` / `n.toString()` for integers, `parseInt`
  // ---------------------------------------------------------------------------

  predicate IsDigit(c: char) { '0' <= c <= '9' }

  predicate AllDigits(s: string) {
    forall i :: 0 <= i < |s| ==> IsDigit(s[i])
  }

  function DigitChar(d: nat): char
    requires d < 10
  {
    ('0' as int + d) as char
  }

  /** Value of a string of decimal digits (the empty string has value 0). */
  function DigitsValue(s: string): nat
    requires AllDigits(s)
  {
    if |s| == 0 then 0 else DigitsValue(s[..|s| - 1]) * 10 + (s[|s| - 1] as int - '0' as int)
  }

  /** The shortest decimal numeral of `n`. */
  function NatToString(n: nat): (r: string)
    ensures |r| >= 1 && AllDigits(r)
    ensures |r| > 1 ==> r[0] != '0'
  {
    if n < 10 then [DigitChar(n)] else NatToString(n / 10) + [DigitChar(n % 10)]
  }

  /** `String(n)` for an integer: a minus sign before the numeral of a negative number. */
  function IntToString(n: int): string {
    if n < 0 then "-" + NatToString(-n) else NatToString(n)
  }

  /** Reading back a numeral gives the number. */
  lemma {:induction false} NatToStringValue(n: nat)
    ensures DigitsValue(NatToString(n)) == n
  {
    var r := NatToString(n);
    if n >= 10 {
      NatToStringValue(n / 10);
      assert r[..|r| - 1] == NatToString(n / 10);
    }
  }

  /** The white space `parseInt` skips before a number (the ASCII part of it). */
  predicate IsSpace(c: char) {
    c == ' ' || c == '\t' || c == '\n' || c == '\r' || c == 11 as char || c == 12 as char
  }

  function DropSpaces(s: string): (r: string)
    ensures |r| <= |s| && r == s[|s| - |r|..]
    ensures |r| > 0 ==> !IsSpace(r[0])
    decreases |s|
  {
    if |s| > 0 && IsSpace(s[0]) then DropSpaces(s[1..]) else s
  }

  /** The value of a digit in base 10 or 16, if it is one. */
  function DigitIn(c: char, radix: nat): (r: int)
    requires radix == 10 || radix == 16
    ensures -1 <= r < radix
    ensures radix == 10 ==> (r >= 0 <==> IsDigit(c))
  {
    if '0' <= c <= '9' then c as int - '0' as int
    else if radix == 16 && 'a' <= c <= 'f' then c as int - 'a' as int + 10
    else if radix == 16 && 'A' <= c <= 'F' then c as int - 'A' as int + 10
    else -1
  }

  /** The longest prefix of digits in the radix. */
  function LeadingDigits(s: string, radix: nat): (r: string)
    requires radix == 10 || radix == 16
    ensures |r| <= |s| && r == s[..|r|]
    ensures forall i :: 0 <= i < |r| ==> DigitIn(r[i], radix) >= 0
    ensures |r| < |s| ==> DigitIn(s[|r|], radix) < 0
    decreases |s|
  {
    if |s| > 0 && DigitIn(s[0], radix) >= 0 then [s[0]] + LeadingDigits(s[1..], radix) else ""
  }

  /** The value of a run of digits in the radix. */
  function RadixValue(s: string, radix: nat): nat
    requires radix == 10 || radix == 16
    requires forall i :: 0 <= i < |s| ==> DigitIn(s[i], radix) >= 0
    decreases |s|
  {
    if |s| == 0 then 0 else RadixValue(s[..|s| - 1], radix) * radix + DigitIn(s[|s| - 1], radix)
  }

  /** The digits after any sign: hexadecimal after `0x` or `0X`, decimal otherwise; `None` without a digit. */
  function ParseUnsigned(u: string): Option<nat> {
    if |u| >= 2 && u[0] == '0' && (u[1] == 'x' || u[1] == 'X') then
      var run := LeadingDigits(u[2..], 16);
      if run == "" then None else Some(RadixValue(run, 16))
    else
      var run := LeadingDigits(u, 10);
      if run == "" then None else Some(RadixValue(run, 10))
  }

  /**
    `parseInt(s)` without a radix: white space skipped, an optional sign, a
    `0x` or `0X` prefix switching to hexadecimal, then the longest run of
    digits. `None` stands for `NaN`, when there is no digit to read.
   */
  function ParseInt(s: string): Option<int> {
    var t := DropSpaces(s);
    if |t| > 0 && t[0] == '-' then Signed(ParseUnsigned(t[1..]), true)
    else if |t| > 0 && t[0] == '+' then Signed(ParseUnsigned(t[1..]), false)
    else Signed(ParseUnsigned(t), false)
  }

  function Signed(p: Option<nat>, negative: bool): Option<int> {
    match p
    case None => None
    case Some(v) => var n: int := v; Some(if negative then -n else n)
  }

  /** In base 10 the digit values are the decimal ones. */
  lemma {:induction false} RadixValueDecimal(s: string)
    requires AllDigits(s)
    ensures forall i :: 0 <= i < |s| ==> DigitIn(s[i], 10) >= 0
    ensures RadixValue(s, 10) == DigitsValue(s)
    decreases |s|
  {
    if |s| > 0 {
      RadixValueDecimal(s[..|s| - 1]);
    }
  }

  /** A run made only of digits is read whole. */
  lemma {:induction false} LeadingDigitsAll(s: string, radix: nat)
    requires radix == 10 || radix == 16
    requires forall i :: 0 <= i < |s| ==> DigitIn(s[i], radix) >= 0
    ensures LeadingDigits(s, radix) == s
    decreases |s|
  {
    if |s| > 0 {
      LeadingDigitsAll(s[1..], radix);
    }
  }

  lemma ParseUnsignedDecimal(s: string)
    requires |s| > 0 && AllDigits(s)
    ensures ParseUnsigned(s) == Some(DigitsValue(s))
  {
    assert |s| >= 2 ==> IsDigit(s[1]);
    RadixValueDecimal(s);
    LeadingDigitsAll(s, 10);
  }

  /** A non-empty string of decimal digits reads as its decimal value. */
  lemma ParseIntDigits(s: string)
    requires |s| > 0 && AllDigits(s)
    ensures ParseInt(s) == Some(DigitsValue(s))
  {
    assert IsDigit(s[0]) && !IsSpace(s[0]);
    assert DropSpaces(s) == s;
    assert s[0] != '-' && s[0] != '+';
    ParseUnsignedDecimal(s);
    assert ParseInt(s) == Signed(ParseUnsigned(s), false);
  }

  /** `parseInt(String(n)) == n` for every natural number. */
  lemma ParseIntNatToString(n: nat)
    ensures ParseInt(NatToString(n)) == Some(n)
  {
    ParseIntDigits(NatToString(n));
    NatToStringValue(n);
  }

  /** A string that starts with a letter other than white space, a sign or a digit is not a number. */
  lemma ParseIntNaN(s: string)
    requires |s| > 0 && 'a' <= s[0] <= 'z'
    ensures ParseInt(s).None?
  {
    assert DropSpaces(s) == s;
    assert LeadingDigits(s, 10) == "";
    assert ParseUnsigned(s).None?;
  }

  // ---------------------------------------------------------------------------
  // Ordering of strings by code unit (the stand-in for `localeCompare`)
  // ---------------------------------------------------------------------------

  /** -1, 0 or 1 as `a` sorts before, equal to, or after `b`. */
  function Compare(a: string, b: string): (r: int)
    ensures -1 <= r <= 1
  {
    if |a| == 0 && |b| == 0 then 0
    else if |a| == 0 then -1
    else if |b| == 0 then 1
    else if a[0] < b[0] then -1
    else if a[0] > b[0] then 1
    else Compare(a[1..], b[1..])
  }

  lemma {:induction false} CompareZeroIffEqual(a: string, b: string)
    ensures Compare(a, b) == 0 <==> a == b
  {
    if |a| > 0 && |b| > 0 && a[0] == b[0] {
      CompareZeroIffEqual(a[1..], b[1..]);
      assert a == [a[0]] + a[1..];
      assert b == [b[0]] + b[1..];
    }
  }

  lemma {:induction false} CompareAntisymmetric(a: string, b: string)
    ensures Compare(a, b) == -Compare(b, a)
  {
    if |a| > 0 && |b| > 0 && a[0] == b[0] {
      CompareAntisymmetric(a[1..], b[1..]);
    }
  }

  lemma {:induction false} CompareTransitive(a: string, b: string, c: string)
    requires Compare(a, b) <= 0 && Compare(b, c) <= 0
    ensures Compare(a, c) <= 0
  {
    if |a| > 0 && |b| > 0 && |c| > 0 && a[0] == b[0] == c[0] {
      CompareTransitive(a[1..], b[1..], c[1..]);
    }
  }
}
