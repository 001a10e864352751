/** The JavaScript string operations the core relies on, with the semantics of
    ECMAScript (ECMA-262): `split` with a one-character separator, `indexOf`,
    `includes`, `endsWith`, `replace` with a string pattern, `toLowerCase`
    (restricted to ASCII letters) and the global `parseInt` without a radix. */
module JsStrings {
  import opened Base

  // ---------------------------------------------------------------- split

  /** `s.split(sep)` for a one-character separator: the pieces between the
      separators, at least one; a string without the separator is one piece. */
  function Split(s: string, sep: char): (parts: seq<string>)
    ensures |parts| >= 1
    ensures forall i :: 0 <= i < |parts| ==> sep !in parts[i]
    ensures |parts| >= 2 <==> sep in s
    decreases |s|
  {
    if s == [] then [""]
    else
      var rest := Split(s[1..], sep);
      assert sep in s <==> s[0] == sep || sep in s[1..];
      if s[0] == sep then [""] + rest
      else [[s[0]] + rest[0]] + rest[1..]
  }

  /** `parts.join(sep)`, the inverse of `Split`. */
  function Join(parts: seq<string>, sep: char): (s: string)
    requires |parts| >= 1
    ensures |parts| >= 2 ==> sep in s
    decreases |parts|
  {
    if |parts| == 1 then parts[0]
    else
      assert (parts[0] + [sep] + Join(parts[1..], sep))[|parts[0]|] == sep;
      parts[0] + [sep] + Join(parts[1..], sep)
  }

  /** Gluing a character onto the first piece glues it onto the joined text. */
  lemma JoinGlueFirst(c: char, rest: seq<string>, sep: char)
    requires |rest| >= 1
    ensures Join([[c] + rest[0]] + rest[1..], sep) == [c] + Join(rest, sep)
  {
    var parts := [[c] + rest[0]] + rest[1..];
    assert parts[0] == [c] + rest[0] && parts[1..] == rest[1..];
    if |rest| > 1 {
      var tail := Join(rest[1..], sep);
      assert Join(rest, sep) == rest[0] + [sep] + tail;
      assert Join(parts, sep) == ([c] + rest[0]) + [sep] + tail;
      assert ([c] + rest[0]) + [sep] + tail == [c] + (rest[0] + [sep] + tail);
    }
  }

  /** Every string is the join of its pieces. */
  lemma {:induction false} JoinSplit(s: string, sep: char)
    ensures Join(Split(s, sep), sep) == s
    decreases |s|
  {
    if s != [] {
      var rest := Split(s[1..], sep);
      JoinSplit(s[1..], sep);
      assert s == [s[0]] + s[1..];
      if s[0] == sep {
        assert ([""] + rest)[1..] == rest;
        assert Join([""] + rest, sep) == "" + [sep] + Join(rest, sep);
      } else {
        JoinGlueFirst(s[0], rest, sep);
      }
    }
  }

  lemma {:induction false} SplitWithoutSeparator(a: string, sep: char)
    requires sep !in a
    ensures Split(a, sep) == [a]
    decreases |a|
  {
    if a != [] {
      SplitWithoutSeparator(a[1..], sep);
      assert a == [a[0]] + a[1..];
    }
  }

  lemma {:induction false} SplitAfterPiece(a: string, b: string, sep: char)
    requires sep !in a
    ensures Split(a + [sep] + b, sep) == [a] + Split(b, sep)
    decreases |a|
  {
    if a == [] {
      assert (a + [sep] + b)[1..] == b;
    } else {
      assert (a + [sep] + b)[1..] == a[1..] + [sep] + b;
      SplitAfterPiece(a[1..], b, sep);
      assert [a[0]] + a[1..] == a;
    }
  }

  /** Splitting a join of separator-free pieces recovers the pieces. */
  lemma {:induction false} SplitJoin(parts: seq<string>, sep: char)
    requires |parts| >= 1
    requires forall i :: 0 <= i < |parts| ==> sep !in parts[i]
    ensures Split(Join(parts, sep), sep) == parts
    decreases |parts|
  {
    if |parts| == 1 {
      SplitWithoutSeparator(parts[0], sep);
    } else {
      SplitJoin(parts[1..], sep);
      SplitAfterPiece(parts[0], Join(parts[1..], sep), sep);
      assert [parts[0]] + parts[1..] == parts;
    }
  }

  // ------------------------------------------------------ searching, replace

  /** `pat` occurs in `s` starting at index `i`. */
  predicate IsAt(s: string, pat: string, i: nat)
  {
    i + |pat| <= |s| && s[i..i + |pat|] == pat
  }

  function IndexFrom(s: string, pat: string, k: nat): (r: Option<nat>)
    ensures r.Some? ==> k <= r.value && IsAt(s, pat, r.value)
    ensures r.Some? ==> forall j :: k <= j < r.value ==> !IsAt(s, pat, j)
    ensures r.None? ==> forall j :: k <= j ==> !IsAt(s, pat, j)
    decreases |s| - k
  {
    if k + |pat| > |s| then None
    else if s[k..k + |pat|] == pat then Some(k)
    else IndexFrom(s, pat, k + 1)
  }

  /** `s.indexOf(pat)`, with `None` for -1: the first index at which `pat` occurs. */
  function IndexOf(s: string, pat: string): (r: Option<nat>)
    ensures r.Some? ==> IsAt(s, pat, r.value) && forall j :: 0 <= j < r.value ==> !IsAt(s, pat, j)
    ensures r.None? <==> forall j :: 0 <= j ==> !IsAt(s, pat, j)
  {
    IndexFrom(s, pat, 0)
  }

  /** `s.includes(pat)`. */
  predicate Contains(s: string, pat: string)
  {
    IndexOf(s, pat).Some?
  }

  /** `s.endsWith(suffix)`. */
  predicate EndsWith(s: string, suffix: string)
  {
    |suffix| <= |s| && s[|s| - |suffix|..] == suffix
  }

  /** A string that ends with `suffix` also includes it. */
  lemma EndsWithContains(s: string, suffix: string)
    requires EndsWith(s, suffix)
    ensures Contains(s, suffix)
  {
    assert IsAt(s, suffix, |s| - |suffix|);
  }

  /** Every string includes the empty string. */
  lemma ContainsEmpty(s: string)
    ensures Contains(s, "")
  {
    assert IsAt(s, "", 0);
  }

  /** `s.replace(pat, rep)` for a string pattern and a replacement without `$`
      patterns: the first occurrence of `pat` is replaced, nothing else changes. */
  function ReplaceFirst(s: string, pat: string, rep: string): (r: string)
    ensures !Contains(s, pat) ==> r == s
    ensures Contains(s, pat) ==> |r| == |s| - |pat| + |rep|
  {
    match IndexOf(s, pat)
    case None => s
    case Some(i) => s[..i] + rep + s[i + |pat|..]
  }

  /** The occurrence replaced is the first one: the text before it and after it is kept. */
  lemma ReplaceAtFirst(s: string, pat: string, rep: string, i: nat)
    requires IsAt(s, pat, i) && forall j :: 0 <= j < i ==> !IsAt(s, pat, j)
    ensures ReplaceFirst(s, pat, rep) == s[..i] + rep + s[i + |pat|..]
  {
    assert IndexOf(s, pat) == Some(i);
  }

  /** Only the first occurrence is replaced: a later, non-overlapping occurrence of
      the pattern is still there, shifted by the difference in length. */
  lemma LaterOccurrenceSurvives(s: string, pat: string, rep: string, i: nat, k: nat)
    requires IsAt(s, pat, i) && forall j :: 0 <= j < i ==> !IsAt(s, pat, j)
    requires i + |pat| <= k && IsAt(s, pat, k)
    ensures IsAt(ReplaceFirst(s, pat, rep), pat, k - |pat| + |rep|)
  {
    var r := ReplaceFirst(s, pat, rep);
    var tail := s[i + |pat|..];
    ReplaceAtFirst(s, pat, rep, i);
    var k' := k - |pat| + |rep|;
    assert |s[..i] + rep| == i + |rep|;
    assert r[k'..k' + |pat|] == tail[k - i - |pat|..k - i] by {
      assert r[i + |rep|..] == tail;
    }
    assert tail[k - i - |pat|..k - i] == s[k..k + |pat|];
  }

  // ---------------------------------------------------------- toLowerCase

  function LowerChar(c: char): char
  {
    if 'A' <= c <= 'Z' then (c as int + 32) as char else c
  }

  /** `s.toLowerCase()` on ASCII letters: no capital letter is left, and each
      character is either kept or is a capital replaced by its small letter. */
  function ToLower(s: string): (r: string)
    ensures |r| == |s|
    ensures forall i :: 0 <= i < |r| ==> !('A' <= r[i] <= 'Z')
    ensures forall i :: 0 <= i < |s| ==> r[i] == s[i] || ('A' <= s[i] <= 'Z' && r[i] as int == s[i] as int + 32)
  {
    seq(|s|, i requires 0 <= i < |s| => LowerChar(s[i]))
  }

  /** Lowercasing twice is lowercasing once, so a lowercased search term matches
      the same names however it was typed. */
  lemma ToLowerIdempotent(s: string)
    ensures ToLower(ToLower(s)) == ToLower(s)
  {
  }

  /** Two strings that differ only in the case of ASCII letters lowercase alike. */
  lemma ToLowerIgnoresCase(a: string, b: string)
    requires |a| == |b|
    requires forall i :: 0 <= i < |a| ==>
               a[i] == b[i] ||
               ('A' <= a[i] <= 'Z' && b[i] as int == a[i] as int + 32) ||
               ('A' <= b[i] <= 'Z' && a[i] as int == b[i] as int + 32)
    ensures ToLower(a) == ToLower(b)
  {
    assert forall i :: 0 <= i < |a| ==> ToLower(a)[i] == ToLower(b)[i];
  }

  // ------------------------------------------------------------- parseInt

  /** StrWhiteSpaceChar of ECMA-262 (section 7.1.4.1.1): WhiteSpace (TAB, VT, FF,
      ZWNBSP and the space separators) and LineTerminator (LF, CR, LS, PS). */
  predicate IsStrWhiteSpace(c: char)
  {
    c == '\t' || c == '\n' || c == '\U{000B}' || c == '\U{000C}' || c == '\r' ||
    c == ' ' || c == '\U{00A0}' || c == '\U{1680}' || ('\U{2000}' <= c <= '\U{200A}') ||
    c == '\U{2028}' || c == '\U{2029}' || c == '\U{202F}' || c == '\U{205F}' ||
    c == '\U{3000}' || c == '\U{FEFF}'
  }

  /** Leading white space removed. */
  function TrimStart(s: string): (r: string)
    ensures |r| <= |s| && r == s[|s| - |r|..]
    ensures r == [] || !IsStrWhiteSpace(r[0])
    ensures forall i :: 0 <= i < |s| - |r| ==> IsStrWhiteSpace(s[i])
  {
    if s != [] && IsStrWhiteSpace(s[0]) then TrimStart(s[1..]) else s
  }

  /** The value of a digit in bases up to 36; 36 for a character that is no digit. */
  function DigitValue(c: char): (d: nat)
    ensures d <= 36
  {
    if '0' <= c <= '9' then c as int - '0' as int
    else if 'a' <= c <= 'z' then c as int - 'a' as int + 10
    else if 'A' <= c <= 'Z' then c as int - 'A' as int + 10
    else 36
  }

  predicate IsDigit(c: char, radix: nat)
  {
    DigitValue(c) < radix
  }

  /** The length of the longest prefix of `s` made of digits of `radix`. */
  function DigitRun(s: string, radix: nat): (n: nat)
    ensures n <= |s|
    ensures forall i :: 0 <= i < n ==> IsDigit(s[i], radix)
    ensures n == |s| || !IsDigit(s[n], radix)
  {
    if s != [] && IsDigit(s[0], radix) then 1 + DigitRun(s[1..], radix) else 0
  }

  /** The number that a string of digits denotes in base `radix`. */
  function Value(ds: string, radix: nat): nat
  {
    if ds == [] then 0 else Value(ds[..|ds| - 1], radix) * radix + DigitValue(ds[|ds| - 1])
  }

  /** The digits after the sign: a "0x"/"0X" prefix selects base 16, otherwise base
      10, and the longest run of digits that follows is read; no digit is NaN. */
  function ParseMagnitude(u: string): (r: Option<nat>)
  {
    var hex := |u| >= 2 && u[0] == '0' && (u[1] == 'x' || u[1] == 'X');
    var radix := if hex then 16 else 10;
    var v := if hex then u[2..] else u;
    var n := DigitRun(v, radix);
    if n == 0 then None else Some(Value(v[..n], radix))
  }

  /** `parseInt(s)` (ECMA-262 section 19.2.5, radix undefined), with `None` for NaN:
      leading white space is skipped and one sign is taken before the digits. */
  function ParseInt(s: string): (r: Option<int>)
  {
    var t := TrimStart(s);
    if |t| > 0 && t[0] == '-' then
      match ParseMagnitude(t[1..])
      case None => None
      case Some(m) => Some(-(m as int))
    else if |t| > 0 && t[0] == '+' then
      match ParseMagnitude(t[1..])
      case None => None
      case Some(m) => Some(m)
    else
      match ParseMagnitude(t)
      case None => None
      case Some(m) => Some(m)
  }

  function DigitChar(d: nat): (c: char)
    requires d < 10
    ensures DigitValue(c) == d
  {
    ('0' as int + d) as char
  }

  /** The decimal numeral of `n`, without leading zeros. */
  function Decimal(n: nat): (s: string)
    ensures |s| >= 1
    ensures forall i :: 0 <= i < |s| ==> IsDigit(s[i], 10)
    ensures s[0] == '0' ==> n == 0
  {
    if n < 10 then [DigitChar(n)] else Decimal(n / 10) + [DigitChar(n % 10)]
  }

  lemma {:induction false} ValueOfDecimal(n: nat)
    ensures Value(Decimal(n), 10) == n
  {
    if n >= 10 {
      ValueOfDecimal(n / 10);
      var s := Decimal(n);
      assert s[..|s| - 1] == Decimal(n / 10);
    }
  }

  lemma {:induction false} DigitRunOfDigits(ds: string, rest: string, radix: nat)
    requires forall i :: 0 <= i < |ds| ==> IsDigit(ds[i], radix)
    requires rest == [] || !IsDigit(rest[0], radix)
    ensures DigitRun(ds + rest, radix) == |ds|
    decreases |ds|
  {
    if ds == [] {
      assert ds + rest == rest;
    } else {
      assert (ds + rest)[1..] == ds[1..] + rest;
      DigitRunOfDigits(ds[1..], rest, radix);
    }
  }

  lemma MagnitudeOfDecimal(n: nat, rest: string)
    requires rest == [] || !IsDigit(rest[0], 10)
    requires n == 0 && rest != [] ==> rest[0] != 'x' && rest[0] != 'X'
    ensures ParseMagnitude(Decimal(n) + rest) == Some(n)
  {
    var d := Decimal(n);
    var u := d + rest;
    assert !(|u| >= 2 && u[0] == '0' && (u[1] == 'x' || u[1] == 'X')) by {
      if |u| >= 2 && u[0] == '0' {
        assert n == 0;
        assert |d| == 1 && u[1] == rest[0];
      }
    }
    DigitRunOfDigits(d, rest, 10);
    assert u[..|d|] == d;
    ValueOfDecimal(n);
  }

  lemma TrimStartNoWhiteSpace(s: string)
    requires s != [] && !IsStrWhiteSpace(s[0])
    ensures TrimStart(s) == s
  {
  }

  /** `parseInt` reads back the decimal numeral of any whole number and ignores
      whatever follows the digits (except the "0x" case). */
  lemma ParseDecimal(n: nat, rest: string)
    requires rest == [] || !IsDigit(rest[0], 10)
    requires n == 0 && rest != [] ==> rest[0] != 'x' && rest[0] != 'X'
    ensures ParseInt(Decimal(n) + rest) == Some(n)
  {
    var s := Decimal(n) + rest;
    MagnitudeOfDecimal(n, rest);
    assert s[0] == Decimal(n)[0];
    assert DigitValue(s[0]) < 10;
    assert !IsStrWhiteSpace(s[0]) && s[0] != '-' && s[0] != '+';
    TrimStartNoWhiteSpace(s);
  }

  lemma ParseIntMinus(u: string, m: nat)
    requires ParseMagnitude(u) == Some(m)
    ensures ParseInt(['-'] + u) == Some(-(m as int))
  {
    var s := ['-'] + u;
    TrimStartNoWhiteSpace(s);
    assert s[1..] == u;
  }

  /** With a leading minus sign the same numeral reads back negated. */
  lemma ParseNegativeDecimal(n: nat, rest: string)
    requires rest == [] || !IsDigit(rest[0], 10)
    requires n == 0 && rest != [] ==> rest[0] != 'x' && rest[0] != 'X'
    ensures ParseInt("-" + Decimal(n) + rest) == Some(-(n as int))
  {
    var u := Decimal(n) + rest;
    assert "-" + Decimal(n) + rest == ['-'] + u;
    MagnitudeOfDecimal(n, rest);
    ParseIntMinus(u, n);
  }
}
