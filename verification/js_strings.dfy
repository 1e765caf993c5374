/**
 * The JavaScript string operations the application relies on, with the
 * meaning the JavaScript runtime gives them: `startsWith`, `includes`,
 * `split` on one character, `join`, `trim`, `parseInt` (decimal) and the
 * decimal rendering of an integer in a template literal. Case mapping is
 * ASCII-only.
 */
module JsStrings {
  import opened Options

  // ---------------------------------------------------------------------
  // Prefixes and substrings

  /** `s.startsWith(prefix)`. */
  predicate StartsWith(s: string, prefix: string) {
    |prefix| <= |s| && s[..|prefix|] == prefix
  }

  /** `s.includes(sub)`: `sub` occurs at some position of `s`. */
  predicate Contains(s: string, sub: string)
    decreases |s|
  {
    StartsWith(s, sub) || (|s| > 0 && Contains(s[1..], sub))
  }

  /** A witness position makes `Contains` true. */
  lemma {:induction false} ContainsAt(s: string, sub: string, i: nat)
    requires i + |sub| <= |s| && s[i..i + |sub|] == sub
    ensures Contains(s, sub)
    decreases i
  {
    if i > 0 {
      assert s[1..][i - 1..i - 1 + |sub|] == sub;
      ContainsAt(s[1..], sub, i - 1);
    }
  }

  /** Text containing `sub` still contains it after anything is put around it. */
  lemma ContainsInContext(pre: string, s: string, post: string, sub: string)
    requires Contains(s, sub)
    ensures Contains(pre + s + post, sub)
  {
    var i := ContainsWitness(s, sub);
    assert (pre + s + post)[|pre| + i..|pre| + i + |sub|] == s[i..i + |sub|];
    ContainsAt(pre + s + post, sub, |pre| + i);
  }

  /** The position at which `Contains` found `sub`. */
  lemma {:induction false} ContainsWitness(s: string, sub: string) returns (i: nat)
    requires Contains(s, sub)
    ensures i + |sub| <= |s| && s[i..i + |sub|] == sub
    decreases |s|
  {
    if StartsWith(s, sub) {
      i := 0;
    } else {
      var j := ContainsWitness(s[1..], sub);
      i := j + 1;
      assert s[i..i + |sub|] == s[1..][j..j + |sub|];
    }
  }

  // ---------------------------------------------------------------------
  // Whitespace and trim

  /** The characters `String.prototype.trim` removes: ECMA-262 WhiteSpace and LineTerminator. */
  predicate IsWhitespace(c: char) {
    || c == ' ' || c == '\t' || c == '\n' || c == '\r'
    || c == '\U{000B}' || c == '\U{000C}' || c == '\U{00A0}' || c == '\U{FEFF}'
    || c == '\U{1680}' || ('\U{2000}' <= c <= '\U{200A}')
    || c == '\U{2028}' || c == '\U{2029}' || c == '\U{202F}' || c == '\U{205F}' || c == '\U{3000}'
  }

  function TrimStart(s: string): (r: string)
    ensures |r| <= |s| && r == s[|s| - |r|..]
    ensures |r| > 0 ==> !IsWhitespace(r[0])
    ensures forall k :: 0 <= k < |s| - |r| ==> IsWhitespace(s[k])
    decreases |s|
  {
    if |s| > 0 && IsWhitespace(s[0]) then TrimStart(s[1..]) else s
  }

  function TrimEnd(s: string): (r: string)
    ensures |r| <= |s| && r == s[..|r|]
    ensures |r| > 0 ==> !IsWhitespace(r[|r| - 1])
    ensures forall k :: |r| <= k < |s| ==> IsWhitespace(s[k])
    decreases |s|
  {
    if |s| > 0 && IsWhitespace(s[|s| - 1]) then TrimEnd(s[..|s| - 1]) else s
  }

  /** Neither end of `t` is whitespace. */
  predicate Trimmed(t: string) {
    |t| == 0 || (!IsWhitespace(t[0]) && !IsWhitespace(t[|t| - 1]))
  }

  /**
   * `s.trim()`: `s` without its leading and trailing whitespace. The result is
   * a slice of `s` whose ends are not whitespace, and everything cut off on
   * either side is whitespace.
   */
  function Trim(s: string): (r: string)
    ensures Trimmed(r)
    ensures exists a: nat, b: nat ::
      && a <= b <= |s| && r == s[a..b]
      && (forall k :: 0 <= k < a ==> IsWhitespace(s[k]))
      && (forall k :: b <= k < |s| ==> IsWhitespace(s[k]))
  {
    var t := TrimStart(s);
    var r := TrimEnd(t);
    var a, b := |s| - |t|, |s| - |t| + |r|;
    assert r == s[a..b];
    forall k | b <= k < |s|
      ensures IsWhitespace(s[k])
    {
      assert s[k] == t[k - a];
    }
    r
  }

  /** Trimming leaves a trimmed string as it is. */
  lemma TrimOfTrimmed(t: string)
    requires Trimmed(t)
    ensures Trim(t) == t
  {
  }

  /** A single leading space in front of trimmed text is exactly what trim removes. */
  lemma TrimSpaced(t: string)
    requires Trimmed(t)
    ensures Trim(" " + t) == t
  {
    assert (" " + t)[1..] == t;
  }

  /** Trim does not introduce characters. */
  lemma TrimKeepsOut(s: string, c: char)
    requires c !in s
    ensures c !in Trim(s)
  {
    var t := TrimStart(s);
    forall k | 0 <= k < |t|
      ensures t[k] != c
    {
      assert t[k] == s[|s| - |t| + k];
    }
    var r := TrimEnd(t);
    forall k | 0 <= k < |r|
      ensures r[k] != c
    {
      assert r[k] == t[k];
    }
  }

  // ---------------------------------------------------------------------
  // split and join

  /** Number of occurrences of `c` in `s`. */
  function Count(s: string, c: char): nat {
    if |s| == 0 then 0 else (if s[0] == c then 1 else 0) + Count(s[1..], c)
  }

  /** `s.split(sep)` for a one-character separator: the pieces between separators, in order. */
  function Split(s: string, sep: char): (parts: seq<string>)
    ensures |parts| == Count(s, sep) + 1
    ensures forall i :: 0 <= i < |parts| ==> sep !in parts[i]
    decreases |s|
  {
    if |s| == 0 then [""]
    else
      var rest := Split(s[1..], sep);
      if s[0] == sep then [""] + rest
      else [[s[0]] + rest[0]] + rest[1..]
  }

  /** A string free of the separator is one piece. */
  lemma {:induction false} SplitWithoutSeparator(a: string, sep: char)
    requires sep !in a
    ensures Split(a, sep) == [a]
    decreases |a|
  {
    if |a| > 0 {
      SplitWithoutSeparator(a[1..], sep);
      assert [a[0]] + a[1..] == a;
    }
  }

  /** Splitting text that starts with a separator-free piece and a separator. */
  lemma {:induction false} SplitAfterPiece(a: string, sep: char, b: string)
    requires sep !in a
    ensures Split(a + [sep] + b, sep) == [a] + Split(b, sep)
    decreases |a|
  {
    var s := a + [sep] + b;
    if |a| == 0 {
      assert s[1..] == b;
    } else {
      assert s[1..] == a[1..] + [sep] + b;
      SplitAfterPiece(a[1..], sep, b);
      assert [a[0]] + a[1..] == a;
    }
  }

  /** Splitting text that starts with a non-separator character. */
  lemma SplitCons(c: char, y: string, sep: char)
    requires c != sep
    ensures Split([c] + y, sep) == [[c] + Split(y, sep)[0]] + Split(y, sep)[1..]
  {
    assert ([c] + y)[1..] == y;
  }

  /** `parts.join(sep)`. */
  function Join(parts: seq<string>, sep: string): string
    decreases |parts|
  {
    if |parts| == 0 then ""
    else if |parts| == 1 then parts[0]
    else parts[0] + sep + Join(parts[1..], sep)
  }

  /** The inverse of `Join` with a one-character separator: splitting a join returns the pieces. */
  lemma {:induction false} SplitJoin(parts: seq<string>, sep: char)
    requires |parts| >= 1
    requires forall i :: 0 <= i < |parts| ==> sep !in parts[i]
    ensures Split(Join(parts, [sep]), sep) == parts
    decreases |parts|
  {
    if |parts| == 1 {
      SplitWithoutSeparator(parts[0], sep);
    } else {
      SplitJoin(parts[1..], sep);
      SplitAfterPiece(parts[0], sep, Join(parts[1..], [sep]));
      assert [parts[0]] + parts[1..] == parts;
    }
  }

  /** The pieces of `q` with a single space in front of all but the first. */
  function Spaced(q: seq<string>): (r: seq<string>)
    ensures |r| == |q|
  {
    seq(|q|, i requires 0 <= i < |q| => if i == 0 then q[0] else " " + q[i])
  }

  /** Splitting text joined with ", " on ',' returns the pieces, each but the first with its space. */
  lemma {:induction false} SplitJoinCommaSpace(q: seq<string>)
    requires |q| >= 1
    requires forall i :: 0 <= i < |q| ==> ',' !in q[i]
    ensures Split(Join(q, ", "), ',') == Spaced(q)
    decreases |q|
  {
    if |q| == 1 {
      SplitWithoutSeparator(q[0], ',');
    } else {
      var rest := q[1..];
      var j := Join(rest, ", ");
      SplitJoinCommaSpace(rest);
      assert Join(q, ", ") == q[0] + [','] + (" " + j);
      SplitAfterPiece(q[0], ',', " " + j);
      SplitCons(' ', j, ',');
      var sj := Split(j, ',');
      assert Split(" " + j, ',') == [" " + sj[0]] + sj[1..];
      assert Split(Join(q, ", "), ',') == [q[0]] + ([" " + sj[0]] + sj[1..]);
      SpacedCons(q, sj);
    }
  }

  /** `Spaced` of a longer list: the head, then the spaced tail with a space before its first piece. */
  lemma SpacedCons(q: seq<string>, sj: seq<string>)
    requires |q| >= 2 && sj == Spaced(q[1..])
    ensures [q[0]] + ([" " + sj[0]] + sj[1..]) == Spaced(q)
  {
    var a, b := [q[0]] + ([" " + sj[0]] + sj[1..]), Spaced(q);
    forall i | 0 <= i < |q|
      ensures a[i] == b[i]
    {
      if i >= 2 {
        assert a[i] == sj[i - 1] == " " + q[1..][i - 1];
      }
    }
  }

  // ---------------------------------------------------------------------
  // Case mapping (ASCII)

  function LowerChar(c: char): char {
    if 'A' <= c <= 'Z' then (c as int + 32) as char else c
  }

  function UpperChar(c: char): char {
    if 'a' <= c <= 'z' then (c as int - 32) as char else c
  }

  /** `s.toLowerCase()` restricted to ASCII letters. */
  function ToLower(s: string): (r: string)
    ensures |r| == |s|
    ensures forall i :: 0 <= i < |s| ==> r[i] == LowerChar(s[i])
  {
    seq(|s|, i requires 0 <= i < |s| => LowerChar(s[i]))
  }

  /** Lower-casing twice is lower-casing once. */
  lemma ToLowerIdempotent(s: string)
    ensures ToLower(ToLower(s)) == ToLower(s)
  {
  }

  // ---------------------------------------------------------------------
  // Decimal numbers: parseInt and integer rendering

  predicate IsDigit(c: char) {
    '0' <= c <= '9'
  }

  function DigitValue(c: char): nat
    requires IsDigit(c)
  {
    c as int - '0' as int
  }

  function DigitChar(d: nat): (c: char)
    requires d < 10
    ensures IsDigit(c) && DigitValue(c) == d
  {
    ('0' as int + d) as char
  }

  predicate AllDigits(d: string) {
    forall i :: 0 <= i < |d| ==> IsDigit(d[i])
  }

  /** The value of a run of decimal digits. */
  function DigitsValue(d: string): nat
    requires AllDigits(d)
    decreases |d|
  {
    if |d| == 0 then 0 else DigitsValue(d[..|d| - 1]) * 10 + DigitValue(d[|d| - 1])
  }

  /** Length of the longest run of decimal digits at the start of `s`. */
  function DigitPrefixLength(s: string): (k: nat)
    ensures k <= |s|
    ensures AllDigits(s[..k])
    ensures k < |s| ==> !IsDigit(s[k])
    decreases |s|
  {
    if |s| > 0 && IsDigit(s[0]) then
      var k := 1 + DigitPrefixLength(s[1..]);
      assert s[..k] == [s[0]] + s[1..][..k - 1];
      k
    else 0
  }

  /** The leading digit run of `s` as a number, or None if `s` does not start with a digit. */
  function ParseDigits(s: string): Option<int> {
    var k := DigitPrefixLength(s);
    if k == 0 then None else Some(DigitsValue(s[..k]))
  }

  /**
   * `parseInt(s)` with no radix, over decimal text: leading whitespace is
   * skipped, one sign is accepted, then the longest digit run is read; `NaN`
   * (here None) when no digit follows.
   */
  function ParseInt(s: string): Option<int> {
    var t := TrimStart(s);
    if |t| > 0 && t[0] == '-' then
      match ParseDigits(t[1..])
      case Some(n) => Some(-n)
      case None => None
    else if |t| > 0 && t[0] == '+' then
      match ParseDigits(t[1..])
      case Some(n) => Some(n)
      case None => None
    else
      match ParseDigits(t)
      case Some(n) => Some(n)
      case None => None
  }

  /** Decimal digits of a natural number, most significant first, without leading zeros. */
  function NatToString(n: nat): (r: string)
    ensures |r| >= 1 && AllDigits(r)
    ensures DigitsValue(r) == n
    decreases n
  {
    if n < 10 then [DigitChar(n)]
    else
      var r := NatToString(n / 10) + [DigitChar(n % 10)];
      assert r[..|r| - 1] == NatToString(n / 10);
      r
  }

  /** `${n}` for an integer `n`. */
  function IntToString(n: int): (r: string)
    ensures |r| >= 1
    ensures n >= 0 ==> AllDigits(r)
    ensures n < 0 ==> r[0] == '-' && AllDigits(r[1..])
  {
    if n < 0 then "-" + NatToString(-n) else NatToString(n)
  }

  /** Digits followed by a non-digit are read up to that non-digit. */
  lemma {:induction false} DigitPrefixOfDigits(d: string, suffix: string)
    requires AllDigits(d)
    requires |suffix| == 0 || !IsDigit(suffix[0])
    ensures DigitPrefixLength(d + suffix) == |d|
    decreases |d|
  {
    if |d| > 0 {
      assert (d + suffix)[1..] == d[1..] + suffix;
      DigitPrefixOfDigits(d[1..], suffix);
    } else {
      assert d + suffix == suffix;
    }
  }

  /** A nonempty digit run followed by a non-digit parses to the run's value. */
  lemma ParseDigitsOfDigits(d: string, suffix: string)
    requires |d| >= 1 && AllDigits(d)
    requires |suffix| == 0 || !IsDigit(suffix[0])
    ensures ParseDigits(d + suffix) == Some(DigitsValue(d))
  {
    DigitPrefixOfDigits(d, suffix);
    assert (d + suffix)[..|d|] == d;
  }

  /** Text that starts with a digit or '-' has no leading whitespace to skip. */
  lemma NoLeadingWhitespace(s: string)
    requires |s| > 0 && (IsDigit(s[0]) || s[0] == '-')
    ensures TrimStart(s) == s
  {
    assert !IsWhitespace(s[0]);
  }

  /** `parseInt` of digits followed by a non-digit reads the digits' value. */
  lemma ParseIntOfDigits(d: string, suffix: string)
    requires |d| >= 1 && AllDigits(d)
    requires |suffix| == 0 || !IsDigit(suffix[0])
    ensures ParseInt(d + suffix) == Some(DigitsValue(d))
  {
    var s := d + suffix;
    NoLeadingWhitespace(s);
    ParseDigitsOfDigits(d, suffix);
  }

  /** `parseInt` of text whose trimmed form is '-' and readable digits: the negated digits. */
  lemma ParseIntMinus(s: string)
    requires var t := TrimStart(s); |t| > 0 && t[0] == '-' && ParseDigits(t[1..]).Some?
    ensures ParseInt(s) == Some(-(ParseDigits(TrimStart(s)[1..]).value as int))
  {
  }

  /** `parseInt` of '-', digits and a non-digit reads the negated value. */
  lemma ParseIntOfNegatedDigits(s: string, d: string, suffix: string)
    requires |d| >= 1 && AllDigits(d)
    requires |suffix| == 0 || !IsDigit(suffix[0])
    requires |s| > 0 && s[0] == '-' && s[1..] == d + suffix
    ensures ParseInt(s) == Some(-(DigitsValue(d) as int))
  {
    NoLeadingWhitespace(s);
    ParseDigitsOfDigits(d, suffix);
    ParseIntMinus(s);
  }

  /** The round trip for a negative integer: '-' and the digits of its magnitude. */
  lemma ParseIntOfNegative(n: int, suffix: string)
    requires n < 0
    requires |suffix| == 0 || !IsDigit(suffix[0])
    ensures ParseInt(IntToString(n) + suffix) == Some(n)
  {
    var d, s := NatToString(-n), IntToString(n) + suffix;
    assert s[1..] == d + suffix;
    ParseIntOfNegatedDigits(s, d, suffix);
  }

  /** The round trip `parseInt(`${n}` + suffix) == n`, for any suffix that does not start with a digit. */
  lemma ParseIntOfIntToString(n: int, suffix: string)
    requires |suffix| == 0 || !IsDigit(suffix[0])
    ensures ParseInt(IntToString(n) + suffix) == Some(n)
  {
    if n < 0 {
      ParseIntOfNegative(n, suffix);
    } else {
      ParseIntOfDigits(NatToString(n), suffix);
    }
  }

  /** Distinct integers render differently. */
  lemma IntToStringInjective(a: int, b: int)
    requires IntToString(a) == IntToString(b)
    ensures a == b
  {
    ParseIntOfIntToString(a, "");
    ParseIntOfIntToString(b, "");
    assert IntToString(a) + "" == IntToString(a);
    assert IntToString(b) + "" == IntToString(b);
  }

  /** `s.replace(/,/g, '')`. */
  function RemoveCommas(s: string): (r: string)
    ensures ',' !in r
    ensures |r| == |s| - Count(s, ',')
  {
    if |s| == 0 then ""
    else if s[0] == ',' then RemoveCommas(s[1..])
    else [s[0]] + RemoveCommas(s[1..])
  }
}
