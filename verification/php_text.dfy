/** The PHP string behaviour the gateway relies on: truthiness of strings,
    `rtrim`/`ltrim` with the character mask '/', `sprintf('%d')`, and the
    ASCII lower-casing Symfony applies to header names. */
module PhpText {
  import opened Wrappers

  /** `empty($s)` and `!$s` for a string: PHP treats "" and "0" as false. */
  predicate EmptyString(s: string) {
    s == "" || s == "0"
  }

  /** Truthiness of a `?string`: null, "" and "0" are falsy. */
  predicate Falsy(s: Option<string>) {
    s.None? || EmptyString(s.value)
  }

  /** A string that starts with a prefix of two or more characters is never
      falsy. */
  lemma PrefixedIsTruthy(s: string, prefix: string)
    requires prefix <= s
    requires |prefix| >= 2
    ensures !Falsy(Some(s))
  {
    assert |s| >= 2;
  }

  // ---------------------------------------------------------------------
  // Slash trimming
  // ---------------------------------------------------------------------

  predicate EndsWithSlash(s: string) {
    |s| > 0 && s[|s| - 1] == '/'
  }

  predicate StartsWithSlash(s: string) {
    |s| > 0 && s[0] == '/'
  }

  predicate AllSlashes(s: string) {
    forall i :: 0 <= i < |s| ==> s[i] == '/'
  }

  /** `rtrim($s, '/')`: the longest prefix of `s` that does not end in '/';
      everything removed is '/'. */
  function RTrimSlash(s: string): (r: string)
    ensures r <= s
    ensures !EndsWithSlash(r)
    ensures AllSlashes(s[|r|..])
  {
    if EndsWithSlash(s) then RTrimSlash(s[..|s| - 1]) else s
  }

  /** `ltrim($s, '/')`: the longest suffix of `s` that does not start with
      '/'; everything removed is '/'. */
  function LTrimSlash(s: string): (r: string)
    ensures |r| <= |s| && r == s[|s| - |r|..]
    ensures !StartsWithSlash(r)
    ensures AllSlashes(s[..|s| - |r|])
  {
    if StartsWithSlash(s) then
      var r := LTrimSlash(s[1..]);
      var k := |s| - |r|;
      assert s[k..] == s[1..][k - 1..];
      assert forall i :: 1 <= i < k ==> s[..k][i] == s[1..][..k - 1][i - 1];
      r
    else s
  }

  /** `rtrim` is determined by the decomposition: any run of slashes after a
      stem that does not end in '/' is removed, and nothing else. */
  lemma {:induction false} RTrimSlashRemovesExactlyTrailingRun(stem: string, slashes: string)
    requires !EndsWithSlash(stem)
    requires AllSlashes(slashes)
    ensures RTrimSlash(stem + slashes) == stem
    decreases |slashes|
  {
    if |slashes| == 0 {
      assert stem + slashes == stem;
    } else {
      var s := stem + slashes;
      assert EndsWithSlash(s);
      assert s[..|s| - 1] == stem + slashes[..|slashes| - 1];
      RTrimSlashRemovesExactlyTrailingRun(stem, slashes[..|slashes| - 1]);
    }
  }

  /** `ltrim` is determined by the decomposition, symmetrically. */
  lemma {:induction false} LTrimSlashRemovesExactlyLeadingRun(slashes: string, stem: string)
    requires AllSlashes(slashes)
    requires !StartsWithSlash(stem)
    ensures LTrimSlash(slashes + stem) == stem
    decreases |slashes|
  {
    if |slashes| == 0 {
      assert slashes + stem == stem;
    } else {
      var s := slashes + stem;
      assert StartsWithSlash(s);
      assert s[1..] == slashes[1..] + stem;
      LTrimSlashRemovesExactlyLeadingRun(slashes[1..], stem);
    }
  }

  // ---------------------------------------------------------------------
  // Searching for a character
  // ---------------------------------------------------------------------

  /** Position of the first occurrence of `c` in `s`, if any. */
  function FirstIndex(s: string, c: char): (r: Option<nat>)
    ensures r.Some? ==> r.value < |s| && s[r.value] == c && c !in s[..r.value]
    ensures r.None? ==> c !in s
  {
    if |s| == 0 then None
    else if s[0] == c then Some(0)
    else
      match FirstIndex(s[1..], c)
      case None => None
      case Some(i) =>
        assert s[..i + 1] == [s[0]] + s[1..][..i];
        Some(i + 1)
  }

  /** Position of the last occurrence of `c` in `s`, if any. */
  function LastIndex(s: string, c: char): (r: Option<nat>)
    ensures r.Some? ==> r.value < |s| && s[r.value] == c && c !in s[r.value + 1..]
    ensures r.None? ==> c !in s
  {
    if |s| == 0 then None
    else if s[|s| - 1] == c then Some(|s| - 1)
    else
      match LastIndex(s[..|s| - 1], c)
      case None =>
        assert s == s[..|s| - 1] + [s[|s| - 1]];
        None
      case Some(i) =>
        assert s[i + 1..] == s[..|s| - 1][i + 1..] + [s[|s| - 1]];
        Some(i)
  }

  /** In `x + [c] + y` with no `c` in `x`, the first `c` is the separator. */
  lemma FirstIndexOfSeparator(x: string, c: char, y: string)
    requires c !in x
    ensures FirstIndex(x + [c] + y, c) == Some(|x|)
  {
    var s := x + [c] + y;
    assert s[|x|] == c;
  }

  /** In `x + [c] + y` with no `c` in `y`, the last `c` is the separator. */
  lemma LastIndexOfSeparator(x: string, c: char, y: string)
    requires c !in y
    ensures LastIndex(x + [c] + y, c) == Some(|x|)
  {
    var s := x + [c] + y;
    assert s[|x|] == c;
  }

  // ---------------------------------------------------------------------
  // Decimal integers: `sprintf('%d', $n)` and its inverse
  // ---------------------------------------------------------------------

  predicate IsDigit(c: char) {
    '0' <= c <= '9'
  }

  predicate AllDigits(s: string) {
    forall i :: 0 <= i < |s| ==> IsDigit(s[i])
  }

  function DigitChar(d: nat): (c: char)
    requires d < 10
    ensures IsDigit(c)
    ensures (c == '0') == (d == 0)
  {
    ('0' as int + d) as char
  }

  function DigitValue(c: char): nat
    requires IsDigit(c)
  {
    c as int - '0' as int
  }

  /** Base-10 digits of a natural number, most significant first, with no
      leading zero. */
  function NatDecimal(n: nat): (r: string)
    ensures |r| > 0 && AllDigits(r)
    ensures r[0] == '0' ==> n == 0 && r == "0"
  {
    if n < 10 then [DigitChar(n)] else NatDecimal(n / 10) + [DigitChar(n % 10)]
  }

  /** The number a string of digits denotes. */
  function DigitsValue(s: string): nat
    requires AllDigits(s)
  {
    if |s| == 0 then 0 else DigitsValue(s[..|s| - 1]) * 10 + DigitValue(s[|s| - 1])
  }

  /** `sprintf('%d', $n)`: a minus sign exactly for a negative number, then
      the digits of |n| with no leading zero. */
  function Decimal(n: int): (r: string)
    ensures |r| > 0
    ensures forall i :: 0 <= i < |r| ==> IsDigit(r[i]) || (i == 0 && r[i] == '-')
    ensures r[0] == '-' <==> n < 0
    ensures r[0] == '0' ==> r == "0"
    ensures r[0] == '-' ==> |r| > 1 && r[1] != '0'
  {
    if n < 0 then "-" + NatDecimal(-n) else NatDecimal(n)
  }

  /** Reads back an optionally signed decimal integer. */
  function ParseDecimal(s: string): Option<int> {
    if |s| > 1 && s[0] == '-' && AllDigits(s[1..]) then Some(-(DigitsValue(s[1..]) as int))
    else if |s| > 0 && AllDigits(s) then Some(DigitsValue(s))
    else None
  }

  lemma {:induction false} NatDecimalRoundTrip(n: nat)
    ensures DigitsValue(NatDecimal(n)) == n
  {
    if n >= 10 {
      var s := NatDecimal(n);
      assert s[..|s| - 1] == NatDecimal(n / 10);
      NatDecimalRoundTrip(n / 10);
    }
  }

  /** `%d` formatting loses nothing: the integer can be read back. */
  lemma DecimalRoundTrip(n: int)
    ensures ParseDecimal(Decimal(n)) == Some(n)
  {
    if n < 0 {
      var s := Decimal(n);
      assert s[1..] == NatDecimal(-n);
      NatDecimalRoundTrip(-n);
    } else {
      NatDecimalRoundTrip(n);
    }
  }

  // ---------------------------------------------------------------------
  // Header names
  // ---------------------------------------------------------------------

  function LowerChar(c: char): char {
    if 'A' <= c <= 'Z' then (c as int + 32) as char else c
  }

  /** ASCII lower-casing, as Symfony's header bag normalises header names. */
  function Lower(s: string): (r: string)
    ensures |r| == |s|
    ensures forall i :: 0 <= i < |s| ==> !('A' <= r[i] <= 'Z')
  {
    seq(|s|, i requires 0 <= i < |s| => LowerChar(s[i]))
  }
}
