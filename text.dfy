/**
 * The string operations the source uses: `str.strip`, digit tests and `int()`
 * on digit strings, `str(n)`, case mapping for `title()` and SQL `ILIKE`,
 * prefix tests and the pieces of `str.split` the upload numbering reads.
 *
 * Characters are modelled for ASCII and Latin-1 (U+0000..U+00FF), which covers
 * the Portuguese names and catalogue entries the system handles.
 */
module Text {

  /** Python's `str.isspace` on ASCII and Latin-1 characters. */
  predicate IsSpace(c: char) {
    (9 <= c as int <= 13) || (28 <= c as int <= 32) || c as int == 0x85 || c as int == 0xA0
  }

  /** All characters of `s` are white space. */
  predicate AllSpace(s: string) {
    forall i :: 0 <= i < |s| ==> IsSpace(s[i])
  }

  /** `s.lstrip()`. */
  function TrimLeft(s: string): string
    decreases |s|
  {
    if s != [] && IsSpace(s[0]) then TrimLeft(s[1..]) else s
  }

  /** `s.rstrip()`. */
  function TrimRight(s: string): string
    decreases |s|
  {
    if s != [] && IsSpace(s[|s| - 1]) then TrimRight(s[..|s| - 1]) else s
  }

  /** `lstrip` removes the leading white space and keeps the rest. */
  lemma {:induction false} TrimLeftShape(s: string)
    ensures var r := TrimLeft(s);
      (r == "" || !IsSpace(r[0])) && |r| <= |s| && r == s[|s| - |r|..] && AllSpace(s[..|s| - |r|])
    decreases |s|
  {
    if s != [] && IsSpace(s[0]) {
      TrimLeftShape(s[1..]);
      var r := TrimLeft(s[1..]);
      assert s[1..][..|s| - 1 - |r|] == s[1..|s| - |r|];
    }
  }

  /** `rstrip` removes the trailing white space and keeps the rest. */
  lemma {:induction false} TrimRightShape(s: string)
    ensures var r := TrimRight(s);
      (r == "" || !IsSpace(r[|r| - 1])) && |r| <= |s| && r == s[..|r|] && AllSpace(s[|r|..])
    decreases |s|
  {
    if s != [] && IsSpace(s[|s| - 1]) {
      TrimRightShape(s[..|s| - 1]);
      var r := TrimRight(s[..|s| - 1]);
      assert s[..|s| - 1][|r|..] == s[|r|..|s| - 1];
    }
  }

  /** `s.strip()`: the text between the leading and the trailing white space. */
  function Strip(s: string): (r: string)
  {
    TrimRight(TrimLeft(s))
  }

  /** Where the text kept by `strip` starts in `s`. */
  function StripStart(s: string): (i: nat)
    ensures i <= |s|
  {
    TrimLeftShape(s);
    |s| - |TrimLeft(s)|
  }

  /** What `strip` keeps: a contiguous piece of `s`, surrounded only by white space, that neither starts nor ends with it. */
  lemma {:induction false} StripShape(s: string)
    ensures var r, i := Strip(s), StripStart(s);
      i + |r| <= |s| && r == s[i..i + |r|] && AllSpace(s[..i]) && AllSpace(s[i + |r|..]) &&
      (r == "" || (!IsSpace(r[0]) && !IsSpace(r[|r| - 1])))
  {
    TrimLeftShape(s);
    StripPiece(s);
    StripEnds(s);
  }

  lemma {:induction false} StripPiece(s: string)
    ensures var r, i := Strip(s), StripStart(s);
      i + |r| <= |s| && r == s[i..i + |r|] && AllSpace(s[i + |r|..])
  {
    var l := TrimLeft(s);
    var r := TrimRight(l);
    TrimLeftShape(s);
    TrimRightShape(l);
    var i := |s| - |l|;
    assert l == s[i..];
    assert r == l[..|r|];
    assert s[i + |r|..] == l[|r|..];
  }

  lemma {:induction false} StripEnds(s: string)
    ensures var r := Strip(s); r == "" || (!IsSpace(r[0]) && !IsSpace(r[|r| - 1]))
  {
    var l := TrimLeft(s);
    var r := TrimRight(l);
    TrimLeftShape(s);
    TrimRightShape(l);
    if r != "" {
      assert r[0] == l[0];
    }
  }

  /** Stripping twice is stripping once. */
  lemma {:induction false} StripIdempotent(s: string)
    ensures Strip(Strip(s)) == Strip(s)
  {
    var r := Strip(s);
    StripShape(s);
    TrimLeftNoSpace(r);
    TrimRightNoSpace(r);
  }

  lemma {:induction false} TrimLeftNoSpace(s: string)
    requires s == "" || !IsSpace(s[0])
    ensures TrimLeft(s) == s
  {
  }

  lemma {:induction false} TrimRightNoSpace(s: string)
    requires s == "" || !IsSpace(s[|s| - 1])
    ensures TrimRight(s) == s
  {
  }

  /** An ASCII decimal digit. */
  predicate IsDigit(c: char) {
    '0' <= c <= '9'
  }

  /** `s.isdigit()` on ASCII: non-empty and all digits. */
  predicate IsDigitString(s: string) {
    s != [] && AllDigits(s)
  }

  predicate AllDigits(s: string) {
    forall i :: 0 <= i < |s| ==> IsDigit(s[i])
  }

  /** `re.sub(r'[^\d]', '', s)`: the digits of `s`, in order. */
  function KeepDigits(s: string): (r: string)
    ensures AllDigits(r)
    ensures |r| <= |s|
    ensures AllDigits(s) ==> r == s
  {
    if s == [] then []
    else if IsDigit(s[|s| - 1]) then KeepDigits(s[..|s| - 1]) + [s[|s| - 1]]
    else KeepDigits(s[..|s| - 1])
  }

  function DigitValue(c: char): (d: nat)
    requires IsDigit(c)
    ensures d < 10
  {
    c as int - '0' as int
  }

  /** `int(s)` for a string of decimal digits (leading zeros allowed). */
  function DigitsValue(s: string): (n: nat)
    requires AllDigits(s)
  {
    if s == [] then 0 else 10 * DigitsValue(s[..|s| - 1]) + DigitValue(s[|s| - 1])
  }

  function DigitChar(d: nat): (c: char)
    requires d < 10
    ensures IsDigit(c) && DigitValue(c) == d
  {
    ('0' as int + d) as char
  }

  /** `str(n)` for a natural number. */
  function DecimalNat(n: nat): (s: string)
    ensures s != [] && AllDigits(s)
    ensures n > 0 ==> s[0] != '0'
  {
    if n < 10 then [DigitChar(n)] else DecimalNat(n / 10) + [DigitChar(n % 10)]
  }

  /** `str(n)` for any integer. */
  function Decimal(n: int): (s: string)
    ensures s != []
    ensures forall i :: 0 <= i < |s| ==> IsDigit(s[i]) || s[i] == '-'
  {
    if n < 0 then "-" + DecimalNat(-n) else DecimalNat(n)
  }

  /** `int(str(n)) == n`. */
  lemma {:induction false} DecimalRoundTrip(n: nat)
    ensures DigitsValue(DecimalNat(n)) == n
  {
    if n >= 10 {
      DecimalRoundTrip(n / 10);
      var s := DecimalNat(n);
      assert s[..|s| - 1] == DecimalNat(n / 10);
    }
  }

  /** `s.startswith(p)`. */
  predicate StartsWith(s: string, p: string) {
    |p| <= |s| && s[..|p|] == p
  }

  /** `s.endswith(p)`. */
  predicate EndsWith(s: string, p: string) {
    |p| <= |s| && s[|s| - |p|..] == p
  }

  /** Position of the first `c` in `s`, or `|s|` when there is none. */
  function IndexOf(s: string, c: char): (k: nat)
    ensures k <= |s|
    ensures k < |s| ==> s[k] == c
    ensures forall i :: 0 <= i < k ==> s[i] != c
  {
    if s == [] then 0
    else if s[0] == c then 0
    else 1 + IndexOf(s[1..], c)
  }

  /** `s.split(c)[0]`: the text before the first `c`. */
  function Before(s: string, c: char): (r: string)
    ensures c !in r
    ensures StartsWith(s, r)
  {
    s[..IndexOf(s, c)]
  }

  /** The text after the first `c`, or "" when there is none. */
  function After(s: string, c: char): (r: string)
    ensures IndexOf(s, c) < |s| ==> s == Before(s, c) + [c] + r
  {
    var k := IndexOf(s, c);
    if k < |s| then s[k + 1..] else ""
  }

  /** An upper-case letter of ASCII or Latin-1. */
  predicate IsUpper(c: char) {
    ('A' <= c <= 'Z') || (0xC0 <= c as int <= 0xDE && c as int != 0xD7)
  }

  /** A lower-case letter of ASCII or Latin-1 (`ß` and `ÿ` have no upper case in this range). */
  predicate IsLower(c: char) {
    ('a' <= c <= 'z') || (0xDF <= c as int <= 0xFF && c as int != 0xF7) || c as int == 0xAA || c as int == 0xB5 || c as int == 0xBA
  }

  /** Python's "cased" characters in this range. */
  predicate IsCased(c: char) {
    IsUpper(c) || IsLower(c)
  }

  function Lower(c: char): (l: char)
    ensures !IsUpper(c) ==> l == c
  {
    if IsUpper(c) then (c as int + 32) as char else c
  }

  function Upper(c: char): (u: char)
    ensures IsUpper(u) || u == c
  {
    if ('a' <= c <= 'z') || (0xE0 <= c as int <= 0xFE && c as int != 0xF7) then (c as int - 32) as char else c
  }

  function LowerString(s: string): (r: string)
    ensures |r| == |s|
    ensures forall i :: 0 <= i < |s| ==> r[i] == Lower(s[i])
  {
    if s == [] then [] else LowerString(s[..|s| - 1]) + [Lower(s[|s| - 1])]
  }

  /** `s.title()`: a cased character is lowered after a cased one and raised otherwise. */
  function Title(s: string): (r: string)
    ensures |r| == |s|
  {
    TitleFrom(s, false)
  }

  function TitleFrom(s: string, previousCased: bool): (r: string)
    ensures |r| == |s|
    ensures s != [] ==> r[0] == if previousCased then Lower(s[0]) else Upper(s[0])
    ensures forall i :: 0 < i < |s| ==> r[i] == if IsCased(s[i - 1]) then Lower(s[i]) else Upper(s[i])
  {
    if s == [] then []
    else
      var c := if previousCased then Lower(s[0]) else Upper(s[0]);
      var rest := TitleFrom(s[1..], IsCased(s[0]));
      [c] + rest
  }

  /** The first `|pat|` characters of `s`, lowered, spell `pat`. */
  predicate StartsWithIgnoreCase(s: string, pat: string)
    decreases pat
  {
    pat == [] || (s != [] && Lower(s[0]) == pat[0] && StartsWithIgnoreCase(s[1..], pat[1..]))
  }

  /** `StartsWithIgnoreCase` compares position by position. */
  lemma {:induction false} StartsWithIgnoreCaseAt(s: string, pat: string)
    ensures StartsWithIgnoreCase(s, pat) <==> |pat| <= |s| && forall k :: 0 <= k < |pat| ==> Lower(s[k]) == pat[k]
    decreases pat
  {
    if pat != [] && s != [] {
      StartsWithIgnoreCaseAt(s[1..], pat[1..]);
      if |pat| <= |s| && forall k :: 0 <= k < |pat| ==> Lower(s[k]) == pat[k] {
        forall k | 0 <= k < |pat| - 1 ensures Lower(s[1..][k]) == pat[1..][k] {
          assert Lower(s[k + 1]) == pat[k + 1];
        }
      }
      if StartsWithIgnoreCase(s, pat) {
        forall k | 0 <= k < |pat| ensures Lower(s[k]) == pat[k] {
          if k > 0 {
            assert Lower(s[1..][k - 1]) == pat[1..][k - 1];
          }
        }
      }
    }
  }

  /**
   * SQL `column ILIKE '%pat%'` for a lower-case ASCII pattern: `s` starts with
   * `pat` when lowered, or some later suffix of it does.
   */
  predicate ContainsIgnoreCase(s: string, pat: string)
    decreases |s|
  {
    StartsWithIgnoreCase(s, pat) || (s != [] && ContainsIgnoreCase(s[1..], pat))
  }

  /** `ContainsIgnoreCase` holds exactly when some position of `s` starts a match. */
  lemma {:induction false} ContainsIgnoreCaseAt(s: string, pat: string)
    ensures ContainsIgnoreCase(s, pat) <==> exists i | 0 <= i <= |s| :: StartsWithIgnoreCase(s[i..], pat)
    decreases |s|
  {
    assert s[0..] == s;
    if s != [] {
      ContainsIgnoreCaseAt(s[1..], pat);
      if ContainsIgnoreCase(s[1..], pat) {
        var i :| 0 <= i <= |s| - 1 && StartsWithIgnoreCase(s[1..][i..], pat);
        assert s[1..][i..] == s[i + 1..];
      }
      if i :| 0 <= i <= |s| && StartsWithIgnoreCase(s[i..], pat) {
        if i > 0 {
          assert s[1..][i - 1..] == s[i..];
        }
      }
    }
  }

  /** If some character of the pattern never occurs (in either case) in `s`, `s` cannot contain the pattern. */
  lemma {:induction false} MissingCharNotContained(s: string, pat: string, m: nat)
    requires m < |pat|
    requires forall i :: 0 <= i < |s| ==> Lower(s[i]) != pat[m]
    ensures !ContainsIgnoreCase(s, pat)
    decreases |s|
  {
    StartsWithIgnoreCaseAt(s, pat);
    if |pat| <= |s| {
      assert Lower(s[m]) != pat[m];
    }
    if s != [] {
      MissingCharNotContained(s[1..], pat, m);
    }
  }
}
