/**
 * Character and string operations of JavaScript that the pages use:
 * `\d`, `\s`, `trim`, `startsWith`, `includes`, ASCII case mapping,
 * `replace` of one character or of every occurrence, `split(c)[0]` and
 * `padStart(2, '0')`.
 */
module Text {

  /** `\d` in a JavaScript regular expression: ASCII digits only. */
  predicate IsDigit(c: char) {
    '0' <= c <= '9'
  }

  function DigitValue(c: char): (d: nat)
    requires IsDigit(c)
    ensures d < 10
  {
    (c as int - '0' as int) as nat
  }

  function DigitChar(d: nat): (c: char)
    requires d < 10
    ensures IsDigit(c) && DigitValue(c) == d
  {
    (d + '0' as int) as char
  }

  /**
   * `\s` and the characters `trim` removes: the ECMAScript WhiteSpace and
   * LineTerminator code points.
   */
  predicate IsSpace(c: char) {
    c == ' ' || c == '\t' || c == '\n' || c == '\r' || c == '\U{000B}' || c == '\U{000C}'
    || c == '\U{00A0}' || c == '\U{1680}' || ('\U{2000}' <= c <= '\U{200A}')
    || c == '\U{2028}' || c == '\U{2029}' || c == '\U{202F}' || c == '\U{205F}'
    || c == '\U{3000}' || c == '\U{FEFF}'
  }

  predicate AllDigits(s: string) {
    forall i :: 0 <= i < |s| ==> IsDigit(s[i])
  }

  /** No character of `s` is whitespace. */
  predicate SpaceFree(s: string) {
    forall i :: 0 <= i < |s| ==> !IsSpace(s[i])
  }

  /** `s.trimStart()`: drops the leading whitespace and nothing else. */
  function TrimStart(s: string): (r: string)
    ensures |r| <= |s| && r == s[|s| - |r|..]
    ensures forall i :: 0 <= i < |s| - |r| ==> IsSpace(s[i])
    ensures r == [] || !IsSpace(r[0])
  {
    if s == [] || !IsSpace(s[0]) then s else TrimStart(s[1..])
  }

  /** `s.trimEnd()`: drops the trailing whitespace and nothing else. */
  function TrimEnd(s: string): (r: string)
    ensures |r| <= |s| && r == s[..|r|]
    ensures forall i :: |r| <= i < |s| ==> IsSpace(s[i])
    ensures r == [] || !IsSpace(r[|r| - 1])
  {
    if s == [] || !IsSpace(s[|s| - 1]) then s else TrimEnd(s[..|s| - 1])
  }

  /** `s.trim()`. */
  function Trim(s: string): (r: string)
    ensures r == [] || (!IsSpace(r[0]) && !IsSpace(r[|r| - 1]))
  {
    TrimEnd(TrimStart(s))
  }

  lemma TrimStartNoSpace(s: string)
    requires s == [] || !IsSpace(s[0])
    ensures TrimStart(s) == s
  {
  }

  lemma TrimEndNoSpace(s: string)
    requires s == [] || !IsSpace(s[|s| - 1])
    ensures TrimEnd(s) == s
  {
  }

  /** Trimming twice is trimming once. */
  lemma TrimIdempotent(s: string)
    ensures Trim(Trim(s)) == Trim(s)
  {
    var t := Trim(s);
    TrimStartNoSpace(t);
    TrimEndNoSpace(t);
  }

  /** `trimEnd` keeps a prefix that has no whitespace. */
  lemma {:induction false} TrimEndKeeps(s: string, k: nat)
    requires k <= |s| && forall i :: 0 <= i < k ==> !IsSpace(s[i])
    ensures k <= |TrimEnd(s)|
    decreases |s|
  {
    if s != [] && IsSpace(s[|s| - 1]) {
      assert k < |s|;
      TrimEndKeeps(s[..|s| - 1], k);
    }
  }

  /** A string that neither starts nor ends with whitespace is its own trim. */
  lemma TrimNoSpace(s: string)
    requires s == [] || (!IsSpace(s[0]) && !IsSpace(s[|s| - 1]))
    ensures Trim(s) == s
  {
    TrimStartNoSpace(s);
    TrimEndNoSpace(s);
  }

  /** Leading whitespace does not change the trim. */
  lemma {:induction false} TrimLeadingSpace(c: char, s: string)
    requires IsSpace(c)
    ensures Trim([c] + s) == Trim(s)
  {
    assert ([c] + s)[1..] == s;
  }

  /** The number of digits `s` starts with. */
  function LeadingDigits(s: string): (n: nat)
    ensures n <= |s|
    ensures forall i :: 0 <= i < n ==> IsDigit(s[i])
    ensures n == |s| || !IsDigit(s[n])
  {
    if s == [] || !IsDigit(s[0]) then 0 else 1 + LeadingDigits(s[1..])
  }

  /** `/^\d{k,}/.test(s)`. */
  predicate StartsWithDigits(s: string, k: nat) {
    LeadingDigits(s) >= k
  }

  /** The leading digit count is the longest run of digits at the start. */
  lemma LeadingDigitsIff(s: string, k: nat)
    ensures StartsWithDigits(s, k) <==> k <= |s| && forall i :: 0 <= i < k ==> IsDigit(s[i])
  {
  }

  /** `s.startsWith(p)`. */
  predicate StartsWith(s: string, p: string) {
    p <= s
  }

  /** `sub` occurs in `s` starting at position `i`. */
  predicate OccursAt(s: string, sub: string, i: nat) {
    i + |sub| <= |s| && s[i..i + |sub|] == sub
  }

  /** `s.includes(sub)`. */
  predicate Contains(s: string, sub: string) {
    exists i: nat | i <= |s| :: OccursAt(s, sub, i)
  }

  /** Every string contains the empty string. */
  lemma ContainsEmpty(s: string)
    ensures Contains(s, "")
  {
    assert OccursAt(s, "", 0);
  }

  /** A string contains each of its prefixes. */
  lemma ContainsPrefix(s: string, p: string)
    requires p <= s
    ensures Contains(s, p)
  {
    assert OccursAt(s, p, 0);
  }

  /** `s.replace(/\s+/g, '')`: every whitespace character removed. */
  function RemoveSpaces(s: string): (r: string)
    ensures |r| <= |s|
    ensures forall i :: 0 <= i < |r| ==> !IsSpace(r[i])
  {
    if s == [] then []
    else if IsSpace(s[0]) then RemoveSpaces(s[1..])
    else [s[0]] + RemoveSpaces(s[1..])
  }

  /** A string with no whitespace is unchanged by removing it. */
  lemma RemoveSpacesNoSpace(s: string)
    requires forall i :: 0 <= i < |s| ==> !IsSpace(s[i])
    ensures RemoveSpaces(s) == s
  {
  }

  /** Removing whitespace distributes over concatenation. */
  lemma {:induction false} RemoveSpacesAppend(a: string, b: string)
    ensures RemoveSpaces(a + b) == RemoveSpaces(a) + RemoveSpaces(b)
    decreases |a|
  {
    if a == [] {
      assert a + b == b;
    } else {
      assert (a + b)[0] == a[0];
      assert (a + b)[1..] == a[1..] + b;
      RemoveSpacesAppend(a[1..], b);
    }
  }

  /** `trimStart` before removing all whitespace changes nothing. */
  lemma {:induction false} RemoveSpacesTrimStart(s: string)
    ensures RemoveSpaces(TrimStart(s)) == RemoveSpaces(s)
    decreases |s|
  {
    if s != [] && IsSpace(s[0]) {
      RemoveSpacesTrimStart(s[1..]);
    }
  }

  /** `trimEnd` before removing all whitespace changes nothing. */
  lemma {:induction false} RemoveSpacesTrimEnd(s: string)
    ensures RemoveSpaces(TrimEnd(s)) == RemoveSpaces(s)
    decreases |s|
  {
    if s != [] && IsSpace(s[|s| - 1]) {
      var n := |s| - 1;
      assert s == s[..n] + [s[n]];
      RemoveSpacesAppend(s[..n], [s[n]]);
      assert RemoveSpaces([s[n]]) == [];
      RemoveSpacesTrimEnd(s[..n]);
    }
  }

  /** `trim` before removing all whitespace changes nothing. */
  lemma RemoveSpacesTrim(s: string)
    ensures RemoveSpaces(Trim(s)) == RemoveSpaces(s)
  {
    RemoveSpacesTrimEnd(TrimStart(s));
    RemoveSpacesTrimStart(s);
  }

  /** A string without whitespace is its own trim. */
  lemma TrimNoSpaceAnywhere(s: string)
    requires forall i :: 0 <= i < |s| ==> !IsSpace(s[i])
    ensures Trim(s) == s
  {
    TrimStartNoSpace(s);
    TrimEndNoSpace(s);
  }

  /** Text after a digit prefix does not shorten the run of leading digits. */
  lemma {:induction false} LeadingDigitsAppend(s: string, t: string)
    ensures LeadingDigits(s + t) >= LeadingDigits(s)
    decreases |s|
  {
    if s != [] && IsDigit(s[0]) {
      assert (s + t)[0] == s[0];
      assert (s + t)[1..] == s[1..] + t;
      LeadingDigitsAppend(s[1..], t);
    }
  }

  /** `s.replace(/c/g, '')`: every occurrence of `c` removed. */
  function RemoveChar(s: string, c: char): (r: string)
    ensures |r| <= |s|
    ensures c !in r
    ensures forall x :: x in r ==> x in s
  {
    if s == [] then []
    else if s[0] == c then RemoveChar(s[1..], c)
    else [s[0]] + RemoveChar(s[1..], c)
  }

  /** Removing a character from a string that does not hold it changes nothing. */
  lemma {:induction false} RemoveCharAbsent(s: string, c: char)
    requires c !in s
    ensures RemoveChar(s, c) == s
    decreases |s|
  {
    if s != [] {
      assert c !in s[1..];
      RemoveCharAbsent(s[1..], c);
      assert [s[0]] + s[1..] == s;
    }
  }

  /** Removing a character distributes over concatenation. */
  lemma {:induction false} RemoveCharAppend(a: string, b: string, c: char)
    ensures RemoveChar(a + b, c) == RemoveChar(a, c) + RemoveChar(b, c)
    decreases |a|
  {
    if a == [] {
      assert a + b == b;
    } else {
      assert (a + b)[0] == a[0];
      assert (a + b)[1..] == a[1..] + b;
      RemoveCharAppend(a[1..], b, c);
    }
  }

  /** `s.replace(c, d)` with a one-character string: only the first occurrence. */
  function ReplaceFirst(s: string, c: char, d: char): (r: string)
    ensures |r| == |s|
    ensures c !in s ==> r == s
  {
    if s == [] then []
    else if s[0] == c then [d] + s[1..]
    else [s[0]] + ReplaceFirst(s[1..], c, d)
  }

  /** Replacing the first occurrence changes exactly the first position that holds `c`. */
  lemma {:induction false} ReplaceFirstAt(s: string, c: char, d: char, k: nat)
    requires k < |s| && s[k] == c && c !in s[..k]
    ensures ReplaceFirst(s, c, d) == s[..k] + [d] + s[k + 1..]
  {
    if k > 0 {
      assert s[0] in s[..k];
      ReplaceFirstAt(s[1..], c, d, k - 1);
      assert s[1..][..k - 1] == s[1..k];
    }
  }

  /** ASCII `toUpperCase`. */
  function UpperChar(c: char): (u: char)
    ensures !('a' <= u <= 'z')
    ensures !IsSpace(c) ==> !IsSpace(u)
    ensures IsSpace(c) ==> u == c
  {
    if 'a' <= c <= 'z' then (c as int - 32) as char else c
  }

  /** ASCII `toLowerCase`. */
  function LowerChar(c: char): char {
    if 'A' <= c <= 'Z' then (c as int + 32) as char else c
  }

  function ToUpper(s: string): (r: string)
    ensures |r| == |s| && forall i :: 0 <= i < |s| ==> r[i] == UpperChar(s[i])
  {
    seq(|s|, i requires 0 <= i < |s| => UpperChar(s[i]))
  }

  function ToLower(s: string): (r: string)
    ensures |r| == |s| && forall i :: 0 <= i < |s| ==> r[i] == LowerChar(s[i])
  {
    seq(|s|, i requires 0 <= i < |s| => LowerChar(s[i]))
  }

  /** `s.split(c)[0]`: everything before the first `c`, or all of `s`. */
  function Before(s: string, c: char): (r: string)
    ensures r <= s && c !in r
    ensures |r| < |s| ==> s[|r|] == c
  {
    if s == [] || s[0] == c then [] else [s[0]] + Before(s[1..], c)
  }

  /** A string without `c` is all before `c`. */
  lemma BeforeAbsent(s: string, c: char)
    requires c !in s
    ensures Before(s, c) == s
  {
    if s != [] {
      assert c !in s[1..];
      BeforeAbsent(s[1..], c);
    }
  }

  /** Cutting at the first `c` keeps a prefix that has no `c`. */
  lemma {:induction false} BeforeKeepsPrefix(s: string, c: char, k: nat)
    requires k <= |s| && c !in s[..k]
    ensures k <= |Before(s, c)|
    decreases k
  {
    if k > 0 {
      assert s[0] == s[..k][0];
      assert s[1..][..k - 1] == s[1..k];
      assert forall x :: x in s[1..k] ==> x in s[..k];
      BeforeKeepsPrefix(s[1..], c, k - 1);
    }
  }

  /** Cutting at the first `c` of `a + [c] + b` gives `a` when `a` has no `c`. */
  lemma {:induction false} BeforeAppend(a: string, c: char, b: string)
    requires c !in a
    ensures Before(a + [c] + b, c) == a
    decreases |a|
  {
    if a != [] {
      assert (a + [c] + b)[1..] == a[1..] + [c] + b;
      assert c !in a[1..];
      BeforeAppend(a[1..], c, b);
    }
  }

  /** `String(n)` for a natural number. */
  function NatToString(n: nat): (r: string)
    ensures |r| >= 1 && AllDigits(r)
    ensures |r| == 1 || r[0] != '0'
  {
    if n < 10 then [DigitChar(n)] else NatToString(n / 10) + [DigitChar(n % 10)]
  }

  /** `String(n)` for an integer. */
  function IntToString(n: int): (r: string)
    ensures |r| >= 1
    ensures n < 0 <==> r[0] == '-'
  {
    if n < 0 then "-" + NatToString(-n) else NatToString(n)
  }

  /** `String(s).padStart(2, '0')`. */
  function PadStart2(s: string): (r: string)
    ensures |r| == if |s| < 2 then 2 else |s|
    ensures r[|r| - |s|..] == s
  {
    if |s| == 0 then "00" else if |s| == 1 then "0" + s else s
  }
}
