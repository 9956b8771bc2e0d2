/**
 * JavaScript's conversions from text to numbers, on a decimal grammar:
 * `parseFloat` and `parseInt` read the longest numeric prefix after leading
 * whitespace, `Number` needs the whole trimmed string to be numeric and
 * reads the empty string as 0. `None` stands for `NaN`. And the way back:
 * `String(v)` for a number, with the round trip `Number(String(v)) === v`.
 */
module Numbers {
  import opened Wrappers
  import opened Text

  function Pow10(n: nat): (p: nat)
    ensures p >= 1
  {
    if n == 0 then 1 else 10 * Pow10(n - 1)
  }

  /** The value of a string of decimal digits, most significant first. */
  function DigitsValue(s: string): (v: nat)
    requires AllDigits(s)
    ensures v < Pow10(|s|)
    decreases |s|
  {
    if s == [] then 0 else 10 * DigitsValue(s[..|s| - 1]) + DigitValue(s[|s| - 1])
  }

  /** `x / 10^n`, as `n` divisions by ten. */
  function Shrink(x: real, n: nat): real
    decreases n
  {
    if n == 0 then x else Shrink(x / 10.0, n - 1)
  }

  /** The value of the digits after a decimal point. */
  function FractionValue(s: string): (v: real)
    requires AllDigits(s)
    ensures 0.0 <= v < 1.0
  {
    ShrinkBelowOne(DigitsValue(s) as real, |s|);
    Shrink(DigitsValue(s) as real, |s|)
  }

  /** A number below `10^n` divided by `10^n` is below 1. */
  lemma {:induction false} ShrinkBelowOne(x: real, n: nat)
    requires 0.0 <= x < Pow10(n) as real
    ensures 0.0 <= Shrink(x, n) < 1.0
    decreases n
  {
    if n > 0 {
      ShrinkBelowOne(x / 10.0, n - 1);
    }
  }

  /**
   * The longest prefix of `u` that is an unsigned decimal literal
   * (`d+`, `d+.`, `d+.d+` or `.d+`): its length (0 when there is none)
   * and its value.
   */
  function ScanUnsigned(u: string): (r: (nat, real))
    ensures r.0 <= |u| && r.1 >= 0.0
  {
    var n := LeadingDigits(u);
    var rest := u[n..];
    var f := if rest != [] && rest[0] == '.' then LeadingDigits(rest[1..]) else 0;
    if n == 0 && f == 0 then (0, 0.0)
    else if rest != [] && rest[0] == '.' then
      (n + 1 + f, DigitsValue(u[..n]) as real + FractionValue(rest[1..][..f]))
    else (n, DigitsValue(u[..n]) as real)
  }

  /** The longest prefix of `t` that is a signed decimal literal: its length (0 when none) and value. */
  function ScanSigned(t: string): (r: (nat, real))
    ensures r.0 <= |t|
  {
    if t != [] && (t[0] == '-' || t[0] == '+') then
      var u := ScanUnsigned(t[1..]);
      if u.0 == 0 then (0, 0.0) else (u.0 + 1, if t[0] == '-' then -u.1 else u.1)
    else ScanUnsigned(t)
  }

  /** `parseFloat(s)`. */
  function ParseFloat(s: string): (r: Option<real>)
    ensures r.None? <==> ScanSigned(TrimStart(s)).0 == 0
  {
    var u := ScanSigned(TrimStart(s));
    if u.0 == 0 then None else Some(u.1)
  }

  /** `Number(s)` for a string. */
  function NumberOf(s: string): (r: Option<real>)
    ensures Trim(s) == [] ==> r == Some(0.0)
  {
    var t := Trim(s);
    if t == [] then Some(0.0)
    else
      var u := ScanSigned(t);
      if u.0 == |t| then Some(u.1) else None
  }

  /** The value of the leading digits of `u`, if it starts with one. */
  function ScanNat(u: string): (r: Option<nat>)
    ensures r.None? <==> u == [] || !IsDigit(u[0])
  {
    var n := LeadingDigits(u);
    if n == 0 then None else Some(DigitsValue(u[..n]))
  }

  /** `parseInt(s, 10)`. */
  function ParseInt(s: string): (r: Option<int>)
  {
    var t := TrimStart(s);
    if t != [] && (t[0] == '-' || t[0] == '+') then
      match ScanNat(t[1..])
      case None => None
      case Some(v) => Some(if t[0] == '-' then -(v as int) else v)
    else
      match ScanNat(t)
      case None => None
      case Some(v) => Some(v)
  }

  /** `x || 0` for a number: `NaN` and 0 both give 0. */
  function OrZero(x: Option<real>): (r: real)
    ensures x.Some? ==> r == x.value
    ensures x.None? ==> r == 0.0
  {
    match x
    case Some(v) => v
    case None => 0.0
  }

  /** `x || 0` for an integer parse. */
  function IntOrZero(x: Option<int>): (r: int)
    ensures x.Some? ==> r == x.value
    ensures x.None? ==> r == 0
  {
    match x
    case Some(v) => v
    case None => 0
  }

  /** `Math.abs(x)`. */
  function Abs(x: real): (r: real)
    ensures r >= 0.0 && (r == x || r == -x)
  {
    if x < 0.0 then -x else x
  }

  // ---------------------------------------------------------------------
  // Round trips and characterisations

  lemma {:induction false} LeadingDigitsAll(s: string)
    requires AllDigits(s)
    ensures LeadingDigits(s) == |s|
    decreases |s|
  {
    if s != [] {
      LeadingDigitsAll(s[1..]);
    }
  }

  /** A digit run followed by a non-digit is read up to the non-digit. */
  lemma {:induction false} LeadingDigitsStop(s: string, t: string)
    requires AllDigits(s)
    requires t != [] && !IsDigit(t[0])
    ensures LeadingDigits(s + t) == |s|
    decreases |s|
  {
    if s == [] {
      assert s + t == t;
    } else {
      assert (s + t)[1..] == s[1..] + t;
      LeadingDigitsStop(s[1..], t);
    }
  }

  /** Reading back the digits `String(n)` writes gives `n`. */
  lemma {:induction false} DigitsValueNatToString(n: nat)
    ensures DigitsValue(NatToString(n)) == n
    decreases n
  {
    if n >= 10 {
      var s := NatToString(n);
      assert s[..|s| - 1] == NatToString(n / 10);
      DigitsValueNatToString(n / 10);
    }
  }

  /** A string with no leading whitespace is its own `trimStart`. */
  lemma TrimStartDigitOrSign(s: string)
    requires s != [] && (IsDigit(s[0]) || s[0] == '-')
    ensures TrimStart(s) == s && Trim(s) == TrimEnd(s)
  {
  }

  /** The digits `String(n)` writes are read back as `n`. */
  lemma ScanNatNatToString(n: nat)
    ensures ScanNat(NatToString(n)) == Some(n)
  {
    var s := NatToString(n);
    LeadingDigitsAll(s);
    assert s[..|s|] == s;
    DigitsValueNatToString(n);
  }

  /** `parseInt(String(n)) === n` for every integer `n`. */
  lemma ParseIntIntToString(n: int)
    ensures ParseInt(IntToString(n)) == Some(n)
  {
    if n < 0 {
      var s := "-" + NatToString(-n);
      assert IntToString(n) == s;
      TrimStartDigitOrSign(s);
      assert s[1..] == NatToString(-n);
      ScanNatNatToString(-n);
    } else {
      var s := NatToString(n);
      assert IntToString(n) == s;
      TrimStartDigitOrSign(s);
      ScanNatNatToString(n);
    }
  }

  /** `parseInt` reads only the leading digits: anything after a non-digit is ignored. */
  lemma ParseIntStopsAtNonDigit(n: nat, t: string)
    requires t != [] && !IsDigit(t[0])
    ensures ParseInt(NatToString(n) + t) == Some(n)
  {
    var s := NatToString(n);
    assert (s + t)[0] == s[0];
    TrimStartDigitOrSign(s + t);
    LeadingDigitsStop(s, t);
    assert (s + t)[..|s|] == s;
    DigitsValueNatToString(n);
  }

  /** A string made only of digits. */
  lemma {:induction false} ScanDigits(d: string)
    requires d != [] && AllDigits(d)
    ensures ScanUnsigned(d) == (|d|, DigitsValue(d) as real)
  {
    LeadingDigitsAll(d);
    assert d[|d|..] == [];
    assert d[..|d|] == d;
  }

  /** `Number` and `parseFloat` read a string of digits as its value. */
  lemma ParseDigits(d: string)
    requires d != [] && AllDigits(d)
    ensures ParseFloat(d) == Some(DigitsValue(d) as real)
    ensures NumberOf(d) == Some(DigitsValue(d) as real)
  {
    TrimStartDigitOrSign(d);
    TrimEndNoSpace(d);
    ScanDigits(d);
  }

  /** `a.b` with digit strings `a` and non-empty `b` is read as `a + b / 10^|b|`. */
  lemma {:induction false} ScanDecimal(a: string, b: string)
    requires AllDigits(a) && AllDigits(b) && b != []
    ensures ScanUnsigned(a + "." + b) == (|a| + 1 + |b|, DigitsValue(a) as real + FractionValue(b))
  {
    var u := a + "." + b;
    assert u == a + ("." + b);
    LeadingDigitsStop(a, "." + b);
    assert u[..|a|] == a;
    assert u[|a|..] == "." + b;
    assert u[|a|..][1..] == b;
    LeadingDigitsAll(b);
    assert b[..|b|] == b;
  }

  /** `Number` and `parseFloat` read a plain decimal `a.b` the same way. */
  lemma NumberOfDecimal(a: string, b: string)
    requires AllDigits(a) && AllDigits(b) && b != [] && a != []
    ensures NumberOf(a + "." + b) == Some(DigitsValue(a) as real + FractionValue(b))
    ensures ParseFloat(a + "." + b) == Some(DigitsValue(a) as real + FractionValue(b))
  {
    var u := a + "." + b;
    assert u[0] == a[0];
    assert u[|u| - 1] == b[|b| - 1];
    TrimStartDigitOrSign(u);
    TrimEndNoSpace(u);
    ScanDecimal(a, b);
  }

  /**
   * `Number(String(n)) === n` and `parseFloat(String(n)) === n` for a
   * natural number, and `Number` reads it back with a minus sign as `-n`.
   */
  lemma NumberOfNatToString(n: nat)
    ensures NumberOf(NatToString(n)) == Some(n as real)
    ensures NumberOf("-" + NatToString(n)) == Some(-(n as real))
    ensures ParseFloat(NatToString(n)) == Some(n as real)
  {
    var s := NatToString(n);
    DigitsValueNatToString(n);
    DigitsTextRoundTrip(s, n as real);
    ParseFloatDigits(s);
  }

  /** A run of digits is read back as its value, and with a minus sign as its negation. */
  lemma DigitsTextRoundTrip(s: string, x: real)
    requires s != [] && AllDigits(s) && x == DigitsValue(s) as real
    ensures NumberOf(s) == Some(x)
    ensures NumberOf("-" + s) == Some(-x)
  {
    ScanDigits(s);
    assert ScanUnsigned(s).0 == |s| && ScanUnsigned(s).1 == x;
    assert IsDigit(s[0]) && IsDigit(s[|s| - 1]);
    NumberOfUnsigned(s, x);
  }

  /** `parseFloat` reads a run of digits as its value. */
  lemma ParseFloatDigits(s: string)
    requires s != [] && AllDigits(s)
    ensures ParseFloat(s) == Some(DigitsValue(s) as real)
  {
    TrimStartDigitOrSign(s);
    ScanDigits(s);
    assert ScanUnsigned(s).0 == |s| && ScanUnsigned(s).1 == DigitsValue(s) as real;
  }

  /**
   * A literal of digits, possibly with a point inside, is read by `Number`
   * as its value, and with a minus sign in front as its negation.
   */
  lemma NumberOfLiteral(t: string, u: string, x: real, neg: bool)
    requires u != [] && IsDigit(u[0]) && IsDigit(u[|u| - 1]) && ScanUnsigned(u).0 == |u| && ScanUnsigned(u).1 == x
    requires t == if neg then "-" + u else u
    ensures NumberOf(t) == Some(if neg then -x else x)
  {
    NumberOfUnsigned(u, x);
  }

  /** The unsigned and the negated form of a literal. */
  lemma NumberOfUnsigned(u: string, x: real)
    requires u != [] && IsDigit(u[0]) && IsDigit(u[|u| - 1]) && ScanUnsigned(u).0 == |u| && ScanUnsigned(u).1 == x
    ensures NumberOf(u) == Some(x)
    ensures NumberOf("-" + u) == Some(-x)
  {
    TrimStartDigitOrSign(u);
    TrimEndNoSpace(u);
    var s := "-" + u;
    assert s[1..] == u && s[|s| - 1] == u[|u| - 1];
    TrimStartDigitOrSign(s);
    TrimEndNoSpace(s);
  }

  /** `Number` rejects trailing text that `parseFloat` ignores: `Number("12abc")` is `NaN`, `parseFloat` gives 12. */
  lemma NumberOfRejectsTrailing()
    ensures NumberOf("12abc") == None
    ensures ParseFloat("12abc") == Some(12.0)
  {
    var s := "12abc";
    assert s == "12" + "abc";
    TrimStartDigitOrSign(s);
    TrimEndNoSpace(s);
    LeadingDigitsStop("12", "abc");
    assert s[..2] == "12";
    assert DigitsValue("12") == 12 by {
      assert "12"[..1] == "1";
    }
  }

  /** `parseFloat('0')` is 0. */
  lemma ParseFloatZero()
    ensures ParseFloat("0") == Some(0.0)
  {
    NumberOfNatToString(0);
    assert NatToString(0) == "0";
  }

  /** A lone sign, a lone point and the empty text are not numbers. */
  lemma NotANumber()
    ensures ParseFloat("-") == None && ParseFloat(".") == None && ParseFloat("") == None
    ensures NumberOf("-") == None
    ensures ParseInt("") == None
  {
    assert "-"[1..] == "";
    assert "."[0..] == ".";
    assert "."[1..] == "";
  }

  // ---------------------------------------------------------------------
  // Writing numbers

  /** A real with no fractional part. */
  predicate IsWhole(x: real) {
    x.Floor as real == x
  }

  /** `x * 10^n`, as `n` multiplications by ten. */
  function Scale(x: real, n: nat): real {
    if n == 0 then x else 10.0 * Scale(x, n - 1)
  }

  /** The most decimal places `String` writes for a number here. */
  const MaxFractionDigits: nat := 20

  /** The fewest decimal places from `n` on that write `f` exactly, stopping at `MaxFractionDigits`. */
  function Places(f: real, n: nat): (p: nat)
    ensures p >= n && (n <= MaxFractionDigits ==> p <= MaxFractionDigits)
    decreases MaxFractionDigits - n
  {
    if n >= MaxFractionDigits || IsWhole(Scale(f, n)) then n else Places(f, n + 1)
  }

  /** The last `p` decimal digits of `n`, most significant first, zero-padded. */
  function Digits(n: nat, p: nat): (r: string)
    ensures |r| == p && AllDigits(r)
  {
    if p == 0 then "" else Digits(n / 10, p - 1) + [DigitChar(n % 10)]
  }

  /**
   * `String(v)` for a number: whole numbers are written as integers; a
   * fraction as its sign, the whole part of its magnitude, a point and the
   * fewest decimal places that give it exactly.
   */
  function NumberText(v: real): (r: string)
    ensures IsWhole(v) ==> r == IntToString(v.Floor)
    ensures !IsWhole(v) ==> '.' in r && (v < 0.0 <==> r[0] == '-')
  {
    if IsWhole(v) then IntToString(v.Floor)
    else
      var w := Abs(v).Floor;
      var u := NatToString(w) + "." + FractionText(Abs(v) - w as real);
      assert u[|NatToString(w)|] == '.';
      if v < 0.0 then "-" + u else u
  }

  /** The decimal places of a fraction: as few as give it exactly, at most `MaxFractionDigits`. */
  function FractionText(f: real): (r: string)
    requires 0.0 <= f < 1.0
    ensures 1 <= |r| <= MaxFractionDigits && AllDigits(r)
  {
    var p := Places(f, 1);
    ScaleBelow(f, p);
    Digits(Scale(f, p).Floor, p)
  }

  /** A fraction scaled by `10^n` stays below `10^n`. */
  lemma {:induction false} ScaleBelow(f: real, n: nat)
    requires 0.0 <= f < 1.0
    ensures 0.0 <= Scale(f, n) < Pow10(n) as real
  {
    if n > 0 {
      ScaleBelow(f, n - 1);
    }
  }

  /** Scaling is linear and keeps whole numbers whole. */
  lemma {:induction false} ScaleLinear(x: real, y: real, n: nat)
    ensures Scale(x - y, n) == Scale(x, n) - Scale(y, n)
    ensures Scale(-x, n) == -Scale(x, n)
    ensures IsWhole(x) ==> IsWhole(Scale(x, n))
  {
    if n > 0 {
      ScaleLinear(x, y, n - 1);
      if IsWhole(x) {
        assert Scale(x, n) == (10 * Scale(x, n - 1).Floor) as real;
      }
    }
  }

  /** Reading back the digits of a number below `10^p` gives the number. */
  lemma {:induction false} DigitsValueDigits(n: nat, p: nat)
    requires n < Pow10(p)
    ensures DigitsValue(Digits(n, p)) == n
  {
    if p > 0 {
      var r := Digits(n, p);
      assert r[..|r| - 1] == Digits(n / 10, p - 1);
      DigitsValueDigits(n / 10, p - 1);
    }
  }

  /** With `f` exact at `m` places, the places chosen write it exactly. */
  lemma {:induction false} PlacesExact(f: real, n: nat, m: nat)
    requires n <= m <= MaxFractionDigits && IsWhole(Scale(f, m))
    ensures IsWhole(Scale(f, Places(f, n)))
    decreases MaxFractionDigits - n
  {
    if n < MaxFractionDigits && !IsWhole(Scale(f, n)) {
      PlacesExact(f, n + 1, m);
    }
  }

  /** Dividing by ten as often as multiplied by ten gives the number back. */
  lemma {:induction false} Unscale(x: real, n: nat)
    ensures Shrink(Scale(x, n), n) == x
  {
    if n > 0 {
      Unscale(x, n - 1);
    }
  }

  /** The decimal places written for a fraction exact at `m` places read back as it. */
  lemma FractionTextValue(f: real, m: nat)
    requires 0.0 <= f < 1.0 && 1 <= m <= MaxFractionDigits && IsWhole(Scale(f, m))
    ensures FractionValue(FractionText(f)) == f
  {
    var p := Places(f, 1);
    PlacesExact(f, 1, m);
    ScaleBelow(f, p);
    var n := Scale(f, p).Floor;
    var b := Digits(n, p);
    assert FractionText(f) == b;
    DigitsValueDigits(n, p);
    assert n as real == Scale(f, p);
    Unscale(f, p);
  }

  /** The difference of two whole reals is whole. */
  lemma WholeDifference(x: real, y: real)
    requires IsWhole(x) && IsWhole(y)
    ensures IsWhole(x - y)
  {
    assert x - y == (x.Floor - y.Floor) as real;
  }

  /** `Number(String(v)) === v` for every number that has at most `m <= MaxFractionDigits` decimal places. */
  lemma NumberTextRoundTrip(v: real, m: nat)
    requires m <= MaxFractionDigits && IsWhole(Scale(v, m))
    ensures NumberOf(NumberText(v)) == Some(v)
  {
    if IsWhole(v) {
      WholeTextRoundTrip(v);
    } else {
      FractionalTextRoundTrip(v, m);
    }
  }

  /** A whole number is written as an integer and read back. */
  lemma WholeTextRoundTrip(v: real)
    requires IsWhole(v)
    ensures NumberOf(NumberText(v)) == Some(v)
  {
    IntTextRoundTrip(v.Floor);
  }

  /** A fraction is written as `[-]w.digits` and read back. */
  lemma FractionalTextRoundTrip(v: real, m: nat)
    requires m <= MaxFractionDigits && IsWhole(Scale(v, m)) && !IsWhole(v)
    ensures NumberOf(NumberText(v)) == Some(v)
  {
    var w := Abs(v).Floor;
    FractionExact(v, m);
    FractionalText(v);
    SignedDecimalText(NumberText(v), w, Abs(v) - w as real, m, v < 0.0, v);
  }

  /** `[-]w.digits` for a whole part `w` and a fraction `f` exact at `m` places reads back as `±(w + f)`. */
  lemma SignedDecimalText(t: string, w: nat, f: real, m: nat, neg: bool, y: real)
    requires 0.0 <= f < 1.0 && 1 <= m <= MaxFractionDigits && IsWhole(Scale(f, m))
    requires t == if neg then "-" + (NatToString(w) + "." + FractionText(f)) else NatToString(w) + "." + FractionText(f)
    requires y == if neg then -(w as real + f) else w as real + f
    ensures NumberOf(t) == Some(y)
  {
    var s, b := NatToString(w), FractionText(f);
    assert DigitsValue(s) as real + FractionValue(b) == w as real + f by {
      DigitsValueNatToString(w);
      FractionTextValue(f, m);
    }
    DecimalRoundTrip(t, s, b, w as real + f, neg, y);
  }

  /** The shape `String(v)` gives a fraction. */
  lemma FractionalText(v: real)
    requires !IsWhole(v)
    ensures var w := Abs(v).Floor; var u := NatToString(w) + "." + FractionText(Abs(v) - w as real);
      NumberText(v) == if v < 0.0 then "-" + u else u
  {
  }

  /** `Number(String(n)) === n` for an integer. */
  lemma IntTextRoundTrip(n: int)
    ensures NumberOf(IntToString(n)) == Some(n as real)
  {
    SignedNatText(IntToString(n), if n < 0 then -n else n, n < 0);
  }

  /** `[-]digits` reads back as `±k`. */
  lemma SignedNatText(t: string, k: nat, neg: bool)
    requires t == if neg then "-" + NatToString(k) else NatToString(k)
    ensures NumberOf(t) == Some(if neg then -(k as real) else k as real)
  {
    NumberOfNatToString(k);
  }


  /** The fraction part of a number exact at `m` places is exact at `m` places, and `m` is not 0. */
  lemma FractionExact(v: real, m: nat)
    requires IsWhole(Scale(v, m)) && !IsWhole(v)
    ensures var a := Abs(v); 1 <= m && 0.0 <= a - a.Floor as real < 1.0 && IsWhole(Scale(a - a.Floor as real, m))
  {
    var a := Abs(v);
    var w := a.Floor as real;
    ScaleLinear(v, 0.0, m);
    ScaleLinear(a, w, m);
    ScaleLinear(w, 0.0, m);
    WholeDifference(0.0, Scale(v, m));
    WholeDifference(Scale(a, m), Scale(w, m));
  }

  /** A decimal `s.b`, signed or not, is read back as its value. */
  lemma DecimalRoundTrip(t: string, s: string, b: string, x: real, neg: bool, y: real)
    requires s != [] && AllDigits(s) && b != [] && AllDigits(b)
    requires x == DigitsValue(s) as real + FractionValue(b)
    requires t == if neg then "-" + (s + "." + b) else s + "." + b
    requires y == if neg then -x else x
    ensures NumberOf(t) == Some(y)
  {
    var u := s + "." + b;
    assert |u| == |s| + 1 + |b|;
    ScanDecimal(s, b);
    assert ScanUnsigned(u).0 == |u|;
    assert ScanUnsigned(u).1 == x;
    assert u[0] == s[0] && u[|u| - 1] == b[|b| - 1];
    NumberOfLiteral(t, u, x, neg);
  }
}
