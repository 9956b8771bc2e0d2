/**
 * One account's card (src/components/AmortizationCard.tsx): the years it
 * lists, the monthly amount, the value typed into a year's field, and the
 * guarded "add year" button with its `newYear` counter.
 */
module AmortizationCard {
  import opened Wrappers
  import opened Text
  import opened Numbers
  import opened Collections
  import opened Domain

  /** The years listed even when the account has no value for them. */
  function DefaultYears(currentYear: int): set<int> {
    {currentYear, 2025, 2024, 2023}
  }

  /** `allYears`: the default years and the account's own, each once, latest first. */
  function AllYears(a: Account, currentYear: int): (r: seq<int>)
    ensures StrictlyDescending(r)
    ensures forall y :: y in r <==> y in DefaultYears(currentYear) || y in a.annualValues
  {
    SortDescending(DefaultYears(currentYear) + a.annualValues.Keys)
  }

  /** `monthlyAmount`: a twelfth of the annual amount. */
  function MonthlyAmount(a: Account): (r: real)
    ensures r * 12.0 == a.annualAmount
    ensures a.annualAmount >= 0.0 ==> 0.0 <= r <= a.annualAmount
  {
    a.annualAmount / 12.0
  }

  // ---------------------------------------------------------------------
  // The value typed into a year's field

  /** The characters `[0-9,-]` the field keeps. */
  predicate Kept(c: char) {
    IsDigit(c) || c == ',' || c == '-'
  }

  /** `value.replace(/[^0-9,-]+/g, "").replace(',', '.')`. */
  function EditedText(s: string): (r: string)
    ensures |r| == |Filter(s, Kept)|
  {
    ReplaceFirst(Filter(s, Kept), ',', '.')
  }

  /** `parseFloat(rawValue) || 0`: the value a field edit sends. */
  function EditedValue(s: string): real {
    OrZero(ParseFloat(EditedText(s)))
  }

  /** Every character of the replaced string is the new one or one of the original's. */
  lemma {:induction false} ReplaceFirstFrom(s: string, c: char, d: char)
    ensures forall i :: 0 <= i < |ReplaceFirst(s, c, d)| ==> ReplaceFirst(s, c, d)[i] == d || ReplaceFirst(s, c, d)[i] in s
  {
    if s != [] && s[0] != c {
      ReplaceFirstFrom(s[1..], c, d);
      var r := ReplaceFirst(s, c, d);
      forall i | 0 <= i < |r|
        ensures r[i] == d || r[i] in s
      {
        if i > 0 {
          assert r[i] == ReplaceFirst(s[1..], c, d)[i - 1];
        }
      }
    }
  }

  /** Text without a digit gives the value 0. */
  lemma NoDigitsZero(s: string)
    requires forall i :: 0 <= i < |s| ==> !IsDigit(s[i])
    ensures EditedValue(s) == 0.0
  {
    var t := EditedText(s);
    ReplaceFirstFrom(Filter(s, Kept), ',', '.');
    assert forall i :: 0 <= i < |t| ==> !IsDigit(t[i]);
    ParseFloatNoDigits(t);
  }

  /** Text without a digit holds no number for `parseFloat`. */
  lemma ParseFloatNoDigits(t: string)
    requires forall i :: 0 <= i < |t| ==> !IsDigit(t[i])
    ensures ParseFloat(t).None?
  {
    var u := TrimStart(t);
    assert forall i :: 0 <= i < |u| ==> !IsDigit(u[i]) by {
      forall i | 0 <= i < |u|
        ensures !IsDigit(u[i])
      {
        assert u[i] == t[|t| - |u| + i];
      }
    }
    if u != [] && (u[0] == '-' || u[0] == '+') {
      ScanUnsignedNoDigits(u[1..]);
    } else {
      ScanUnsignedNoDigits(u);
    }
  }

  /** Text without a digit starts no unsigned literal. */
  lemma ScanUnsignedNoDigits(u: string)
    requires forall i :: 0 <= i < |u| ==> !IsDigit(u[i])
    ensures ScanUnsigned(u).0 == 0
  {
    assert LeadingDigits(u) == 0;
    assert u[0..] == u;
    if u != [] {
      assert LeadingDigits(u[1..]) == 0 by {
        assert u[1..] == [] || !IsDigit(u[1..][0]);
      }
    }
  }

  /** The kept characters of `a1.a2,b` followed by text without kept characters. */
  lemma KeptOfGrouped(a1: string, a2: string, b: string, tail: string)
    requires AllDigits(a1) && AllDigits(a2) && AllDigits(b)
    requires forall i :: 0 <= i < |tail| ==> !Kept(tail[i])
    ensures Filter(a1 + "." + a2 + "," + b + tail, Kept) == a1 + a2 + "," + b
  {
    FilterAll(a1, Kept);
    FilterAll(a2, Kept);
    FilterAll(b, Kept);
    FilterNone(tail, Kept);
    assert Filter(".", Kept) == [] by {
      assert "."[..0] == [];
    }
    assert Filter(",", Kept) == "," by {
      assert ","[..0] == [];
    }
    var s1 := a1 + ".";
    FilterAppend(a1, ".", Kept);
    assert Filter(s1, Kept) == a1;
    var s2 := s1 + a2;
    FilterAppend(s1, a2, Kept);
    assert Filter(s2, Kept) == a1 + a2;
    var s3 := s2 + ",";
    FilterAppend(s2, ",", Kept);
    assert Filter(s3, Kept) == a1 + a2 + ",";
    var s4 := s3 + b;
    FilterAppend(s3, b, Kept);
    assert Filter(s4, Kept) == a1 + a2 + "," + b;
    FilterAppend(s4, tail, Kept);
    assert Filter(s4 + tail, Kept) == a1 + a2 + "," + b;
  }

  /**
   * A euro amount as the field shows it in Spanish style (`.` between
   * thousands, `,` before the cents, a currency sign after) is read back
   * as its value: the dots go, the comma becomes the decimal point.
   */
  lemma GroupedAmount(a1: string, a2: string, b: string, tail: string)
    requires AllDigits(a1) && AllDigits(a2) && AllDigits(b) && a1 != [] && b != []
    requires forall i :: 0 <= i < |tail| ==> !Kept(tail[i])
    ensures EditedValue(a1 + "." + a2 + "," + b + tail) == DigitsValue(a1 + a2) as real + FractionValue(b)
  {
    var a := a1 + a2;
    assert AllDigits(a) by {
      forall i | 0 <= i < |a|
        ensures IsDigit(a[i])
      {
        if i >= |a1| {
          assert a[i] == a2[i - |a1|];
        }
      }
    }
    KeptOfGrouped(a1, a2, b, tail);
    var k := a + "," + b;
    assert k[..|a|] == a && k[|a|] == ',' && k[|a| + 1..] == b;
    ReplaceFirstAt(k, ',', '.', |a|);
    assert ReplaceFirst(k, ',', '.') == a + "." + b;
    NumberOfDecimal(a, b);
  }

  /** "12.345,67 €" is read as 12345.67. */
  lemma GroupedAmountExample()
    ensures EditedValue("12.345,67 €") == 12345.67
  {
    assert "12.345,67 €" == "12" + "." + "345" + "," + "67" + " €";
    assert "12" + "345" == "12345";
    assert DigitsValue("12345") == 12345 by {
      assert "12345"[..4] == "1234";
      assert "1234"[..3] == "123";
      assert "123"[..2] == "12";
      assert "12"[..1] == "1";
    }
    assert DigitsValue("67") == 67 by {
      assert "67"[..1] == "6";
    }
    assert FractionValue("67") == 0.67;
    GroupedAmount("12", "345", "67", " €");
  }

  // ---------------------------------------------------------------------
  // The card's state

  /** A call of `onUpdateAnnualValue(accountId, year, value)`. */
  datatype ValueUpdate = ValueUpdate(accountId: string, year: int, value: real)

  /** `newYear && !account.annualValues[newYear]`; `None` is `NaN`. */
  predicate CanAdd(a: Account, newYear: Option<int>) {
    newYear.Some? && newYear.value != 0 && Get(a.annualValues, newYear.value) == 0.0
  }

  /**
   * Once the page has stored an added year with a non-zero annual amount,
   * the same year cannot be added again.
   */
  lemma AddedYearNotAgain(a: Account, y: int)
    requires CanAdd(a, Some(y)) && a.annualAmount != 0.0
    ensures !CanAdd(a.(annualValues := a.annualValues[y := a.annualAmount]), Some(y))
    ensures y in AllYears(a.(annualValues := a.annualValues[y := a.annualAmount]), 0)
  {
  }

  /** The card of one account; `newYear` is `None` when its input holds no number. */
  class AmortizationCard {
    const account: Account
    var newYear: Option<int>

    constructor (account: Account, currentYear: int)
      ensures this.account == account && newYear == Some(currentYear + 1)
    {
      this.account := account;
      newYear := Some(currentYear + 1);
    }

    /** The year input: `setNewYear(parseInt(value))`. */
    method SetNewYear(value: string)
      modifies this
      ensures newYear == ParseInt(value)
    {
      newYear := ParseInt(value);
    }

    /**
     * `handleAddYear`: a year that is set and holds no value gets the
     * annual amount, and the input moves on to the next year; otherwise
     * nothing is sent and nothing changes.
     */
    method AddYear() returns (sent: Option<ValueUpdate>)
      modifies this
      ensures CanAdd(account, old(newYear)) ==>
        sent == Some(ValueUpdate(account.id, old(newYear).value, account.annualAmount))
        && newYear == Some(old(newYear).value + 1)
      ensures !CanAdd(account, old(newYear)) ==> sent.None? && newYear == old(newYear)
    {
      if CanAdd(account, newYear) {
        sent := Some(ValueUpdate(account.id, newYear.value, account.annualAmount));
        newYear := Some(newYear.value + 1);
      } else {
        sent := None;
      }
    }

    /** A year's field edited to `value`. */
    method EditYear(year: int, value: string) returns (sent: ValueUpdate)
      ensures sent.accountId == account.id && sent.year == year
      ensures sent.value == OrZero(ParseFloat(EditedText(value)))
    {
      sent := ValueUpdate(account.id, year, EditedValue(value));
    }
  }
}
