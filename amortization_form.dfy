/**
 * The amortisation account form (src/components/AmortizationFormModal.tsx):
 * its initial state, the field edits, the id made from the account's name
 * and the current-year value it fills in on submit.
 */
module AmortizationForm {
  import opened Wrappers
  import opened Text
  import opened Numbers
  import opened Collections
  import opened Domain

  // ---------------------------------------------------------------------
  // The id slug

  /** The characters `[a-z0-9-]` an id keeps. */
  predicate SlugChar(c: char) {
    'a' <= c <= 'z' || '0' <= c <= '9' || c == '-'
  }

  /** `s.replace(/\s+/g, '-')`: every run of whitespace becomes one dash. */
  function DashRuns(s: string): (r: string)
    ensures SpaceFree(r)
    ensures SpaceFree(s) ==> r == s
    decreases |s|
  {
    if s == [] then []
    else if IsSpace(s[0]) then
      "-" + DashRuns(TrimStart(s))
    else [s[0]] + DashRuns(s[1..])
  }

  /**
   * `name.toLowerCase().replace(/\s+/g, '-').replace(/[^a-z0-9-]/g, '')`:
   * the id made from an account's name.
   */
  function Slug(name: string): (r: string)
    ensures forall i :: 0 <= i < |r| ==> SlugChar(r[i])
  {
    Filter(DashRuns(ToLower(name)), SlugChar)
  }

  /** Lower-casing leaves a slug character as it is. */
  lemma LowerSlugChar(s: string)
    requires forall i :: 0 <= i < |s| ==> SlugChar(s[i])
    ensures ToLower(s) == s
  {
    assert forall i :: 0 <= i < |s| ==> ToLower(s)[i] == s[i];
  }

  /** Slugging a slug changes nothing. */
  lemma SlugIdempotent(name: string)
    ensures Slug(Slug(name)) == Slug(name)
  {
    var s := Slug(name);
    LowerSlugChar(s);
    assert DashRuns(s) == s;
    FilterAll(s, SlugChar);
  }

  lemma DashRunsKeeps(c: char, s: string)
    requires !IsSpace(c)
    ensures DashRuns([c] + s) == [c] + DashRuns(s)
  {
    assert ([c] + s)[1..] == s;
  }

  lemma {:induction false} TrimStartRun(w: string, s: string)
    requires forall i :: 0 <= i < |w| ==> IsSpace(w[i])
    requires s == [] || !IsSpace(s[0])
    ensures TrimStart(w + s) == s
    decreases |w|
  {
    if w == [] {
      assert w + s == s;
    } else {
      assert (w + s)[1..] == w[1..] + s;
      TrimStartRun(w[1..], s);
    }
  }

  /** A run of whitespace between two words without whitespace becomes a single dash. */
  lemma {:induction false} DashRunsJoin(u: string, w: string, v: string)
    requires SpaceFree(u) && SpaceFree(v)
    requires w != [] && forall i :: 0 <= i < |w| ==> IsSpace(w[i])
    ensures DashRuns(u + w + v) == u + "-" + v
    decreases |u|
  {
    if u == [] {
      assert u + w + v == w + v;
      assert u + "-" + v == "-" + v;
      DashRunsRun(w, v);
    } else {
      var t := u[1..];
      assert forall i :: 0 <= i < |t| ==> t[i] == u[i + 1];
      assert u == [u[0]] + t;
      DashRunsJoin(t, w, v);
      ConsAssoc(u[0], t, w, v);
      ConsAssoc(u[0], t, "-", v);
      DashRunsKeeps(u[0], t + w + v);
    }
  }

  lemma ConsAssoc(c: char, t: string, w: string, v: string)
    ensures [c] + t + w + v == [c] + (t + w + v)
  {
  }

  /** A leading run of whitespace becomes one dash. */
  lemma DashRunsRun(w: string, v: string)
    requires w != [] && forall i :: 0 <= i < |w| ==> IsSpace(w[i])
    requires SpaceFree(v)
    ensures DashRuns(w + v) == "-" + v
  {
    assert (w + v)[0] == w[0];
    TrimStartRun(w, v);
  }

  /** Lower-casing leaves whitespace and slug characters as they are. */
  lemma LowerKeeps(s: string)
    requires forall i :: 0 <= i < |s| ==> SlugChar(s[i]) || IsSpace(s[i])
    ensures ToLower(s) == s
  {
    assert forall i :: 0 <= i < |s| ==> ToLower(s)[i] == s[i];
  }

  lemma DashJoinSlugChars(u: string, v: string)
    requires forall i :: 0 <= i < |u| ==> SlugChar(u[i])
    requires forall i :: 0 <= i < |v| ==> SlugChar(v[i])
    ensures forall i :: 0 <= i < |u + "-" + v| ==> SlugChar((u + "-" + v)[i])
  {
    var t := u + "-" + v;
    forall i | 0 <= i < |t|
      ensures SlugChar(t[i])
    {
      if i < |u| {
        assert t[i] == u[i];
      } else if i > |u| {
        assert t[i] == v[i - |u| - 1];
      }
    }
  }

  /** The slug of two slug words separated by whitespace joins them with one dash. */
  lemma SlugJoin(u: string, w: string, v: string)
    requires forall i :: 0 <= i < |u| ==> SlugChar(u[i])
    requires w != [] && forall i :: 0 <= i < |w| ==> IsSpace(w[i])
    requires forall i :: 0 <= i < |v| ==> SlugChar(v[i])
    ensures Slug(u + w + v) == u + "-" + v
  {
    var s := u + w + v;
    assert forall i :: 0 <= i < |s| ==> SlugChar(s[i]) || IsSpace(s[i]) by {
      forall i | 0 <= i < |s|
        ensures SlugChar(s[i]) || IsSpace(s[i])
      {
        if i < |u| {
          assert s[i] == u[i];
        } else if i < |u| + |w| {
          assert s[i] == w[i - |u|];
        } else {
          assert s[i] == v[i - |u| - |w|];
        }
      }
    }
    LowerKeeps(s);
    DashRunsJoin(u, w, v);
    var t := u + "-" + v;
    DashJoinSlugChars(u, v);
    FilterAll(t, SlugChar);
  }

  /**
   * A character that is neither whitespace, nor `[a-z0-9-]`, nor an
   * upper-case ASCII letter (an accented letter, a symbol) is dropped.
   */
  lemma SlugDrops(u: string, c: char, v: string)
    requires forall i :: 0 <= i < |u| ==> SlugChar(u[i])
    requires !SlugChar(c) && !IsSpace(c) && !('A' <= c <= 'Z')
    requires forall i :: 0 <= i < |v| ==> SlugChar(v[i])
    ensures Slug(u + [c] + v) == u + v
  {
    var s := u + [c] + v;
    assert ToLower(s) == s by {
      assert forall i :: 0 <= i < |s| ==> ToLower(s)[i] == s[i] by {
        forall i | 0 <= i < |s|
          ensures ToLower(s)[i] == s[i]
        {
          if i < |u| {
            assert s[i] == u[i];
          } else if i > |u| {
            assert s[i] == v[i - |u| - 1];
          }
        }
      }
    }
    assert DashRuns(s) == s by {
      forall i | 0 <= i < |s|
        ensures !IsSpace(s[i])
      {
        if i < |u| {
          assert s[i] == u[i];
        } else if i > |u| {
          assert s[i] == v[i - |u| - 1];
        }
      }
    }
    FilterAppend(u + [c], v, SlugChar);
    FilterAppend(u, [c], SlugChar);
    FilterAll(u, SlugChar);
    FilterAll(v, SlugChar);
    assert Filter([c], SlugChar) == [] by {
      assert [c][..0] == [];
    }
  }

  // ---------------------------------------------------------------------
  // The form's state

  /** The form's fields; the first two are number inputs. */
  datatype AccountField = TotalValue | AnnualAmount | Name | StartDate | EndDate

  /**
   * `getInitialState`: the account being edited, or a blank account
   * starting today with a zero value for the current year.
   */
  function Initial(editing: Option<Account>, currentYear: int, today: string): (r: Account)
    ensures editing.Some? ==> r == editing.value
    ensures editing.None? ==> r.id == "" && r.endDate == "" && r.startDate == today
    ensures editing.None? ==> r.annualValues == map[currentYear := 0.0] && r.annualAmount == 0.0 && r.totalValue == 0.0
  {
    if editing.Some? then editing.value
    else Account("", "", 0.0, today, "", 0.0, map[currentYear := 0.0])
  }

  /**
   * `handleChange`: the edited field takes the input's text, or, for a
   * number input, `parseFloat(value) || 0`; every other field stays.
   */
  function Changed(a: Account, field: AccountField, value: string): (r: Account)
    ensures field == TotalValue ==> r == a.(totalValue := OrZero(ParseFloat(value)))
    ensures field == AnnualAmount ==> r == a.(annualAmount := OrZero(ParseFloat(value)))
    ensures field == Name ==> r == a.(name := value)
    ensures field == StartDate ==> r == a.(startDate := value)
    ensures field == EndDate ==> r == a.(endDate := value)
  {
    match field
    case TotalValue => a.(totalValue := OrZero(ParseFloat(value)))
    case AnnualAmount => a.(annualAmount := OrZero(ParseFloat(value)))
    case Name => a.(name := value)
    case StartDate => a.(startDate := value)
    case EndDate => a.(endDate := value)
  }

  /** A number input reads the number its text starts with, and 0 from text that is not one. */
  lemma NumberInputExamples(a: Account)
    ensures Changed(a, TotalValue, "12abc").totalValue == 12.0
    ensures Changed(a, AnnualAmount, "-").annualAmount == 0.0
  {
    NumberOfRejectsTrailing();
    NotANumber();
  }

  /** The submitted id: the account's own, or the slug of its name. */
  function SubmitId(a: Account): (r: string)
    ensures a.id != "" ==> r == a.id
    ensures a.id == "" ==> r == Slug(a.name)
  {
    if a.id != "" then a.id else Slug(a.name)
  }

  /**
   * Whether submitting writes the annual amount into the current year: that
   * year is 0 or missing, the account is new, or its annual amount differs
   * from the edited account's.
   */
  predicate WritesCurrentYear(a: Account, editing: Option<Account>, currentYear: int) {
    Get(a.annualValues, currentYear) == 0.0 || editing.None? || editing.value.annualAmount != a.annualAmount
  }

  /** The account `handleSubmit` hands on. */
  function Submitted(a: Account, editing: Option<Account>, currentYear: int): (r: Account)
    ensures r.id == SubmitId(a)
    ensures WritesCurrentYear(a, editing, currentYear) ==> r.annualValues == a.annualValues[currentYear := a.annualAmount]
    ensures !WritesCurrentYear(a, editing, currentYear) ==> r.annualValues == a.annualValues
    ensures r.(id := a.id, annualValues := a.annualValues) == a
  {
    var values := if WritesCurrentYear(a, editing, currentYear) then a.annualValues[currentYear := a.annualAmount] else a.annualValues;
    a.(id := SubmitId(a), annualValues := values)
  }

  /**
   * Submitting touches only the current year: every other year keeps its
   * value, and afterwards the current year holds a non-zero value unless
   * the annual amount is 0.
   */
  lemma SubmitOnlyCurrentYear(a: Account, editing: Option<Account>, currentYear: int)
    ensures var r := Submitted(a, editing, currentYear);
            (forall y :: y != currentYear ==> (y in r.annualValues <==> y in a.annualValues))
            && (forall y :: y != currentYear && y in a.annualValues ==> r.annualValues[y] == a.annualValues[y])
            && (Get(r.annualValues, currentYear) != 0.0 || a.annualAmount == 0.0)
  {
  }

  /** A new account is submitted with its name's slug as id and its annual amount as the current year's value. */
  lemma NewAccountSubmit(currentYear: int, today: string, name: string, amount: real)
    ensures var a := Initial(None, currentYear, today).(name := name, annualAmount := amount);
            var r := Submitted(a, None, currentYear);
            r.id == Slug(name) && r.annualValues == map[currentYear := amount]
  {
  }

  /**
   * The form's state. Submitting writes the current year's value into the
   * map the form's account holds, so the form sees the write too.
   */
  class AccountForm {
    var account: Account
    const editing: Option<Account>

    constructor (editing: Option<Account>, currentYear: int, today: string)
      ensures account == Initial(editing, currentYear, today) && this.editing == editing
    {
      this.editing := editing;
      account := Initial(editing, currentYear, today);
    }

    method Change(field: AccountField, value: string)
      modifies this
      ensures account == Changed(old(account), field, value)
    {
      account := Changed(account, field, value);
    }

    /** `handleSubmit`. */
    method Submit(currentYear: int) returns (submitted: Account)
      modifies this
      ensures submitted == Submitted(old(account), editing, currentYear)
      ensures account == old(account).(annualValues := submitted.annualValues)
    {
      submitted := account.(id := SubmitId(account));
      if Get(submitted.annualValues, currentYear) == 0.0 || editing.None? || editing.value.annualAmount != submitted.annualAmount {
        var values := submitted.annualValues[currentYear := submitted.annualAmount];
        submitted := submitted.(annualValues := values);
        account := account.(annualValues := values);
      }
    }
  }
}
