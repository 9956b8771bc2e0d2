/**
 * The amortisation page (src/pages/Amortization.tsx): the accounts split
 * into those still running in the study year and the completed ones, and
 * the handlers that change the page's account list.
 */
module Amortization {
  import opened Wrappers
  import opened Text
  import opened Collections
  import opened Domain
  import opened Dates
  import opened Activity

  /**
   * `isActive`: an account without an end date runs; one with an end date
   * runs while that date is on or after 1 January of the study year.
   */
  predicate IsActive(a: Account, studyYear: int, native: string -> Option<Date>) {
    a.endDate == "" || !Earlier(ParseDate(a.endDate, native), YearStart(studyYear))
  }

  function Running(studyYear: int, native: string -> Option<Date>): Account -> bool {
    (a: Account) => IsActive(a, studyYear, native)
  }

  function Finished(studyYear: int, native: string -> Option<Date>): Account -> bool {
    (a: Account) => !IsActive(a, studyYear, native)
  }

  /** `accounts.filter(isActive)`. */
  function ActiveAccounts(accounts: seq<Account>, studyYear: int, native: string -> Option<Date>): (r: seq<Account>)
    ensures forall i :: 0 <= i < |r| ==> r[i] in accounts && IsActive(r[i], studyYear, native)
    ensures forall i :: 0 <= i < |accounts| && IsActive(accounts[i], studyYear, native) ==> accounts[i] in r
  {
    Filter(accounts, Running(studyYear, native))
  }

  /** `accounts.filter(acc => !isActive(acc))`. */
  function CompletedAccounts(accounts: seq<Account>, studyYear: int, native: string -> Option<Date>): (r: seq<Account>)
    ensures forall i :: 0 <= i < |r| ==> r[i] in accounts && !IsActive(r[i], studyYear, native)
    ensures forall i :: 0 <= i < |accounts| && !IsActive(accounts[i], studyYear, native) ==> accounts[i] in r
  {
    Filter(accounts, Finished(studyYear, native))
  }

  /** The two lists partition the accounts: each account is in exactly one of them. */
  lemma ActiveCompletedPartition(accounts: seq<Account>, studyYear: int, native: string -> Option<Date>)
    ensures |ActiveAccounts(accounts, studyYear, native)| + |CompletedAccounts(accounts, studyYear, native)| == |accounts|
    ensures forall i :: 0 <= i < |accounts| ==>
      (accounts[i] in ActiveAccounts(accounts, studyYear, native)) != (accounts[i] in CompletedAccounts(accounts, studyYear, native))
  {
    FilterComplementCount(accounts, Running(studyYear, native), Finished(studyYear, native));
  }

  /**
   * An account whose end date is written as YYYY-MM-DD runs in the study
   * year exactly when it ends in that year or a later one.
   */
  lemma ActiveIffEndYear(a: Account, d: Date, studyYear: int, native: string -> Option<Date>)
    requires ValidDate(d) && 1000 <= d.year <= 9999 && a.endDate == IsoText(d)
    ensures IsActive(a, studyYear, native) <==> d.year >= JsYear(studyYear)
  {
    ParseDateIso(d, native);
    assert a.endDate != "" by {
      assert |IsoText(d)| >= 1;
    }
  }

  /** The accounts with id `id` get `values` as their annual values; the rest stay. */
  function WithValues(accounts: seq<Account>, id: string, values: map<int, real>): (r: seq<Account>)
    ensures |r| == |accounts|
    ensures forall i :: 0 <= i < |accounts| && accounts[i].id != id ==> r[i] == accounts[i]
    ensures forall i :: 0 <= i < |accounts| && accounts[i].id == id ==> r[i] == accounts[i].(annualValues := values)
  {
    MapSeq(accounts, (a: Account) => if a.id == id then a.(annualValues := values) else a)
  }

  /**
   * The account `handleEndAmortization` submits for the prompt's answer:
   * none when the prompt is cancelled or left empty.
   */
  function Ended(a: Account, answer: Option<string>): (r: Option<Account>)
    ensures r.Some? <==> answer.Some? && answer.value != ""
    ensures r.Some? ==> r.value.endDate == answer.value && r.value.(endDate := a.endDate) == a
  {
    if answer.Some? && answer.value != "" then Some(a.(endDate := answer.value)) else None
  }

  /** The page's list of accounts. */
  class AmortizationPage {
    var accounts: seq<Account>

    constructor (loaded: seq<Account>)
      ensures accounts == loaded
    {
      accounts := loaded;
    }

    /**
     * `handleSubmitAccount`: after a successful upsert the list is the
     * sheet's list read back (`reloaded`); after a failed one it stays.
     */
    method SubmitAccount(a: Account, ok: bool, reloaded: seq<Account>)
      modifies this
      ensures ok ==> accounts == reloaded
      ensures !ok ==> accounts == old(accounts)
    {
      if ok {
        accounts := reloaded;
      }
    }

    /**
     * `handleEndAmortization`: the account with the prompted end date is
     * submitted; a cancelled or empty answer submits nothing.
     */
    method EndAmortization(a: Account, answer: Option<string>, ok: bool, reloaded: seq<Account>)
      returns (submitted: Option<Account>)
      modifies this
      ensures submitted == Ended(a, answer)
      ensures submitted.Some? && ok ==> accounts == reloaded
      ensures submitted.None? || !ok ==> accounts == old(accounts)
    {
      submitted := Ended(a, answer);
      if submitted.Some? {
        SubmitAccount(submitted.value, ok, reloaded);
      }
    }

    /**
     * `handleUpdateAnnualValue`: the annual values of the first account
     * with the id, with `year` set to `value`, are sent to the sheet
     * (`sent`); only when the update succeeds (`ok`) does the list change.
     * An unknown id sends nothing and changes nothing.
     */
    method UpdateAnnualValue(id: string, year: int, value: real, ok: bool) returns (sent: Option<map<int, real>>)
      modifies this
      ensures var found := Find(old(accounts), (a: Account) => a.id == id);
              sent == (if found.Some? then Some(found.value.annualValues[year := value]) else None)
      ensures sent.Some? && ok ==> accounts == WithValues(old(accounts), id, sent.value)
      ensures sent.None? || !ok ==> accounts == old(accounts)
    {
      var found := Find(accounts, (a: Account) => a.id == id);
      if found.None? {
        return None;
      }
      var updatedValues := found.value.annualValues[year := value];
      sent := Some(updatedValues);
      if ok {
        accounts := WithValues(accounts, id, updatedValues);
      }
    }
  }

  /**
   * The annual-value update changes nothing but one year's value of the
   * accounts with that id, which all get the first such account's map.
   */
  lemma AnnualValueOnlyThatYear(accounts: seq<Account>, id: string, year: int, value: real, i: nat)
    requires i < |accounts| && accounts[i].id == id
    ensures var r := WithValues(accounts, id, accounts[i].annualValues[year := value]);
            r[i].annualValues[year] == value
            && (forall y :: y != year ==> (y in r[i].annualValues <==> y in accounts[i].annualValues))
            && (forall y :: y != year && y in accounts[i].annualValues ==> r[i].annualValues[y] == accounts[i].annualValues[y])
            && r[i].(annualValues := accounts[i].annualValues) == accounts[i]
            && (forall j :: 0 <= j < |accounts| && accounts[j].id != id ==> r[j] == accounts[j])
  {
  }

  /**
   * An annual-value update moves no account between the active and the
   * completed list: the active list after the update is the active list
   * before it, updated.
   */
  lemma UpdateKeepsActive(accounts: seq<Account>, id: string, values: map<int, real>, studyYear: int, native: string -> Option<Date>)
    ensures ActiveAccounts(WithValues(accounts, id, values), studyYear, native)
         == WithValues(ActiveAccounts(accounts, studyYear, native), id, values)
  {
    var p := Running(studyYear, native);
    FilterMapSeq(accounts, (a: Account) => if a.id == id then a.(annualValues := values) else a, p);
  }

  /**
   * Ending an account with a date before the study year, written as
   * YYYY-MM-DD, moves it to the completed list; a date in the study year
   * or later keeps it active.
   */
  lemma EndedCompletedIff(a: Account, d: Date, studyYear: int, native: string -> Option<Date>)
    requires ValidDate(d) && 1000 <= d.year <= 9999
    ensures Ended(a, Some(IsoText(d))).Some?
    ensures !IsActive(Ended(a, Some(IsoText(d))).value, studyYear, native) <==> d.year < JsYear(studyYear)
  {
    assert |IsoText(d)| >= 1;
    ActiveIffEndYear(a.(endDate := IsoText(d)), d, studyYear, native);
  }
}
