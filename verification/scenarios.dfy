/** A worked run of the form from mounting to submission. */
module Scenarios {
  import opened Optional
  import opened NumberText
  import opened Schema
  import opened Entries
  import opened LedForm

  const Banks: Config := Config(map["ABC Bank" := ["Kampala", "Jinja"]], ["Original", "Amended"])

  function Expected(rate: string): Record
  {
    Record(
      Some("1234567890"), Text(rate), Some(DateRange(Some(1), Some(30))),
      Some("ABC Bank"), Some("Kampala"), Some("AC12345"), Some("Original"),
      map[], [Entry(Num(2.0), Num(50000.0), "Withdrawal")])
  }

  /**
   * From the mounted form: type the TIN, pick a range, type the rate, pick the
   * bank and a branch, type the account number, choose a status, stage a count
   * and an amount, press "Add".
   */
  function Filled(rate: string, count: string, amount: string): FormState
  {
    var s3 := Edit(Edit(Edit(Init, TinText("1234567890")), Dates(DateRange(Some(1), Some(30)))), ExchangeRateText(rate));
    var s4 := SelectBank(Banks, s3, "ABC Bank");
    assert OfferedBranches(s4) == ["Kampala", "Jinja"];
    var s7 := Edit(Edit(SelectBranch(s4, "Kampala"), AccountNumberText("AC12345")), ReturnStatusChoice("Original"));
    Add(TypeAmount(TypeCount(s7, count), amount))
  }

  lemma FilledValues(rate: string, count: string, amount: string)
    requires JsNumber(count) == Some(2.0) && JsNumber(amount) == Some(50000.0)
    ensures Filled(rate, count, amount).values == Expected(rate)
    ensures Filled(rate, count, amount).slot == DefaultSlot
  {
    assert StagedCount(0, count) == 2;
    assert StagedAmount(0.0, amount) == 50000.0;
  }

  lemma ExpectedValid(rate: string)
    requires JsNumber(rate) == Some(3750.0)
    ensures Valid(Expected(rate))
  {
    var r := Expected(rate);
    assert TinOk(r) by { TinSample(); }
    assert AccountNumberOk(r) by { AccountSample(); }
    assert ExchangeRateOk(r);
    assert EntriesOk(r.entries) by {
      assert EntryOk(r.entries[0]);
    }
  }

  lemma TinSample()
    ensures IsTin("1234567890")
  {
  }

  lemma AccountSample()
    ensures IsAccountNumber("AC12345")
  {
  }

  /**
   * Filling in every required field (exchange rate 3750) and adding one entry
   * of 2 withdrawals of 50000 is accepted, and the submitted record holds
   * exactly those values with no usage figure set.
   */
  lemma FilledFormIsAccepted(rate: string, count: string, amount: string)
    requires JsNumber(rate) == Some(3750.0)
    requires JsNumber(count) == Some(2.0) && JsNumber(amount) == Some(50000.0)
    ensures Submit(Filled(rate, count, amount)).outcome == Accepted(Expected(rate))
  {
    FilledValues(rate, count, amount);
    ExpectedValid(rate);
  }

  /** The texts of the worked run read as the numbers it needs. */
  lemma RateTextReads()
    ensures JsNumber("3750") == Some(3750.0)
  {
    assert ShowNat(3) == "3";
    assert ShowNat(37) == "37";
    assert ShowNat(375) == "375";
    assert ShowNat(3750) == "3750";
    ShowIntNumber(3750);
  }

  lemma CountTextReads()
    ensures JsNumber("2") == Some(2.0)
  {
    ShowIntNumber(2);
    assert ShowInt(2) == "2";
  }

  lemma AmountTextReads()
    ensures JsNumber("50000") == Some(50000.0)
  {
    assert ShowNat(5) == "5";
    assert ShowNat(50) == "50";
    assert ShowNat(500) == "500";
    assert ShowNat(5000) == "5000";
    assert ShowNat(50000) == "50000";
    ShowIntNumber(50000);
  }
}
