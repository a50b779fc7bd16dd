/** Single conversation turns: a request and the response it gets. */
module Scenarios {
  import opened Wrappers
  import opened Builtins
  import opened Slots
  import opened Lex
  import opened Validator
  import opened Recommendation
  import opened Handler

  /** Age 70 during slot collection: the age slot is re-elicited with the
      retirement message and cleared in the returned slots. */
  lemma RetirementAgeIsElicited()
    ensures DispatchOutcome(Request(SupportedIntent, DialogCodeHook, Slots(None, Some("70"), None, None), None))
      == Success(ElicitSlot(None, SupportedIntent, Slots(None, None, None, None), Age, PlainText(RetirementAgeMessage)))
  {
    IntOfSeventy();
    AgeAtRetirementIsElicited("70");
  }

  /** The same turn for any age text that `int()` reads as 70. */
  lemma AgeAtRetirementIsElicited(age: string)
    requires IntOf(age) == Some(70)
    ensures DispatchOutcome(Request(SupportedIntent, DialogCodeHook, Slots(None, Some(age), None, None), None))
      == Success(ElicitSlot(None, SupportedIntent, Slots(None, None, None, None), Age, PlainText(RetirementAgeMessage)))
  {
    AgeAloneAtRetirement(age);
  }

  lemma AgeAloneAtRetirement(age: string)
    requires IntOf(age) == Some(70)
    ensures ValidateData(None, Some(age), None, None)
      == ValidationResult(false, Some(Age), Some(PlainText(RetirementAgeMessage)))
  {
  }

  lemma IntOfSeventy()
    ensures IntOf("70") == Some(70)
  {
    assert DecimalValue("7") == 7;
    DecimalValueSnoc("7", '0');
    assert "7" + ['0'] == "70";
    IntOfDigits("70");
  }

  /** Every slot filled with an acceptable value: the dialog is delegated
      back with the slots unchanged and empty session attributes. */
  lemma ValidSlotsAreDelegated()
    ensures var slots := Slots(Some("Jane"), Some("40"), Some("10000"), Some("Medium"));
      DispatchOutcome(Request(SupportedIntent, DialogCodeHook, slots, None)) == Success(Delegate(Some(map[]), slots))
  {
    JaneIsValid();
  }

  lemma JaneIsValid()
    ensures Validate(Slots(Some("Jane"), Some("40"), Some("10000"), Some("Medium"))).isValid
  {
    var slots := Slots(Some("Jane"), Some("40"), Some("10000"), Some("Medium"));
    assert FirstNameAccepted(slots.firstName) by {
      assert IsAlpha("Jane");
    }
    assert AgeAccepted(slots.age) by {
      IntOfForty();
    }
    assert InvestmentAmountAccepted(slots.investmentAmount) by {
      IntOfTenThousand();
    }
    assert RiskLevelAccepted(slots.riskLevel) by {
      MediumIsRiskLevel();
    }
  }

  lemma MediumIsRiskLevel()
    ensures IsRiskLevel("Medium")
  {
    assert Lower("Medium")[0] == 'm';
    assert Lower("Medium") == "medium";
  }

  lemma IntOfForty()
    ensures IntOf("40") == Some(40)
  {
    assert DecimalValue("4") == 4;
    DecimalValueSnoc("4", '0');
    assert "4" + ['0'] == "40";
    IntOfDigits("40");
  }

  lemma IntOfTenThousand()
    ensures IntOf("10000") == Some(10000)
  {
    assert DecimalValue("1") == 1;
    DecimalValueSnoc("1", '0');
    assert "1" + ['0'] == "10";
    assert DecimalValue("10") == 10;
    DecimalValueSnoc("10", '0');
    assert "10" + ['0'] == "100";
    assert DecimalValue("100") == 100;
    DecimalValueSnoc("100", '0');
    assert "100" + ['0'] == "1000";
    assert DecimalValue("1000") == 1000;
    DecimalValueSnoc("1000", '0');
    assert "1000" + ['0'] == "10000";
    assert DecimalValue("10000") == 10000;
    IntOfDigits("10000");
  }

  /** Fulfillment for Sam at risk level "high": the intent is closed as
      fulfilled with a message naming the level, the 20/80 allocation and
      Sam. */
  lemma HighRiskIsFulfilled()
    ensures var r := DispatchOutcome(Request(SupportedIntent, "FulfillmentCodeHook", Slots(Some("Sam"), Some("30"), Some("6000"), Some("high")), None));
      r.Success? && r.value.Close? && r.value.fulfillmentState == "Fulfilled" &&
      Contains(r.value.message.content, "high") &&
      Contains(r.value.message.content, "20% bonds (AGG), 80% equities (SPY)") &&
      Contains(r.value.message.content, "Sam")
  {
    assert Lower("high") == "high";
    ClosingTextMentions("high", "20% bonds (AGG), 80% equities (SPY)", Some("Sam"));
  }

  /** Any other intent name raises the unsupported-intent error. */
  lemma OtherIntentIsRefused()
    ensures DispatchOutcome(Request("orderFlowers", DialogCodeHook, Slots(None, None, None, None), None))
      == Failure(IntentNotSupported("orderFlowers"))
    ensures IntentNotSupported("orderFlowers").Text() == "Intent with name orderFlowers not supported"
  {
    assert "orderFlowers"[0] != SupportedIntent[0];
  }

  /** An age of "abc" is not refused: it parses to NaN, which fails both
      bounds checks, and the dialog is delegated. */
  lemma NonNumericAgeIsDelegated()
    ensures var slots := Slots(None, Some("abc"), None, None);
      DispatchOutcome(Request(SupportedIntent, DialogCodeHook, slots, None)) == Success(Delegate(Some(map[]), slots))
  {
  }
}
