/** Slot validation for the recommendPortfolio intent: `parse_int`,
    `build_validation_result` and `validate_data`. */
module Validator {
  import opened Wrappers
  import opened Builtins
  import opened Slots
  import opened Lex

  // ---------------------------------------------------------------------
  // parse_int

  /** What `parse_int` returns: an integer, or the float NaN when `int()`
      raises `ValueError`. */
  datatype Number = Int(value: int) | NaN

  /** `parse_int`: what `int()` returns, or NaN where it raises. */
  function ParseInt(s: string): (r: Number)
  {
    match IntOf(s)
    case Some(n) => Int(n)
    case None => NaN
  }

  /** `x <= k` in Python; false when `x` is NaN. */
  predicate AtMost(x: Number, k: int)
  {
    x.Int? && x.value <= k
  }

  /** `x >= k` in Python; false when `x` is NaN. */
  predicate AtLeast(x: Number, k: int)
  {
    x.Int? && x.value >= k
  }

  /** Any integer written in decimal parses back to itself. */
  lemma ParseIntShowInt(n: int)
    ensures ParseInt(ShowInt(n)) == Int(n)
  {
    IntOfShowInt(n);
  }

  /** Text with a character that cannot belong to an integer literal parses
      to NaN instead of raising. */
  lemma ParseIntForeignChar(s: string, i: nat)
    requires i < |s|
    requires !IsSpace(s[i]) && !IsSign(s[i]) && !IsDigit(s[i]) && s[i] != '_'
    ensures ParseInt(s) == NaN
  {
    ForeignCharRejected(s, i);
  }

  // ---------------------------------------------------------------------
  // build_validation_result

  /** The result of validating the slots: `message` is absent exactly when
      no message text was given. */
  datatype ValidationResult = ValidationResult(
    isValid: bool,
    violatedSlot: Option<SlotName>,
    message: Option<Message>)

  function BuildValidationResult(isValid: bool, violatedSlot: Option<SlotName>, content: Option<string>): (r: ValidationResult)
    ensures r.isValid == isValid && r.violatedSlot == violatedSlot
    ensures r.message.Some? <==> content.Some?
    ensures content.Some? ==> r.message == Some(PlainText(content.value))
  {
    if content.None? then ValidationResult(isValid, violatedSlot, None)
    else ValidationResult(isValid, violatedSlot, Some(Message("PlainText", content.value)))
  }

  // ---------------------------------------------------------------------
  // validate_data

  const FirstNameMessage := "Please type your first name again. This should only consists of letters, and it cannot include numbers and/or special characters."
  const AgeInvalidMessage := "Your age is invalid. Please provide a different age."
  const RetirementAgeMessage := "You do not qualify to use this service because you are at the retirement age. Please provide a different age."
  const MinimumInvestmentMessage := "The amount you entered did not qualify for this service. We require a minimum of $5,000 investment. Please enter a new investment amount."
  const RiskLevelMessage := "Invalid input. Please choose your risk level from None, Low, Medium or High (all are case insensitive)."

  const MinimumInvestment := 5000
  const RetirementAge := 65

  /** The accepted risk levels, in lower case. */
  const RiskLevels: seq<string> := ["none", "low", "medium", "high"]

  /** `risk_level.lower() in ['none', 'low', 'medium', 'high']`. */
  predicate IsRiskLevel(s: string) {
    Lower(s) in RiskLevels
  }

  /** The rule for each slot, stated on its own. An absent slot always
      passes. An age or amount that is not an integer reaches the checks as
      NaN: every comparison with it is false, so such an age passes and such
      an amount fails. */
  predicate FirstNameAccepted(firstName: Option<string>) {
    firstName.None? || IsAlpha(firstName.value)
  }

  predicate AgeAccepted(age: Option<string>) {
    age.None? || IntOf(age.value).None? || 0 < IntOf(age.value).value < RetirementAge
  }

  predicate InvestmentAmountAccepted(amount: Option<string>) {
    amount.None? || (IntOf(amount.value).Some? && IntOf(amount.value).value >= MinimumInvestment)
  }

  predicate RiskLevelAccepted(riskLevel: Option<string>) {
    riskLevel.None? || IsRiskLevel(riskLevel.value)
  }

  /** `validate_data`: the slots are checked in the order first name, age,
      investment amount, risk level; the first slot that breaks its rule is
      reported with its message, and when none does the result is valid with
      no violated slot and no message. */
  function ValidateData(
    firstName: Option<string>,
    age: Option<string>,
    investmentAmount: Option<string>,
    riskLevel: Option<string>): (r: ValidationResult)
    ensures r.isValid <==>
      FirstNameAccepted(firstName) && AgeAccepted(age) &&
      InvestmentAmountAccepted(investmentAmount) && RiskLevelAccepted(riskLevel)
    ensures r.isValid ==> r.violatedSlot == None && r.message == None
    ensures !r.isValid ==> r.violatedSlot.Some? && r.message.Some?
    ensures r.violatedSlot == Some(FirstName) <==> !FirstNameAccepted(firstName)
    ensures r.violatedSlot == Some(Age) <==>
      FirstNameAccepted(firstName) && !AgeAccepted(age)
    ensures r.violatedSlot == Some(InvestmentAmount) <==>
      FirstNameAccepted(firstName) && AgeAccepted(age) && !InvestmentAmountAccepted(investmentAmount)
    ensures r.violatedSlot == Some(RiskLevel) <==>
      FirstNameAccepted(firstName) && AgeAccepted(age) && InvestmentAmountAccepted(investmentAmount) &&
      !RiskLevelAccepted(riskLevel)
    ensures r.violatedSlot == Some(FirstName) ==> r.message == Some(PlainText(FirstNameMessage))
    ensures r.violatedSlot == Some(Age) ==>
      age.Some? && IntOf(age.value).Some? &&
      r.message == Some(PlainText(if IntOf(age.value).value <= 0 then AgeInvalidMessage else RetirementAgeMessage))
    ensures r.violatedSlot == Some(InvestmentAmount) ==> r.message == Some(PlainText(MinimumInvestmentMessage))
    ensures r.violatedSlot == Some(RiskLevel) ==> r.message == Some(PlainText(RiskLevelMessage))
  {
    AgeChecks(age);
    InvestmentAmountCheck(investmentAmount);
    if firstName.Some? && !IsAlpha(firstName.value) then
      BuildValidationResult(false, Some(FirstName), Some(FirstNameMessage))
    else if age.Some? && AtMost(ParseInt(age.value), 0) then
      BuildValidationResult(false, Some(Age), Some(AgeInvalidMessage))
    else if age.Some? && AtLeast(ParseInt(age.value), RetirementAge) then
      BuildValidationResult(false, Some(Age), Some(RetirementAgeMessage))
    else if investmentAmount.Some? && !AtLeast(ParseInt(investmentAmount.value), MinimumInvestment) then
      BuildValidationResult(false, Some(InvestmentAmount), Some(MinimumInvestmentMessage))
    else if riskLevel.Some? && Lower(riskLevel.value) !in RiskLevels then
      BuildValidationResult(false, Some(RiskLevel), Some(RiskLevelMessage))
    else
      BuildValidationResult(true, None, None)
  }

  /** The two age checks of `validate_data` together are the age rule, and
      each picks its message by the sign of the parsed age. */
  lemma AgeChecks(age: Option<string>)
    ensures AgeAccepted(age) <==>
      !(age.Some? && (AtMost(ParseInt(age.value), 0) || AtLeast(ParseInt(age.value), RetirementAge)))
    ensures age.Some? && AtMost(ParseInt(age.value), 0) ==>
      IntOf(age.value).Some? && IntOf(age.value).value <= 0
    ensures age.Some? && AtLeast(ParseInt(age.value), RetirementAge) ==>
      IntOf(age.value).Some? && IntOf(age.value).value > 0
  {
  }

  /** The investment amount check of `validate_data` is the amount rule. */
  lemma InvestmentAmountCheck(amount: Option<string>)
    ensures InvestmentAmountAccepted(amount) <==>
      !(amount.Some? && !AtLeast(ParseInt(amount.value), MinimumInvestment))
  {
  }

  /** `validate_data` applied to a slot dictionary snapshot. */
  function Validate(slots: Slots): ValidationResult {
    ValidateData(slots.firstName, slots.age, slots.investmentAmount, slots.riskLevel)
  }

  // ---------------------------------------------------------------------
  // Properties of validate_data

  /** The risk level check is case-insensitive: a risk level passes exactly
      when it equals one of the four words ignoring case. */
  lemma IsRiskLevelIgnoresCase(s: string)
    ensures IsRiskLevel(s) <==> exists w :: w in RiskLevels && EqualIgnoringCase(s, w)
  {
    RiskLevelsLowerCase();
    forall w | w in RiskLevels ensures Lower(s) == w <==> EqualIgnoringCase(s, w) {
      LowerEqualsWord(s, w);
    }
  }

  lemma RiskLevelsLowerCase()
    ensures forall w :: w in RiskLevels ==> Lower(w) == w
  {
    forall w | w in RiskLevels
      ensures Lower(w) == w
    {
      assert w == "none" || w == "low" || w == "medium" || w == "high";
      LowerKeepsLowerCase(w);
    }
  }

  lemma LowerKeepsLowerCase(w: string)
    requires forall i :: 0 <= i < |w| ==> 'a' <= w[i] <= 'z'
    ensures Lower(w) == w
  {
  }

  /** An age given as the decimal form of an integer `n` is accepted exactly
      when 0 < n < 65; otherwise it is the reported violation (once the
      first name has passed) with the invalid-age message for n <= 0 and
      the retirement message for n >= 65. */
  lemma NumericAge(firstName: Option<string>, n: int, investmentAmount: Option<string>, riskLevel: Option<string>)
    requires FirstNameAccepted(firstName)
    ensures var r := ValidateData(firstName, Some(ShowInt(n)), investmentAmount, riskLevel);
      (r.violatedSlot == Some(Age) <==> n <= 0 || n >= 65) &&
      (n <= 0 ==> r.message == Some(PlainText(AgeInvalidMessage))) &&
      (n >= 65 ==> r.message == Some(PlainText(RetirementAgeMessage)))
  {
    IntOfShowInt(n);
  }

  /** An investment amount given as the decimal form of an integer `n` is
      accepted exactly when n >= 5000; otherwise, once the first name and
      age have passed, it is the reported violation with the $5,000
      message. */
  lemma NumericInvestmentAmount(firstName: Option<string>, age: Option<string>, n: int, riskLevel: Option<string>)
    requires FirstNameAccepted(firstName) && AgeAccepted(age)
    ensures var r := ValidateData(firstName, age, Some(ShowInt(n)), riskLevel);
      (r.violatedSlot == Some(InvestmentAmount) <==> n < 5000) &&
      (n < 5000 ==> r.message == Some(PlainText(MinimumInvestmentMessage)))
  {
    IntOfShowInt(n);
  }

  /** A non-numeric age is not an error and is not rejected: it parses to
      NaN, which fails both `age <= 0` and `age >= 65`, so validation goes
      on as if there were no age. */
  lemma NonNumericAgePasses(firstName: Option<string>, age: string, investmentAmount: Option<string>, riskLevel: Option<string>)
    requires ParseInt(age) == NaN
    ensures var r := ValidateData(firstName, Some(age), investmentAmount, riskLevel);
      r.violatedSlot != Some(Age) &&
      r == ValidateData(firstName, None, investmentAmount, riskLevel)
  {
  }

  /** A non-numeric investment amount is rejected with the $5,000 message
      once the first name and age have passed: NaN fails `>= 5000`. */
  lemma NonNumericInvestmentAmountFails(firstName: Option<string>, age: Option<string>, amount: string, riskLevel: Option<string>)
    requires FirstNameAccepted(firstName) && AgeAccepted(age)
    requires ParseInt(amount) == NaN
    ensures var r := ValidateData(firstName, age, Some(amount), riskLevel);
      r.violatedSlot == Some(InvestmentAmount) && r.message == Some(PlainText(MinimumInvestmentMessage))
  {
  }

  /** Text that `int()` refuses reaches the checks as NaN, whatever the
      reason: blank text, a lone sign, two underscores in a row, whitespace
      inside the number. */
  lemma ParseIntRejects()
    ensures ParseInt("") == NaN
    ensures ParseInt("+") == NaN
    ensures ParseInt("1__0") == NaN
    ensures ParseInt("12 34") == NaN
  {
    BlankRejected("");
    LoneSignExample();
    DoubleUnderscoreExample();
    InnerSpaceExample();
  }

  lemma LoneSignExample()
    ensures IntOf("+") == None
  {
    assert "+" == [] + ['+'] + [];
    LoneSignRejected([], '+', []);
  }

  lemma DoubleUnderscoreExample()
    ensures IntOf("1__0") == None
  {
    var grouped := "1__0";
    assert grouped[1] == '_' && grouped[2] == '_';
    DoubleUnderscoreRejected(grouped, 1);
  }

  lemma InnerSpaceExample()
    ensures IntOf("12 34") == None
  {
    var spaced := "12 34";
    assert spaced[1] == '2' && spaced[2] == ' ' && spaced[3] == '3';
    InnerSpaceRejected(spaced, 1, 2, 3);
  }
}
