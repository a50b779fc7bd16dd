/** The slots of the recommendPortfolio intent: their names, a slot map as a
    value, and the mutable slot dictionary the Lex request carries. */
module Slots {
  import opened Wrappers

  /** The four slots the intent collects. */
  datatype SlotName = FirstName | Age | InvestmentAmount | RiskLevel {
    /** The slot's key in the Lex slot dictionary. */
    function Key(): string {
      match this
      case FirstName => "firstName"
      case Age => "age"
      case InvestmentAmount => "investmentAmount"
      case RiskLevel => "riskLevel"
    }
  }

  /** A snapshot of the slot dictionary: each slot holds the text the user
      gave or `None` when it has not been collected yet. */
  datatype Slots = Slots(
    firstName: Option<string>,
    age: Option<string>,
    investmentAmount: Option<string>,
    riskLevel: Option<string>)
  {
    function Get(name: SlotName): Option<string> {
      match name
      case FirstName => firstName
      case Age => age
      case InvestmentAmount => investmentAmount
      case RiskLevel => riskLevel
    }

    /** The same slots with `name` set to `value`. */
    function With(name: SlotName, value: Option<string>): (r: Slots)
      ensures r.Get(name) == value
      ensures forall other :: other != name ==> r.Get(other) == Get(other)
    {
      match name
      case FirstName => this.(firstName := value)
      case Age => this.(age := value)
      case InvestmentAmount => this.(investmentAmount := value)
      case RiskLevel => this.(riskLevel := value)
    }
  }

  /** The slot dictionary of a request. The handler clears one of its
      entries in place and hands the same object back in its response. */
  class SlotMap {
    var firstName: Option<string>
    var age: Option<string>
    var investmentAmount: Option<string>
    var riskLevel: Option<string>

    function Value(): Slots
      reads this
    {
      Slots(firstName, age, investmentAmount, riskLevel)
    }

    constructor (slots: Slots)
      ensures Value() == slots
    {
      firstName := slots.firstName;
      age := slots.age;
      investmentAmount := slots.investmentAmount;
      riskLevel := slots.riskLevel;
    }

    /** `slots[name] = None`: the named slot is emptied, the others keep
        their values. */
    method Clear(name: SlotName)
      modifies this
      ensures Value() == old(Value()).With(name, None)
    {
      match name
      case FirstName => firstName := None;
      case Age => age := None;
      case InvestmentAmount => investmentAmount := None;
      case RiskLevel => riskLevel := None;
    }
  }
}
