/** The intent handler `recommend_portfolio` and the dispatcher `dispatch`.
    Each is given twice: as a function on snapshots of the request, which
    states what the response is, and as a method on the live request, which
    clears the violated slot in the caller's own slot dictionary and hands
    that same dictionary back, as the handler does. */
module Handler {
  import opened Wrappers
  import opened Builtins
  import opened Slots
  import opened Lex
  import opened Validator
  import opened Recommendation

  /** The one intent this handler serves. */
  const SupportedIntent := "recommendPortfolio"

  /** The invocation source of a call made while slots are being collected;
      any other source is treated as fulfillment. */
  const DialogCodeHook := "DialogCodeHook"

  const Fulfilled := "Fulfilled"

  /** The exceptions the handler can raise. */
  datatype Failure =
    | IntentNotSupported(intentName: string)  // raised by `dispatch`
    | RiskLevelMissing                        // `None.lower()` at fulfillment without a risk level
  {
    function Text(): string {
      match this
      case IntentNotSupported(name) => "Intent with name " + name + " not supported"
      case RiskLevelMissing => "'NoneType' object has no attribute 'lower'"
    }
  }

  /** How `str.format` renders a slot value: `None` becomes the text "None". */
  function FormatSlot(value: Option<string>): (r: string)
    ensures value.Some? ==> r == value.value
    ensures value.None? ==> r == "None"
  {
    match value
    case Some(s) => s
    case None => "None"
  }

  /** The text of the closing message: the fixed template, 94 characters
      long, with the risk level, the recommendation and the first name
      filled in, the risk level right after "Given your risk level - ". */
  function ClosingText(riskLevel: string, recommendation: string, firstName: Option<string>): (r: string)
    ensures |r| == 94 + |riskLevel| + |recommendation| + |FormatSlot(firstName)|
    ensures r[..24] == "Given your risk level - " && r[24..24 + |riskLevel|] == riskLevel
  {
    "Given your risk level - " + riskLevel + ". We recommend this investment: " + recommendation +
    ". Thank you, " + FormatSlot(firstName) + ", for using RoboAdvisor. "
  }

  // ---------------------------------------------------------------------
  // The responses, on snapshots

  /** `recommend_portfolio` on a snapshot of the request. */
  function PortfolioOutcome(request: Request<Slots>): (r: Result<Response<Slots>, Failure>)
    ensures request.invocationSource == DialogCodeHook ==>
      r.Success? && !r.value.Close? &&
      (r.value.ElicitSlot? <==> !Validate(request.slots).isValid)
    ensures r.Success? && r.value.ElicitSlot? ==>
      var v := Validate(request.slots);
      v.violatedSlot == Some(r.value.slotToElicit) && v.message == Some(r.value.message) &&
      r.value.slots.Get(r.value.slotToElicit) == None &&
      (forall other :: other != r.value.slotToElicit ==> r.value.slots.Get(other) == request.slots.Get(other)) &&
      r.value.sessionAttributes == request.sessionAttributes &&
      r.value.intentName == request.intentName
    ensures r.Success? && r.value.Delegate? ==>
      r.value.slots == request.slots &&
      r.value.sessionAttributes == Some(request.sessionAttributes.GetOr(map[]))
    ensures request.invocationSource != DialogCodeHook ==>
      (r.Failure? <==> request.slots.riskLevel == None) &&
      (r.Failure? ==> r.error == RiskLevelMissing) &&
      (r.Success? ==>
        var level := request.slots.riskLevel.value;
        r.value.Close? && r.value.fulfillmentState == Fulfilled &&
        r.value.sessionAttributes == request.sessionAttributes &&
        r.value.message == PlainText(ClosingText(level, InvestmentRecommendation(level), request.slots.firstName)))
  {
    var slots := request.slots;
    if request.invocationSource == DialogCodeHook then
      var v := Validate(slots);
      if !v.isValid then
        var violated := v.violatedSlot.value;
        Success(ElicitSlot(request.sessionAttributes, request.intentName, slots.With(violated, None), violated, v.message.value))
      else
        var session := if request.sessionAttributes.Some? then request.sessionAttributes.value else map[];
        Success(Delegate(Some(session), slots))
    else if slots.riskLevel.None? then
      Failure(RiskLevelMissing)
    else
      var recommendation := InvestmentRecommendation(slots.riskLevel.value);
      Success(Close(request.sessionAttributes, Fulfilled,
        PlainText(ClosingText(slots.riskLevel.value, recommendation, slots.firstName))))
  }

  /** `dispatch` on a snapshot of the request. */
  function DispatchOutcome(request: Request<Slots>): (r: Result<Response<Slots>, Failure>)
    ensures request.intentName != SupportedIntent ==> r == Failure(IntentNotSupported(request.intentName))
    ensures request.intentName == SupportedIntent ==> r == PortfolioOutcome(request)
  {
    if request.intentName == SupportedIntent then PortfolioOutcome(request)
    else Failure(IntentNotSupported(request.intentName))
  }

  // ---------------------------------------------------------------------
  // Properties of the responses

  /** The error `dispatch` raises names the unsupported intent. */
  lemma UnsupportedIntentNamed(request: Request<Slots>)
    requires request.intentName != SupportedIntent
    ensures DispatchOutcome(request).Failure?
    ensures Contains(DispatchOutcome(request).error.Text(), request.intentName)
  {
    ContainsEnd("Intent with name ", request.intentName);
    ContainsExtended("Intent with name " + request.intentName, request.intentName, " not supported");
  }

  /** The closing message mentions the risk level as given, the
      recommendation for it and the first name. */
  lemma ClosingTextMentions(riskLevel: string, recommendation: string, firstName: Option<string>)
    ensures Contains(ClosingText(riskLevel, recommendation, firstName), riskLevel)
    ensures Contains(ClosingText(riskLevel, recommendation, firstName), recommendation)
    ensures Contains(ClosingText(riskLevel, recommendation, firstName), FormatSlot(firstName))
  {
    var name := FormatSlot(firstName);
    var p1 := "Given your risk level - ";
    var p2 := ". We recommend this investment: ";
    var p3 := ". Thank you, ";
    var p4 := ", for using RoboAdvisor. ";
    ContainsEnd(p1, riskLevel);
    ContainsExtended(p1 + riskLevel, riskLevel, p2);
    ContainsExtended(p1 + riskLevel + p2, riskLevel, recommendation);
    ContainsEnd(p1 + riskLevel + p2, recommendation);
    ContainsExtended(p1 + riskLevel + p2 + recommendation, riskLevel, p3);
    ContainsExtended(p1 + riskLevel + p2 + recommendation, recommendation, p3);
    ContainsExtended(p1 + riskLevel + p2 + recommendation + p3, riskLevel, name);
    ContainsExtended(p1 + riskLevel + p2 + recommendation + p3, recommendation, name);
    ContainsEnd(p1 + riskLevel + p2 + recommendation + p3, name);
    var s := p1 + riskLevel + p2 + recommendation + p3 + name;
    ContainsExtended(s, riskLevel, p4);
    ContainsExtended(s, recommendation, p4);
    ContainsExtended(s, name, p4);
  }

  /** A fulfilled request that passed validation is closed with a non-empty
      recommendation, the one listed for its risk level. */
  lemma FulfillmentRecommends(request: Request<Slots>)
    requires request.intentName == SupportedIntent
    requires request.invocationSource != DialogCodeHook
    requires request.slots.riskLevel.Some? && Validate(request.slots).isValid
    ensures var r := DispatchOutcome(request);
      r.Success? && r.value.Close? &&
      Contains(r.value.message.content, Allocations[Lower(request.slots.riskLevel.value)]) &&
      Allocations[Lower(request.slots.riskLevel.value)] != ""
  {
    var level := request.slots.riskLevel.value;
    ClosingTextMentions(level, InvestmentRecommendation(level), request.slots.firstName);
  }

  // ---------------------------------------------------------------------
  // The handler on the live request

  function Snapshot(request: Request<SlotMap>): Request<Slots>
    reads request.slots
  {
    Request(request.intentName, request.invocationSource, request.slots.Value(), request.sessionAttributes)
  }

  /** The objects a response refers to: the slot dictionary, unless it is a
      Close response or an exception. */
  function Referenced(r: Result<Response<SlotMap>, Failure>): set<SlotMap> {
    if r.Success? && !r.value.Close? then {r.value.slots} else {}
  }

  /** A response with its slot dictionary read out. */
  function ResponseSnapshot(r: Result<Response<SlotMap>, Failure>): Result<Response<Slots>, Failure>
    reads Referenced(r)
  {
    match r
    case Failure(e) => Failure(e)
    case Success(ElicitSlot(session, name, slots, slot, message)) =>
      Success(ElicitSlot(session, name, slots.Value(), slot, message))
    case Success(Delegate(session, slots)) => Success(Delegate(session, slots.Value()))
    case Success(Close(session, state, message)) => Success(Close(session, state, message))
  }

  /** `recommend_portfolio`: the response is the one `PortfolioOutcome`
      describes; on ElicitSlot the violated slot has been cleared in the
      caller's dictionary, which the response refers to; otherwise the
      dictionary is left as it was. */
  method RecommendPortfolio(request: Request<SlotMap>) returns (r: Result<Response<SlotMap>, Failure>)
    modifies request.slots
    ensures ResponseSnapshot(r) == PortfolioOutcome(old(Snapshot(request)))
    ensures r.Success? && !r.value.Close? ==> r.value.slots == request.slots
    ensures request.slots.Value() ==
      if r.Success? && r.value.ElicitSlot? then old(request.slots.Value()).With(r.value.slotToElicit, None)
      else old(request.slots.Value())
  {
    var firstName := request.slots.firstName;
    var age := request.slots.age;
    var investmentAmount := request.slots.investmentAmount;
    var riskLevel := request.slots.riskLevel;
    if request.invocationSource == DialogCodeHook {
      var slots := request.slots;
      var v := ValidateData(firstName, age, investmentAmount, riskLevel);
      if !v.isValid {
        slots.Clear(v.violatedSlot.value);
        return Success(ElicitSlot(request.sessionAttributes, request.intentName, slots, v.violatedSlot.value, v.message.value));
      }
      var session := if request.sessionAttributes.Some? then request.sessionAttributes.value else map[];
      return Success(Delegate(Some(session), request.slots));
    }
    if riskLevel.None? {
      return Failure(RiskLevelMissing);
    }
    var recommendation := InvestmentRecommendation(riskLevel.value);
    return Success(Close(request.sessionAttributes, Fulfilled,
      PlainText(ClosingText(riskLevel.value, recommendation, firstName))));
  }

  /** `dispatch`: requests for any intent other than recommendPortfolio
      raise, and leave the slots alone; the rest go to the handler. */
  method Dispatch(request: Request<SlotMap>) returns (r: Result<Response<SlotMap>, Failure>)
    modifies request.slots
    ensures ResponseSnapshot(r) == DispatchOutcome(old(Snapshot(request)))
    ensures r.Success? && !r.value.Close? ==> r.value.slots == request.slots
    ensures request.slots.Value() ==
      if r.Success? && r.value.ElicitSlot? then old(request.slots.Value()).With(r.value.slotToElicit, None)
      else old(request.slots.Value())
  {
    if request.intentName == SupportedIntent {
      r := RecommendPortfolio(request);
      return;
    }
    return Failure(IntentNotSupported(request.intentName));
  }
}
