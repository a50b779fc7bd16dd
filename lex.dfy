/** The shapes of the Lex (V1) messages the handler receives and returns. */
module Lex {
  import opened Wrappers
  import opened Slots

  /** A message shown to the user. */
  datatype Message = Message(contentType: string, content: string)

  function PlainText(content: string): Message {
    Message("PlainText", content)
  }

  /** Session attributes: opaque key/value pairs owned by the caller. */
  type Attributes = map<string, string>

  /** An intent request: the current intent's name, the invocation source,
      the slot dictionary and the session attributes (`None` when the
      caller sent null). `S` is the slot dictionary itself (a `SlotMap`)
      or a snapshot of it (`Slots`). */
  datatype Request<S> = Request(
    intentName: string,
    invocationSource: string,
    slots: S,
    sessionAttributes: Option<Attributes>)

  /** The three dialog actions the handler can answer with; their
      constructors are the builders `elicit_slot`, `delegate` and `close`,
      and the constructor stands for the dialog action's `type` key. */
  datatype Response<S> =
    | ElicitSlot(
        sessionAttributes: Option<Attributes>,
        intentName: string,
        slots: S,
        slotToElicit: SlotName,
        message: Message)
    | Delegate(sessionAttributes: Option<Attributes>, slots: S)
    | Close(sessionAttributes: Option<Attributes>, fulfillmentState: string, message: Message)
}
