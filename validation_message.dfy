/**
 * The outcome class-validator reports for one rule on one field.
 */
module ValidationMessage {
  import opened Wrappers

  /** No message when the value passes the rule; the rule's message otherwise
      (every custom rule is applied without options, so it is the default one). */
  function Message(valid: bool, text: string): (m: Option<string>)
    ensures m.None? <==> valid
    ensures m.Some? ==> m.value == text
  {
    if valid then None else Some(text)
  }
}
