/** How an awaited call settles, and the two ways the hooks turn a thrown
    value into the message they store. */
module Outcomes {
  import opened Wrappers

  /** A thrown value: an `Error` instance always has a string message; any
      other value may or may not carry a `message` property. */
  datatype Thrown = ErrorInstance(message: string) | OtherValue(messageField: Option<string>)

  /** What an `await` produces: the resolved value, or the thrown value. */
  datatype Outcome<T> = Ok(value: T) | Err(thrown: Thrown)

  /** `err instanceof Error ? err.message : fallback`. An `Error` with an
      empty message yields "", not the fallback. */
  function InstanceMessageOr(t: Thrown, fallback: string): (m: string)
    ensures t.ErrorInstance? ==> m == t.message
    ensures t.OtherValue? ==> m == fallback
  {
    match t
    case ErrorInstance(msg) => msg
    case OtherValue(_) => fallback
  }

  /** `err.message || fallback`: any non-empty message is used, whether or not
      the value is an `Error`; a missing or empty one yields the fallback. */
  function TruthyMessageOr(t: Thrown, fallback: string): (m: string)
    ensures m == fallback || (m != "" && (t.ErrorInstance? ==> m == t.message) && (t.OtherValue? ==> t.messageField == Some(m)))
    ensures m == fallback <== (t.ErrorInstance? && t.message == "") || (t.OtherValue? && t.messageField.GetOr("") == "")
    ensures t.ErrorInstance? && t.message != "" ==> m == t.message
    ensures t.OtherValue? && t.messageField.GetOr("") != "" ==> m == t.messageField.value
    ensures fallback != "" ==> m != ""
  {
    match t
    case ErrorInstance(msg) => if msg != "" then msg else fallback
    case OtherValue(msg) => if msg.Some? && msg.value != "" then msg.value else fallback
  }

  /** The two rules agree on an `Error` with a message, and part where the
      hooks differ: an `Error` with an empty message, and a plain object that
      carries a message of its own. */
  lemma MessageRulesDiffer(t: Thrown, fallback: string)
    ensures t.ErrorInstance? ==>
      (InstanceMessageOr(t, fallback) == TruthyMessageOr(t, fallback) <==> t.message != "" || fallback == "")
    ensures t.OtherValue? ==>
      var same := InstanceMessageOr(t, fallback) == TruthyMessageOr(t, fallback);
      same <==> t.messageField.GetOr("") == "" || t.messageField.value == fallback
  {
  }
}
