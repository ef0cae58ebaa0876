/**
 * The validation gate: the `name` and `phone` rules of the yup schema, the
 * only two fields the submit handler ever passes to it, and what the handler's
 * `catch` makes of a rejection.
 */
module Validation {
  import opened Wrappers

  /** `yup.string().min(3)` on `name`. */
  const MIN_NAME_LENGTH := 3

  /** The message the handler shows when the rejection is not an `Error`. */
  const UNKNOWN_ERROR := "An unknown error occurred"

  /**
   * The rule a rejected candidate is reported for. The model checks name
   * before phone; which rule yup reports first is not part of the model.
   */
  datatype Violation = NameRequired | NameTooShort | PhoneRequired | PhoneNotPositive

  /**
   * The schema's promise stated as one predicate: a name of at least three
   * characters and a phone that is present and positive. Phones are integers
   * in this model, so the `integer()` rule always holds.
   */
  predicate Acceptable(name: string, phone: Option<int>) {
    |name| >= MIN_NAME_LENGTH && phone.Some? && phone.value > 0
  }

  /**
   * The schema's rules checked one at a time: no violation exactly when the
   * candidate is acceptable, and each reported violation is a rule the
   * candidate really breaks. The last clause states the model's own order
   * (a short name is reported before any phone rule).
   */
  function Validate(name: string, phone: Option<int>): (r: Option<Violation>)
    ensures r == None <==> Acceptable(name, phone)
    ensures r == Some(NameRequired) ==> name == ""
    ensures r == Some(NameTooShort) ==> 0 < |name| < MIN_NAME_LENGTH
    ensures r == Some(PhoneRequired) ==> phone == None
    ensures r == Some(PhoneNotPositive) ==> phone.Some? && phone.value <= 0
    ensures |name| < MIN_NAME_LENGTH ==> r == Some(NameRequired) || r == Some(NameTooShort)
  {
    if name == "" then Some(NameRequired)
    else if |name| < MIN_NAME_LENGTH then Some(NameTooShort)
    else if phone.None? then Some(PhoneRequired)
    else if phone.value <= 0 then Some(PhoneNotPositive)
    else None
  }

  /** The text of a `ValidationError` for each rule (yup's default wording); it starts with the field it is about. */
  function Message(v: Violation): (m: string)
    ensures m != ""
    ensures v.NameRequired? || v.NameTooShort? ==> "name" <= m
    ensures v.PhoneRequired? || v.PhoneNotPositive? ==> "phone" <= m
  {
    match v
    case NameRequired => "name is a required field"
    case NameTooShort => "name must be at least 3 characters"
    case PhoneRequired => "phone is a required field"
    case PhoneNotPositive => "phone must be a positive number"
  }

  /** What a rejected promise can carry: an `Error` object, or any other value. */
  datatype Thrown = ErrorValue(message: string) | OtherValue

  /** How the awaited `userSchema.validate(...)` settles. */
  datatype Settlement = Resolved | Rejected(reason: Thrown)

  /**
   * The awaited validation call: it resolves exactly when the candidate is
   * acceptable, and it rejects with an `Error` whose message is non-empty.
   */
  function Gate(name: string, phone: Option<int>): (s: Settlement)
    ensures s.Resolved? <==> Acceptable(name, phone)
    ensures s.Rejected? ==> s.reason.ErrorValue? && s.reason.message != ""
  {
    match Validate(name, phone)
    case None => Resolved
    case Some(v) => Rejected(ErrorValue(Message(v)))
  }

  /**
   * The `catch` block: an `Error` shows its own message; any other rejected
   * value shows the fixed, non-empty unknown-error text.
   */
  function CaughtMessage(t: Thrown): (m: string)
    ensures t.ErrorValue? ==> m == t.message
    ensures t.OtherValue? ==> m == UNKNOWN_ERROR && m != ""
  {
    match t
    case ErrorValue(message) => message
    case OtherValue => UNKNOWN_ERROR
  }

  /** A rejection from the gate always leaves a non-empty message to show. */
  lemma GateRejectionHasMessage(name: string, phone: Option<int>)
    requires !Acceptable(name, phone)
    ensures Gate(name, phone).Rejected?
    ensures CaughtMessage(Gate(name, phone).reason) != ""
    ensures CaughtMessage(Gate(name, phone).reason) != UNKNOWN_ERROR
  {
  }
}
