/**
 * The insert of a waitlist entry and the message its result is mapped to
 * (src/components/SuccessModal.tsx). The datastore call itself is outside the
 * model: its outcome is an input.
 */
module InsertResult {
  import opened Wrappers

  /** The row `{ alias, email }` inserted into the `waitlist` table. */
  datatype Entry = Entry(alias: string, email: string)

  /**
   * What the insert call produced: no error, an error object carrying a
   * Postgres `code` and possibly an HTTP `status`, or an exception.
   */
  datatype InsertOutcome = Ok | Err(code: string, status: Option<int>) | Thrown

  const ConflictMessage: string := "This email or alias has already been claimed."
  const GenericMessage: string := "Something went wrong. Please try again."
  const UnexpectedMessage: string := "An unexpected error occurred. Please try again."

  /** The unique-violation code of Postgres. */
  const UniqueViolationCode: string := "23505"
  /** The HTTP status for a conflict. */
  const ConflictStatus: int := 409

  /** The error shown after the insert, or `None` when the insert succeeded. */
  function FailureMessage(outcome: InsertOutcome): (r: Option<string>)
    ensures r == None <==> outcome == Ok
    ensures r.Some? ==> r.value != ""
    ensures outcome.Err? ==>
      (r == Some(ConflictMessage) <==> outcome.code == UniqueViolationCode || outcome.status == Some(ConflictStatus))
    ensures outcome.Err? ==> r == Some(ConflictMessage) || r == Some(GenericMessage)
    ensures outcome == Thrown ==> r == Some(UnexpectedMessage)
  {
    match outcome
    case Ok => None
    case Err(code, status) =>
      if code == UniqueViolationCode || status == Some(ConflictStatus) then Some(ConflictMessage)
      else Some(GenericMessage)
    case Thrown => Some(UnexpectedMessage)
  }

  /** A thrown error's message differs from every insert-error message. */
  lemma FailureKindsDistinguishable(o1: InsertOutcome, o2: InsertOutcome)
    requires o1 != Ok && o2 != Ok
    requires FailureMessage(o1) == FailureMessage(o2)
    ensures o1.Thrown? <==> o2.Thrown?
  {
  }
}
