/**
 * The success modal (src/components/SuccessModal.tsx): four state cells, the
 * submit handler that validates the e-mail, inserts the entry and maps the
 * result, and the close handler. The `alias` and `onClose` props come from the
 * page that renders the modal, so the modal keeps a reference to it.
 */
module Modal {
  import opened Wrappers
  import opened EmailRules
  import opened Lowercase
  import opened InsertResult
  import Page

  class SuccessModal {
    /** The page whose `alias` is the `alias` prop and whose `OnModalClose` is the `onClose` prop. */
    const page: Page.PageForm
    var email: string
    var isLoading: bool
    var error: string
    var isSuccess: bool

    /** The initial values of the four `useState` cells. */
    constructor (page: Page.PageForm)
      ensures this.page == page
      ensures email == "" && !isLoading && error == "" && !isSuccess
    {
      this.page := page;
      email := "";
      isLoading := false;
      error := "";
      isSuccess := false;
    }

    /** The e-mail input's change handler. */
    method SetEmail(value: string)
      modifies this`email
      ensures email == value
    {
      email := value;
    }

    /**
     * `handleSubmit`, run to completion with the insert's outcome given. It
     * returns the entry it asked the datastore to insert, if it got that far.
     */
    method HandleSubmit(outcome: InsertOutcome) returns (request: Option<Entry>)
      modifies this`error, this`isLoading, this`isSuccess
      ensures email == old(email) && page.alias == old(page.alias)
      // The insert is issued exactly when the e-mail passes both checks, and carries the lowered alias.
      ensures request.Some? <==> HasEmailFeatures(email)
      ensures request.Some? ==> request.value == Entry(ToLower(page.alias), email)
      // Validation failures: no insert, loading cleared, success untouched.
      ensures email == "" ==> error == EnterEmailMessage && !isLoading && isSuccess == old(isSuccess)
      ensures email != "" && !HasEmailFeatures(email) ==>
        error == InvalidEmailMessage && !isLoading && isSuccess == old(isSuccess)
      // Insert failures: the mapped message, loading cleared, success untouched.
      ensures HasEmailFeatures(email) && outcome != Ok ==>
        error == FailureMessage(outcome).value && !isLoading && isSuccess == old(isSuccess)
      // Success: no error, success shown, and the loading flag is left set.
      ensures HasEmailFeatures(email) && outcome == Ok ==> error == "" && isLoading && isSuccess
    {
      request := None;
      error := "";
      isLoading := true;

      if email == "" {
        error := EnterEmailMessage;
        isLoading := false;
        return;
      }

      EmailPatternIff(email);
      if !MatchesEmailPattern(email) {
        error := InvalidEmailMessage;
        isLoading := false;
        return;
      }

      request := Some(Entry(ToLower(page.alias), email));
      match outcome
      case Err(code, status) =>
        if code == UniqueViolationCode || status == Some(ConflictStatus) {
          error := ConflictMessage;
        } else {
          error := GenericMessage;
        }
        isLoading := false;
        return;
      case Ok =>
        isSuccess := true;
      case Thrown =>
        error := UnexpectedMessage;
        isLoading := false;
    }

    /**
     * `handleClose`: resets the four cells, whatever state the modal is in, and
     * then calls the page's `onClose`. Every cell of the modal and of the page
     * ends with a fixed value, so a second call leaves the state it found.
     */
    method HandleClose()
      modifies this, page
      ensures email == "" && !isLoading && error == "" && !isSuccess
      ensures !page.isModalOpen && page.alias == "" && page.error == ""
    {
      email := "";
      error := "";
      isSuccess := false;
      isLoading := false;
      page.OnModalClose();
    }
  }
}
