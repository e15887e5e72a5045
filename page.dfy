/**
 * The waitlist page (src/App.tsx): three state cells, the claim handler that
 * validates the alias and opens the modal, and the close callback handed to
 * the modal.
 */
module Page {
  import opened AliasRules

  class PageForm {
    var alias: string
    var isModalOpen: bool
    var error: string

    /** The initial values of the three `useState` cells. */
    constructor ()
      ensures alias == "" && !isModalOpen && error == ""
    {
      alias := "";
      isModalOpen := false;
      error := "";
    }

    /** The alias input's change handler. */
    method SetAlias(value: string)
      modifies this`alias
      ensures alias == value
    {
      alias := value;
    }

    /**
     * `handleClaimClick`: clears the error, refuses an empty alias, then an
     * alias with a character outside the class, and otherwise opens the modal.
     * The alias itself is never touched.
     */
    method HandleClaimClick()
      modifies this`error, this`isModalOpen
      ensures alias == old(alias)
      ensures error == ClaimError(alias)
      ensures alias == "" ==> error == EnterAliasMessage && isModalOpen == old(isModalOpen)
      ensures alias != "" && !AllAliasChars(alias) ==> error == InvalidAliasMessage && isModalOpen == old(isModalOpen)
      ensures |alias| > 0 && AllAliasChars(alias) ==> error == "" && isModalOpen
      ensures isModalOpen && !old(isModalOpen) ==> |alias| > 0 && AllAliasChars(alias)
    {
      error := "";
      if alias == "" {
        error := EnterAliasMessage;
        return;
      }
      if !MatchesAliasPattern(alias) {
        error := InvalidAliasMessage;
        return;
      }
      isModalOpen := true;
    }

    /** The `onClose` callback given to the modal: closes it and clears the alias and the error. */
    method OnModalClose()
      modifies this
      ensures !isModalOpen && alias == "" && error == ""
    {
      isModalOpen := false;
      alias := "";
      error := "";
    }
  }
}
