/**
 * The form of src/components/dashboard/AddRepositoryModal.tsx: the url
 * field, the loading flag, the error message, the submit handler around the
 * caller's `onSubmit`, and when the two buttons are disabled. The await on
 * `onSubmit` splits the handler in two: `BeginSubmit` runs up to the await,
 * `FinishSubmit` after it with the outcome of the caller's promise.
 */
module AddRepositoryModal {
  import opened Optional
  import opened Text

  const FailureMessage: string := "Failed to add repository. Please try again."

  /** The Add button is disabled while loading or for the empty url; a blank but non-empty url still enables it. */
  predicate SubmitDisabled(isLoading: bool, url: string)
  {
    isLoading || url == ""
  }

  /** `disabled={isLoading}` on Cancel. */
  predicate CancelDisabled(isLoading: bool)
  {
    isLoading
  }

  /** A url of spaces enables the button, yet submitting it does nothing. */
  lemma BlankUrlEnablesSubmit()
    ensures !SubmitDisabled(false, " ") && IsBlank(" ")
  {
    assert IsJsWhitespace(" "[0]);
  }

  class Form {
    var url: string
    var isLoading: bool
    var error: string

    /** The three `useState` hooks. */
    constructor ()
      ensures url == "" && !isLoading && error == ""
    {
      url := "";
      isLoading := false;
      error := "";
    }

    /** The input's `onChange`. */
    method SetUrl(value: string)
      modifies this
      ensures url == value && isLoading == old(isLoading) && error == old(error)
    {
      url := value;
    }

    /**
     * `handleSubmit` up to the await: a blank url (`!url.trim()`) returns at
     * once and changes nothing; otherwise loading starts, the error clears and
     * the url goes to `onSubmit`.
     */
    method BeginSubmit() returns (submitted: Option<string>)
      modifies this
      ensures IsBlank(old(url)) ==> submitted == None && url == old(url) && isLoading == old(isLoading) && error == old(error)
      ensures !IsBlank(old(url)) ==> submitted == Some(old(url)) && url == old(url) && isLoading && error == ""
    {
      if IsBlank(url) {
        return None;
      }
      isLoading := true;
      error := "";
      submitted := Some(url);
    }

    /**
     * `handleSubmit` after the await: success clears the url and asks the
     * modal to close, failure shows the message and keeps the url; loading
     * ends either way (`finally`).
     */
    method FinishSubmit(succeeded: bool) returns (closeRequested: bool)
      modifies this
      ensures !isLoading
      ensures closeRequested == succeeded
      ensures succeeded ==> url == "" && error == old(error)
      ensures !succeeded ==> url == old(url) && error == FailureMessage
    {
      if succeeded {
        url := "";
        closeRequested := true;
      } else {
        error := FailureMessage;
        closeRequested := false;
      }
      isLoading := false;
    }

    /** A whole submission when the url is not edited while `onSubmit` runs. */
    method HandleSubmit(succeeded: bool) returns (submitted: Option<string>, closeRequested: bool)
      modifies this
      ensures IsBlank(old(url)) ==> submitted == None && !closeRequested
      ensures IsBlank(old(url)) ==> url == old(url) && isLoading == old(isLoading) && error == old(error)
      ensures !IsBlank(old(url)) ==> submitted == Some(old(url)) && closeRequested == succeeded && !isLoading
      ensures !IsBlank(old(url)) && succeeded ==> url == "" && error == ""
      ensures !IsBlank(old(url)) && !succeeded ==> url == old(url) && error == FailureMessage
    {
      submitted := BeginSubmit();
      closeRequested := false;
      if submitted.Some? {
        closeRequested := FinishSubmit(succeeded);
      }
    }

    /** Whether the submit button is disabled in the current state. */
    predicate SubmitButtonDisabled()
      reads this
    {
      SubmitDisabled(isLoading, url)
    }
  }

  /** While a submission is pending both buttons are disabled; a failed one leaves Add enabled to retry. */
  lemma ButtonsWhileLoading(url: string)
    ensures SubmitDisabled(true, url) && CancelDisabled(true)
    ensures url != "" ==> !SubmitDisabled(false, url)
  {
  }
}
