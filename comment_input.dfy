/**
 * The comment box under a post (src/components/comments/commentInput.tsx): a
 * length-capped text field, an "ask AI" switch, a focus flag, and the submit
 * that hands the trimmed comment to the parent.
 */
module CommentInput {
  import opened Wrappers
  import opened JsText

  const MaxCommentLength: nat := 500
  const EnterKey := "Enter"

  /** The parts of a keyboard event the handler looks at. */
  datatype KeyEvent = KeyEvent(key: string, ctrlKey: bool, metaKey: bool)

  /** Ctrl+Enter or Cmd+Enter. */
  predicate IsSendShortcut(e: KeyEvent)
  {
    e.key == EnterKey && (e.ctrlKey || e.metaKey)
  }

  /** What the parent's `onCommentSubmit` receives: the comment and the switch. */
  datatype Submission = Submission(comment: string, askAI: bool)

  /**
   * A comment that the guard lets through is non-blank, within the cap and has
   * no surrounding white space.
   */
  lemma SubmittedCommentShape(comment: string)
    requires |comment| <= MaxCommentLength && Trim(comment) != []
    ensures 0 < |Trim(comment)| <= MaxCommentLength
    ensures !IsTrimmable(Trim(comment)[0]) && !IsTrimmable(Trim(comment)[|Trim(comment)| - 1])
    ensures Trim(Trim(comment)) == Trim(comment)
  {
    TrimIdempotent(comment);
  }

  class CommentBox {
    var comment: string
    var askAI: bool
    var isFocused: bool

    /** The cap is never exceeded. */
    ghost predicate Valid()
      reads this
    {
      |comment| <= MaxCommentLength
    }

    constructor()
      ensures Valid() && comment == [] && !askAI && !isFocused
    {
      comment := [];
      askAI := false;
      isFocused := false;
    }

    /** The send button is disabled exactly when there is nothing to send or a send is running. */
    predicate SendDisabled(isLoading: bool)
      reads this
    {
      Trim(comment) == [] || isLoading
    }

    /** `handleCommentChange`: an edit past the cap is ignored. */
    method HandleCommentChange(value: string)
      requires Valid()
      modifies this
      ensures Valid()
      ensures |value| <= MaxCommentLength ==> comment == value
      ensures |value| > MaxCommentLength ==> comment == old(comment)
      ensures askAI == old(askAI) && isFocused == old(isFocused)
    {
      if |value| <= MaxCommentLength {
        comment := value;
      }
    }

    /**
     * `handleSubmit`: `sent` is what `onCommentSubmit` was called with, if it
     * was called, and `submitted` is how that call settled. The box is reset
     * only on success; a failure is swallowed and leaves everything as it was.
     */
    method HandleSubmit(isLoading: bool, submitted: Outcome<()>) returns (sent: Option<Submission>)
      requires Valid()
      modifies this
      ensures Valid()
      ensures sent.None? <==> old(SendDisabled(isLoading))
      ensures sent.Some? ==> sent.value == Submission(Trim(old(comment)), old(askAI))
      ensures sent.Some? && submitted.Success? ==> comment == [] && !askAI && !isFocused
      ensures sent.None? || submitted.Failure? ==> unchanged(this)
    {
      if Trim(comment) == [] || isLoading {
        return None;
      }
      sent := Some(Submission(Trim(comment), askAI));
      if submitted.Success? {
        comment := [];
        askAI := false;
        isFocused := false;
      }
    }

    /** `handleKeyPress`: the shortcut submits under the same guard as the button. */
    method HandleKeyPress(e: KeyEvent, isLoading: bool, submitted: Outcome<()>) returns (sent: Option<Submission>)
      requires Valid()
      modifies this
      ensures Valid()
      ensures sent.Some? <==> IsSendShortcut(e) && !old(SendDisabled(isLoading))
      ensures sent.Some? ==> sent.value == Submission(Trim(old(comment)), old(askAI))
      ensures sent.Some? && submitted.Success? ==> comment == [] && !askAI && !isFocused
      ensures sent.None? || submitted.Failure? ==> unchanged(this)
    {
      if e.key == EnterKey && (e.ctrlKey || e.metaKey) && Trim(comment) != [] && !isLoading {
        sent := HandleSubmit(isLoading, submitted);
      } else {
        sent := None;
      }
    }

    /** The "ask AI" switch negates the flag, so two flips restore it. */
    method ToggleAskAI()
      modifies this
      ensures askAI == !old(askAI)
      ensures comment == old(comment) && isFocused == old(isFocused)
    {
      askAI := !askAI;
    }

    method Focus()
      modifies this
      ensures isFocused
      ensures comment == old(comment) && askAI == old(askAI)
    {
      isFocused := true;
    }

    method Blur()
      modifies this
      ensures !isFocused
      ensures comment == old(comment) && askAI == old(askAI)
    {
      isFocused := false;
    }
  }
}
