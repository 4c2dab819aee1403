/**
 * The comment form under a poll: the text being typed, whether a request is
 * in flight, and whether the red "cannot be empty" error is showing. The
 * asynchronous `handleSubmit` is split at its `await`: `Submit` runs up to
 * the request, `RequestSettled` runs the rest once the request's outcome,
 * an input to the model, is known.
 */
module PollCardCommentForm {
  import opened Wrappers
  import opened JsStrings

  class CommentForm {
    /** Whether the parent passed the optional `onCommentAdded` callback. */
    const hasCallback: bool
    var commentText: string
    var isLoading: bool
    var hasError: bool

    /** No error is shown while a request is in flight. */
    predicate Valid()
      reads this
    {
      isLoading ==> !hasError
    }

    /** The textarea and the submit button are disabled exactly while a request is in flight. */
    predicate InputDisabled()
      reads this
    {
      isLoading
    }

    constructor (hasCallback: bool)
      ensures Valid()
      ensures this.hasCallback == hasCallback
      ensures commentText == "" && !isLoading && !hasError
    {
      this.hasCallback := hasCallback;
      commentText := "";
      isLoading := false;
      hasError := false;
    }

    /** `handleCommentChange`: typing replaces the text; the textarea accepts input only when enabled. */
    method ChangeText(text: string)
      requires !InputDisabled()
      modifies this
      ensures commentText == text
      ensures isLoading == old(isLoading) && hasError == old(hasError)
    {
      commentText := text;
    }

    /**
     * `handleSubmit` up to the request. Blank text raises the error and sends
     * nothing; other text clears the error, enters the loading state and
     * sends the text as `request`.
     */
    method Submit() returns (request: Option<string>)
      requires Valid() && !InputDisabled()
      modifies this
      ensures Valid()
      ensures commentText == old(commentText)
      ensures IsBlank(commentText) ==> request.None? && hasError && isLoading == old(isLoading)
      ensures !IsBlank(commentText) ==> request == Some(commentText) && !hasError && isLoading
    {
      request := None;
      if IsBlank(commentText) {
        hasError := true;
        return;
      }
      hasError := false;
      isLoading := true;
      request := Some(commentText);
    }

    /**
     * The rest of `handleSubmit` once the request settles. Success clears the
     * text and calls the callback when there is one (`notified`); failure
     * raises the error and keeps the text. Loading ends either way.
     */
    method RequestSettled(succeeded: bool) returns (notified: bool)
      requires Valid() && isLoading
      modifies this
      ensures Valid()
      ensures !isLoading
      ensures succeeded ==> commentText == "" && notified == hasCallback && hasError == old(hasError)
      ensures !succeeded ==> commentText == old(commentText) && !notified && hasError
    {
      notified := false;
      if succeeded {
        commentText := "";
        notified := hasCallback;
      } else {
        hasError := true;
      }
      isLoading := false;
    }

    /** The `hasError` effect: 3000 ms after the error appears it is cleared, and nothing else changes. */
    method ErrorTimerElapsed()
      requires Valid() && hasError
      modifies this
      ensures Valid()
      ensures !hasError
      ensures commentText == old(commentText) && isLoading == old(isLoading)
    {
      hasError := false;
    }
  }
}
