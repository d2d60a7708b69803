// The public rating page (src/pages/Rate.tsx): the star picker with its
// hover highlight, and the submit handler that checks the rating and the
// feedback before handing them to the rating service. Texts shown through
// the translation function are kept as their translation keys.

module Rate {
  import opened Types
  import opened Text
  import Ratings

  const ErrorNoRating := "errorNoRating"
  const ErrorNoFeedback := "errorNoFeedback"
  const ErrorSubmit := "errorSubmit"

  /** Star k is drawn filled when `k <= (hoveredRating || rating)`. */
  predicate StarHighlighted(star: int, hoveredRating: int, rating: int)
  {
    star <= (if hoveredRating != 0 then hoveredRating else rating)
  }

  /** While the mouse is over a star, the stars up to it are filled;
      otherwise the stars up to the chosen rating. The filled stars always
      form a prefix. */
  lemma HighlightRule(star: int, hoveredRating: int, rating: int)
    ensures hoveredRating != 0 ==> (StarHighlighted(star, hoveredRating, rating) <==> star <= hoveredRating)
    ensures hoveredRating == 0 ==> (StarHighlighted(star, hoveredRating, rating) <==> star <= rating)
    ensures StarHighlighted(star, hoveredRating, rating) ==>
      forall k :: k <= star ==> StarHighlighted(k, hoveredRating, rating)
  {
  }

  /** The check handleSubmit makes before sending: a missing rating first,
      then feedback that is empty once trimmed (`feedback.trim() === ''`,
      which holds exactly when every character is white space, see
      Text.TrimEmptyIff). */
  function SubmitError(rating: int, feedback: string): (e: Option<string>)
    ensures e.None? <==> rating != 0 && !AllSpaces(feedback)
    ensures rating == 0 ==> e == Some(ErrorNoRating)
    ensures rating != 0 && AllSpaces(feedback) ==> e == Some(ErrorNoFeedback)
  {
    if rating == 0 then Some(ErrorNoRating)
    else if AllSpaces(feedback) then Some(ErrorNoFeedback)
    else None
  }

  /** The page's state. */
  class RatePage {
    var rating: int
    var hoveredRating: int
    var feedback: string
    var isSubmitting: bool
    var isSubmitted: bool
    var error: string

    constructor ()
      ensures rating == 0 && hoveredRating == 0 && feedback == ""
      ensures !isSubmitting && !isSubmitted && error == ""
    {
      rating := 0;
      hoveredRating := 0;
      feedback := "";
      isSubmitting := false;
      isSubmitted := false;
      error := "";
    }

    /** handleStarClick: the star becomes the rating and the error goes. */
    method StarClick(value: int)
      modifies this
      ensures rating == value && error == ""
      ensures hoveredRating == old(hoveredRating) && feedback == old(feedback)
      ensures isSubmitting == old(isSubmitting) && isSubmitted == old(isSubmitted)
    {
      rating := value;
      error := "";
    }

    /** handleStarHover */
    method StarHover(value: int)
      modifies this
      ensures hoveredRating == value
      ensures rating == old(rating) && feedback == old(feedback) && error == old(error)
      ensures isSubmitting == old(isSubmitting) && isSubmitted == old(isSubmitted)
    {
      hoveredRating := value;
    }

    /** handleStarLeave: the highlight falls back to the chosen rating. */
    method StarLeave()
      modifies this
      ensures hoveredRating == 0
      ensures forall k :: StarHighlighted(k, hoveredRating, rating) <==> k <= rating
      ensures rating == old(rating) && feedback == old(feedback) && error == old(error)
      ensures isSubmitting == old(isSubmitting) && isSubmitted == old(isSubmitted)
    {
      hoveredRating := 0;
    }

    /** The checks of handleSubmit on the current rating and feedback, and
        the trimmed feedback that would be sent. */
    method Check() returns (e: Option<string>, trimmed: string)
      ensures e == SubmitError(rating, feedback)
      ensures trimmed == Trim(feedback)
    {
      trimmed := Trim(feedback);
      TrimEmptyIff(feedback);
      if rating == 0 {
        e := Some(ErrorNoRating);
      } else if trimmed == "" {
        e := Some(ErrorNoFeedback);
      } else {
        e := None;
      }
    }

    /** The sending half of handleSubmit, once the checks passed: the page
        is submitting while submitRating runs; on success it shows its
        thanks and empties the form, on failure it shows the service's
        message; either way it ends not submitting. */
    method Send(store: Ratings.RatingsStore, input: RatingInput, now: int, userAgent: string, outcome: Outcome)
      modifies this, store
      ensures outcome.Done? ==>
        && isSubmitted && rating == 0 && feedback == "" && error == ""
        && AddedOne(old(store.docs), store.docs, Ratings.Submitted(input, now, userAgent))
      ensures outcome.Failed? ==>
        && error == Ratings.SubmitFailed && store.docs == old(store.docs)
        && rating == old(rating) && feedback == old(feedback) && isSubmitted == old(isSubmitted)
      ensures !isSubmitting && hoveredRating == old(hoveredRating)
    {
      isSubmitting := true;
      error := "";
      var r := store.SubmitRating(input, now, userAgent, outcome);
      if r.Ok? {
        assert r.value !in old(store.docs);
        isSubmitted := true;
        rating := 0;
        feedback := "";
      } else {
        error := ErrorText(r.message, ErrorSubmit);
      }
      isSubmitting := false;
    }

    /** handleSubmit: a failed check shows its message and sends nothing.
        Otherwise the rating and the trimmed feedback are sent. */
    method HandleSubmit(store: Ratings.RatingsStore, now: int, userAgent: string, outcome: Outcome)
      returns (sent: Option<RatingInput>)
      modifies this, store
      ensures SubmitError(old(rating), old(feedback)).Some? ==>
        && sent.None? && error == SubmitError(old(rating), old(feedback)).value
        && store.docs == old(store.docs)
        && rating == old(rating) && feedback == old(feedback) && isSubmitted == old(isSubmitted)
        && isSubmitting == old(isSubmitting)
      ensures SubmitError(old(rating), old(feedback)).None? ==>
        sent == Some(RatingInput(old(rating), Trim(old(feedback))))
      ensures sent.Some? && outcome.Done? ==>
        && isSubmitted && rating == 0 && feedback == "" && error == ""
        && AddedOne(old(store.docs), store.docs, Ratings.Submitted(sent.value, now, userAgent))
      ensures sent.Some? && outcome.Failed? ==>
        && error == Ratings.SubmitFailed && store.docs == old(store.docs)
        && rating == old(rating) && feedback == old(feedback) && isSubmitted == old(isSubmitted)
      ensures sent.Some? ==> !isSubmitting
      ensures hoveredRating == old(hoveredRating)
    {
      var check, trimmed := Check();
      if check.Some? {
        error := check.value;
        sent := None;
      } else {
        var input := RatingInput(rating, trimmed);
        assert SubmitError(rating, feedback).None?;
        Send(store, input, now, userAgent, outcome);
        sent := Some(input);
      }
    }
  }

  /** The store gained exactly one document, under an id it did not use. */
  ghost predicate AddedOne<V>(before: map<string, V>, after: map<string, V>, v: V)
  {
    exists id :: id !in before && after == before[id := v]
  }

  /** A submitted feedback is never blank: what reaches the store is the
      trimmed text of a feedback that had a character other than white
      space, so it is not empty. */
  lemma SentFeedbackNotEmpty(feedback: string)
    requires !AllSpaces(feedback)
    ensures Trim(feedback) != ""
  {
    TrimEmptyIff(feedback);
  }
}
