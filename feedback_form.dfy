/**
  The feedback dialog of src/components/FeedbackForm.tsx: a five-star rating
  with hover preview, an optional comment, and submission to the local
  feedback table.
*/
module FeedbackFormModel {
  import opened Wrappers
  import opened StarRating
  import opened SubmissionStore

  const StarCount: nat := 5

  /** The level the star row shows: the hovered star when there is one,
      otherwise the chosen rating (`hoveredRating || rating`). */
  function ShownLevel(hovered: int, rating: int): int {
    if hovered != 0 then hovered else rating
  }

  /** Star `star` is drawn filled. */
  predicate StarFilled(star: int, hovered: int, rating: int) {
    Lit(star, ShownLevel(hovered, rating))
  }

  /** While the pointer is on a star exactly the stars up to it are filled;
      otherwise exactly the stars up to the rating are. */
  lemma StarFillRule(star: int, hovered: int, rating: int)
    ensures hovered != 0 ==> (StarFilled(star, hovered, rating) <==> star <= hovered)
    ensures hovered == 0 ==> (StarFilled(star, hovered, rating) <==> star <= rating)
  {
  }

  /** With the hover and the rating in 0..5, the number of filled stars is the
      hovered star, or the rating when nothing is hovered. */
  lemma FilledStarCount(hovered: int, rating: int)
    requires 0 <= hovered <= StarCount && 0 <= rating <= StarCount
    ensures LitCount(ShownLevel(hovered, rating), StarCount) == (if hovered != 0 then hovered else rating)
  {
    LitCountExact(ShownLevel(hovered, rating), StarCount);
  }

  /** The caption under the stars: no caption while `rating` is 0 (or below),
      otherwise a caption holding the rating's word, which is empty for a
      rating the five cases do not name. */
  function RatingLabel(rating: int): (r: Option<string>)
    ensures r.None? <==> rating <= 0
    ensures r.Some? ==> (r.value != "" <==> 1 <= rating <= 5)
  {
    if rating <= 0 then None
    else if rating == 1 then Some("Poor")
    else if rating == 2 then Some("Fair")
    else if rating == 3 then Some("Good")
    else if rating == 4 then Some("Very Good")
    else if rating == 5 then Some("Excellent")
    else Some("")
  }

  /** The five ratings carry five different words. */
  lemma RatingLabelsDistinct(a: int, b: int)
    requires 1 <= a <= 5 && 1 <= b <= 5 && a != b
    ensures RatingLabel(a) != RatingLabel(b)
  {
  }

  /** `comments || undefined`: an empty comment is stored as absent. */
  function SavedComments(c: string): (r: Option<string>)
    ensures r.None? <==> c == ""
    ensures r.GetOr("") == c
  {
    if c == "" then None else Some(c)
  }

  /** The component's state. */
  class FeedbackForm {
    var rating: int
    var hoveredRating: int
    var comments: string
    var submitted: bool

    /** Both numbers only ever take a star's number or 0. */
    ghost predicate Valid()
      reads this
    {
      0 <= rating <= StarCount && 0 <= hoveredRating <= StarCount
    }

    constructor ()
      ensures Valid()
      ensures rating == 0 && hoveredRating == 0 && comments == "" && !submitted
    {
      rating := 0;
      hoveredRating := 0;
      comments := "";
      submitted := false;
    }

    /** Clicking star `star`. */
    method ClickStar(star: int)
      requires Valid() && 1 <= star <= StarCount
      modifies this
      ensures Valid() && rating == star
      ensures hoveredRating == old(hoveredRating) && comments == old(comments) && submitted == old(submitted)
    {
      rating := star;
    }

    /** The pointer entering star `star`. */
    method EnterStar(star: int)
      requires Valid() && 1 <= star <= StarCount
      modifies this
      ensures Valid() && hoveredRating == star
      ensures rating == old(rating) && comments == old(comments) && submitted == old(submitted)
    {
      hoveredRating := star;
    }

    /** The pointer leaving a star. */
    method LeaveStar()
      requires Valid()
      modifies this
      ensures Valid() && hoveredRating == 0
      ensures rating == old(rating) && comments == old(comments) && submitted == old(submitted)
    {
      hoveredRating := 0;
    }

    /** Typing in the comment box. */
    method EditComments(text: string)
      requires Valid()
      modifies this
      ensures Valid() && comments == text
      ensures rating == old(rating) && hoveredRating == old(hoveredRating) && submitted == old(submitted)
    {
      comments := text;
    }

    /** The submit button is disabled until a star is chosen. */
    predicate SubmitDisabled()
      reads this
    {
      rating == 0
    }

    /** In a consistent form the button is enabled exactly when a rating of 1
        to 5 is chosen, so only such ratings can be submitted. */
    lemma SubmitEnabledRule()
      requires Valid()
      ensures !SubmitDisabled() <==> 1 <= rating <= StarCount
    {
    }

    /** `handleSubmit`: stores the rating and the comment (absent when empty).
        On success the thank-you view shows; on failure the entered rating and
        comment stay. The handler itself does not look at the rating; the
        disabled button is what keeps a rating of 0 from being sent. */
    method HandleSubmit(db: Database, now: string, ok: bool) returns (r: SaveResult)
      requires Valid() && db.Valid()
      modifies this, db.feedback
      ensures Valid() && db.Valid() && unchanged(db.visitors)
      ensures rating == old(rating) && hoveredRating == old(hoveredRating) && comments == old(comments)
      ensures submitted == (old(submitted) || ok)
      ensures ok ==> r == Saved(old(db.feedback.nextId))
      ensures ok ==> db.feedback.rows == old(db.feedback.rows)[old(db.feedback.nextId) :=
        Entry(old(db.feedback.nextId), FeedbackData(old(rating), SavedComments(old(comments))), now)]
      ensures !ok ==> r == SaveFailed && db.feedback.rows == old(db.feedback.rows)
      ensures db.feedback.nextId == if ok then old(db.feedback.nextId) + 1 else old(db.feedback.nextId)
    {
      r := db.SaveFeedbackSubmission(FeedbackData(rating, SavedComments(comments)), now, ok);
      if r.Saved? {
        submitted := true;
      }
    }

    /** `handleClose`: the rating, the comment and the thank-you view are
        reset; the hover is left as it is. */
    method HandleClose()
      requires Valid()
      modifies this
      ensures Valid() && rating == 0 && comments == "" && !submitted
      ensures hoveredRating == old(hoveredRating)
    {
      rating := 0;
      comments := "";
      submitted := false;
    }
  }
}
