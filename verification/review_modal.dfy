/**
 * The review dialog: a five-star picker whose stars light up to the hovered
 * or chosen rating, a submit that writes the review for the logged-in user,
 * and a two-phase close (fade out, then reset and tell the parent). The
 * parent's `isOpen` prop is a field here that the dialog reads and never
 * writes; the rows written to the `reviews` table are recorded in `reviews`.
 */
module ReviewModal {
  import opened Common

  /** The logged-in user, as far as the dialog reads it. */
  datatype User = User(id: string, email: string)

  datatype Review = Review(userId: string, name: string, feedback: string, rating: int)

  datatype SubmitOutcome = NotLoggedIn | SubmitFailed | Submitted

  /** The rating the stars show: the hovered one while hovering, the chosen one otherwise. */
  function ShownRating(hoverRating: Option<int>, rating: int): int {
    if hoverRating.Some? then hoverRating.value else rating
  }

  /** `(hoverRating ?? rating) > i`: whether star `i` (0 to 4) is lit. */
  predicate Lit(hoverRating: Option<int>, rating: int, i: int) {
    ShownRating(hoverRating, rating) > i
  }

  /** The five stars, lit or not. */
  function StarRow(hoverRating: Option<int>, rating: int): (row: seq<bool>)
    ensures |row| == 5
    ensures forall i :: 0 <= i < 5 ==> row[i] == Lit(hoverRating, rating, i)
  {
    seq(5, i => Lit(hoverRating, rating, i))
  }

  /**
   * The lit stars are a prefix of the row, exactly as long as the shown
   * rating when that is between 1 and 5.
   */
  lemma StarRowIsPrefix(hoverRating: Option<int>, rating: int)
    ensures forall i, j :: 0 <= i < j < 5 && StarRow(hoverRating, rating)[j] ==> StarRow(hoverRating, rating)[i]
    ensures 1 <= ShownRating(hoverRating, rating) <= 5 ==>
      forall i :: 0 <= i < 5 ==> (StarRow(hoverRating, rating)[i] <==> i < ShownRating(hoverRating, rating))
  {
  }

  /** `profile?.full_name || user.email` */
  function AuthorName(fullName: Option<string>, user: User): (name: string)
    ensures Truthy(fullName) ==> name == fullName.value
    ensures !Truthy(fullName) ==> name == user.email
  {
    if Truthy(fullName) then fullName.value else user.email
  }

  class ReviewForm {
    var isOpen: bool
    var feedback: string
    var rating: int
    var hoverRating: Option<int>
    var loading: bool
    var isClosing: bool
    var submitted: bool
    var reviews: seq<Review>

    /** The chosen rating and any hovered one are always star numbers. */
    ghost predicate Valid()
      reads this
    {
      && 1 <= rating <= 5
      && (hoverRating.None? || 1 <= hoverRating.value <= 5)
    }

    /** `if (!isOpen && !isClosing) return null`: the dialog is on screen while open or fading out. */
    predicate Rendered()
      reads this
    {
      isOpen || isClosing
    }

    constructor(isOpen: bool)
      ensures this.isOpen == isOpen
      ensures feedback == "" && rating == 5 && hoverRating.None?
      ensures !loading && !isClosing && !submitted && reviews == []
      ensures Valid()
    {
      this.isOpen := isOpen;
      feedback := "";
      rating := 5;
      hoverRating := None;
      loading := false;
      isClosing := false;
      submitted := false;
      reviews := [];
    }

    /** A click on star `i` of the five chooses rating `i + 1`. */
    method ClickStar(i: int)
      requires 0 <= i < 5 && Valid()
      modifies this
      ensures rating == i + 1 && Valid()
      ensures feedback == old(feedback) && hoverRating == old(hoverRating) && submitted == old(submitted)
      ensures reviews == old(reviews) && isOpen == old(isOpen) && isClosing == old(isClosing) && loading == old(loading)
    {
      rating := i + 1;
    }

    /** The mouse entering star `i` previews rating `i + 1`; leaving any star ends the preview. */
    method Hover(i: Option<int>)
      requires (i.None? || 0 <= i.value < 5) && Valid()
      modifies this
      ensures hoverRating == (if i.Some? then Some(i.value + 1) else None) && Valid()
      ensures rating == old(rating) && feedback == old(feedback) && submitted == old(submitted)
      ensures reviews == old(reviews) && isOpen == old(isOpen) && isClosing == old(isClosing) && loading == old(loading)
    {
      hoverRating := if i.Some? then Some(i.value + 1) else None;
    }

    /**
     * `handleSubmit`. Without a user nothing is written and nothing changes.
     * Otherwise one review is sent with the current feedback and rating; on
     * success it is stored, the dialog shows its thanks and the form resets
     * to an empty feedback and five stars; on an error the form keeps what
     * was typed. `loading` ends false either way.
     */
    method HandleSubmit(user: Option<User>, fullName: Option<string>, insertFails: bool) returns (outcome: SubmitOutcome)
      requires Valid()
      modifies this
      ensures Valid()
      ensures isOpen == old(isOpen) && isClosing == old(isClosing) && hoverRating == old(hoverRating)
      ensures user.None? ==>
        && outcome == NotLoggedIn
        && reviews == old(reviews) && feedback == old(feedback) && rating == old(rating)
        && submitted == old(submitted) && loading == old(loading)
      ensures user.Some? && insertFails ==>
        && outcome == SubmitFailed && !loading
        && reviews == old(reviews) && feedback == old(feedback) && rating == old(rating)
        && submitted == old(submitted)
      ensures user.Some? && !insertFails ==>
        && outcome == Submitted && !loading
        && reviews == old(reviews) + [Review(user.value.id, AuthorName(fullName, user.value), old(feedback), old(rating))]
        && submitted && feedback == "" && rating == 5
    {
      if user.None? {
        return NotLoggedIn;
      }
      loading := true;
      var review := Review(user.value.id, AuthorName(fullName, user.value), feedback, rating);
      if insertFails {
        outcome := SubmitFailed;
      } else {
        reviews := reviews + [review];
        submitted := true;
        feedback := "";
        rating := 5;
        outcome := Submitted;
      }
      loading := false;
    }

    /** `handleClose`, first phase: the dialog starts fading out and stays on screen. */
    method BeginClose()
      modifies this
      ensures isClosing && Rendered()
      ensures isOpen == old(isOpen) && submitted == old(submitted) && feedback == old(feedback)
      ensures rating == old(rating) && hoverRating == old(hoverRating) && reviews == old(reviews) && loading == old(loading)
    {
      isClosing := true;
    }

    /**
     * `handleClose`, after the fade: the thanks screen is reset and the
     * parent is told to close (`closeRequested`); once the parent has turned
     * `isOpen` off the dialog renders nothing.
     */
    method FinishClose() returns (closeRequested: bool)
      modifies this
      ensures closeRequested
      ensures !isClosing && !submitted
      ensures !isOpen ==> !Rendered()
      ensures isOpen == old(isOpen) && feedback == old(feedback) && rating == old(rating)
      ensures hoverRating == old(hoverRating) && reviews == old(reviews) && loading == old(loading)
    {
      isClosing := false;
      submitted := false;
      closeRequested := true;
    }

    /** The Escape key starts the close only while the dialog is open (the listener exists only then). */
    method PressEscape()
      modifies this
      ensures old(isOpen) ==> isClosing
      ensures !old(isOpen) ==> isClosing == old(isClosing)
      ensures isOpen == old(isOpen) && submitted == old(submitted) && feedback == old(feedback)
      ensures rating == old(rating) && hoverRating == old(hoverRating) && reviews == old(reviews) && loading == old(loading)
    {
      if isOpen {
        BeginClose();
      }
    }
  }
}
