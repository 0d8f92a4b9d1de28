/**
 * The testimonials section: one card per testimonial with an optional
 * photo, the feedback, the name and a row of stars, `rating` yellow ones
 * followed by `5 - rating` grey ones.
 */
module Testimonials {
  import opened Common

  datatype Testimonial = Testimonial(id: int, name: string, feedback: string, photo: Option<string>, rating: Option<int>)

  datatype Star = Filled | Unfilled

  /**
   * `Array.from({ length: n })` turns a negative length into an empty
   * array, so the counts are clamped at zero.
   */
  function Stars(rating: int): (stars: seq<Star>)
    ensures |stars| == Max(rating, 0) + Max(5 - rating, 0)
    ensures forall i :: 0 <= i < |stars| ==> (stars[i] == Filled <==> i < Max(rating, 0))
  {
    seq(Max(rating, 0), _ => Filled) + seq(Max(5 - rating, 0), _ => Unfilled)
  }

  /** A rating from 1 to 5 shows exactly five stars, the first `rating` of them filled. */
  lemma FiveStars(rating: int)
    requires 1 <= rating <= 5
    ensures |Stars(rating)| == 5
    ensures forall i :: 0 <= i < 5 ==> (Stars(rating)[i] == Filled <==> i < rating)
  {
  }

  /** What `{t.rating && (...)}` puts under the name. */
  datatype RatingRow = NoRow | StrayText(text: string) | StarRow(stars: seq<Star>)

  /**
   * As written: `t.rating && (...)` short-circuits to the number itself
   * when the rating is 0, and React renders a number, so a literal "0"
   * appears instead of nothing.
   */
  function RatingRowAsWritten(rating: Option<int>): RatingRow
  {
    match rating
    case None => NoRow
    case Some(r) => if r == 0 then StrayText("0") else StarRow(Stars(r))
  }

  /** A testimonial rated 0 shows the text "0" where the stars would be. */
  lemma ZeroRatingRendersZero()
    ensures RatingRowAsWritten(Some(0)) == StrayText("0")
  {
  }

  /**
   * The star row as evidently intended: nothing for an absent or zero
   * rating, the stars otherwise; never stray text.
   */
  function RatingRowFor(rating: Option<int>): (row: RatingRow)
    ensures !row.StrayText?
    ensures row.NoRow? <==> rating.None? || rating.value == 0
    ensures row.StarRow? ==> row.stars == Stars(rating.value)
    ensures rating.Some? && rating.value != 0 ==> row == RatingRowAsWritten(rating)
  {
    match rating
    case None => NoRow
    case Some(r) => if r == 0 then NoRow else StarRow(Stars(r))
  }

  datatype Card = Card(photo: Option<string>, feedback: string, name: string, rating: RatingRow)

  /** One testimonial card as written: the photo only when there is one, and the rating row `t.rating && (…)` gives. */
  function RenderCard(t: Testimonial): (c: Card)
    ensures c.photo.Some? <==> Truthy(t.photo)
    ensures c.photo.Some? ==> c.photo == t.photo
    ensures c.feedback == t.feedback && c.name == t.name
    ensures c.rating.StrayText? <==> t.rating == Some(0)
    ensures t.rating != Some(0) ==> c.rating == RatingRowFor(t.rating)
  {
    Card(if Truthy(t.photo) then t.photo else None, t.feedback, t.name, RatingRowAsWritten(t.rating))
  }

  /** The card with the corrected rating row: it differs from the one as written only at rating 0, and never shows stray text. */
  function RenderCardCorrected(t: Testimonial): (c: Card)
    ensures !c.rating.StrayText?
    ensures c.photo == RenderCard(t).photo && c.feedback == t.feedback && c.name == t.name
    ensures t.rating == Some(0) ==> c.rating.NoRow?
    ensures t.rating != Some(0) ==> c == RenderCard(t)
  {
    RenderCard(t).(rating := RatingRowFor(t.rating))
  }

  /** The section: one card per testimonial, in order. */
  function RenderAll(ts: seq<Testimonial>): (cards: seq<Card>)
    ensures |cards| == |ts|
    ensures forall k :: 0 <= k < |ts| ==> cards[k] == RenderCard(ts[k])
  {
    seq(|ts|, k requires 0 <= k < |ts| => RenderCard(ts[k]))
  }
}
