/** The reviews screen (`app/parking/reviews.tsx`): the five stars drawn for a
    rating, the set of expanded reviews, the show-more control of long comments,
    and what sending a new review checks and stores. The screen's state is
    passed explicitly; the clock's ISO time stamp and the new id are
    parameters. */
module Reviews {
  import opened Wrappers
  import opened Seqs
  import opened Text
  import opened LocalData

  // ---------------------------------------------------------------- stars

  datatype Star = Filled | Half | Outline

  /** Whether the fractional part of `rating` is at least one half. */
  predicate HalfUp(rating: real) {
    rating - rating.Floor as real >= 0.5
  }

  /** Star `i` (counted from 1) of `rating`: filled up to the rating's floor,
      half when it is the star right after the floor and the rating's fraction
      reaches one half, outlined otherwise. */
  function StarAt(rating: real, i: int): (s: Star)
    ensures s == Filled <==> i <= rating.Floor
    ensures s == Half <==> i == rating.Floor + 1 && HalfUp(rating)
  {
    if i <= rating.Floor then Filled
    else if i as real - 0.5 <= rating then Half
    else Outline
  }

  /** `renderStars`: the stars 1 to 5, in order. */
  method RenderStars(rating: real) returns (stars: seq<Star>)
    ensures |stars| == 5
    ensures forall k :: 0 <= k < 5 ==> (stars[k] == Filled <==> k < rating.Floor)
    ensures forall k :: 0 <= k < 5 ==> (stars[k] == Half <==> k == rating.Floor && HalfUp(rating))
    ensures stars == Stars(rating)
  {
    stars := [];
    var i := 1;
    while i <= 5
      invariant 1 <= i <= 6 && |stars| == i - 1
      invariant forall k :: 0 <= k < |stars| ==> stars[k] == StarAt(rating, k + 1)
    {
      stars := stars + [StarAt(rating, i)];
      i := i + 1;
    }
  }

  /** The stars of `rating` as a list. */
  function Stars(rating: real): (stars: seq<Star>)
    ensures |stars| == 5
  {
    seq(5, k requires 0 <= k < 5 => StarAt(rating, k + 1))
  }

  /** Occurrences of `x` in `s`. */
  function Occurrences(s: seq<Star>, x: Star): (n: nat)
    ensures n <= |s|
  {
    if |s| == 0 then 0 else (if s[0] == x then 1 else 0) + Occurrences(s[1..], x)
  }

  /** A list whose `x`s are exactly its first `f` elements holds `f` of them. */
  lemma {:induction false} PrefixOccurrences(s: seq<Star>, x: Star, f: int)
    requires 0 <= f <= |s|
    requires forall k :: 0 <= k < |s| ==> (s[k] == x <==> k < f)
    ensures Occurrences(s, x) == f
    decreases |s|
  {
    if |s| > 0 {
      PrefixOccurrences(s[1..], x, if f > 0 then f - 1 else 0);
    }
  }

  /** A list whose only possible `x` sits at position `p` holds one `x` when it
      does sit there, and none otherwise. */
  lemma {:induction false} SingleOccurrence(s: seq<Star>, x: Star, p: int)
    requires forall k :: 0 <= k < |s| ==> (s[k] == x ==> k == p)
    ensures Occurrences(s, x) == if 0 <= p < |s| && s[p] == x then 1 else 0
    decreases |s|
  {
    if |s| > 0 {
      SingleOccurrence(s[1..], x, p - 1);
    }
  }

  /** For a rating between 0 and 5, exactly its floor of the stars is filled. */
  lemma FilledCountIsFloor(rating: real)
    requires 0.0 <= rating <= 5.0
    ensures Occurrences(Stars(rating), Filled) == rating.Floor
  {
    PrefixOccurrences(Stars(rating), Filled, rating.Floor);
  }

  /** At most one star is half filled: the one right after the floor, when the
      fraction reaches one half and that star is one of the five. */
  lemma AtMostOneHalf(rating: real)
    ensures Occurrences(Stars(rating), Half) <= 1
    ensures Occurrences(Stars(rating), Half) == 1 <==> 0 <= rating.Floor < 5 && HalfUp(rating)
  {
    SingleOccurrence(Stars(rating), Half, rating.Floor);
  }

  /** Filled stars come first: a filled star has only filled stars before it. */
  lemma FilledFirst(rating: real, i: int, j: int)
    requires 0 <= i < j < 5 && Stars(rating)[j] == Filled
    ensures Stars(rating)[i] == Filled
  {
  }

  /** Tapping star `i` in the form sets the rating to `i`, which fills exactly
      the first `i` stars. */
  lemma TappedRatingFills(i: int)
    requires 1 <= i <= 5
    ensures Occurrences(Stars(i as real), Filled) == i
    ensures Occurrences(Stars(i as real), Half) == 0
  {
    FilledCountIsFloor(i as real);
    AtMostOneHalf(i as real);
  }

  // ---------------------------------------------------------------- expanding

  /** `toggleReviewExpanded`: a copy of the set with `id` added when absent and
      removed when present. */
  function ToggleExpanded(expanded: set<string>, id: string): (r: set<string>)
    ensures id in r <==> id !in expanded
    ensures forall x :: x != id ==> (x in r <==> x in expanded)
  {
    if id in expanded then expanded - {id} else expanded + {id}
  }

  /** Toggling the same review twice restores the set. */
  lemma ToggleTwice(expanded: set<string>, id: string)
    ensures ToggleExpanded(ToggleExpanded(expanded, id), id) == expanded
  {
  }

  /** Comments longer than this get the show-more control. */
  const TruncateAbove: nat := 200

  /** Lines shown of a collapsed comment. */
  const CollapsedLines: nat := 4

  datatype ShowMore = ShowMoreLabel | ShowLessLabel

  /** How one review's comment is shown: the control (only for long comments)
      and the line limit (none once expanded). */
  datatype CommentView = CommentView(control: Option<ShowMore>, maxLines: Option<nat>)

  function ViewOf(review: Review, expanded: set<string>): (v: CommentView)
    ensures v.control.Some? <==> |review.comment| > TruncateAbove
    ensures v.control.Some? ==> (v.control.value == ShowLessLabel <==> review.id in expanded)
    ensures v.maxLines.None? <==> review.id in expanded
  {
    var isExpanded := review.id in expanded;
    CommentView(
      if |review.comment| > TruncateAbove then Some(if isExpanded then ShowLessLabel else ShowMoreLabel) else None,
      if isExpanded then None else Some(CollapsedLines))
  }

  /** Toggling one review flips its own label and line limit and leaves every
      other review's view as it was. */
  lemma ToggleChangesOneView(expanded: set<string>, id: string, review: Review)
    ensures review.id == id ==> ViewOf(review, ToggleExpanded(expanded, id)).maxLines.None? == ViewOf(review, expanded).maxLines.Some?
    ensures review.id != id ==> ViewOf(review, ToggleExpanded(expanded, id)) == ViewOf(review, expanded)
  {
  }

  // ---------------------------------------------------------------- submitting

  const NeedRatingAndComment: string := "Please provide a rating and comment"
  const DefaultParkingId: string := "1"
  const AuthorId: string := "user1"
  const AuthorName: string := "Tralalero Tralala"
  const AuthorAvatar: string := "https://via.placeholder.com/150"

  /** The review form: whether the modal is open, the chosen rating and the
      typed comment. */
  datatype Form = Form(showModal: bool, rating: real, comment: string)

  const EmptyForm: Form := Form(false, 0.0, "")

  /** What sending leaves: the store, the form, the reviews listed and the
      alert shown, if any. */
  datatype Submitted = Submitted(db: Database, form: Form, listed: seq<Review>, alert: Option<string>)

  /** `id || '1'`. */
  function ParkingIdOrDefault(routeId: Option<string>): (r: string)
    ensures routeId.Some? && routeId.value != "" ==> r == routeId.value
    ensures routeId.None? || routeId.value == "" ==> r == DefaultParkingId
  {
    if routeId.Some? && routeId.value != "" then routeId.value else DefaultParkingId
  }

  /** The screen has a parking id naming a parking of the store, so that
      `loadData` gets past `getParkingById` and sets the reviews. */
  predicate Reloads(db: Database, routeId: Option<string>) {
    routeId.Some? && routeId.value != "" && exists p :: p in db.parkings && p.id == routeId.value
  }

  /** `handleSubmitReview`: a zero rating or a blank comment only raises the
      alert; otherwise the review is added under the fixed user with the
      current time, the form is closed and cleared, and `loadData` runs. It
      replaces the list only when the screen has a parking id and the parking
      is found: a missing parking makes `getParkingById` throw, and the catch
      keeps the list as it was. */
  function HandleSubmitReview(db: Database, form: Form, listed: seq<Review>, routeId: Option<string>,
                              now: string, newId: string): (r: Submitted)
    ensures r.alert.Some? <==> form.rating == 0.0 || AllSpace(form.comment)
    ensures r.alert.Some? ==> r == Submitted(db, form, listed, Some(NeedRatingAndComment))
    ensures r.alert.None? ==>
              && |r.db.reviews| == |db.reviews| + 1
              && r.db.reviews[..|db.reviews|] == db.reviews
              && r.db.(reviews := db.reviews) == db
              && r.form == EmptyForm
    ensures r.alert.None? && !Reloads(db, routeId) ==> r.listed == listed
  {
    TrimEmptyIffBlank(form.comment);
    if form.rating == 0.0 || Trim(form.comment) == "" then
      Submitted(db, form, listed, Some(NeedRatingAndComment))
    else
      var draft := ReviewDraft(
        ParkingIdOrDefault(routeId), AuthorId, Some(AuthorName), Some(AuthorAvatar),
        form.rating, form.comment, now);
      var (after, _) := AddReview(db, draft, newId);
      var reloaded :=
        if routeId.Some? && routeId.value != "" && GetParkingById(after, routeId.value).Success?
        then GetReviews(after, routeId.value) else listed;
      Submitted(after, EmptyForm, reloaded, None)
  }

  /** An accepted review is stored last with the form's rating and comment, the
      fixed author and the new id, and on a screen whose parking id names a
      parking of the store it is listed last among that parking's reviews. */
  lemma SubmittedReviewListed(db: Database, form: Form, listed: seq<Review>, routeId: Option<string>,
                              now: string, newId: string)
    requires form.rating != 0.0 && !AllSpace(form.comment)
    ensures var r := HandleSubmitReview(db, form, listed, routeId, now, newId);
            var added := r.db.reviews[|db.reviews|];
            && added.id == newId && added.rating == form.rating && added.comment == form.comment
            && added.parkingId == ParkingIdOrDefault(routeId) && added.userId == AuthorId
            && added.date == now
            && (Reloads(db, routeId) ==> r.listed == GetReviews(db, routeId.value) + [added])
  {
    TrimEmptyIffBlank(form.comment);
    var draft := ReviewDraft(
      ParkingIdOrDefault(routeId), AuthorId, Some(AuthorName), Some(AuthorAvatar),
      form.rating, form.comment, now);
    AddedReviewListed(db, draft, newId);
  }
}
