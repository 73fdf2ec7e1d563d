/**
 * Passenger feedback (server/controllers/feedbackController.js). The
 * Feedback schema file is not part of this model: a record is the rating,
 * the optional comment and the creation time.
 */
module Feedbacks {
  import opened Common
  import opened Queries

  datatype Feedback = Feedback(id: Id, rating: int, comment: Option<string>, createdAt: Time)

  /** `!rating || rating < 1 || rating > 5` refuses: an absent or zero rating is caught by the range test too. */
  function RatingAccepted(rating: Option<int>): (ok: bool)
    ensures ok <==> rating.Some? && 1 <= rating.value <= 5
  {
    !(rating.None? || rating.value == 0 || rating.value < 1 || rating.value > 5)
  }

  function CreatedAt(f: Feedback): int {
    f.createdAt
  }

  class FeedbackBox {
    var entries: seq<Feedback>

    ghost predicate Valid()
      reads this
    {
      forall i :: 0 <= i < |entries| ==> 1 <= entries[i].rating <= 5
    }

    constructor ()
      ensures Valid() && entries == []
    {
      entries := [];
    }

    /** `createFeedback`: 400 and nothing stored for a rating outside 1..5, else exactly the rating and comment are stored. */
    method Create(rating: Option<int>, comment: Option<string>, id: Id, now: Time) returns (status: Status)
      requires Valid()
      modifies this
      ensures Valid()
      ensures status in {201, 400}
      ensures status == 201 <==> RatingAccepted(rating)
      ensures status == 201 ==> entries == old(entries) + [Feedback(id, rating.value, comment, now)]
      ensures status == 400 ==> entries == old(entries)
    {
      if !RatingAccepted(rating) {
        return 400;
      }
      entries := entries + [Feedback(id, rating.value, comment, now)];
      status := 201;
    }

    /** `getAllFeedback`: every entry, newest first. */
    function ListAll(): (r: seq<Feedback>)
      reads this
      ensures multiset(r) == multiset(entries)
      ensures SortedBy(r, NewestFirst(CreatedAt))
    {
      NewestFirstIsTotalPreorder(CreatedAt);
      SortBy(entries, NewestFirst(CreatedAt))
    }
  }
}
