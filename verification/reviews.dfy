/** Review records, their sentiment scores, and the errors a request can end in. */
module Reviews {
  import opened Timestamps
  import opened Locations

  /** One stored review: the ReviewId, ReviewBody, Location and Timestamp columns. */
  datatype Review = Review(id: string, body: string, location: string, timestamp: DateTime)

  /** The polarity scores the sentiment analyser attaches to a body. */
  datatype Sentiment = Sentiment(compound: real, positive: real, negative: real, neutral: real)

  /** A query result: a review together with the scores of its body. */
  datatype Scored = Scored(review: Review, sentiment: Sentiment)

  /** The errors a request can end in. */
  datatype ApiError =
    | InvalidLocation   // "Invalid location"
    | MissingFields     // "ReviewBody and Location are required"
    | MalformedDate     // a start_date or end_date that is not '%Y-%m-%d'

  /** No two stored reviews share an id. */
  ghost predicate UniqueIds(store: seq<Review>) {
    forall i, j :: 0 <= i < j < |store| ==> store[i].id != store[j].id
  }

  /** `id` is not yet used by any stored review. */
  ghost predicate FreshId(store: seq<Review>, id: string) {
    forall i :: 0 <= i < |store| ==> store[i].id != id
  }

  /** The record invariants a store built by submissions keeps. */
  ghost predicate WellFormed(store: seq<Review>) {
    && UniqueIds(store)
    && forall i :: 0 <= i < |store| ==>
         && store[i].body != ""
         && IsAllowed(store[i].location)
         && ValidDateTime(store[i].timestamp)
  }

  /** Attaches the scorer's verdict on its body to every review, keeping the order. */
  function ScoreAll(reviews: seq<Review>, scorer: string -> Sentiment): (r: seq<Scored>)
    ensures |r| == |reviews|
    ensures forall i :: 0 <= i < |r| ==> r[i] == Scored(reviews[i], scorer(reviews[i].body))
  {
    seq(|reviews|, i requires 0 <= i < |reviews| => Scored(reviews[i], scorer(reviews[i].body)))
  }

  /** Scoring commutes with concatenation. */
  lemma ScoreAllAppend(a: seq<Review>, b: seq<Review>, scorer: string -> Sentiment)
    ensures ScoreAll(a + b, scorer) == ScoreAll(a, scorer) + ScoreAll(b, scorer)
  {
  }
}
