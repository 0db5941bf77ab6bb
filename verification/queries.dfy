/**
  The GET branch of the request handler: validate the location, narrow the
  store by location, start date and end date, score the survivors, and rank
  them by compound score, highest first.

  The handler starts from the global review list itself, so when no filter
  applies it sorts that list in place and writes the scores into the stored
  records. Here a query is a pure function of a store snapshot and returns a
  fresh sequence; the store it was given is left as it was.
*/
module Queries {
  import opened Wrappers
  import opened Timestamps
  import opened Locations
  import opened Reviews
  import opened Filtering
  import opened Ranking
  import opened Sequences

  /** A date parameter as it reaches the handler. */
  datatype DateParam =
    | Absent       // not given, or given empty
    | Malformed    // given, but not '%Y-%m-%d'
    | Day(date: Date)

  /** The three optional query-string parameters. */
  datatype QueryRequest = QueryRequest(location: Option<string>, startDate: DateParam, endDate: DateParam)

  /** A location parameter takes effect only when it is a non-empty string. */
  predicate LocationGiven(location: Option<string>) {
    location.Some? && location.value != ""
  }

  /** What the caller asked for, stated on the request itself. */
  predicate Wanted(req: QueryRequest, r: Review) {
    && (LocationGiven(req.location) ==> r.location == req.location.value)
    && (req.startDate.Day? ==> NoLater(Midnight(req.startDate.date), r.timestamp))
    && (req.endDate.Day? ==> NoLater(r.timestamp, Midnight(req.endDate.date)))
  }

  function LocationStages(location: Option<string>): (r: Result<seq<Stage>, ApiError>)
    ensures r.Failure? <==> LocationGiven(location) && !IsAllowed(location.value)
    ensures r.Failure? ==> r.error == InvalidLocation
    ensures r.Success? ==> forall x :: PassesAll(r.value, x) <==>
      (LocationGiven(location) ==> x.location == location.value)
  {
    if LocationGiven(location) then
      if IsAllowed(location.value) then
        PassesAllSingle(AtLocation(location.value));
        Success([AtLocation(location.value)])
      else Failure(InvalidLocation)
    else Success([])
  }

  function StartStages(p: DateParam): (r: Result<seq<Stage>, ApiError>)
    ensures r.Failure? <==> p.Malformed?
    ensures r.Failure? ==> r.error == MalformedDate
    ensures r.Success? ==> forall x :: PassesAll(r.value, x) <==>
      (p.Day? ==> NoLater(Midnight(p.date), x.timestamp))
  {
    match p
    case Absent => Success([])
    case Malformed => Failure(MalformedDate)
    case Day(d) =>
      PassesAllSingle(NotBefore(Midnight(d)));
      Success([NotBefore(Midnight(d))])
  }

  function EndStages(p: DateParam): (r: Result<seq<Stage>, ApiError>)
    ensures r.Failure? <==> p.Malformed?
    ensures r.Failure? ==> r.error == MalformedDate
    ensures r.Success? ==> forall x :: PassesAll(r.value, x) <==>
      (p.Day? ==> NoLater(x.timestamp, Midnight(p.date)))
  {
    match p
    case Absent => Success([])
    case Malformed => Failure(MalformedDate)
    case Day(d) =>
      PassesAllSingle(NotAfter(Midnight(d)));
      Success([NotAfter(Midnight(d))])
  }

  /**
    The filter stages of a request, in the handler's order. The location is
    checked first, so an unknown location is reported even when a date is
    also malformed.
  */
  function Criteria(req: QueryRequest): (r: Result<seq<Stage>, ApiError>)
    ensures r == Failure(InvalidLocation) <==> LocationGiven(req.location) && !IsAllowed(req.location.value)
    ensures r == Failure(MalformedDate) <==>
      !(LocationGiven(req.location) && !IsAllowed(req.location.value))
      && (req.startDate.Malformed? || req.endDate.Malformed?)
    ensures r.Success? <==>
      !(LocationGiven(req.location) && !IsAllowed(req.location.value))
      && !req.startDate.Malformed? && !req.endDate.Malformed?
    ensures r.Success? ==> forall x :: PassesAll(r.value, x) <==> Wanted(req, x)
  {
    var byLocation :- LocationStages(req.location);
    var from :- StartStages(req.startDate);
    var until :- EndStages(req.endDate);
    var stages := byLocation + from + until;
    assert forall x :: PassesAll(stages, x) <==> PassesAll(byLocation, x) && PassesAll(from, x) && PassesAll(until, x) by {
      assert forall st :: st in stages <==> st in byLocation || st in from || st in until;
    }
    Success(stages)
  }

  /** A query over a snapshot of the store, with `scorer` standing in for the sentiment analyser. */
  function Query(store: seq<Review>, req: QueryRequest, scorer: string -> Sentiment): (r: Result<seq<Scored>, ApiError>)
    ensures r.Failure? <==> Criteria(req).Failure?
    ensures r.Failure? ==> r.error == Criteria(req).error
    ensures r.Success? <==>
      !(LocationGiven(req.location) && !IsAllowed(req.location.value))
      && !req.startDate.Malformed? && !req.endDate.Malformed?
    ensures r.Success? ==> |r.value| <= |store|
    ensures r.Success? ==> SortedDesc(r.value)
    ensures r.Success? ==> forall i :: 0 <= i < |r.value| ==>
      && r.value[i].review in store
      && Wanted(req, r.value[i].review)
      && r.value[i].sentiment == scorer(r.value[i].review.body)
    ensures r.Success? ==> forall x :: x in store && Wanted(req, x) ==> Scored(x, scorer(x.body)) in r.value
  {
    match Criteria(req)
    case Failure(e) => Failure(e)
    case Success(stages) =>
      var narrowed := Narrow(store, stages);
      var scored := ScoreAll(narrowed, scorer);
      var ranked := Rank(scored);
      SubsequenceMembers(narrowed, store);
      assert forall x :: x in ranked <==> x in scored by {
        forall x ensures x in ranked <==> x in scored {
          assert x in ranked <==> x in multiset(ranked);
          assert x in scored <==> x in multiset(scored);
        }
      }
      assert forall y :: y in scored ==> y.review in store && Wanted(req, y.review) && y.sentiment == scorer(y.review.body) by {
        forall y | y in scored ensures y.review in store && Wanted(req, y.review) && y.sentiment == scorer(y.review.body) {
          var i :| 0 <= i < |scored| && scored[i] == y;
          assert narrowed[i] in narrowed;
        }
      }
      assert forall x :: x in store && Wanted(req, x) ==> Scored(x, scorer(x.body)) in scored by {
        forall x | x in store && Wanted(req, x) ensures Scored(x, scorer(x.body)) in scored {
          var i :| 0 <= i < |narrowed| && narrowed[i] == x;
          assert scored[i] == Scored(x, scorer(x.body));
        }
      }
      Success(ranked)
  }

  /**
    A valid query returns the matching reviews of the store, scored, as a
    permutation; reviews with equal compound scores appear in store order.
  */
  lemma QueryIsStablePermutation(store: seq<Review>, req: QueryRequest, scorer: string -> Sentiment, k: real)
    requires Criteria(req).Success?
    ensures Query(store, req, scorer).Success?
    ensures multiset(Query(store, req, scorer).value) == multiset(ScoreAll(Select(store, Criteria(req).value), scorer))
    ensures Ties(Query(store, req, scorer).value, k) == Ties(ScoreAll(Select(store, Criteria(req).value), scorer), k)
  {
    var stages := Criteria(req).value;
    NarrowIsSelect(store, stages);
    RankIsStable(ScoreAll(Narrow(store, stages), scorer), k);
  }

  /** An unknown location is rejected whatever the store holds and whatever the scorer says. */
  lemma InvalidLocationReadsNothing(s1: seq<Review>, s2: seq<Review>, req: QueryRequest,
                                    f1: string -> Sentiment, f2: string -> Sentiment)
    requires LocationGiven(req.location) && !IsAllowed(req.location.value)
    ensures Query(s1, req, f1) == Query(s2, req, f2) == Failure(InvalidLocation)
  {
  }

  /**
    The end date is compared with 00:00:00 of that day, so the only review of
    that day that can survive is one stamped exactly at midnight.
  */
  lemma EndDateExcludesRestOfDay(store: seq<Review>, req: QueryRequest, scorer: string -> Sentiment, t: DateTime)
    requires req.endDate.Day? && ValidDateTime(t) && DayOf(t) == req.endDate.date
    requires t != Midnight(req.endDate.date)
    ensures Query(store, req, scorer).Success? ==>
      forall i :: 0 <= i < |Query(store, req, scorer).value| ==>
        Query(store, req, scorer).value[i].review.timestamp != t
  {
    LaterThanMidnight(t, req.endDate.date);
  }

  /** A start date later than the end date is not an error; it simply matches nothing. */
  lemma InvertedRangeIsEmpty(store: seq<Review>, req: QueryRequest, scorer: string -> Sentiment)
    requires !(LocationGiven(req.location) && !IsAllowed(req.location.value))
    requires req.startDate.Day? && req.endDate.Day?
    requires !DateNoLater(req.startDate.date, req.endDate.date)
    ensures Query(store, req, scorer) == Success([])
  {
    var r := Query(store, req, scorer).value;
    if |r| > 0 {
      NothingBetweenInvertedDays(r[0].review.timestamp, req.startDate.date, req.endDate.date);
      assert false;
    }
  }

  /**
    Appending a review to the store changes a valid query's answer by at most
    that review, and among equal scores it comes after every older review.
  */
  lemma QueryAfterAppend(store: seq<Review>, x: Review, req: QueryRequest, scorer: string -> Sentiment, k: real)
    requires Criteria(req).Success?
    ensures
      var added := if Wanted(req, x) then [Scored(x, scorer(x.body))] else [];
      && Query(store, req, scorer).Success?
      && Query(store + [x], req, scorer).Success?
      && multiset(Query(store + [x], req, scorer).value) == multiset(Query(store, req, scorer).value) + multiset(added)
      && Ties(Query(store + [x], req, scorer).value, k) == Ties(Query(store, req, scorer).value, k) + Ties(added, k)
  {
    var stages := Criteria(req).value;
    var added := if Wanted(req, x) then [Scored(x, scorer(x.body))] else [];
    var before := ScoreAll(Select(store, stages), scorer);
    var grown := ScoreAll(Select(store + [x], stages), scorer);
    assert grown == before + added by {
      var kept := if PassesAll(stages, x) then [x] else [];
      SelectAppend(store, x, stages);
      ScoreAllAppend(Select(store, stages), kept, scorer);
      assert PassesAll(stages, x) == Wanted(req, x);
      assert ScoreAll(kept, scorer) == added;
    }
    QueryIsStablePermutation(store, req, scorer, k);
    QueryIsStablePermutation(store + [x], req, scorer, k);
    TiesAppend(before, added, k);
  }
}
