/**
  The POST branch of the request handler: check that both fields are
  present, check the location against the registry, then build a record and
  append it to the store. The fresh id (a random UUID in the handler) and the
  current time are parameters.
*/
module Ingest {
  import opened Wrappers
  import opened Timestamps
  import opened Locations
  import opened Reviews
  import opened Ranking
  import opened Queries

  /** A form field that is missing or empty. */
  predicate Blank(field: Option<string>) {
    field.None? || field.value == ""
  }

  /** The store after a submission, and what the submission answered. */
  datatype Ingested = Ingested(store: seq<Review>, outcome: Result<Review, ApiError>)

  function Submit(store: seq<Review>, body: Option<string>, location: Option<string>,
                  id: string, now: DateTime): (r: Ingested)
    ensures r.outcome == Failure(MissingFields) <==> Blank(body) || Blank(location)
    ensures r.outcome == Failure(InvalidLocation) <==>
      !Blank(body) && !Blank(location) && !IsAllowed(location.value)
    ensures r.outcome.Success? <==> !Blank(body) && !Blank(location) && IsAllowed(location.value)
    ensures r.outcome.Failure? ==> r.store == store
    ensures r.outcome.Success? ==>
      && |r.store| == |store| + 1
      && r.store[..|store|] == store
      && r.store[|store|] == r.outcome.value
      && r.outcome.value.body == body.value
      && r.outcome.value.location == location.value
      && r.outcome.value.id == id
      && r.outcome.value.timestamp == now
  {
    if Blank(body) || Blank(location) then Ingested(store, Failure(MissingFields))
    else if !IsAllowed(location.value) then Ingested(store, Failure(InvalidLocation))
    else
      var review := Review(id, body.value, location.value, now);
      Ingested(store + [review], Success(review))
  }

  /** A submission with a fresh id and a valid clock keeps a well-formed store well-formed. */
  lemma SubmitPreservesWellFormed(store: seq<Review>, body: Option<string>, location: Option<string>,
                                  id: string, now: DateTime)
    requires WellFormed(store) && FreshId(store, id) && ValidDateTime(now)
    ensures WellFormed(Submit(store, body, location, id, now).store)
  {
  }

  /**
    After an accepted submission, any valid query sees what it saw before,
    plus the new review when it matches; among equal scores the new review
    comes last, because it was appended last.
  */
  lemma QueryAfterSubmit(store: seq<Review>, body: Option<string>, location: Option<string>,
                         id: string, now: DateTime, req: QueryRequest, scorer: string -> Sentiment, k: real)
    requires Submit(store, body, location, id, now).outcome.Success?
    requires Criteria(req).Success?
    ensures
      var after := Submit(store, body, location, id, now);
      var x := after.outcome.value;
      var added := if Wanted(req, x) then [Scored(x, scorer(x.body))] else [];
      && Query(store, req, scorer).Success?
      && Query(after.store, req, scorer).Success?
      && multiset(Query(after.store, req, scorer).value) == multiset(Query(store, req, scorer).value) + multiset(added)
      && Ties(Query(after.store, req, scorer).value, k) == Ties(Query(store, req, scorer).value, k) + Ties(added, k)
  {
    var after := Submit(store, body, location, id, now);
    assert after.store == store + [after.outcome.value];
    QueryAfterAppend(store, after.outcome.value, req, scorer, k);
  }
}
