/**
  The narrowing half of a query: the store passes through up to three
  list-comprehension stages (location, start date, end date), each keeping
  the reviews it accepts in their original order.
*/
module Filtering {
  import opened Timestamps
  import opened Reviews
  import opened Sequences

  /** One filter stage of a query. */
  datatype Stage =
    | AtLocation(location: string)   // Location == location
    | NotBefore(bound: DateTime)     // Timestamp >= bound
    | NotAfter(bound: DateTime)      // Timestamp <= bound

  predicate Passes(stage: Stage, r: Review) {
    match stage
    case AtLocation(l) => r.location == l
    case NotBefore(b) => NoLater(b, r.timestamp)
    case NotAfter(b) => NoLater(r.timestamp, b)
  }

  /** `r` is accepted by every stage. */
  predicate PassesAll(stages: seq<Stage>, r: Review) {
    forall st :: st in stages ==> Passes(st, r)
  }

  lemma PassesAllSingle(stage: Stage)
    ensures forall x :: PassesAll([stage], x) <==> Passes(stage, x)
  {
    assert forall st :: st in [stage] <==> st == stage;
  }

  /** One stage: the reviews of `s` it accepts, in order. */
  function Keep(s: seq<Review>, stage: Stage): (r: seq<Review>)
    ensures forall x :: x in r <==> x in s && Passes(stage, x)
    ensures Subsequence(r, s)
  {
    if |s| == 0 then []
    else if Passes(stage, s[0]) then
      var rest := Keep(s[1..], stage);
      assert ([s[0]] + rest)[1..] == rest;
      [s[0]] + rest
    else
      Keep(s[1..], stage)
  }

  /** The stages applied one after another, as the request handler does. */
  function Narrow(s: seq<Review>, stages: seq<Stage>): (r: seq<Review>)
    ensures forall x :: x in r <==> x in s && PassesAll(stages, x)
    ensures Subsequence(r, s)
    decreases |stages|
  {
    if |stages| == 0 then
      SubsequenceReflexive(s);
      s
    else
      var first := Keep(s, stages[0]);
      var r := Narrow(first, stages[1..]);
      SubsequenceTransitive(r, first, s);
      assert stages == [stages[0]] + stages[1..];
      r
  }

  /** Reference definition: one pass keeping the reviews every stage accepts. */
  function Select(s: seq<Review>, stages: seq<Stage>): seq<Review> {
    if |s| == 0 then []
    else (if PassesAll(stages, s[0]) then [s[0]] else []) + Select(s[1..], stages)
  }

  lemma {:induction false} SelectNoStages(s: seq<Review>)
    ensures Select(s, []) == s
  {
    if |s| > 0 {
      SelectNoStages(s[1..]);
    }
  }

  lemma {:induction false} SelectAfterKeep(s: seq<Review>, stage: Stage, rest: seq<Stage>)
    ensures Select(Keep(s, stage), rest) == Select(s, [stage] + rest)
  {
    var all := [stage] + rest;
    if |s| > 0 {
      SelectAfterKeep(s[1..], stage, rest);
      assert forall st :: st in all <==> st == stage || st in rest;
      if Passes(stage, s[0]) {
        var k := Keep(s[1..], stage);
        assert Keep(s, stage) == [s[0]] + k;
        assert ([s[0]] + k)[0] == s[0] && ([s[0]] + k)[1..] == k;
      }
    }
  }

  /** Applying the stages one by one is the same as one pass with all of them. */
  lemma {:induction false} NarrowIsSelect(s: seq<Review>, stages: seq<Stage>)
    ensures Narrow(s, stages) == Select(s, stages)
    decreases |stages|
  {
    if |stages| == 0 {
      SelectNoStages(s);
    } else {
      NarrowIsSelect(Keep(s, stages[0]), stages[1..]);
      SelectAfterKeep(s, stages[0], stages[1..]);
      assert [stages[0]] + stages[1..] == stages;
    }
  }

  /** A review appended to the store shows up, last, in exactly the narrowings that accept it. */
  lemma {:induction false} SelectAppend(s: seq<Review>, x: Review, stages: seq<Stage>)
    ensures Select(s + [x], stages) == Select(s, stages) + (if PassesAll(stages, x) then [x] else [])
  {
    if |s| == 0 {
      assert Select([x][1..], stages) == [];
    } else {
      SelectAppend(s[1..], x, stages);
      assert (s + [x])[1..] == s[1..] + [x];
    }
  }
}
