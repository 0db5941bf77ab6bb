/**
  The ranking half of a query: a stable sort by compound score, highest
  first (Python's `list.sort(key=..., reverse=True)`, which keeps equal
  keys in their incoming order).
*/
module Ranking {
  import opened Reviews

  function Key(x: Scored): real {
    x.sentiment.compound
  }

  /** Each result scores at least as high as the one after it. */
  predicate SortedDesc(s: seq<Scored>) {
    forall i :: 0 < i < |s| ==> Key(s[i - 1]) >= Key(s[i])
  }

  /** The elements of `s` whose compound score is exactly `k`, in order. */
  function Ties(s: seq<Scored>, k: real): seq<Scored> {
    if |s| == 0 then []
    else (if Key(s[0]) == k then [s[0]] else []) + Ties(s[1..], k)
  }

  /** Places `x` before the first element it is not below. */
  function Insert(x: Scored, t: seq<Scored>): (r: seq<Scored>)
    requires SortedDesc(t)
    ensures SortedDesc(r)
    ensures multiset(r) == multiset([x] + t)
    ensures |r| == |t| + 1 && (r[0] == x || (|t| > 0 && r[0] == t[0]))
  {
    if |t| == 0 || Key(t[0]) <= Key(x) then [x] + t
    else
      assert t == [t[0]] + t[1..];
      [t[0]] + Insert(x, t[1..])
  }

  /** Insertion sort; the earlier of two equal keys is inserted last, so it stays in front. */
  function Rank(s: seq<Scored>): (r: seq<Scored>)
    ensures SortedDesc(r)
    ensures multiset(r) == multiset(s)
    ensures |r| == |s|
  {
    if |s| == 0 then []
    else
      assert s == [s[0]] + s[1..];
      Insert(s[0], Rank(s[1..]))
  }

  /** The adjacent ordering extends to every pair. */
  lemma {:induction false} SortedDescPairwise(s: seq<Scored>)
    requires SortedDesc(s)
    ensures forall i, j :: 0 <= i <= j < |s| ==> Key(s[i]) >= Key(s[j])
  {
    if |s| > 1 {
      var tail := s[1..];
      SortedDescPairwise(tail);
      forall i, j | 0 <= i <= j < |s|
        ensures Key(s[i]) >= Key(s[j])
      {
        if i == 0 && j > 0 {
          assert Key(s[0]) >= Key(s[1]) == Key(tail[0]);
          assert Key(tail[0]) >= Key(tail[j - 1]);
        } else if i > 0 {
          assert Key(tail[i - 1]) >= Key(tail[j - 1]);
        }
      }
    }
  }

  lemma {:induction false} TiesAppend(a: seq<Scored>, b: seq<Scored>, k: real)
    ensures Ties(a + b, k) == Ties(a, k) + Ties(b, k)
  {
    if |a| == 0 {
      assert a + b == b;
    } else {
      TiesAppend(a[1..], b, k);
      assert (a + b)[1..] == a[1..] + b;
    }
  }

  /** Inserting into a sorted sequence keeps each run of equal keys in order, the new one first. */
  lemma {:induction false} InsertTies(x: Scored, t: seq<Scored>, k: real)
    requires SortedDesc(t)
    ensures Ties(Insert(x, t), k) == Ties([x] + t, k)
  {
    if |t| > 0 && Key(t[0]) > Key(x) {
      var rest := Insert(x, t[1..]);
      InsertTies(x, t[1..], k);
      TiesAppend([t[0]], rest, k);
      TiesAppend([x], t[1..], k);
      TiesAppend([t[0]], t[1..], k);
      TiesAppend([x], t, k);
      assert t == [t[0]] + t[1..];
    }
  }

  /** Stability: for every score, the results with that score keep their incoming order. */
  lemma {:induction false} RankIsStable(s: seq<Scored>, k: real)
    ensures Ties(Rank(s), k) == Ties(s, k)
  {
    if |s| > 0 {
      RankIsStable(s[1..], k);
      InsertTies(s[0], Rank(s[1..]), k);
      TiesAppend([s[0]], Rank(s[1..]), k);
      TiesAppend([s[0]], s[1..], k);
      assert s == [s[0]] + s[1..];
    }
  }
}
