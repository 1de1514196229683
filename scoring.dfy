/**
 * Scoring (`calculateScores`): every option's score is the mean of its
 * ratings, 0 when it has none; the chosen destination and the chosen
 * weekend are those that `reduce((a, b) => a.score >= b.score ? a : b)`
 * keeps, which is the first option holding the highest score. `reduce`
 * over an empty list throws, which is the error value here.
 */
module Scoring {
  import opened Wrappers
  import opened Votes

  /** `reduce((a, b) => a + b, 0)`: the ratings added up from the left. */
  function Sum(s: seq<int>): int
  {
    if s == [] then 0 else Sum(s[..|s| - 1]) + s[|s| - 1]
  }

  /** The average rating, or 0 when there is none. */
  function Mean(s: seq<int>): (r: real)
    ensures s == [] ==> r == 0.0
    ensures s != [] ==> r * (|s| as real) == Sum(s) as real
  {
    if |s| == 0 then 0.0 else Sum(s) as real / |s| as real
  }

  /** The score of an option in a store. */
  function Score(store: Store, option: string): real
  {
    Mean(Lookup(store, option))
  }

  /** Ratings between `lo` and `hi` add up to between `lo` and `hi` times their number. */
  lemma {:induction false} SumBounds(s: seq<int>, lo: int, hi: int)
    requires forall i :: 0 <= i < |s| ==> lo <= s[i] <= hi
    ensures lo * |s| <= Sum(s) <= hi * |s|
    decreases |s|
  {
    if s != [] {
      SumBounds(s[..|s| - 1], lo, hi);
    }
  }

  /** Dividing out a positive factor `n` keeps the order of two numbers given through their products `xn` and `cn`. */
  lemma ScaleOrder(x: real, c: real, n: real, xn: real, cn: real)
    requires n > 0.0 && xn == x * n && cn == c * n && xn <= cn
    ensures x <= c
  {
    assert (c - x) * n == cn - xn;
  }

  /** When every rating is one the page offers (1 to 5), a score with votes lies between 1 and 5. */
  lemma MeanWithinRatings(s: seq<int>)
    requires s != []
    requires forall i :: 0 <= i < |s| ==> 1 <= s[i] <= 5
    ensures 1.0 <= Mean(s) <= 5.0
  {
    SumBounds(s, 1, 5);
    var n := |s| as real;
    var total := Sum(s) as real;
    assert n <= total <= 5.0 * n;
    ScaleOrder(1.0, Mean(s), n, n, total);
    ScaleOrder(Mean(s), 5.0, n, total, 5.0 * n);
  }

  /** A new rating moves the mean toward it and never past it. */
  lemma MeanMovesTowardVote(s: seq<int>, v: int)
    ensures Mean(s) <= v as real ==> Mean(s) <= Mean(s + [v]) <= v as real
    ensures v as real <= Mean(s) ==> v as real <= Mean(s + [v]) <= Mean(s)
  {
    var n := |s| as real;
    var m, m' := Mean(s), Mean(s + [v]);
    var x := v as real;
    assert (s + [v])[..|s|] == s;
    assert m' * (n + 1.0) == m * n + x;
    assert m' == m + (x - m) / (n + 1.0);
    assert x - m' == (x - m) * n / (n + 1.0);
  }

  /** `{ name, score }` as `calculateScores` builds it for each option. */
  datatype ScoredOption = ScoredOption(name: string, score: real)

  /** `options.map(...)`: each option with its score, in the options' order. */
  function ScoreAll(options: seq<string>, store: Store): seq<ScoredOption>
  {
    seq(|options|, i requires 0 <= i < |options| => ScoredOption(options[i], Score(store, options[i])))
  }

  /** Entry `i` has the highest score and every entry before it scores strictly less. */
  predicate IsFirstBest(entries: seq<ScoredOption>, i: int)
  {
    && 0 <= i < |entries|
    && (forall j :: 0 <= j < |entries| ==> entries[j].score <= entries[i].score)
    && (forall j :: 0 <= j < i ==> entries[j].score < entries[i].score)
  }

  /** The index the left fold `reduce((a, b) => a.score >= b.score ? a : b)` ends on. */
  function TopIndex(entries: seq<ScoredOption>): (i: nat)
    requires entries != []
    ensures IsFirstBest(entries, i)
    decreases |entries|
  {
    if |entries| == 1 then 0
    else
      var a := TopIndex(entries[..|entries| - 1]);
      var b := |entries| - 1;
      if entries[a].score >= entries[b].score then a else b
  }

  /** `reduce` over an empty array without an initial value throws a TypeError. */
  datatype ScoreError = EmptyReduce

  /** The entry `reduce` keeps, or the error it throws on an empty list. */
  function Top(entries: seq<ScoredOption>): (r: Result<ScoredOption, ScoreError>)
    ensures r.Err? <==> entries == []
    ensures r.Ok? ==> exists i :: IsFirstBest(entries, i) && r.value == entries[i]
  {
    if entries == [] then Err(EmptyReduce) else Ok(entries[TopIndex(entries)])
  }

  /** The first best entry is unique. */
  lemma FirstBestUnique(entries: seq<ScoredOption>, i: int, k: int)
    requires IsFirstBest(entries, i) && IsFirstBest(entries, k)
    ensures i == k
  {
    assert entries[i].score == entries[k].score;
  }

  /** `name` is an option with the highest score, and no option before it scores as much. */
  predicate IsWinner(options: seq<string>, store: Store, name: string)
  {
    && name in options
    && (forall o :: o in options ==> Score(store, o) <= Score(store, name))
    && (forall j :: 0 <= j < |options| && Score(store, options[j]) == Score(store, name) ==> name in options[..j + 1])
  }

  /** The position of the first occurrence of `x` in `s`. */
  function IndexOf(s: seq<string>, x: string): (i: nat)
    requires x in s
    ensures i < |s| && s[i] == x && x !in s[..i]
  {
    if s[0] == x then 0 else 1 + IndexOf(s[1..], x)
  }

  /** An element found among the first `k + 1` occurs first at or before `k`. */
  lemma {:induction false} IndexOfAtMost(s: seq<string>, x: string, k: int)
    requires 0 <= k < |s| && x in s[..k + 1]
    ensures IndexOf(s, x) <= k
  {
    if s[0] != x {
      assert s[..k + 1] == [s[0]] + s[1..][..k];
      IndexOfAtMost(s[1..], x, k - 1);
    }
  }

  /** At most one name is the winner of a list of options. */
  lemma WinnerUnique(options: seq<string>, store: Store, n1: string, n2: string)
    requires IsWinner(options, store, n1) && IsWinner(options, store, n2)
    ensures n1 == n2
  {
    var i1, i2 := IndexOf(options, n1), IndexOf(options, n2);
    assert Score(store, n1) <= Score(store, n2) && Score(store, n2) <= Score(store, n1);
    assert n1 in options[..i2 + 1];
    assert n2 in options[..i1 + 1];
    IndexOfAtMost(options, n1, i2);
    IndexOfAtMost(options, n2, i1);
    assert i1 == i2;
    assert n1 == options[i1] == n2;
  }

  /** The entry `reduce` keeps over the scored options names the winner. */
  lemma TopIsWinner(options: seq<string>, store: Store)
    requires options != []
    ensures Top(ScoreAll(options, store)).Ok?
    ensures IsWinner(options, store, Top(ScoreAll(options, store)).value.name)
  {
    var entries := ScoreAll(options, store);
    var i := TopIndex(entries);
    var name := options[i];
    assert entries[i].name == name;
    forall o | o in options
      ensures Score(store, o) <= Score(store, name)
    {
      var j :| 0 <= j < |options| && options[j] == o;
      assert entries[j].score == Score(store, o);
    }
    forall j | 0 <= j < |options| && Score(store, options[j]) == Score(store, name)
      ensures name in options[..j + 1]
    {
      assert entries[j].score == entries[i].score;
      assert options[..j + 1][i] == name;
    }
  }

  /** The trip `calculateScores` settles on (its constant emoji is not modelled). */
  datatype FinalTrip = FinalTrip(destination: string, weekend: string)

  /** The winning destination and weekend, or the error an empty list throws. */
  function BestTrip(destinations: seq<string>, weekends: seq<string>, store: Store): (r: Result<FinalTrip, ScoreError>)
    ensures r.Err? <==> destinations == [] || weekends == []
    ensures r.Ok? ==> IsWinner(destinations, store, r.value.destination)
    ensures r.Ok? ==> IsWinner(weekends, store, r.value.weekend)
  {
    var destScores := ScoreAll(destinations, store);
    var weekendScores := ScoreAll(weekends, store);
    match Top(destScores)
    case Err(e) => Err(e)
    case Ok(topDest) =>
      match Top(weekendScores)
      case Err(e) => Err(e)
      case Ok(topWeekend) =>
        TopIsWinner(destinations, store);
        TopIsWinner(weekends, store);
        Ok(FinalTrip(topDest.name, topWeekend.name))
  }
}
