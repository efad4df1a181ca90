/** The recommendation engine of main.py, get_recommendations_with_platforms:
    filter the available lines, rank the trains, and pair the i-th ranked
    train with the i-th available line for at most ten suggestions. */
module Engine {
  import opened Records
  import opened Ranking
  import opened Availability

  /** The cap on suggestions ("the top 10 trains"). */
  const MaxSuggestions: nat := 10

  /** `min(len(sorted_trains), len(available_lines), 10)`. */
  function NumSuggestions(trainCount: nat, lineCount: nat): (n: nat)
    ensures n <= trainCount && n <= lineCount && n <= MaxSuggestions
    ensures n == trainCount || n == lineCount || n == MaxSuggestions
  {
    var fewer := if trainCount <= lineCount then trainCount else lineCount;
    if fewer <= MaxSuggestions then fewer else MaxSuggestions
  }

  /** Pairs the i-th ranked train with the i-th line, for the first
      NumSuggestions positions: a positional zip, not an optimal assignment. */
  function Zip(ranked: seq<Train>, lines: seq<Platform>): (recs: seq<Recommendation>)
  {
    var n := NumSuggestions(|ranked|, |lines|);
    seq(n, i requires 0 <= i < n => Recommendation(ranked[i], lines[i]))
  }

  /** The result the engine returns, as a value. */
  function Recommend(trains: seq<Train>, platforms: seq<Platform>): seq<Recommendation>
  {
    Zip(Rank(trains), AvailableLines(platforms))
  }

  /** The trains of a recommendation list, in order. */
  function RecommendedTrains(recs: seq<Recommendation>): seq<Train>
  {
    seq(|recs|, i requires 0 <= i < |recs| => recs[i].train)
  }

  /** get_recommendations_with_platforms: the filter, the sort, then the loop
      that appends one pair per suggestion. */
  method GetRecommendationsWithPlatforms(trains: seq<Train>, platforms: seq<Platform>)
    returns (recs: seq<Recommendation>)
    ensures recs == Recommend(trains, platforms)
  {
    var availableLines := AvailableLines(platforms);
    var sortedTrains := Rank(trains);
    var numSuggestions := NumSuggestions(|sortedTrains|, |availableLines|);
    recs := [];
    for i := 0 to numSuggestions
      invariant |recs| == i
      invariant forall k :: 0 <= k < i ==> recs[k] == Recommendation(sortedTrains[k], availableLines[k])
    {
      recs := recs + [Recommendation(sortedTrains[i], availableLines[i])];
    }
    assert recs == Zip(sortedTrains, availableLines);
  }

  /** The result holds min(#trains, #available lines, 10) pairs, never more
      than ten, and pair i is the i-th ranked train with the i-th available line. */
  lemma RecommendShape(trains: seq<Train>, platforms: seq<Platform>)
    ensures var recs := Recommend(trains, platforms);
      && |recs| == NumSuggestions(|trains|, |AvailableLines(platforms)|)
      && |recs| <= MaxSuggestions
      && (forall i :: 0 <= i < |recs| ==>
            recs[i].train == Rank(trains)[i] && recs[i].platform == AvailableLines(platforms)[i])
  {
  }

  /** No recommendation exactly when no train waits or no line is available. */
  lemma RecommendEmpty(trains: seq<Train>, platforms: seq<Platform>)
    ensures Recommend(trains, platforms) == [] <==>
      trains == [] || forall p :: p in platforms ==> !p.isAvailable
  {
    var lines := AvailableLines(platforms);
    AvailableLinesMembers(platforms);
    if lines != [] {
      assert lines[0] in lines;
    }
  }

  /** Every suggested line is available, and the suggested lines are the
      available rows taken in table order: pair i uses the row at the i-th
      available index, and those indices increase. */
  lemma RecommendedPlatformsInOrder(trains: seq<Train>, platforms: seq<Platform>)
    ensures var recs := Recommend(trains, platforms);
      && |recs| <= |AvailableIndices(platforms)|
      && (forall i :: 0 <= i < |recs| ==>
            recs[i].platform.isAvailable
            && AvailableIndices(platforms)[i] < |platforms|
            && recs[i].platform == platforms[AvailableIndices(platforms)[i]])
      && forall i, j :: 0 <= i < j < |recs| ==> AvailableIndices(platforms)[i] < AvailableIndices(platforms)[j]
  {
    AvailableLinesInOrder(platforms);
  }

  /** Cutting a ranking after its first n entries leaves out nothing that
      ranks strictly before a kept entry. */
  lemma SortedPrefixIsTop(ranked: seq<Train>, n: nat)
    requires n <= |ranked|
    requires forall i, j :: 0 <= i < j < |ranked| ==> !RanksBefore(ranked[j], ranked[i])
    ensures multiset(ranked[..n]) <= multiset(ranked)
    ensures forall t, i :: t in multiset(ranked) - multiset(ranked[..n]) && 0 <= i < n ==>
      !RanksBefore(t, ranked[i])
  {
    assert ranked == ranked[..n] + ranked[n..];
    assert multiset(ranked) - multiset(ranked[..n]) == multiset(ranked[n..]);
    forall t, i | t in multiset(ranked[n..]) && 0 <= i < n
      ensures !RanksBefore(t, ranked[i])
    {
      var j :| 0 <= j < |ranked[n..]| && ranked[n..][j] == t;
      assert ranked[n + j] == t;
    }
  }

  /** The suggested trains are the top of the ranking: they are input trains,
      in ranked order, and no train left out ranks strictly before any of them. */
  lemma RecommendTopK(trains: seq<Train>, platforms: seq<Platform>)
    ensures var chosen := RecommendedTrains(Recommend(trains, platforms));
      && multiset(chosen) <= multiset(trains)
      && (forall i, j :: 0 <= i < j < |chosen| ==> !RanksBefore(chosen[j], chosen[i]))
      && forall t, i :: t in multiset(trains) - multiset(chosen) && 0 <= i < |chosen| ==>
           !RanksBefore(t, chosen[i])
  {
    var ranked := Rank(trains);
    RankIsSortedPermutation(trains);
    var chosen := RecommendedTrains(Recommend(trains, platforms));
    assert chosen == ranked[..|chosen|];
    SortedPrefixIsTop(ranked, |chosen|);
  }
}
