/** dashboard.py carries its own copy of get_recommendations_with_platforms,
    line for line the engine of main.py. The page shows the result as a
    ranked table, or a "no recommendations" notice when it is empty. */
module Dashboard {
  import opened Records
  import opened Ranking
  import opened Availability
  import Engine

  /** The dashboard's copy of the engine: the same filter, sort and loop. Its
      contract states what the page relies on: at most ten rows, each an
      available line paired positionally with the ranking, and an empty
      result exactly when no train waits or no line is available. */
  method GetRecommendationsWithPlatforms(trains: seq<Train>, platforms: seq<Platform>)
    returns (recs: seq<Recommendation>)
    ensures recs == Engine.Recommend(trains, platforms)
    ensures |recs| == Engine.NumSuggestions(|trains|, |AvailableLines(platforms)|)
    ensures |recs| <= Engine.MaxSuggestions
    ensures forall i :: 0 <= i < |recs| ==>
      recs[i].platform.isAvailable
      && recs[i].train == Rank(trains)[i]
      && recs[i].platform == AvailableLines(platforms)[i]
    ensures recs == [] <==> trains == [] || forall p :: p in platforms ==> !p.isAvailable
  {
    recs := Engine.GetRecommendationsWithPlatforms(trains, platforms);
    Engine.RecommendShape(trains, platforms);
    Engine.RecommendEmpty(trains, platforms);
    Engine.RecommendedPlatformsInOrder(trains, platforms);
  }
}
