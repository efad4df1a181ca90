/** Step 1 of the engine: the platform rows whose Is_Available flag is true,
    kept in table order (a boolean mask, no re-sorting). */
module Availability {
  import opened Records

  /** `available_lines` of the source. */
  function AvailableLines(platforms: seq<Platform>): (lines: seq<Platform>)
    ensures |lines| <= |platforms|
  {
    if platforms == [] then
      []
    else
      var init := platforms[..|platforms| - 1];
      var last := platforms[|platforms| - 1];
      assert platforms == init + [last];
      if last.isAvailable then AvailableLines(init) + [last] else AvailableLines(init)
  }

  /** The mask keeps a row exactly when it is available. */
  lemma {:induction false} AvailableLinesMembers(platforms: seq<Platform>)
    ensures forall p :: p in AvailableLines(platforms) <==> p in platforms && p.isAvailable
  {
    if platforms != [] {
      var init := platforms[..|platforms| - 1];
      AvailableLinesMembers(init);
      assert platforms == init + [platforms[|platforms| - 1]];
    }
  }

  /** The indices of the available rows, in table order: an independent
      description of what the mask selects. */
  ghost function AvailableIndices(platforms: seq<Platform>): (ix: seq<nat>)
    ensures forall k :: 0 <= k < |ix| ==> ix[k] < |platforms| && platforms[ix[k]].isAvailable
    ensures forall i :: 0 <= i < |platforms| && platforms[i].isAvailable ==> i in ix
    ensures forall k, l :: 0 <= k < l < |ix| ==> ix[k] < ix[l]
  {
    if platforms == [] then
      []
    else
      var n := |platforms| - 1;
      if platforms[n].isAvailable then AvailableIndices(platforms[..n]) + [n]
      else AvailableIndices(platforms[..n])
  }

  /** The filter keeps exactly the available rows, in their table order:
      its k-th line is the row at the k-th available index. */
  lemma {:induction false} AvailableLinesInOrder(platforms: seq<Platform>)
    ensures |AvailableLines(platforms)| == |AvailableIndices(platforms)|
    ensures forall k :: 0 <= k < |AvailableLines(platforms)| ==>
      AvailableLines(platforms)[k] == platforms[AvailableIndices(platforms)[k]]
  {
    if platforms != [] {
      var n := |platforms| - 1;
      var init := platforms[..n];
      AvailableLinesInOrder(init);
      var lines, ix := AvailableLines(init), AvailableIndices(init);
      assert platforms == init + [platforms[n]];
      forall k | 0 <= k < |lines|
        ensures lines[k] == platforms[ix[k]]
      {
        assert init[ix[k]] == platforms[ix[k]];
      }
    }
  }
}
