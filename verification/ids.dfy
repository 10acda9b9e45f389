/** Identifier assignment shared by both stores: the next id is one more than
    the largest id present, or 1 for an empty collection. */
module Ids {

  /** `records.map(r => r.id)`: the ids of a collection, in its order. */
  function IdsOf<T>(records: seq<T>, id: T -> int): (ids: seq<int>)
    ensures |ids| == |records|
    ensures forall i :: 0 <= i < |records| ==> ids[i] == id(records[i])
  {
    if records == [] then [] else [id(records[0])] + IdsOf(records[1..], id)
  }

  /** `Math.max(...ids)` on a non-empty list. */
  function MaxOf(ids: seq<int>): (m: int)
    requires |ids| > 0
    ensures forall i :: 0 <= i < |ids| ==> ids[i] <= m
    ensures exists i :: 0 <= i < |ids| && ids[i] == m
  {
    if |ids| == 1 then ids[0]
    else
      var rest := MaxOf(ids[1..]);
      assert forall i :: 1 <= i < |ids| ==> ids[i] == ids[1..][i - 1];
      if ids[0] >= rest then ids[0] else rest
  }

  /** The id a store gives its next record. It is above every id present,
      including when deletions have left gaps, and it is the least such
      value: one more than an id present. */
  function NextId(ids: seq<int>): (id: int)
    ensures forall i :: 0 <= i < |ids| ==> ids[i] < id
    ensures |ids| == 0 ==> id == 1
    ensures |ids| > 0 ==> exists i :: 0 <= i < |ids| && ids[i] == id - 1
  {
    if |ids| > 0 then MaxOf(ids) + 1 else 1
  }

  /** When no id is negative, the next id is positive. */
  lemma NextIdPositive(ids: seq<int>)
    requires forall i :: 0 <= i < |ids| ==> ids[i] >= 0
    ensures NextId(ids) >= 1
  {
    if |ids| > 0 {
      var i :| 0 <= i < |ids| && ids[i] == NextId(ids) - 1;
    }
  }
}
