/** The one id allocator every page uses: "max existing id + 1, or 1 if there is none". */
module Ids {

  /** `rows.length > 0 ? Math.max(...ids) : 0`. */
  function MaxOrZero(ids: seq<int>): (m: int)
    ensures forall i :: 0 <= i < |ids| ==> ids[i] <= m
    ensures |ids| == 0 ==> m == 0
    ensures |ids| > 0 ==> exists i :: 0 <= i < |ids| && ids[i] == m
  {
    if |ids| == 0 then 0
    else if |ids| == 1 then ids[0]
    else
      var rest := MaxOrZero(ids[1..]);
      assert forall i :: 1 <= i < |ids| ==> ids[i] == ids[1..][i - 1];
      if ids[0] >= rest then ids[0] else rest
  }

  /** The next id of a record family. */
  function NextId(ids: seq<int>): (r: int)
    ensures forall i :: 0 <= i < |ids| ==> ids[i] < r
    ensures r !in ids
    ensures |ids| == 0 ==> r == 1
    ensures (forall i :: 0 <= i < |ids| ==> ids[i] >= 0) ==> r >= 1
  {
    MaxOrZero(ids) + 1
  }

  /** Once a row carrying the allocated id is stored, the next allocation yields the following
      integer: ids handed out one after another are strictly increasing and never reused. */
  lemma {:induction false} NextIdAfterInsert(ids: seq<int>)
    ensures NextId(ids + [NextId(ids)]) == NextId(ids) + 1
  {
    var n := NextId(ids);
    var s := ids + [n];
    var m := MaxOrZero(s);
    assert s[|ids|] == n;
    assert n <= m;
    forall i | 0 <= i < |ids|
      ensures s[i] < n
    {
      assert s[i] == ids[i];
    }
  }
}
