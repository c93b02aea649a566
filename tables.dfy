/**
 * Helpers for the listing queries, which return table rows ordered by id
 * descending (`order_by(X.id.desc())`).
 */
module Tables {

  predicate StrictlyDecreasing(ids: seq<int>)
  {
    forall i, j :: 0 <= i < j < |ids| ==> ids[i] > ids[j]
  }

  /**
   * The ids in [1, hi) that are keys of the table, largest first. Tables
   * allocate ids upwards from 1, so with `hi` the table's next id this is
   * every id of the table.
   */
  function IdsBelow<T>(m: map<int, T>, hi: int): (r: seq<int>)
    ensures StrictlyDecreasing(r)
    ensures forall k :: k in r <==> k in m && 1 <= k < hi
    decreases hi
  {
    if hi <= 1 then []
    else
      var rest := IdsBelow(m, hi - 1);
      assert forall i :: 0 <= i < |rest| ==> rest[i] < hi - 1 by {
        forall i | 0 <= i < |rest| ensures rest[i] < hi - 1 {
          assert rest[i] in rest;
        }
      }
      if hi - 1 in m then [hi - 1] + rest else rest
  }

  /** The ids among `ids` whose row passes `keep`, in the same order. */
  function KeepIds<T>(m: map<int, T>, ids: seq<int>, keep: T -> bool): (r: seq<int>)
    requires forall i :: 0 <= i < |ids| ==> ids[i] in m
    ensures forall k :: k in r <==> k in ids && keep(m[k])
    ensures StrictlyDecreasing(ids) ==> StrictlyDecreasing(r)
  {
    if ids == [] then []
    else
      var rest := KeepIds(m, ids[1..], keep);
      assert StrictlyDecreasing(ids) ==> forall i :: 0 <= i < |rest| ==> rest[i] < ids[0] by {
        if StrictlyDecreasing(ids) {
          forall i | 0 <= i < |rest| ensures rest[i] < ids[0] {
            assert rest[i] in rest;
            var j :| 0 <= j < |ids[1..]| && ids[1..][j] == rest[i];
            assert ids[j + 1] == rest[i];
          }
        }
      }
      if keep(m[ids[0]]) then [ids[0]] + rest else rest
  }

  /** The rows with the given ids, in that order. */
  function Rows<T>(m: map<int, T>, ids: seq<int>): (r: seq<T>)
    requires forall i :: 0 <= i < |ids| ==> ids[i] in m
    ensures |r| == |ids| && forall i :: 0 <= i < |ids| ==> r[i] == m[ids[i]]
  {
    seq(|ids|, i requires 0 <= i < |ids| => m[ids[i]])
  }
}
