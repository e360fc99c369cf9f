/**
 * The pandas idiom `df[df[column] == k].iloc[0]` that both app.py and
 * scripts/data_merge.py use to pick a table's first row for a key.
 */
module Lookup {
  import opened Optional

  /** The first element of `table` whose key is `k`, or `None` when there is none. */
  function FirstWhere<T>(table: seq<T>, key: T -> int, k: int): (r: Option<T>)
    ensures r.None? <==> forall i :: 0 <= i < |table| ==> key(table[i]) != k
    ensures r.Some? ==> key(r.value) == k
    ensures r.Some? ==> exists i :: (0 <= i < |table| && table[i] == r.value
                                     && forall j :: 0 <= j < i ==> key(table[j]) != k)
  {
    if table == [] then None
    else if key(table[0]) == k then Some(table[0])
    else
      var r := FirstWhere(table[1..], key, k);
      assert r.Some? ==> exists i :: (0 <= i < |table| && table[i] == r.value
                                       && forall j :: 0 <= j < i ==> key(table[j]) != k) by {
        if r.Some? {
          var i :| 0 <= i < |table[1..]| && table[1..][i] == r.value
                   && forall j :: 0 <= j < i ==> key(table[1..][j]) != k;
          assert table[i + 1] == r.value;
          forall j | 0 <= j < i + 1
            ensures key(table[j]) != k
          {
            if j > 0 {
              assert table[j] == table[1..][j - 1];
            }
          }
        }
      }
      assert r.None? ==> forall i :: 0 <= i < |table| ==> key(table[i]) != k by {
        if r.None? {
          forall i | 0 <= i < |table|
            ensures key(table[i]) != k
          {
            if i > 0 {
              assert table[i] == table[1..][i - 1];
            }
          }
        }
      }
      r
  }
}
