/** Sequence helpers shared by several components: Python's `reversed`
    and numpy's row-major `flatten` of a list of rows. */
module Sequences {

  /** The elements of `s` in the opposite order. */
  function Reverse<T>(s: seq<T>): (r: seq<T>)
    ensures |r| == |s|
  {
    if s == [] then [] else Reverse(s[1..]) + [s[0]]
  }

  /** Element `k` of the reversed sequence is element `|s| - 1 - k` of `s`. */
  lemma {:induction false} ReverseAt<T>(s: seq<T>, k: nat)
    requires k < |s|
    ensures Reverse(s)[k] == s[|s| - 1 - k]
  {
    if k < |s| - 1 {
      ReverseAt(s[1..], k);
    }
  }

  /** Concatenation of all rows, in order. */
  function Flatten<T>(rows: seq<seq<T>>): seq<T>
  {
    if rows == [] then [] else rows[0] + Flatten(rows[1..])
  }

  lemma {:induction false} FlattenAppend<T>(rows: seq<seq<T>>, row: seq<T>)
    ensures Flatten(rows + [row]) == Flatten(rows) + row
  {
    if rows != [] {
      assert (rows + [row])[1..] == rows[1..] + [row];
      FlattenAppend(rows[1..], row);
    }
  }

  /** When every row has `d` elements the flattened rows have `|rows| * d`. */
  lemma {:induction false} FlattenUniformLength<T>(rows: seq<seq<T>>, d: nat)
    requires forall i :: 0 <= i < |rows| ==> |rows[i]| == d
    ensures |Flatten(rows)| == |rows| * d
  {
    if rows != [] {
      FlattenUniformLength(rows[1..], d);
    }
  }
}
