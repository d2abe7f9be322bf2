/** Rows of a row-major matrix stored as one flat slice: row i of width w
    is the slice `[i * w..(i + 1) * w]`. */
module Slices {

  /** Each of n rows of a given width ends within the first n rows. */
  lemma {:induction false} RowInside(i: nat, n: nat, width: nat)
    requires i < n
    ensures i * width + width <= n * width
    decreases n
  {
    if i + 1 < n {
      RowInside(i, n - 1, width);
      assert (n - 1) * width + width == n * width;
    } else {
      assert (i + 1) * width == i * width + width;
    }
  }

  /** Row i of a row-major slice of the given width. */
  function Row(s: seq<real>, i: nat, width: nat): (row: seq<real>)
    requires i * width + width <= |s|
    ensures |row| == width
  {
    s[i * width..i * width + width]
  }
}
