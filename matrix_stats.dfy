/** Column statistics of a row-major matrix stored as one flat slice:
    `matrix_sum`, `matrix_mean`, `matrix_min_max` and `matrix_var`. Each
    splits the slice into rows of `dimensionality` features and folds the
    rows into one accumulator per column. The source folds the rows with a
    parallel reduce; here they are folded in order. */
module MatrixStats {
  import opened Common

  /** `slice::chunks(size)`: consecutive pieces of `size` elements, the last
      one shorter when `size` does not divide the length. */
  function Chunks<T>(s: seq<T>, size: nat): (rows: seq<seq<T>>)
    requires size > 0
    ensures Flatten(rows) == s
    ensures forall k :: 0 <= k < |rows| ==> 0 < |rows[k]| <= size
    decreases |s|
  {
    if |s| == 0 then []
    else if |s| <= size then [s]
    else [s[..size]] + Chunks(s[size..], size)
  }

  function Flatten<T>(rows: seq<seq<T>>): seq<T>
  {
    if rows == [] then [] else rows[0] + Flatten(rows[1..])
  }

  /** When `size` divides the length, the chunks are exactly `len / size`
      full rows. */
  lemma ChunksOfMultiple<T>(s: seq<T>, size: nat)
    requires size > 0 && |s| % size == 0
    ensures |Chunks(s, size)| == |s| / size
    ensures forall k :: 0 <= k < |Chunks(s, size)| ==> |Chunks(s, size)[k]| == size
  {
    ChunksOfRows(s, size, |s| / size);
  }

  lemma {:induction false} ChunksOfRows<T>(s: seq<T>, size: nat, count: nat)
    requires size > 0 && |s| == size * count
    ensures |Chunks(s, size)| == count
    ensures forall k :: 0 <= k < count ==> |Chunks(s, size)[k]| == size
    decreases count
  {
    if count > 0 {
      MulStep(size, count);
      if count == 1 {
        assert Chunks(s, size) == [s];
      } else {
        MulPositive(size, count - 1);
        assert Chunks(s, size) == [s[..size]] + Chunks(s[size..], size);
        ChunksOfRows(s[size..], size, count - 1);
      }
    }
  }

  lemma MulStep(a: nat, b: nat)
    requires b > 0
    ensures a * b == a * (b - 1) + a
    ensures b == 1 ==> a * (b - 1) == 0
  {
  }

  lemma MulPositive(a: nat, b: nat)
    requires a > 0 && b > 0
    ensures a * b > 0
  {
  }

  /** Every row has at least `j + 1` features, so column j can be read. */
  predicate HasColumn(rows: seq<seq<real>>, j: nat)
  {
    forall k :: 0 <= k < |rows| ==> j < |rows[k]|
  }

  /** Sum of column j over the rows. */
  function ColumnSum(rows: seq<seq<real>>, j: nat): real
    requires HasColumn(rows, j)
  {
    if rows == [] then 0.0 else ColumnSum(rows[..|rows| - 1], j) + rows[|rows| - 1][j]
  }

  /** Least entry of column j. */
  function ColumnMin(rows: seq<seq<real>>, j: nat): real
    requires rows != [] && HasColumn(rows, j)
  {
    if |rows| == 1 then rows[0][j]
    else
      var m := ColumnMin(rows[..|rows| - 1], j);
      if m > rows[|rows| - 1][j] then rows[|rows| - 1][j] else m
  }

  /** Greatest entry of column j. */
  function ColumnMax(rows: seq<seq<real>>, j: nat): real
    requires rows != [] && HasColumn(rows, j)
  {
    if |rows| == 1 then rows[0][j]
    else
      var m := ColumnMax(rows[..|rows| - 1], j);
      if m < rows[|rows| - 1][j] then rows[|rows| - 1][j] else m
  }

  /** Sum over the rows of the squared distance of column j from `mean`. */
  function ColumnSquaredDeviations(rows: seq<seq<real>>, j: nat, mean: real): real
    requires HasColumn(rows, j)
  {
    if rows == [] then 0.0
    else
      var delta := rows[|rows| - 1][j] - mean;
      ColumnSquaredDeviations(rows[..|rows| - 1], j, mean) + delta * delta
  }

  /** The column minimum is at most every entry of the column, and some row
      attains it. */
  lemma {:induction false} ColumnMinIsLeast(rows: seq<seq<real>>, j: nat)
    requires rows != [] && HasColumn(rows, j)
    ensures forall k :: 0 <= k < |rows| ==> ColumnMin(rows, j) <= rows[k][j]
    ensures exists k :: 0 <= k < |rows| && ColumnMin(rows, j) == rows[k][j]
    decreases |rows|
  {
    if |rows| > 1 {
      var init := rows[..|rows| - 1];
      ColumnMinIsLeast(init, j);
      var k :| 0 <= k < |init| && ColumnMin(init, j) == init[k][j];
      assert init[k] == rows[k];
      forall x | 0 <= x < |rows|
        ensures ColumnMin(rows, j) <= rows[x][j]
      {
        if x < |init| {
          assert init[x] == rows[x];
        }
      }
      if ColumnMin(rows, j) == ColumnMin(init, j) {
        assert ColumnMin(rows, j) == rows[k][j];
      } else {
        assert ColumnMin(rows, j) == rows[|rows| - 1][j];
      }
    } else {
      assert ColumnMin(rows, j) == rows[0][j];
    }
  }

  /** The column maximum is at least every entry of the column, and some row
      attains it. */
  lemma {:induction false} ColumnMaxIsGreatest(rows: seq<seq<real>>, j: nat)
    requires rows != [] && HasColumn(rows, j)
    ensures forall k :: 0 <= k < |rows| ==> rows[k][j] <= ColumnMax(rows, j)
    ensures exists k :: 0 <= k < |rows| && ColumnMax(rows, j) == rows[k][j]
    decreases |rows|
  {
    if |rows| > 1 {
      var init := rows[..|rows| - 1];
      ColumnMaxIsGreatest(init, j);
      var k :| 0 <= k < |init| && ColumnMax(init, j) == init[k][j];
      assert init[k] == rows[k];
      forall x | 0 <= x < |rows|
        ensures rows[x][j] <= ColumnMax(rows, j)
      {
        if x < |init| {
          assert init[x] == rows[x];
        }
      }
      if ColumnMax(rows, j) == ColumnMax(init, j) {
        assert ColumnMax(rows, j) == rows[k][j];
      } else {
        assert ColumnMax(rows, j) == rows[|rows| - 1][j];
      }
    } else {
      assert ColumnMax(rows, j) == rows[0][j];
    }
  }

  lemma ScaleMonotone(n: real, a: real, b: real)
    requires n >= 0.0 && a <= b
    ensures n * a <= n * b
  {
    assert n * b - n * a == n * (b - a);
  }

  lemma QuotientBetween(total: real, n: real, lo: real, hi: real)
    requires n > 0.0 && n * lo <= total <= n * hi
    ensures lo <= total / n <= hi
  {
    assert total / n - lo == (total - n * lo) / n;
    assert hi - total / n == (n * hi - total) / n;
  }

  /** The column sum lies between |rows| times the minimum and |rows| times
      the maximum. */
  lemma {:induction false} ColumnSumBetweenMinAndMax(rows: seq<seq<real>>, j: nat)
    requires rows != [] && HasColumn(rows, j)
    ensures |rows| as real * ColumnMin(rows, j) <= ColumnSum(rows, j)
    ensures ColumnSum(rows, j) <= |rows| as real * ColumnMax(rows, j)
    decreases |rows|
  {
    if |rows| > 1 {
      var init := rows[..|rows| - 1];
      var last := rows[|rows| - 1][j];
      var mi, ma := ColumnMin(init, j), ColumnMax(init, j);
      ColumnSumBetweenMinAndMax(init, j);
      SumBoundStep(|init| as real, ColumnMin(rows, j), mi, ma, ColumnMax(rows, j), last,
                   ColumnSum(init, j), ColumnSum(rows, j));
    } else {
      assert ColumnSum(rows, j) == ColumnSum([], j) + rows[0][j];
    }
  }

  /** Adding one entry between lo and hi to a sum of n entries between mi
      and ma, where lo <= mi and ma <= hi, gives a sum of n + 1 entries
      between lo and hi. */
  lemma SumBoundStep(n: real, lo: real, mi: real, ma: real, hi: real, last: real, sum: real, total: real)
    requires n >= 0.0 && lo <= mi && ma <= hi && lo <= last <= hi
    requires n * mi <= sum <= n * ma && total == sum + last
    ensures (n + 1.0) * lo <= total <= (n + 1.0) * hi
  {
    ScaleMonotone(n, lo, mi);
    ScaleMonotone(n, ma, hi);
    ScaleSuccessor(n, lo);
    ScaleSuccessor(n, hi);
  }

  lemma ScaleSuccessor(n: real, x: real)
    ensures (n + 1.0) * x == n * x + x
  {
  }

  /** Hence the column mean lies between the column's minimum and maximum. */
  lemma ColumnMeanBetweenMinAndMax(rows: seq<seq<real>>, j: nat)
    requires rows != [] && HasColumn(rows, j)
    ensures ColumnMin(rows, j) <= ColumnSum(rows, j) / |rows| as real <= ColumnMax(rows, j)
  {
    ColumnSumBetweenMinAndMax(rows, j);
    QuotientBetween(ColumnSum(rows, j), |rows| as real, ColumnMin(rows, j), ColumnMax(rows, j));
  }

  /** A sum of squares is never negative. */
  lemma {:induction false} ColumnSquaredDeviationsNonNegative(rows: seq<seq<real>>, j: nat, mean: real)
    requires HasColumn(rows, j)
    ensures ColumnSquaredDeviations(rows, j, mean) >= 0.0
    decreases |rows|
  {
    if rows != [] {
      ColumnSquaredDeviationsNonNegative(rows[..|rows| - 1], j, mean);
    }
  }

  /** A column whose entries all equal `mean` has no deviation. */
  lemma {:induction false} ConstantColumnHasNoDeviation(rows: seq<seq<real>>, j: nat, mean: real)
    requires HasColumn(rows, j)
    requires forall k :: 0 <= k < |rows| ==> rows[k][j] == mean
    ensures ColumnSquaredDeviations(rows, j, mean) == 0.0
    decreases |rows|
  {
    if rows != [] {
      ConstantColumnHasNoDeviation(rows[..|rows| - 1], j, mean);
    }
  }

  /** A non-empty slice made of whole rows of the given width. */
  predicate WholeRows(data: seq<real>, dimensionality: nat)
  {
    dimensionality > 0 && |data| > 0 && |data| % dimensionality == 0
  }

  /** The column means of a slice of whole rows. */
  function ColumnMeans(data: seq<real>, dimensionality: nat): (means: seq<real>)
    requires WholeRows(data, dimensionality)
    ensures |means| == dimensionality
  {
    ChunksOfMultiple(data, dimensionality);
    var rows := Chunks(data, dimensionality);
    seq(dimensionality, j requires 0 <= j < dimensionality =>
      ColumnSum(rows, j) / |rows| as real)
  }

  /** The column (population) variances of a slice of whole rows: the mean
      squared deviation from the column mean. None is negative. */
  function ColumnVariances(data: seq<real>, dimensionality: nat): (variances: seq<real>)
    requires WholeRows(data, dimensionality)
    ensures |variances| == dimensionality
    ensures forall j :: 0 <= j < dimensionality ==> variances[j] >= 0.0
  {
    ChunksOfMultiple(data, dimensionality);
    var rows := Chunks(data, dimensionality);
    var means := ColumnMeans(data, dimensionality);
    var n := |rows| as real;
    assert forall j :: 0 <= j < dimensionality ==> ColumnSquaredDeviations(rows, j, means[j]) / n >= 0.0 by {
      forall j | 0 <= j < dimensionality
        ensures ColumnSquaredDeviations(rows, j, means[j]) / n >= 0.0
      {
        ColumnSquaredDeviationsNonNegative(rows, j, means[j]);
      }
    }
    seq(dimensionality, j requires 0 <= j < dimensionality =>
      ColumnSquaredDeviations(rows, j, means[j]) / n)
  }

  /** `matrix_sum`: the per-column sums, or an error when the length is not a
      multiple of the dimensionality. A zero dimensionality panics in the
      source (`%` by zero), hence the precondition. */
  method MatrixSum(data: seq<real>, dimensionality: nat) returns (r: Result<seq<real>>)
    requires dimensionality > 0
    ensures r.Err? <==> |data| % dimensionality != 0
    ensures r.Err? ==> r.error == IncompatibleDimensionality(dimensionality, |data|)
    ensures r.Ok? ==> |r.value| == dimensionality
    ensures r.Ok? ==> forall j :: 0 <= j < dimensionality ==>
              HasColumn(Chunks(data, dimensionality), j) &&
              r.value[j] == ColumnSum(Chunks(data, dimensionality), j)
    ensures |data| == 0 ==> r == Ok(seq(dimensionality, _ => 0.0))
  {
    if |data| % dimensionality != 0 {
      return Err(IncompatibleDimensionality(dimensionality, |data|));
    }
    var rows := Chunks(data, dimensionality);
    ChunksOfMultiple(data, dimensionality);
    var sums := seq(dimensionality, _ => 0.0);
    for i := 0 to |rows|
      invariant |sums| == dimensionality
      invariant forall j :: 0 <= j < dimensionality ==> sums[j] == ColumnSum(rows[..i], j)
    {
      var row := rows[i];
      assert rows[..i + 1][..i] == rows[..i];
      for j := 0 to dimensionality
        invariant |sums| == dimensionality
        invariant forall k :: 0 <= k < j ==> sums[k] == ColumnSum(rows[..i + 1], k)
        invariant forall k :: j <= k < dimensionality ==> sums[k] == ColumnSum(rows[..i], k)
      {
        sums := sums[j := sums[j] + row[j]];
      }
    }
    assert rows[..|rows|] == rows;
    if |data| == 0 {
      assert forall j :: 0 <= j < dimensionality ==> sums[j] == 0.0;
      assert sums == seq(dimensionality, _ => 0.0);
    }
    return Ok(sums);
  }

  /** `matrix_mean`: an error on an empty slice, `matrix_sum`'s error on a
      length that is not a multiple of the dimensionality, otherwise each
      column sum divided by the number of rows. */
  method MatrixMean(data: seq<real>, dimensionality: nat) returns (r: Result<seq<real>>)
    requires |data| > 0 ==> dimensionality > 0
    ensures r.Err? <==> |data| == 0 || |data| % dimensionality != 0
    ensures |data| == 0 ==> r == Err(EmptyObject)
    ensures |data| > 0 && r.Err? ==> r.error == IncompatibleDimensionality(dimensionality, |data|)
    ensures r.Ok? ==> |r.value| == dimensionality
    ensures r.Ok? ==> |Chunks(data, dimensionality)| == |data| / dimensionality > 0
    ensures r.Ok? ==> forall k :: 0 <= k < |Chunks(data, dimensionality)| ==>
              |Chunks(data, dimensionality)[k]| == dimensionality
    ensures r.Ok? ==> forall j :: 0 <= j < dimensionality ==>
              HasColumn(Chunks(data, dimensionality), j) &&
              r.value[j] == ColumnSum(Chunks(data, dimensionality), j)
                            / (|data| / dimensionality) as real
    ensures r.Ok? ==> WholeRows(data, dimensionality) && r.value == ColumnMeans(data, dimensionality)
  {
    if |data| == 0 {
      return Err(EmptyObject);
    }
    var sum := MatrixSum(data, dimensionality);
    if sum.Err? {
      return Err(sum.error);
    }
    ChunksOfMultiple(data, dimensionality);
    var means := DivideEach(sum.value, (|data| / dimensionality) as real);
    return Ok(means);
  }

  /** Per-column minima and maxima, folded row by row. The source's reduce
      starts from (`max_value`, `min_value`) per column; combined with the
      first row that gives the first row, so the fold starts there. */
  method ColumnExtremes(rows: seq<seq<real>>, width: nat) returns (mins: seq<real>, maxs: seq<real>)
    requires rows != []
    requires forall k :: 0 <= k < |rows| ==> |rows[k]| == width
    ensures |mins| == width && |maxs| == width
    ensures forall j :: 0 <= j < width ==>
              mins[j] == ColumnMin(rows, j) && maxs[j] == ColumnMax(rows, j)
  {
    mins, maxs := rows[0], rows[0];
    for i := 1 to |rows|
      invariant |mins| == width && |maxs| == width
      invariant forall j :: 0 <= j < width ==>
                  mins[j] == ColumnMin(rows[..i], j) && maxs[j] == ColumnMax(rows[..i], j)
    {
      var row := rows[i];
      assert rows[..i + 1][..i] == rows[..i];
      for j := 0 to width
        invariant |mins| == width && |maxs| == width
        invariant forall k :: 0 <= k < j ==>
                    mins[k] == ColumnMin(rows[..i + 1], k) && maxs[k] == ColumnMax(rows[..i + 1], k)
        invariant forall k :: j <= k < width ==>
                    mins[k] == ColumnMin(rows[..i], k) && maxs[k] == ColumnMax(rows[..i], k)
      {
        if mins[j] > row[j] {
          mins := mins[j := row[j]];
        }
        if maxs[j] < row[j] {
          maxs := maxs[j := row[j]];
        }
      }
    }
    assert rows[..|rows|] == rows;
  }

  /** `matrix_min_max`: an error on an empty slice, then on a length that is
      not a multiple of the dimensionality, otherwise the per-column minima
      and maxima. */
  method MatrixMinMax(data: seq<real>, dimensionality: nat)
    returns (r: Result<(seq<real>, seq<real>)>)
    requires |data| > 0 ==> dimensionality > 0
    ensures r.Err? <==> |data| == 0 || |data| % dimensionality != 0
    ensures |data| == 0 ==> r == Err(EmptyObject)
    ensures |data| > 0 && r.Err? ==> r.error == IncompatibleDimensionality(dimensionality, |data|)
    ensures r.Ok? ==> |r.value.0| == dimensionality && |r.value.1| == dimensionality
    ensures r.Ok? ==> |Chunks(data, dimensionality)| == |data| / dimensionality > 0
    ensures r.Ok? ==> forall k :: 0 <= k < |Chunks(data, dimensionality)| ==>
              |Chunks(data, dimensionality)[k]| == dimensionality
    ensures r.Ok? ==> forall j :: 0 <= j < dimensionality ==>
              HasColumn(Chunks(data, dimensionality), j) &&
              r.value.0[j] == ColumnMin(Chunks(data, dimensionality), j) &&
              r.value.1[j] == ColumnMax(Chunks(data, dimensionality), j)
    ensures r.Ok? ==> forall j, k :: 0 <= j < dimensionality && 0 <= k < |Chunks(data, dimensionality)| ==>
              r.value.0[j] <= Chunks(data, dimensionality)[k][j] <= r.value.1[j]
  {
    if |data| == 0 {
      return Err(EmptyObject);
    }
    if |data| % dimensionality != 0 {
      return Err(IncompatibleDimensionality(dimensionality, |data|));
    }
    var rows := Chunks(data, dimensionality);
    ChunksOfMultiple(data, dimensionality);
    var mins, maxs := ColumnExtremes(rows, dimensionality);
    forall j | 0 <= j < dimensionality
      ensures forall k :: 0 <= k < |rows| ==> mins[j] <= rows[k][j] <= maxs[j]
    {
      ColumnMinIsLeast(rows, j);
      ColumnMaxIsGreatest(rows, j);
    }
    return Ok((mins, maxs));
  }

  /** Divides every entry by `n`, as the source's in-place `*x /= n`. */
  method DivideEach(v: seq<real>, n: real) returns (r: seq<real>)
    requires n != 0.0
    ensures |r| == |v|
    ensures forall k :: 0 <= k < |v| ==> r[k] == v[k] / n
  {
    r := v;
    for j := 0 to |v|
      invariant |r| == |v|
      invariant forall k :: 0 <= k < j ==> r[k] == v[k] / n
      invariant forall k :: j <= k < |v| ==> r[k] == v[k]
    {
      r := r[j := r[j] / n];
    }
  }

  /** The per-column sums of squared deviations from `means`, folded row
      by row. */
  method SquaredDeviations(rows: seq<seq<real>>, means: seq<real>) returns (deviations: seq<real>)
    requires forall k :: 0 <= k < |rows| ==> |rows[k]| == |means|
    ensures |deviations| == |means|
    ensures forall j :: 0 <= j < |means| ==>
              deviations[j] == ColumnSquaredDeviations(rows, j, means[j])
  {
    deviations := seq(|means|, _ => 0.0);
    for i := 0 to |rows|
      invariant |deviations| == |means|
      invariant forall j :: 0 <= j < |means| ==>
                  deviations[j] == ColumnSquaredDeviations(rows[..i], j, means[j])
    {
      var row := rows[i];
      assert rows[..i + 1][..i] == rows[..i];
      for j := 0 to |means|
        invariant |deviations| == |means|
        invariant forall k :: 0 <= k < j ==>
                    deviations[k] == ColumnSquaredDeviations(rows[..i + 1], k, means[k])
        invariant forall k :: j <= k < |means| ==>
                    deviations[k] == ColumnSquaredDeviations(rows[..i], k, means[k])
      {
        var delta := row[j] - means[j];
        deviations := deviations[j := deviations[j] + delta * delta];
      }
    }
    assert rows[..|rows|] == rows;
  }

  /** `matrix_var`: `matrix_mean`'s errors, otherwise for each column the sum
      of squared deviations from the column mean divided by the number of
      rows, which is never negative. */
  method MatrixVar(data: seq<real>, dimensionality: nat) returns (r: Result<seq<real>>)
    requires |data| > 0 ==> dimensionality > 0
    ensures r.Err? <==> |data| == 0 || |data| % dimensionality != 0
    ensures |data| == 0 ==> r == Err(EmptyObject)
    ensures |data| > 0 && r.Err? ==> r.error == IncompatibleDimensionality(dimensionality, |data|)
    ensures r.Ok? ==> |r.value| == dimensionality
    ensures r.Ok? ==> WholeRows(data, dimensionality) && r.value == ColumnVariances(data, dimensionality)
  {
    var mean := MatrixMean(data, dimensionality);
    if mean.Err? {
      return Err(mean.error);
    }
    var rows := Chunks(data, dimensionality);
    ChunksOfMultiple(data, dimensionality);
    var deviations := SquaredDeviations(rows, mean.value);
    var variances := DivideEach(deviations, (|data| / dimensionality) as real);
    assert variances == ColumnVariances(data, dimensionality);
    return Ok(variances);
  }

  /** Replaces every entry by its square root, as the source's in-place
      `*v = v.sqrt()`. */
  method SqrtEach(v: seq<real>, sqrt: real -> real) returns (r: seq<real>)
    requires forall k :: 0 <= k < |v| ==> v[k] >= 0.0
    requires forall x :: x >= 0.0 ==> sqrt(x) >= 0.0 && sqrt(x) * sqrt(x) == x
    ensures |r| == |v|
    ensures forall k :: 0 <= k < |v| ==> r[k] >= 0.0 && r[k] * r[k] == v[k]
  {
    r := v;
    for j := 0 to |v|
      invariant |r| == |v|
      invariant forall k :: 0 <= k < j ==> r[k] >= 0.0 && r[k] * r[k] == v[k]
      invariant forall k :: j <= k < |v| ==> r[k] == v[k]
    {
      r := r[j := sqrt(r[j])];
    }
  }

  /** `matrix_std`: `matrix_var`'s errors, otherwise the square root of each
      column variance. Square root is floating-point arithmetic the model
      does not define; it is a parameter, required to be a square root on
      the non-negative reals. */
  method MatrixStd(data: seq<real>, dimensionality: nat, sqrt: real -> real) returns (r: Result<seq<real>>)
    requires |data| > 0 ==> dimensionality > 0
    requires forall x :: x >= 0.0 ==> sqrt(x) >= 0.0 && sqrt(x) * sqrt(x) == x
    ensures r.Err? <==> |data| == 0 || |data| % dimensionality != 0
    ensures |data| == 0 ==> r == Err(EmptyObject)
    ensures |data| > 0 && r.Err? ==> r.error == IncompatibleDimensionality(dimensionality, |data|)
    ensures r.Ok? ==> |r.value| == dimensionality
    ensures r.Ok? ==> WholeRows(data, dimensionality)
    ensures r.Ok? ==> forall j :: 0 <= j < dimensionality ==>
              r.value[j] >= 0.0 && r.value[j] * r.value[j] == ColumnVariances(data, dimensionality)[j]
  {
    var variance := MatrixVar(data, dimensionality);
    if variance.Err? {
      return Err(variance.error);
    }
    var deviations := SqrtEach(variance.value, sqrt);
    return Ok(deviations);
  }
}
