// Expanding a parameter grid into the list of its combinations.
module ParameterGrid {
  import opened Arithmetic

  datatype Value = Number(real) | Text(string) | Flag(bool)

  datatype Axis = Axis(key: string, values: seq<Value>)

  // A dict keeps its insertion order and has each key once.
  ghost predicate IsDict(grid: seq<Axis>) {
    forall i, j :: 0 <= i < j < |grid| ==> grid[i].key != grid[j].key
  }

  /* ------------------------------------------------------------- the Cartesian product */

  function Extend(prefixes: seq<seq<Value>>, pool: seq<Value>): seq<seq<Value>> {
    if prefixes == [] then []
    else
      var init, last := prefixes[..|prefixes| - 1], prefixes[|prefixes| - 1];
      Extend(init, pool) + seq(|pool|, k requires 0 <= k < |pool| => last + [pool[k]])
  }

  function Product(grid: seq<Axis>): seq<seq<Value>> {
    if grid == [] then [[]] else Extend(Product(grid[..|grid| - 1]), grid[|grid| - 1].values)
  }

  function Zip(grid: seq<Axis>, combo: seq<Value>): map<string, Value>
    requires |grid| == |combo|
  {
    if grid == [] then map[]
    else Zip(grid[..|grid| - 1], combo[..|combo| - 1])[grid[|grid| - 1].key := combo[|combo| - 1]]
  }

  function ExpandGrid(grid: seq<Axis>): seq<map<string, Value>> {
    if grid == [] then [map[]]
    else
      var product := Product(grid);
      seq(|product|, i requires 0 <= i < |product| => ProductShape(grid, i); Zip(grid, product[i]))
  }

  /* -------------------------------------------------------------- where each one stands */

  // The number of combinations of the axes from j on.
  function Size(grid: seq<Axis>, j: nat): nat
    requires j <= |grid|
    decreases |grid| - j
  {
    if j == |grid| then 1 else |grid[j].values| * Size(grid, j + 1)
  }

  lemma {:induction false} ExtendCount(prefixes: seq<seq<Value>>, pool: seq<Value>)
    ensures |Extend(prefixes, pool)| == |prefixes| * |pool|
  {
    if prefixes != [] {
      ExtendCount(prefixes[..|prefixes| - 1], pool);
      Next(|prefixes| - 1, |pool|);
    }
  }

  lemma {:induction false} ExtendAt(prefixes: seq<seq<Value>>, pool: seq<Value>, i: nat)
    ensures |Extend(prefixes, pool)| == |prefixes| * |pool|
    ensures i < |prefixes| * |pool| ==>
              && 0 < |pool| && i / |pool| < |prefixes|
              && Extend(prefixes, pool)[i] == prefixes[i / |pool|] + [pool[i % |pool|]]
  {
    ExtendCount(prefixes, pool);
    if i < |prefixes| * |pool| {
      var n, b := |prefixes| - 1, |pool|;
      ZeroProduct(|prefixes|, b);
      ExtendCount(prefixes[..n], pool);
      Next(n, b);
      if i < n * b {
        ExtendAt(prefixes[..n], pool, i);
        QuotientBelow(i, n, b);
      } else {
        DivMod(n, b, i - n * b);
      }
    }
  }

  // The same with the digits of i named.
  lemma ExtendSplit(prefixes: seq<seq<Value>>, pool: seq<Value>, i: nat) returns (q: nat, r: nat)
    requires i < |Extend(prefixes, pool)|
    ensures q < |prefixes| && r < |pool| && i == q * |pool| + r
    ensures Extend(prefixes, pool)[i] == prefixes[q] + [pool[r]]
  {
    ExtendAt(prefixes, pool, i);
    q, r := i / |pool|, i % |pool|;
    Split(i, |pool|);
  }

  lemma {:induction false} ProductShape(grid: seq<Axis>, i: nat)
    ensures i < |Product(grid)| ==> |Product(grid)[i]| == |grid|
  {
    if grid != [] && i < |Product(grid)| {
      var axes := grid[..|grid| - 1];
      var q, r := ExtendSplit(Product(axes), grid[|grid| - 1].values, i);
      ProductShape(axes, q);
    }
  }

  lemma {:induction false} SizePush(grid: seq<Axis>, axis: Axis, j: nat)
    requires j <= |grid|
    ensures Size(grid + [axis], j) == Size(grid, j) * |axis.values|
    decreases |grid| - j
  {
    if j == |grid| {
      assert Size(grid + [axis], j + 1) == 1;
      assert |axis.values| * 1 == |axis.values|;
    } else {
      SizePush(grid, axis, j + 1);
      Associate(|grid[j].values|, Size(grid, j + 1), |axis.values|);
    }
  }

  // There are as many combinations as the product of the axis lengths.
  lemma {:induction false} ProductCount(grid: seq<Axis>)
    ensures |Product(grid)| == Size(grid, 0)
  {
    if grid != [] {
      var n := |grid| - 1;
      ProductCount(grid[..n]);
      ExtendAt(Product(grid[..n]), grid[n].values, 0);
      SizePush(grid[..n], grid[n], 0);
      assert grid == grid[..n] + [grid[n]];
    }
  }

  lemma {:induction false} SizePositive(grid: seq<Axis>, j: nat)
    requires j <= |grid| && forall k :: j <= k < |grid| ==> grid[k].values != []
    ensures 0 < Size(grid, j)
    decreases |grid| - j
  {
    if j < |grid| {
      SizePositive(grid, j + 1);
      Positive(|grid[j].values|, Size(grid, j + 1));
    }
  }

  lemma {:induction false} NonEmptyAxes(grid: seq<Axis>, j: nat)
    requires j < |grid| && 0 < |Product(grid)|
    ensures grid[j].values != []
  {
    var n := |grid| - 1;
    ExtendAt(Product(grid[..n]), grid[n].values, 0);
    ZeroProduct(|Product(grid[..n])|, |grid[n].values|);
    if j < n {
      NonEmptyAxes(grid[..n], j);
    }
  }

  lemma SizesPositive(grid: seq<Axis>, j: nat)
    requires 0 < |Product(grid)| && j < |grid|
    ensures grid[j].values != [] && 0 < Size(grid, j + 1)
  {
    forall k | 0 <= k < |grid|
      ensures grid[k].values != []
    {
      NonEmptyAxes(grid, k);
    }
    SizePositive(grid, j + 1);
  }

  // Dropping the last digit of i leaves its quotient by the last radix.
  lemma DropLastDigit(i: nat, b: nat, q: nat, r: nat, w: nat)
    requires i == q * b + r && r < b && 0 < w
    ensures i % b == r && 0 < w * b && i / (w * b) == q / w
  {
    DivMod(q, b, r);
    DivDiv(i, b, w);
  }

  // Combination i is i written in the mixed radix of the axis lengths, the last axis fastest.
  lemma {:induction false} ProductIsMixedRadix(grid: seq<Axis>, i: nat, j: nat)
    requires i < |Product(grid)| && j < |grid|
    ensures |Product(grid)[i]| == |grid|
    ensures grid[j].values != [] && 0 < Size(grid, j + 1)
    ensures Product(grid)[i][j] == grid[j].values[(i / Size(grid, j + 1)) % |grid[j].values|]
  {
    ProductShape(grid, i);
    SizesPositive(grid, j);
    var axes, axis := grid[..|grid| - 1], grid[|grid| - 1];
    var q, r := ExtendSplit(Product(axes), axis.values, i);
    ProductShape(axes, q);
    if j == |axes| {
      DropLastDigit(i, |axis.values|, q, r, 1);
    } else {
      ProductIsMixedRadix(axes, q, j);
      SizePush(axes, axis, j + 1);
      assert grid == axes + [axis];
      DropLastDigit(i, |axis.values|, q, r, Size(axes, j + 1));
    }
  }

  /* --------------------------------------------------------- all choices, each of them once */

  ghost predicate Distinct<T>(s: seq<T>) {
    forall i, j :: 0 <= i < j < |s| ==> s[i] != s[j]
  }

  ghost predicate IsChoice(grid: seq<Axis>, combo: seq<Value>) {
    |combo| == |grid| && forall j :: 0 <= j < |grid| ==> combo[j] in grid[j].values
  }

  lemma PushInjective<T>(a: seq<T>, x: T, b: seq<T>, y: T)
    ensures a + [x] == b + [y] <==> a == b && x == y
  {
    if a + [x] == b + [y] {
      assert (a + [x])[..|a|] == a && (b + [y])[..|b|] == b;
      assert (a + [x])[|a|] == x && (b + [y])[|b|] == y;
    }
  }

  lemma ExtendIndex(prefixes: seq<seq<Value>>, pool: seq<Value>, q: nat, r: nat) returns (i: nat)
    requires q < |prefixes| && r < |pool|
    ensures i < |Extend(prefixes, pool)| && Extend(prefixes, pool)[i] == prefixes[q] + [pool[r]]
  {
    Grows(0, q, |pool|);
    i := q * |pool| + r;
    DivMod(q, |pool|, r);
    Next(q, |pool|);
    Grows(q + 1, |prefixes|, |pool|);
    ExtendAt(prefixes, pool, i);
  }

  lemma ExtendHolds(prefixes: seq<seq<Value>>, pool: seq<Value>, before: seq<Value>, x: Value)
    ensures before + [x] in Extend(prefixes, pool) <==> before in prefixes && x in pool
  {
    if before + [x] in Extend(prefixes, pool) {
      var i :| 0 <= i < |Extend(prefixes, pool)| && Extend(prefixes, pool)[i] == before + [x];
      var q, r := ExtendSplit(prefixes, pool, i);
      PushInjective(before, x, prefixes[q], pool[r]);
    } else if before in prefixes && x in pool {
      var q :| 0 <= q < |prefixes| && prefixes[q] == before;
      var r :| 0 <= r < |pool| && pool[r] == x;
      var i := ExtendIndex(prefixes, pool, q, r);
    }
  }

  // The product holds every choice of one value per axis, and nothing else.
  lemma {:induction false} ProductHoldsAllChoices(grid: seq<Axis>, combo: seq<Value>)
    ensures combo in Product(grid) <==> IsChoice(grid, combo)
  {
    if grid == [] {
      assert combo in [[]] <==> combo == [];
    } else {
      ProductHasShape(grid, combo);
      if |combo| == |grid| {
        var n := |grid| - 1;
        ProductHoldsAllChoices(grid[..n], combo[..n]);
        ExtendHolds(Product(grid[..n]), grid[n].values, combo[..n], combo[n]);
        assert combo == combo[..n] + [combo[n]];
        ChoicePush(grid, combo);
      }
    }
  }

  lemma ProductHasShape(grid: seq<Axis>, combo: seq<Value>)
    ensures combo in Product(grid) ==> |combo| == |grid|
  {
    if combo in Product(grid) {
      var i :| 0 <= i < |Product(grid)| && Product(grid)[i] == combo;
      ProductShape(grid, i);
    }
  }

  lemma ChoicePush(grid: seq<Axis>, combo: seq<Value>)
    requires |combo| == |grid| > 0
    ensures var n := |grid| - 1;
            IsChoice(grid, combo) <==> IsChoice(grid[..n], combo[..n]) && combo[n] in grid[n].values
  {
    var n := |grid| - 1;
    var axes, values := grid[..n], combo[..n];
    assert forall j :: 0 <= j < n ==> axes[j] == grid[j] && values[j] == combo[j];
  }

  lemma ExtendDistinct(prefixes: seq<seq<Value>>, pool: seq<Value>, i: nat, j: nat)
    requires Distinct(prefixes) && Distinct(pool)
    requires i < j < |Extend(prefixes, pool)|
    ensures Extend(prefixes, pool)[i] != Extend(prefixes, pool)[j]
  {
    var q, r := ExtendSplit(prefixes, pool, i);
    var t, u := ExtendSplit(prefixes, pool, j);
    PushInjective(prefixes[q], pool[r], prefixes[t], pool[u]);
    assert q == t ==> r != u;
  }

  lemma PoolDistinct(prefixes: seq<seq<Value>>, pool: seq<Value>)
    requires prefixes != [] && Distinct(Extend(prefixes, pool))
    ensures Distinct(pool)
  {
    forall r, s | 0 <= r < s < |pool|
      ensures pool[r] != pool[s]
    {
      DivMod(0, |pool|, r);
      DivMod(0, |pool|, s);
      Grows(1, |prefixes|, |pool|);
      ExtendAt(prefixes, pool, r);
      ExtendAt(prefixes, pool, s);
    }
  }

  lemma PrefixesDistinct(prefixes: seq<seq<Value>>, pool: seq<Value>)
    requires pool != [] && Distinct(Extend(prefixes, pool))
    ensures Distinct(prefixes)
  {
    var b := |pool|;
    forall q, t | 0 <= q < t < |prefixes|
      ensures prefixes[q] != prefixes[t]
    {
      DivMod(q, b, 0);
      DivMod(t, b, 0);
      Next(q, b);
      Next(t, b);
      Grows(0, q, b);
      Grows(q + 1, t, b);
      Grows(t + 1, |prefixes|, b);
      ExtendAt(prefixes, pool, q * b);
      ExtendAt(prefixes, pool, t * b);
    }
  }

  lemma ExtendDistinctIff(prefixes: seq<seq<Value>>, pool: seq<Value>)
    requires prefixes != [] && pool != []
    ensures Distinct(Extend(prefixes, pool)) <==> Distinct(prefixes) && Distinct(pool)
  {
    if Distinct(Extend(prefixes, pool)) {
      PoolDistinct(prefixes, pool);
      PrefixesDistinct(prefixes, pool);
    } else if Distinct(prefixes) && Distinct(pool) {
      forall i, j | 0 <= i < j < |Extend(prefixes, pool)|
        ensures Extend(prefixes, pool)[i] != Extend(prefixes, pool)[j]
      {
        ExtendDistinct(prefixes, pool, i, j);
      }
    }
  }

  ghost predicate AxesDistinct(grid: seq<Axis>) {
    forall j :: 0 <= j < |grid| ==> Distinct(grid[j].values)
  }

  lemma AxesDistinctPush(axes: seq<Axis>, axis: Axis)
    ensures AxesDistinct(axes + [axis]) <==> AxesDistinct(axes) && Distinct(axis.values)
  {
    var grid := axes + [axis];
    assert grid[|axes|] == axis;
    assert forall j :: 0 <= j < |axes| ==> grid[j] == axes[j];
  }

  // Unless an axis is empty, no combination repeats exactly when no axis repeats a value.
  lemma {:induction false} ProductDistinctIff(grid: seq<Axis>)
    requires forall j :: 0 <= j < |grid| ==> grid[j].values != []
    ensures Distinct(Product(grid)) <==> AxesDistinct(grid)
  {
    if grid != [] {
      var axes, axis := grid[..|grid| - 1], grid[|grid| - 1];
      ProductDistinctIff(axes);
      ProductCount(axes);
      SizePositive(axes, 0);
      ExtendDistinctIff(Product(axes), axis.values);
      AxesDistinctPush(axes, axis);
      assert grid == axes + [axis];
    }
  }

  /* ------------------------------------------------------------------- as dictionaries */

  ghost predicate HasKey(grid: seq<Axis>, key: string) {
    exists axis :: axis in grid && axis.key == key
  }

  lemma {:induction false} ZipKeys(grid: seq<Axis>, combo: seq<Value>, key: string)
    requires |grid| == |combo|
    ensures key in Zip(grid, combo) <==> HasKey(grid, key)
  {
    if grid != [] {
      var axes, axis := grid[..|grid| - 1], grid[|grid| - 1];
      ZipKeys(axes, combo[..|combo| - 1], key);
      assert forall a :: a in grid <==> a in axes || a == axis by {
        assert grid == axes + [axis];
      }
    }
  }

  lemma {:induction false} ZipAt(grid: seq<Axis>, combo: seq<Value>, j: nat)
    requires IsDict(grid) && |grid| == |combo| && j < |grid|
    ensures grid[j].key in Zip(grid, combo) && Zip(grid, combo)[grid[j].key] == combo[j]
  {
    var n := |grid| - 1;
    if j < n {
      ZipAt(grid[..n], combo[..n], j);
      assert grid[j].key != grid[n].key;
    }
  }

  lemma ZipInjective(grid: seq<Axis>, a: seq<Value>, b: seq<Value>)
    requires IsDict(grid) && |grid| == |a| == |b|
    ensures Zip(grid, a) == Zip(grid, b) <==> a == b
  {
    if Zip(grid, a) == Zip(grid, b) {
      forall j | 0 <= j < |grid|
        ensures a[j] == b[j]
      {
        ZipAt(grid, a, j);
        ZipAt(grid, b, j);
      }
    }
  }

  lemma ExpandGridAt(grid: seq<Axis>)
    ensures |ExpandGrid(grid)| == |Product(grid)|
    ensures forall i :: 0 <= i < |Product(grid)| ==>
              |Product(grid)[i]| == |grid| && ExpandGrid(grid)[i] == Zip(grid, Product(grid)[i])
  {
    forall i | 0 <= i < |Product(grid)|
      ensures |Product(grid)[i]| == |grid|
    {
      ProductShape(grid, i);
    }
    if grid == [] {
      assert Product(grid) == [[]];
      assert Zip(grid, []) == map[];
    }
  }

  // A dictionary of the expansion gives each axis its mixed-radix digit, and has no other key.
  lemma ExpansionDecodes(grid: seq<Axis>, i: nat)
    requires IsDict(grid) && i < |ExpandGrid(grid)|
    ensures |ExpandGrid(grid)| == Size(grid, 0)
    ensures forall k :: k in ExpandGrid(grid)[i] <==> HasKey(grid, k)
    ensures forall j :: 0 <= j < |grid| ==>
              && grid[j].key in ExpandGrid(grid)[i]
              && grid[j].values != [] && 0 < Size(grid, j + 1)
              && ExpandGrid(grid)[i][grid[j].key] == grid[j].values[(i / Size(grid, j + 1)) % |grid[j].values|]
  {
    ExpandGridAt(grid);
    ProductCount(grid);
    var combo := Product(grid)[i];
    forall k
      ensures k in Zip(grid, combo) <==> HasKey(grid, k)
    {
      ZipKeys(grid, combo, k);
    }
    forall j | 0 <= j < |grid|
      ensures grid[j].values != [] && 0 < Size(grid, j + 1)
      ensures grid[j].key in Zip(grid, combo) && Zip(grid, combo)[grid[j].key] == combo[j]
      ensures combo[j] == grid[j].values[(i / Size(grid, j + 1)) % |grid[j].values|]
    {
      ZipAt(grid, combo, j);
      ProductIsMixedRadix(grid, i, j);
    }
  }

  // No dictionary repeats exactly when no axis repeats a value.
  lemma ExpansionDistinctIff(grid: seq<Axis>)
    requires IsDict(grid) && forall j :: 0 <= j < |grid| ==> grid[j].values != []
    ensures Distinct(ExpandGrid(grid)) <==> AxesDistinct(grid)
  {
    ProductDistinctIff(grid);
    ExpandGridAt(grid);
    var product, dicts := Product(grid), ExpandGrid(grid);
    forall i, j | 0 <= i < j < |product|
      ensures product[i] == product[j] <==> dicts[i] == dicts[j]
    {
      ZipInjective(grid, product[i], product[j]);
    }
  }
}
