/**
 * A row-major walk over a rows x cols grid in which every cell emits the same
 * number of entries. Both buffers the heightmap builds have this shape: the
 * vertex buffer (one block of components per pixel) and the index buffer (one
 * block of six indices per grid cell).
 */
module Grid {

  /** Every cell emits exactly `k` entries. */
  ghost predicate Uniform<T>(k: nat, cell: (nat, nat) -> seq<T>)
  {
    forall r: nat, c: nat :: |cell(r, c)| == k
  }

  lemma MulLe(a: nat, b: nat, k: nat)
    requires a <= b
    ensures k * a <= k * b
  {
  }

  lemma MulAdd(a: int, b: int, k: int)
    ensures k * (a + b) == k * a + k * b
  {
  }

  lemma MulSucc(a: int, b: int)
    ensures (a + 1) * b == a * b + b
  {
  }

  /** The block of cell (r, c) ends inside a rows x cols walk of k-entry cells. */
  lemma {:induction false} CellOffsetBound(rows: nat, cols: nat, k: nat, r: nat, c: nat)
    requires r < rows && c < cols
    ensures k * (r * cols + c) + k <= k * (rows * cols)
  {
    MulSucc(r, cols);
    MulLe(r + 1, rows, cols);
    assert r * cols + c + 1 <= rows * cols by {
      assert (r + 1) * cols == cols * (r + 1) && rows * cols == cols * rows;
    }
    MulAdd(r * cols + c, 1, k);
    MulLe(r * cols + c + 1, rows * cols, k);
  }

  /** Dividing q * d + m by d recovers q and m. */
  lemma DivMod(q: int, m: int, d: int)
    requires 0 <= q && 0 <= m < d
    ensures (q * d + m) / d == q
    ensures (q * d + m) % d == m
  {
    var v := q * d + m;
    var p, n := v / d, v % d;
    assert v == p * d + n;
    if p < q {
      MulLe(p + 1, q, d);
      MulSucc(p, d);
      assert false;
    } else if p > q {
      MulLe(q + 1, p, d);
      MulSucc(q, d);
      assert false;
    }
  }

  lemma DivBound(i: int, d: nat, n: nat)
    requires 0 <= i < d * n
    ensures 0 < d && 0 <= i / d < n
  {
    if d == 0 {
      assert false;
    }
    var q := i / d;
    assert i == q * d + i % d && q * d == d * q;
    if q >= n {
      MulLe(n, q, d);
      assert false;
    }
  }

  /** An entry index below k * (rows * cols) names a cell of the grid. */
  lemma PositiveDims(rows: nat, cols: nat, k: nat, i: int)
    requires 0 <= i < k * (rows * cols)
    ensures 0 < k && 0 < cols && 0 <= i / k / cols < rows
  {
    DivBound(i, k, rows * cols);
    assert rows * cols == cols * rows;
    DivBound(i / k, cols, rows);
  }

  function FlatEntry<T>(rows: nat, cols: nat, k: nat, cell: (nat, nat) -> seq<T>, i: int): T
    requires Uniform(k, cell)
    requires 0 <= i < k * (rows * cols)
  {
    PositiveDims(rows, cols, k, i);
    cell(i / k / cols, i / k % cols)[i % k]
  }

  /**
   * The same walk by index: entry i is entry i % k of the cell numbered i / k in
   * row-major order.
   */
  function Flat<T>(rows: nat, cols: nat, k: nat, cell: (nat, nat) -> seq<T>): (s: seq<T>)
    requires Uniform(k, cell)
    ensures |s| == k * (rows * cols)
  {
    seq(k * (rows * cols), i requires 0 <= i < k * (rows * cols) => FlatEntry(rows, cols, k, cell, i))
  }

  /** Entry j of cell (r, c) sits at offset k * (r * cols + c) + j. */
  lemma FlatAt<T>(rows: nat, cols: nat, k: nat, cell: (nat, nat) -> seq<T>, r: nat, c: nat, j: nat)
    requires Uniform(k, cell)
    requires r < rows && c < cols && j < k
    ensures k * (r * cols + c) + j < |Flat(rows, cols, k, cell)|
    ensures Flat(rows, cols, k, cell)[k * (r * cols + c) + j] == cell(r, c)[j]
  {
    CellOffsetBound(rows, cols, k, r, c);
    var q := r * cols + c;
    DivMod(q, j, k);
    assert k * q + j == q * k + j;
    DivMod(r, c, cols);
  }

  /** A property every cell's entries have is a property of every entry of the indexed walk. */
  lemma FlatEvery<T>(rows: nat, cols: nat, k: nat, cell: (nat, nat) -> seq<T>, P: T -> bool)
    requires Uniform(k, cell)
    requires forall r: nat, c: nat, x :: r < rows && c < cols && x in cell(r, c) ==> P(x)
    ensures forall i :: 0 <= i < |Flat(rows, cols, k, cell)| ==> P(Flat(rows, cols, k, cell)[i])
  {
    var s := Flat(rows, cols, k, cell);
    forall i | 0 <= i < |s|
      ensures P(s[i])
    {
      PositiveDims(rows, cols, k, i);
      var q, j := i / k, i % k;
      var r, c := q / cols, q % cols;
      assert i == k * q + j;
      assert q == r * cols + c;
      FlatAt(rows, cols, k, cell, r, c, j);
      assert s[i] in cell(r, c);
    }
  }

  /** Entry j of cell (r, c) sits at offset k * (r * cols + c) + j of `s`. */
  ghost predicate EntryAt<T>(cols: nat, k: nat, cell: (nat, nat) -> seq<T>, s: seq<T>, r: nat, c: nat, j: nat)
  {
    k * (r * cols + c) + j < |s| && j < |cell(r, c)| &&
    s[k * (r * cols + c) + j] == cell(r, c)[j]
  }

  /** `s` holds every cell's entries at their row-major offsets, and nothing more. */
  ghost predicate LaidOut<T>(rows: nat, cols: nat, k: nat, cell: (nat, nat) -> seq<T>, s: seq<T>)
  {
    |s| == k * (rows * cols) &&
    forall r: nat, c: nat, j: nat :: r < rows && c < cols && j < k ==> EntryAt(cols, k, cell, s, r, c, j)
  }

  lemma FlatLaidOut<T>(rows: nat, cols: nat, k: nat, cell: (nat, nat) -> seq<T>)
    requires Uniform(k, cell)
    ensures LaidOut(rows, cols, k, cell, Flat(rows, cols, k, cell))
  {
    forall r: nat, c: nat, j: nat | r < rows && c < cols && j < k
      ensures EntryAt(cols, k, cell, Flat(rows, cols, k, cell), r, c, j)
    {
      FlatAt(rows, cols, k, cell, r, c, j);
    }
  }

  /** The layout determines the sequence: whatever is laid out that way is the indexed walk. */
  lemma LaidOutIsFlat<T>(rows: nat, cols: nat, k: nat, cell: (nat, nat) -> seq<T>, s: seq<T>)
    requires Uniform(k, cell)
    requires LaidOut(rows, cols, k, cell, s)
    ensures s == Flat(rows, cols, k, cell)
  {
    var f := Flat(rows, cols, k, cell);
    forall i | 0 <= i < |s|
      ensures s[i] == f[i]
    {
      PositiveDims(rows, cols, k, i);
      var q, j := i / k, i % k;
      var r, c := q / cols, q % cols;
      assert i == k * q + j;
      assert q == r * cols + c;
      assert EntryAt(cols, k, cell, s, r, c, j);
      FlatAt(rows, cols, k, cell, r, c, j);
    }
  }
}
