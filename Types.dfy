/** Shared value types: the failure-carrying wrappers used for the Python
    exceptions of the model, and 2-D arrays as sequences of rows. */
module Types {

  datatype Option<+T> = None | Some(value: T)

  /** The exceptions the modelled code can raise, as values. */
  datatype Error =
    | EmptyArray          // np.min / np.max of a zero-size array (ValueError)
    | ShapeMismatch       // np.stack of arrays with different shapes (ValueError)
    | IndexOutOfRange     // list indexing past the end (IndexError)
    | WorkerError(code: nat)  // anything raised inside the propagation kernel

  datatype Result<+R> = Success(value: R) | Failure(error: Error)

  /** A 2-D array stored row by row. */
  type Grid<T> = seq<seq<T>>

  /** A 2-D array of reals: a channel, a propagated pattern or a normalized result. */
  type Matrix = Grid<real>

  /** Number of columns; a matrix without rows has none. */
  function Width<T>(m: Grid<T>): nat {
    if |m| == 0 then 0 else |m[0]|
  }

  /** Every row has the same length, as in any numpy array. */
  predicate IsRect<T>(m: Grid<T>) {
    forall i :: 0 <= i < |m| ==> |m[i]| == Width(m)
  }

  /** Row-by-row equality of lengths (numpy's shape equality). */
  predicate SameShape<X, Y>(a: Grid<X>, b: Grid<Y>) {
    |a| == |b| && forall i :: 0 <= i < |a| ==> |a[i]| == |b[i]|
  }

  /** The elements in row-major order. */
  function Flatten<T>(m: Grid<T>): (s: seq<T>)
    decreases |m|
  {
    if |m| == 0 then [] else m[0] + Flatten(m[1..])
  }

  lemma {:induction false} FlattenHas<T>(m: Grid<T>, i: nat, j: nat)
    requires i < |m| && j < |m[i]|
    ensures m[i][j] in Flatten(m)
    decreases i
  {
    if i == 0 {
      assert Flatten(m) == m[0] + Flatten(m[1..]);
      assert Flatten(m)[j] == m[0][j];
    } else {
      FlattenHas(m[1..], i - 1, j);
      assert m[1..][i - 1][j] == m[i][j];
    }
  }

  lemma {:induction false} FlattenFrom<T>(m: Grid<T>, x: T)
    requires x in Flatten(m)
    ensures exists i, j :: 0 <= i < |m| && 0 <= j < |m[i]| && m[i][j] == x
    decreases |m|
  {
    if x in m[0] {
      var j :| 0 <= j < |m[0]| && m[0][j] == x;
      assert m[0][j] == x;
    } else {
      assert x in Flatten(m[1..]);
      FlattenFrom(m[1..], x);
      var i, j :| 0 <= i < |m[1..]| && 0 <= j < |m[1..][i]| && m[1..][i][j] == x;
      assert m[i + 1][j] == x;
    }
  }

  /** The flattened array is empty exactly when no row holds an element. */
  lemma {:induction false} FlattenEmpty<T>(m: Grid<T>)
    ensures |Flatten(m)| == 0 <==> forall i :: 0 <= i < |m| ==> |m[i]| == 0
    decreases |m|
  {
    if |m| > 0 {
      FlattenEmpty(m[1..]);
      assert forall i :: 1 <= i < |m| ==> m[i] == m[1..][i - 1];
    }
  }
}
