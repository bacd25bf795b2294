/** The array helpers of src/image_utils.py that sit after the propagation
    kernel: min-max normalization of a result and the stacking of three
    channels into one colour image. Arithmetic is over exact reals. */
module ImageUtils {
  import opened Types

  /** Flatness threshold of normalize_result: a spread below it counts as a constant field. */
  const Eps: real := 1e-12

  function Abs(x: real): (r: real)
    ensures r >= 0.0 && (r == x || r == -x)
  {
    if x < 0.0 then -x else x
  }

  /** np.abs applied element by element. */
  function AbsAll(a: Matrix): (m: Matrix)
    ensures SameShape(m, a)
    ensures forall i, j :: 0 <= i < |a| && 0 <= j < |a[i]| ==> m[i][j] == Abs(a[i][j])
  {
    seq(|a|, i requires 0 <= i < |a| => seq(|a[i]|, j requires 0 <= j < |a[i]| => Abs(a[i][j])))
  }

  /** The array has at least one element (numpy's size > 0). */
  predicate HasElements<T>(m: Grid<T>) {
    exists i :: 0 <= i < |m| && |m[i]| > 0
  }

  predicate InUnitRange(m: Matrix) {
    forall i, j :: 0 <= i < |m| && 0 <= j < |m[i]| ==> 0.0 <= m[i][j] <= 1.0
  }

  predicate AllZero(m: Matrix) {
    forall i, j :: 0 <= i < |m| && 0 <= j < |m[i]| ==> m[i][j] == 0.0
  }

  /** Smallest element of a non-empty sequence. */
  function MinOf(s: seq<real>): (r: real)
    requires |s| > 0
    ensures r in s
    ensures forall k :: 0 <= k < |s| ==> r <= s[k]
  {
    if |s| == 1 then s[0]
    else
      var rest := MinOf(s[1..]);
      if s[0] <= rest then s[0] else rest
  }

  /** Largest element of a non-empty sequence. */
  function MaxOf(s: seq<real>): (r: real)
    requires |s| > 0
    ensures r in s
    ensures forall k :: 0 <= k < |s| ==> s[k] <= r
  {
    if |s| == 1 then s[0]
    else
      var rest := MaxOf(s[1..]);
      if rest <= s[0] then s[0] else rest
  }

  lemma FlattenNonEmpty<T>(m: Grid<T>)
    requires HasElements(m)
    ensures |Flatten(m)| > 0
  {
    FlattenEmpty(m);
  }

  /** np.min over all elements of the array. */
  function Low(m: Matrix): (lo: real)
    requires HasElements(m)
    ensures forall i, j :: 0 <= i < |m| && 0 <= j < |m[i]| ==> lo <= m[i][j]
    ensures exists i, j :: 0 <= i < |m| && 0 <= j < |m[i]| && m[i][j] == lo
  {
    FlattenNonEmpty(m);
    var lo := MinOf(Flatten(m));
    forall i, j | 0 <= i < |m| && 0 <= j < |m[i]| ensures lo <= m[i][j] {
      FlattenHas(m, i, j);
    }
    FlattenFrom(m, lo);
    lo
  }

  /** np.max over all elements of the array. */
  function High(m: Matrix): (hi: real)
    requires HasElements(m)
    ensures forall i, j :: 0 <= i < |m| && 0 <= j < |m[i]| ==> m[i][j] <= hi
    ensures exists i, j :: 0 <= i < |m| && 0 <= j < |m[i]| && m[i][j] == hi
  {
    FlattenNonEmpty(m);
    var hi := MaxOf(Flatten(m));
    forall i, j | 0 <= i < |m| && 0 <= j < |m[i]| ensures m[i][j] <= hi {
      FlattenHas(m, i, j);
    }
    FlattenFrom(m, hi);
    hi
  }

  /** np.zeros_like. */
  function ZerosLike(m: Matrix): (z: Matrix)
    ensures SameShape(z, m) && AllZero(z)
  {
    seq(|m|, i requires 0 <= i < |m| => seq(|m[i]|, j => 0.0))
  }

  /** (m - lo) / (hi - lo), element by element. */
  function Rescale(m: Matrix, lo: real, hi: real): (r: Matrix)
    requires lo < hi
    ensures SameShape(r, m)
    ensures forall i, j :: 0 <= i < |m| && 0 <= j < |m[i]| ==> r[i][j] == (m[i][j] - lo) / (hi - lo)
  {
    seq(|m|, i requires 0 <= i < |m| =>
      seq(|m[i]|, j requires 0 <= j < |m[i]| => (m[i][j] - lo) / (hi - lo)))
  }

  /** Smallest and largest magnitude of the array, the min_val and max_val of normalize_result. */
  function MinMag(a: Matrix): real
    requires HasElements(a)
  {
    HasElementsAbs(a);
    Low(AbsAll(a))
  }

  function MaxMag(a: Matrix): real
    requires HasElements(a)
  {
    HasElementsAbs(a);
    High(AbsAll(a))
  }

  /** The degenerate case of normalize_result: a spread of magnitudes below Eps. */
  predicate IsFlat(a: Matrix)
    requires HasElements(a)
  {
    MaxMag(a) - MinMag(a) < Eps
  }

  lemma HasElementsAbs(a: Matrix)
    ensures HasElements(AbsAll(a)) == HasElements(a)
  {
    var m := AbsAll(a);
    if HasElements(a) {
      var i :| 0 <= i < |a| && |a[i]| > 0;
      assert |m[i]| > 0;
    }
    if HasElements(m) {
      var i :| 0 <= i < |m| && |m[i]| > 0;
      assert |a[i]| > 0;
    }
  }

  /** normalize_result: magnitudes mapped from [min, max] onto [0, 1], or all
      zeros when the spread is below Eps; numpy raises on a zero-size array. */
  function Normalize(a: Matrix): (r: Result<Matrix>)
    ensures r.Failure? <==> !HasElements(a)
    ensures r.Failure? ==> r.error == EmptyArray
    ensures r.Success? ==> SameShape(r.value, a) && InUnitRange(r.value)
  {
    var m := AbsAll(a);
    HasElementsAbs(a);
    if !HasElements(m) then Failure(EmptyArray)
    else
      var lo := Low(m);
      var hi := High(m);
      if hi - lo < Eps then Success(ZerosLike(m))
      else
        RescaleInUnitRange(m);
        Success(Rescale(m, lo, hi))
  }

  lemma RescaleInUnitRange(m: Matrix)
    requires HasElements(m) && Low(m) < High(m)
    ensures InUnitRange(Rescale(m, Low(m), High(m)))
  {
    var lo, hi := Low(m), High(m);
    var r := Rescale(m, lo, hi);
    forall i, j | 0 <= i < |r| && 0 <= j < |r[i]| ensures 0.0 <= r[i][j] <= 1.0 {
      UnitFraction(m[i][j], lo, hi);
    }
  }

  lemma UnitFraction(x: real, lo: real, hi: real)
    requires lo <= x <= hi && lo < hi
    ensures 0.0 <= (x - lo) / (hi - lo) <= 1.0
  {
    assert (x - lo) / (hi - lo) * (hi - lo) == x - lo;
  }

  /** The two ends of the rescaled range. */
  lemma FractionEnds(x: real, lo: real, hi: real)
    requires lo < hi
    ensures x == lo ==> (x - lo) / (hi - lo) == 0.0
    ensures x == hi ==> (x - lo) / (hi - lo) == 1.0
  {
  }

  lemma UnitScale(x: real)
    ensures (x - 0.0) / (1.0 - 0.0) == x
  {
  }

  lemma DivMonotone(x: real, y: real, d: real)
    requires x <= y && d > 0.0
    ensures x / d <= y / d
  {
    assert x / d * d == x && y / d * d == y;
  }

  /** A flat field (spread of magnitudes below Eps) normalizes to all zeros. */
  lemma NormalizeFlat(a: Matrix)
    requires HasElements(a) && IsFlat(a)
    ensures Normalize(a).Success? && AllZero(Normalize(a).value)
  {
  }

  /** Otherwise the positions holding the smallest magnitude map to 0 ... */
  lemma NormalizeMinToZero(a: Matrix, i: nat, j: nat)
    requires HasElements(a) && !IsFlat(a)
    requires i < |a| && j < |a[i]| && Abs(a[i][j]) == MinMag(a)
    ensures Normalize(a).Success? && Normalize(a).value[i][j] == 0.0
  {
    var m := AbsAll(a);
    HasElementsAbs(a);
    var lo, hi := Low(m), High(m);
    assert Normalize(a) == Success(Rescale(m, lo, hi));
    FractionEnds(m[i][j], lo, hi);
  }

  /** ... and those holding the largest magnitude map to 1. */
  lemma NormalizeMaxToOne(a: Matrix, i: nat, j: nat)
    requires HasElements(a) && !IsFlat(a)
    requires i < |a| && j < |a[i]| && Abs(a[i][j]) == MaxMag(a)
    ensures Normalize(a).Success? && Normalize(a).value[i][j] == 1.0
  {
    var m := AbsAll(a);
    HasElementsAbs(a);
    var lo, hi := Low(m), High(m);
    assert Normalize(a) == Success(Rescale(m, lo, hi));
    FractionEnds(m[i][j], lo, hi);
  }

  /** The map is monotone in the magnitude. */
  lemma NormalizeMonotone(a: Matrix, i: nat, j: nat, k: nat, l: nat)
    requires i < |a| && j < |a[i]| && k < |a| && l < |a[k]|
    requires Abs(a[i][j]) <= Abs(a[k][l])
    ensures Normalize(a).Success?
    ensures Normalize(a).value[i][j] <= Normalize(a).value[k][l]
  {
    assert HasElements(a);
    if !IsFlat(a) {
      var lo, hi := MinMag(a), MaxMag(a);
      DivMonotone(Abs(a[i][j]) - lo, Abs(a[k][l]) - lo, hi - lo);
    }
  }

  /** Two grids of the same shape that agree element-wise are equal. */
  lemma GridEq<T>(a: Grid<T>, b: Grid<T>)
    requires SameShape(a, b)
    requires forall i, j :: 0 <= i < |a| && 0 <= j < |a[i]| ==> a[i][j] == b[i][j]
    ensures a == b
  {
    forall i | 0 <= i < |a| ensures a[i] == b[i] {
      assert |a[i]| == |b[i]|;
    }
  }

  /** Taking magnitudes twice changes nothing. */
  lemma {:induction false} AbsAllIdempotent(a: Matrix)
    ensures AbsAll(AbsAll(a)) == AbsAll(a)
  {
    GridEq(AbsAll(AbsAll(a)), AbsAll(a));
  }

  /** Only magnitudes matter: the signs of the input never reach the output. */
  lemma NormalizeMagnitudeOnly(a: Matrix)
    ensures Normalize(AbsAll(a)) == Normalize(a)
  {
    AbsAllIdempotent(a);
  }

  /** An array of non-negative elements is its own magnitude. */
  lemma AbsAllOfNonNegative(m: Matrix)
    requires forall i, j :: 0 <= i < |m| && 0 <= j < |m[i]| ==> m[i][j] >= 0.0
    ensures AbsAll(m) == m
  {
    GridEq(AbsAll(m), m);
  }

  /** An all-zero array normalizes to itself (the flat branch). */
  lemma ZerosNormalizeToZeros(z: Matrix)
    requires HasElements(z) && AllZero(z)
    ensures Normalize(z) == Success(z)
  {
    AbsAllOfNonNegative(z);
    var lo, hi := Low(z), High(z);
    var i, j :| 0 <= i < |z| && 0 <= j < |z[i]| && z[i][j] == lo;
    var k, l :| 0 <= k < |z| && 0 <= l < |z[k]| && z[k][l] == hi;
    GridEq(ZerosLike(z), z);
  }

  /** An array in [0, 1] that reaches both 0 and 1 normalizes to itself. */
  lemma SpanNormalizeToItself(u: Matrix)
    requires HasElements(u) && InUnitRange(u) && Low(u) == 0.0 && High(u) == 1.0
    ensures Normalize(u) == Success(u)
  {
    AbsAllOfNonNegative(u);
    var again := Rescale(u, 0.0, 1.0);
    forall x, y | 0 <= x < |u| && 0 <= y < |u[x]| ensures again[x][y] == u[x][y] {
      UnitScale(u[x][y]);
    }
    GridEq(again, u);
  }

  /** Rescaling from [Low, High] reaches exactly 0 and 1. */
  lemma RescaleSpansUnit(m: Matrix)
    requires HasElements(m) && Low(m) < High(m)
    ensures var u := Rescale(m, Low(m), High(m));
      HasElements(u) && Low(u) == 0.0 && High(u) == 1.0
  {
    var lo, hi := Low(m), High(m);
    var u := Rescale(m, lo, hi);
    RescaleInUnitRange(m);
    var i, j :| 0 <= i < |m| && 0 <= j < |m[i]| && m[i][j] == lo;
    FractionEnds(m[i][j], lo, hi);
    var k, l :| 0 <= k < |m| && 0 <= l < |m[k]| && m[k][l] == hi;
    FractionEnds(m[k][l], lo, hi);
    assert u[i][j] == 0.0 && u[k][l] == 1.0;
    var lo1, hi1 := Low(u), High(u);
    var i1, j1 :| 0 <= i1 < |u| && 0 <= j1 < |u[i1]| && u[i1][j1] == lo1;
    var k1, l1 :| 0 <= k1 < |u| && 0 <= l1 < |u[k1]| && u[k1][l1] == hi1;
    assert 0.0 <= lo1 <= u[i][j];
    assert u[k][l] <= hi1 <= 1.0;
  }

  /** A normalized array normalizes to itself, in both branches. */
  lemma NormalizeIdempotent(a: Matrix)
    requires HasElements(a)
    ensures Normalize(a).Success?
    ensures Normalize(Normalize(a).value) == Normalize(a)
  {
    var out := Normalize(a).value;
    var m := AbsAll(a);
    HasElementsAbs(a);
    var i0 :| 0 <= i0 < |a| && |a[i0]| > 0;
    assert |out[i0]| > 0;
    var lo, hi := Low(m), High(m);
    if hi - lo < Eps {
      ZerosNormalizeToZeros(out);
    } else {
      assert out == Rescale(m, lo, hi);
      RescaleSpansUnit(m);
      SpanNormalizeToItself(out);
    }
  }

  /** A colour image: rows of pixels, each pixel a sequence of channel values. */
  type Image3<T> = Grid<seq<T>>

  /** Every pixel has exactly n channels. */
  predicate HasChannels<T>(img: Image3<T>, n: nat) {
    forall x, y :: 0 <= x < |img| && 0 <= y < |img[x]| ==> |img[x][y]| == n
  }

  /** recombine_rgb_channels: np.stack([r, g, b], axis=-1), which raises
      unless the three arrays have the same shape. */
  function Recombine<T>(r: Grid<T>, g: Grid<T>, b: Grid<T>): (rgb: Result<Image3<T>>)
    ensures rgb.Success? <==> SameShape(r, g) && SameShape(r, b)
    ensures rgb.Failure? ==> rgb.error == ShapeMismatch
    ensures rgb.Success? ==> SameShape(rgb.value, r) && HasChannels(rgb.value, 3)
  {
    if SameShape(r, g) && SameShape(r, b) then
      Success(seq(|r|, x requires 0 <= x < |r| =>
        seq(|r[x]|, y requires 0 <= y < |r[x]| => [r[x][y], g[x][y], b[x][y]])))
    else Failure(ShapeMismatch)
  }

  /** The inverse of stacking: img[..., c]. */
  function Channel<T>(img: Image3<T>, c: nat): (m: Grid<T>)
    requires forall x, y :: 0 <= x < |img| && 0 <= y < |img[x]| ==> c < |img[x][y]|
    ensures SameShape(m, img)
    ensures forall x, y :: 0 <= x < |img| && 0 <= y < |img[x]| ==> m[x][y] == img[x][y][c]
  {
    seq(|img|, x requires 0 <= x < |img| =>
      seq(|img[x]|, y requires 0 <= y < |img[x]| => img[x][y][c]))
  }

  /** Stacking three equal-shape channels keeps each of them as one plane of
      the colour image: rgb[x][y] == (r[x][y], g[x][y], b[x][y]). */
  lemma {:induction false} RecombineChannels<T>(r: Grid<T>, g: Grid<T>, b: Grid<T>)
    requires SameShape(r, g) && SameShape(r, b)
    ensures Recombine(r, g, b).Success?
    ensures var rgb := Recombine(r, g, b).value;
      Channel(rgb, 0) == r && Channel(rgb, 1) == g && Channel(rgb, 2) == b
  {
    var rgb := Recombine(r, g, b).value;
    GridEq(Channel(rgb, 0), r);
    GridEq(Channel(rgb, 1), g);
    GridEq(Channel(rgb, 2), b);
  }

  /** Splitting a colour image into planes and stacking them back is the identity. */
  lemma {:induction false} ChannelsRecombine<T>(img: Image3<T>)
    requires HasChannels(img, 3)
    ensures Recombine(Channel(img, 0), Channel(img, 1), Channel(img, 2)) == Success(img)
  {
    var rgb := Recombine(Channel(img, 0), Channel(img, 1), Channel(img, 2)).value;
    forall x, y | 0 <= x < |img| && 0 <= y < |img[x]| ensures rgb[x][y] == img[x][y] {
      assert |img[x][y]| == 3;
    }
    GridEq(rgb, img);
  }
}
