/** The batch machinery of app/processing_flows.py: one propagation task per
    distance, gathered back into submission order whatever the completion
    order; the per-index colour stacking; the wavelength of each channel;
    and the index guards in front of every read of a result list. */
module ProcessingFlows {
  import opened Types
  import opened ImageUtils
  import opened UiHelpers

  /** fresnel_frft_square_input(field, z, D, wavelength). Its complex
      arithmetic is not modelled; it either yields an intensity array or
      raises. By convention a kernel exception is reported as a WorkerError;
      the type does not enforce this, so a propagator may return any Error
      and RunTask passes it on unchanged. */
  type Propagator = (Matrix, real, real, real) -> Result<Matrix>

  // ---------------------------------------------------------------------
  // Wavelengths
  // ---------------------------------------------------------------------

  datatype Band = Gray | Red | Green | Blue

  /** The wavelength (in metres) each computation passes to the kernel. */
  function Wavelength(c: Band): (wl: real)
    ensures 430e-9 <= wl <= 560e-9
  {
    match c
    case Gray => 530e-9
    case Red => 560e-9
    case Green => 530e-9
    case Blue => 430e-9
  }

  /** Grayscale shares the green wavelength; red is the longest and blue the shortest. */
  lemma WavelengthChoice()
    ensures Wavelength(Gray) == Wavelength(Green) == 530e-9
    ensures Wavelength(Red) == 560e-9 && Wavelength(Blue) == 430e-9
    ensures Wavelength(Blue) < Wavelength(Green) < Wavelength(Red)
  {
  }

  // ---------------------------------------------------------------------
  // One task and the index-tagged gather
  // ---------------------------------------------------------------------

  /** _run_fresnel_grayscale / _run_fresnel_rgb: propagate, then normalize. */
  function RunTask(propagate: Propagator, field: Matrix, z: real, d: real, wl: real): (r: Result<Matrix>)
    ensures r.Success? <==> propagate(field, z, d, wl).Success? && HasElements(propagate(field, z, d, wl).value)
    ensures r.Success? ==> SameShape(r.value, propagate(field, z, d, wl).value) && InUnitRange(r.value)
  {
    match propagate(field, z, d, wl)
    case Failure(e) => Failure(e)
    case Success(p) => Normalize(p)
  }

  /** A submitted task. Its outcome is what result() returns or raises;
      futures are compared by identity. */
  class Future {
    const outcome: Result<Matrix>

    constructor (outcome: Result<Matrix>)
      ensures this.outcome == outcome
    {
      this.outcome := outcome;
    }
  }

  /** No future was submitted twice. */
  predicate Distinct(futures: seq<(nat, Future)>) {
    forall j, k :: 0 <= j < k < |futures| ==> futures[j].1 != futures[k].1
  }

  /** Completion order: every submission position exactly once. */
  predicate IsPermutation(order: seq<nat>, n: nat) {
    && |order| == n
    && (forall t :: 0 <= t < n ==> order[t] < n)
    && (forall s, t :: 0 <= s < t < n ==> order[s] != order[t])
    && (forall i :: 0 <= i < n ==> i in order)
  }

  /** next(i for i, fut in futures if fut == f): the tag of the first pair
      holding f. */
  method FindSubmissionIndex(futures: seq<(nat, Future)>, f: Future) returns (idx: nat)
    requires exists k :: 0 <= k < |futures| && futures[k].1 == f
    ensures exists k :: (0 <= k < |futures| && futures[k].1 == f && idx == futures[k].0
                         && forall j :: 0 <= j < k ==> futures[j].1 != f)
  {
    var k := 0;
    while futures[k].1 != f
      invariant 0 <= k < |futures|
      invariant forall j :: 0 <= j < k ==> futures[j].1 != f
      invariant exists m :: k <= m < |futures| && futures[m].1 == f
      decreases |futures| - k
    {
      k := k + 1;
    }
    idx := futures[k].0;
  }

  /** The outcome of each task, in submission order. */
  function Batch(propagate: Propagator, field: Matrix, zVals: seq<real>, d: real, wl: real)
    : (tasks: seq<Result<Matrix>>)
    ensures |tasks| == |zVals|
    ensures forall i :: 0 <= i < |zVals| ==> tasks[i] == RunTask(propagate, field, zVals[i], d, wl)
  {
    seq(|zVals|, i requires 0 <= i < |zVals| => RunTask(propagate, field, zVals[i], d, wl))
  }

  /** Every task succeeds. */
  predicate AllSucceed(tasks: seq<Result<Matrix>>) {
    forall i :: 0 <= i < |tasks| ==> tasks[i].Success?
  }

  /** What collecting the tasks yields: slot i holds the result of task i;
      if a task raised, no list is returned and the error is that task's. */
  predicate IsGatherOf(outcome: Result<seq<Matrix>>, tasks: seq<Result<Matrix>>) {
    && (outcome.Success? <==> AllSucceed(tasks))
    && (outcome.Success? ==>
          (|outcome.value| == |tasks|
           && forall i :: 0 <= i < |tasks| ==> outcome.value[i] == tasks[i].value))
    && (outcome.Failure? ==>
          (exists i :: 0 <= i < |tasks| && tasks[i] == Failure(outcome.error)))
  }

  predicate BatchSucceeds(propagate: Propagator, field: Matrix, zVals: seq<real>, d: real, wl: real) {
    AllSucceed(Batch(propagate, field, zVals, d, wl))
  }

  /** The result of one batch: one propagation per distance in zVals. */
  predicate IsBatchOf(outcome: Result<seq<Matrix>>, propagate: Propagator, field: Matrix,
                      zVals: seq<real>, d: real, wl: real)
  {
    IsGatherOf(outcome, Batch(propagate, field, zVals, d, wl))
  }

  /** The outcomes the futures carry, by position. */
  function Outcomes(futures: seq<(nat, Future)>): (tasks: seq<Result<Matrix>>)
    ensures |tasks| == |futures|
    ensures forall i :: 0 <= i < |futures| ==> tasks[i] == futures[i].1.outcome
  {
    seq(|futures|, i requires 0 <= i < |futures| => futures[i].1.outcome)
  }

  /** The progress values reported so far: after the t-th completion the
      bar shows t / total. */
  predicate IsProgress(reported: seq<real>, n: nat) {
    && |reported| <= n
    && forall t :: 0 <= t < |reported| ==> reported[t] == (t + 1) as real / n as real
  }

  lemma RatioBounds(c: nat, n: nat)
    requires 0 < c <= n
    ensures 0.0 < c as real / n as real <= 1.0
  {
    assert c as real / n as real * n as real == c as real;
  }

  lemma RatioIncreasing(c: nat, e: nat, n: nat)
    requires c < e && 0 < n
    ensures c as real / n as real < e as real / n as real
  {
    assert c as real / n as real * n as real == c as real;
    assert e as real / n as real * n as real == e as real;
  }

  /** The progress bar only moves forward and stays within (0, 1]. */
  lemma ProgressInRangeIncreasing(reported: seq<real>, n: nat)
    requires IsProgress(reported, n)
    ensures forall t :: 0 <= t < |reported| ==> 0.0 < reported[t] <= 1.0
    ensures forall s, t :: 0 <= s < t < |reported| ==> reported[s] < reported[t]
  {
    forall t | 0 <= t < |reported| ensures 0.0 < reported[t] <= 1.0 {
      RatioBounds(t + 1, n);
    }
    forall s, t | 0 <= s < t < |reported| ensures reported[s] < reported[t] {
      RatioIncreasing(s + 1, t + 1, n);
    }
  }

  /** When every task has completed, the bar shows 1. */
  lemma ProgressReachesOne(reported: seq<real>, n: nat)
    requires IsProgress(reported, n) && |reported| == n > 0
    ensures reported[n - 1] == 1.0
  {
    assert reported[n - 1] == n as real / n as real;
    assert n as real / n as real * n as real == n as real;
  }

  /** The completion loop of compute_grayscale_outputs and compute_channel:
      futures complete in the arbitrary order `order`; each completed
      future's tag is found by linear search and its result written to that
      slot of a list preallocated with None; `reported` collects the
      completed/total ratios shown on the progress bar. result() of a
      failed task raises, which ends the loop. */
  method CollectBySubmissionIndex(futures: seq<(nat, Future)>, order: seq<nat>)
    returns (outcome: Result<seq<Matrix>>, reported: seq<real>)
    requires Distinct(futures) && forall j :: 0 <= j < |futures| ==> futures[j].0 == j
    requires IsPermutation(order, |futures|)
    ensures IsGatherOf(outcome, Outcomes(futures))
    ensures IsProgress(reported, |futures|)
    ensures outcome.Success? ==> |reported| == |futures|
  {
    var n := |futures|;
    var outs := new Option<Matrix>[n](_ => None);
    var completadas := 0;
    var total := n;
    reported := [];
    for t := 0 to n
      invariant completadas == t == |reported|
      invariant IsProgress(reported, total)
      invariant forall s :: 0 <= s < t ==> futures[order[s]].1.outcome.Success?
      invariant forall i :: 0 <= i < n ==> (outs[i].Some? <==> i in order[..t])
      invariant forall i :: 0 <= i < n && outs[i].Some? ==> outs[i].value == futures[i].1.outcome.value
    {
      var f := futures[order[t]].1;
      var idx := FindSubmissionIndex(futures, f);
      ghost var k :| 0 <= k < |futures| && futures[k].1 == f && idx == futures[k].0;
      assert k == order[t];
      match f.outcome
      case Failure(e) =>
        assert Outcomes(futures)[order[t]] == Failure(e);
        outcome := Failure(e);
        return;
      case Success(m) =>
        // the slot is still empty: each slot is written exactly once
        assert outs[idx].None?;
        outs[idx] := Some(m);
      assert order[..t + 1] == order[..t] + [order[t]];
      completadas := completadas + 1;
      reported := reported + [completadas as real / total as real];
    }

    // no slot is left holding None
    assert order[..n] == order;
    var slots := outs[..];
    assert forall i :: 0 <= i < n ==> slots[i].Some?;
    outcome := Success(seq(n, i requires 0 <= i < n => slots[i].value));
  }

  /** Tasks are submitted in order, each future tagged with its index, and
      then collected. */
  method GatherByIndex(propagate: Propagator, field: Matrix, zVals: seq<real>, d: real, wl: real,
                       order: seq<nat>)
    returns (outcome: Result<seq<Matrix>>, reported: seq<real>)
    requires IsPermutation(order, |zVals|)
    ensures IsBatchOf(outcome, propagate, field, zVals, d, wl)
    ensures IsProgress(reported, |zVals|)
    ensures outcome.Success? ==> |reported| == |zVals|
  {
    var futures: seq<(nat, Future)> := [];
    for i := 0 to |zVals|
      invariant |futures| == i && Distinct(futures)
      invariant forall j :: 0 <= j < i ==>
        futures[j].0 == j && futures[j].1.outcome == RunTask(propagate, field, zVals[j], d, wl)
    {
      var future := new Future(RunTask(propagate, field, zVals[i], d, wl));
      futures := futures + [(i, future)];
    }
    assert Outcomes(futures) == Batch(propagate, field, zVals, d, wl);
    outcome, reported := CollectBySubmissionIndex(futures, order);
  }

  /** A batch's results lie in [0, 1]: every task ends in normalize_result. */
  lemma BatchInUnitRange(outcome: Result<seq<Matrix>>, propagate: Propagator, field: Matrix,
                         zVals: seq<real>, d: real, wl: real)
    requires IsBatchOf(outcome, propagate, field, zVals, d, wl) && outcome.Success?
    ensures forall i :: 0 <= i < |outcome.value| ==> InUnitRange(outcome.value[i])
  {
    forall i | 0 <= i < |outcome.value| ensures InUnitRange(outcome.value[i]) {
      assert RunTask(propagate, field, zVals[i], d, wl).Success?;
    }
  }

  /** The completion order cannot be observed in a successful batch: two
      batches over the same tasks hold the same list. */
  lemma BatchOrderIrrelevant(o1: Result<seq<Matrix>>, o2: Result<seq<Matrix>>, propagate: Propagator,
                             field: Matrix, zVals: seq<real>, d: real, wl: real)
    requires IsBatchOf(o1, propagate, field, zVals, d, wl)
    requires IsBatchOf(o2, propagate, field, zVals, d, wl)
    ensures o1.Success? == o2.Success?
    ensures o1.Success? ==> o1 == o2
  {
    if o1.Success? {
      assert o1.value == o2.value;
    }
  }

  /** compute_grayscale_outputs: one batch at the green wavelength. */
  method ComputeGrayscaleOutputs(propagate: Propagator, img: Matrix, zVals: seq<real>, d: real,
                                 order: seq<nat>)
    returns (outcome: Result<seq<Matrix>>, reported: seq<real>)
    requires IsPermutation(order, |zVals|)
    ensures IsBatchOf(outcome, propagate, img, zVals, d, Wavelength(Gray))
    ensures IsProgress(reported, |zVals|)
    ensures outcome.Success? ==> |reported| == |zVals|
  {
    outcome, reported := GatherByIndex(propagate, img, zVals, d, Wavelength(Gray), order);
  }

  // ---------------------------------------------------------------------
  // Colour: three batches and the per-index stacking
  // ---------------------------------------------------------------------

  /** int(x) for a float: truncation toward zero. */
  function Trunc(x: real): (n: int)
    ensures 0.0 <= x ==> 0 <= n && n as real <= x < n as real + 1.0
    ensures x < 0.0 ==> n <= 0 && n as real - 1.0 < x <= n as real
  {
    if x >= 0.0 then x.Floor else -((-x).Floor)
  }

  /** (v * 255).astype(np.uint8) for one value. */
  function ScaleToByte(v: real): (b: int)
    ensures 0.0 <= v ==> b as real <= v * 255.0 < b as real + 1.0
    ensures 0.0 <= v <= 1.0 ==> 0 <= b <= 255
  {
    Trunc(v * 255.0)
  }

  /** The conversion keeps the ends of [0, 1] and the order of values. */
  lemma ScaleToByteProperties(v: real, w: real)
    requires 0.0 <= v <= w <= 1.0
    ensures ScaleToByte(0.0) == 0 && ScaleToByte(1.0) == 255
    ensures ScaleToByte(v) <= ScaleToByte(w)
  {
    assert v * 255.0 <= w * 255.0;
  }

  /** A colour image scaled to bytes, channel value by channel value. */
  function ToBytes(img: Image3<real>): (out: Image3<int>)
    ensures SameShape(out, img)
    ensures forall x, y :: 0 <= x < |img| && 0 <= y < |img[x]| ==>
      |out[x][y]| == |img[x][y]|
      && forall c :: 0 <= c < |img[x][y]| ==> out[x][y][c] == ScaleToByte(img[x][y][c])
  {
    seq(|img|, x requires 0 <= x < |img| =>
      seq(|img[x]|, y requires 0 <= y < |img[x]| =>
        seq(|img[x][y]|, c requires 0 <= c < |img[x][y]| => ScaleToByte(img[x][y][c]))))
  }

  /** The rgb_outs comprehension: element i stacks r_outs[i], g_outs[i] and
      b_outs[i] on a trailing axis, scaled to bytes. np.stack raises on a
      shape mismatch. */
  function StackRgbOutputs(rOuts: seq<Matrix>, gOuts: seq<Matrix>, bOuts: seq<Matrix>): (r: Result<seq<Image3<int>>>)
    requires |rOuts| == |gOuts| == |bOuts|
    ensures r.Success? <==> forall i :: 0 <= i < |rOuts| ==>
      SameShape(rOuts[i], gOuts[i]) && SameShape(rOuts[i], bOuts[i])
    ensures r.Failure? ==> r.error == ShapeMismatch
    ensures r.Success? ==> |r.value| == |rOuts| && forall i :: 0 <= i < |rOuts| ==>
      SameShape(r.value[i], rOuts[i]) && HasChannels(r.value[i], 3)
  {
    var n := |rOuts|;
    if forall i :: 0 <= i < n ==> SameShape(rOuts[i], gOuts[i]) && SameShape(rOuts[i], bOuts[i]) then
      Success(seq(n, i requires 0 <= i < n => ToBytes(Recombine(rOuts[i], gOuts[i], bOuts[i]).value)))
    else Failure(ShapeMismatch)
  }

  /** Pixel (x, y) of frame i is the byte triple of the three channels there. */
  lemma StackRgbPixel(rOuts: seq<Matrix>, gOuts: seq<Matrix>, bOuts: seq<Matrix>, i: nat, x: nat, y: nat)
    requires |rOuts| == |gOuts| == |bOuts|
    requires StackRgbOutputs(rOuts, gOuts, bOuts).Success?
    requires i < |rOuts| && x < |rOuts[i]| && y < |rOuts[i][x]|
    ensures StackRgbOutputs(rOuts, gOuts, bOuts).value[i][x][y]
      == [ScaleToByte(rOuts[i][x][y]), ScaleToByte(gOuts[i][x][y]), ScaleToByte(bOuts[i][x][y])]
  {
    var img := Recombine(rOuts[i], gOuts[i], bOuts[i]).value;
    assert img[x][y] == [rOuts[i][x][y], gOuts[i][x][y], bOuts[i][x][y]];
  }

  /** Channels normalized into [0, 1] never leave the byte range. */
  lemma StackRgbInByteRange(rOuts: seq<Matrix>, gOuts: seq<Matrix>, bOuts: seq<Matrix>)
    requires |rOuts| == |gOuts| == |bOuts|
    requires StackRgbOutputs(rOuts, gOuts, bOuts).Success?
    requires forall i :: 0 <= i < |rOuts| ==>
      InUnitRange(rOuts[i]) && InUnitRange(gOuts[i]) && InUnitRange(bOuts[i])
    ensures var frames := StackRgbOutputs(rOuts, gOuts, bOuts).value;
      forall i, x, y, c ::
        (0 <= i < |frames| && 0 <= x < |frames[i]| && 0 <= y < |frames[i][x]| && 0 <= c < |frames[i][x][y]|)
        ==> 0 <= frames[i][x][y][c] <= 255
  {
    var frames := StackRgbOutputs(rOuts, gOuts, bOuts).value;
    forall i, x, y, c | 0 <= i < |frames| && 0 <= x < |frames[i]| && 0 <= y < |frames[i][x]|
        && 0 <= c < |frames[i][x][y]|
      ensures 0 <= frames[i][x][y][c] <= 255
    {
      StackRgbPixel(rOuts, gOuts, bOuts, i, x, y);
    }
  }

  /** The dictionary compute_rgb_outputs returns. */
  datatype RgbOutputs = RgbOutputs(rOuts: seq<Matrix>, gOuts: seq<Matrix>, bOuts: seq<Matrix>,
                                   rgbOuts: seq<Image3<int>>)

  /** The results of a batch in which every task succeeded. */
  function Values(tasks: seq<Result<Matrix>>): (values: seq<Matrix>)
    requires AllSucceed(tasks)
    ensures |values| == |tasks|
    ensures forall i :: 0 <= i < |tasks| ==> tasks[i] == Success(values[i])
  {
    seq(|tasks|, i requires 0 <= i < |tasks| => tasks[i].value)
  }

  /** A successful batch holds exactly the values of its tasks. */
  lemma BatchValues(v: seq<Matrix>, propagate: Propagator, field: Matrix, zVals: seq<real>, d: real, wl: real)
    requires IsBatchOf(Success(v), propagate, field, zVals, d, wl)
    ensures BatchSucceeds(propagate, field, zVals, d, wl)
    ensures v == Values(Batch(propagate, field, zVals, d, wl))
  {
    var tasks := Batch(propagate, field, zVals, d, wl);
    assert forall i :: 0 <= i < |v| ==> v[i] == Values(tasks)[i];
  }

  /** The task that raised e is one of the batch's. */
  predicate RaisedBy(e: Error, tasks: seq<Result<Matrix>>) {
    exists i :: 0 <= i < |tasks| && tasks[i] == Failure(e)
  }

  /** The error compute_rgb_outputs raises: the red, green and blue batches
      run one after the other and the first that fails raises, otherwise
      np.stack raises on a shape mismatch. */
  predicate RgbError(e: Error, propagate: Propagator, r: Matrix, g: Matrix, b: Matrix, zVals: seq<real>, d: real) {
    if !BatchSucceeds(propagate, r, zVals, d, Wavelength(Red)) then
      RaisedBy(e, Batch(propagate, r, zVals, d, Wavelength(Red)))
    else if !BatchSucceeds(propagate, g, zVals, d, Wavelength(Green)) then
      RaisedBy(e, Batch(propagate, g, zVals, d, Wavelength(Green)))
    else if !BatchSucceeds(propagate, b, zVals, d, Wavelength(Blue)) then
      RaisedBy(e, Batch(propagate, b, zVals, d, Wavelength(Blue)))
    else e == ShapeMismatch
  }

  /** compute_rgb_outputs returns: the three batches succeed and their
      results stack index by index. */
  predicate RgbSucceeds(propagate: Propagator, r: Matrix, g: Matrix, b: Matrix, zVals: seq<real>, d: real) {
    && BatchSucceeds(propagate, r, zVals, d, Wavelength(Red))
    && BatchSucceeds(propagate, g, zVals, d, Wavelength(Green))
    && BatchSucceeds(propagate, b, zVals, d, Wavelength(Blue))
    && StackRgbOutputs(Values(Batch(propagate, r, zVals, d, Wavelength(Red))),
                       Values(Batch(propagate, g, zVals, d, Wavelength(Green))),
                       Values(Batch(propagate, b, zVals, d, Wavelength(Blue)))).Success?
  }

  /** compute_rgb_outputs: the red, green and blue batches one after the
      other (an error stops the later ones), then the per-index stacking. */
  method ComputeRgbOutputs(propagate: Propagator, r: Matrix, g: Matrix, b: Matrix, zVals: seq<real>, d: real,
                           orderR: seq<nat>, orderG: seq<nat>, orderB: seq<nat>)
    returns (outcome: Result<RgbOutputs>)
    requires IsPermutation(orderR, |zVals|) && IsPermutation(orderG, |zVals|) && IsPermutation(orderB, |zVals|)
    ensures outcome.Success? <==> RgbSucceeds(propagate, r, g, b, zVals, d)
    ensures outcome.Success? ==>
      && IsBatchOf(Success(outcome.value.rOuts), propagate, r, zVals, d, Wavelength(Red))
      && IsBatchOf(Success(outcome.value.gOuts), propagate, g, zVals, d, Wavelength(Green))
      && IsBatchOf(Success(outcome.value.bOuts), propagate, b, zVals, d, Wavelength(Blue))
      && StackRgbOutputs(outcome.value.rOuts, outcome.value.gOuts, outcome.value.bOuts)
           == Success(outcome.value.rgbOuts)
    ensures outcome.Failure? ==> RgbError(outcome.error, propagate, r, g, b, zVals, d)
    ensures outcome.Success? ==> forall i, x, y, c ::
      (0 <= i < |outcome.value.rgbOuts| && 0 <= x < |outcome.value.rgbOuts[i]|
       && 0 <= y < |outcome.value.rgbOuts[i][x]| && 0 <= c < |outcome.value.rgbOuts[i][x][y]|)
      ==> 0 <= outcome.value.rgbOuts[i][x][y][c] <= 255
  {
    var rRes, rProgress := GatherByIndex(propagate, r, zVals, d, Wavelength(Red), orderR);
    if rRes.Failure? { return Failure(rRes.error); }
    BatchValues(rRes.value, propagate, r, zVals, d, Wavelength(Red));
    var gRes, gProgress := GatherByIndex(propagate, g, zVals, d, Wavelength(Green), orderG);
    if gRes.Failure? { return Failure(gRes.error); }
    BatchValues(gRes.value, propagate, g, zVals, d, Wavelength(Green));
    var bRes, bProgress := GatherByIndex(propagate, b, zVals, d, Wavelength(Blue), orderB);
    if bRes.Failure? { return Failure(bRes.error); }
    BatchValues(bRes.value, propagate, b, zVals, d, Wavelength(Blue));
    var stacked := StackRgbOutputs(rRes.value, gRes.value, bRes.value);
    if stacked.Failure? { return Failure(stacked.error); }
    BatchInUnitRange(rRes, propagate, r, zVals, d, Wavelength(Red));
    BatchInUnitRange(gRes, propagate, g, zVals, d, Wavelength(Green));
    BatchInUnitRange(bRes, propagate, b, zVals, d, Wavelength(Blue));
    StackRgbInByteRange(rRes.value, gRes.value, bRes.value);
    outcome := Success(RgbOutputs(rRes.value, gRes.value, bRes.value, stacked.value));
  }

  // ---------------------------------------------------------------------
  // The two processing modes
  // ---------------------------------------------------------------------

  /** process_grayscale_mode: the crop is computed but its result is
      dropped, so the batch runs on the image as loaded. */
  method ProcessGrayscaleMode(propagate: Propagator, img: Matrix, zVals: seq<real>, d: real,
                              applyButton: bool, order: seq<nat>)
    returns (grayOuts: Option<Result<seq<Matrix>>>)
    requires IsRect(img) && IsPermutation(order, |zVals|)
    ensures grayOuts.Some? <==> applyButton
    ensures grayOuts.Some? ==> IsBatchOf(grayOuts.value, propagate, img, zVals, d, Wavelength(Gray))
  {
    var _ := CropCenterSquare(img);
    grayOuts := None;
    if applyButton {
      var outcome, _ := ComputeGrayscaleOutputs(propagate, img, zVals, d, order);
      grayOuts := Some(outcome);
    }
  }

  /** One pixel of three recombined planes, scaled to bytes. */
  lemma RecombinedPixelBytes(rc: Matrix, gc: Matrix, bc: Matrix, x: int, y: int)
    requires SameShape(rc, gc) && SameShape(rc, bc)
    requires 0 <= x < |rc| && 0 <= y < |rc[x]|
    ensures ToBytes(Recombine(rc, gc, bc).value)[x][y]
            == [ScaleToByte(rc[x][y]), ScaleToByte(gc[x][y]), ScaleToByte(bc[x][y])]
  {
    var stacked := Recombine(rc, gc, bc).value;
    assert stacked[x][y] == [rc[x][y], gc[x][y], bc[x][y]];
  }

  /** The original process_rgb_mode shows: the centred crops of the three
      channels recombined and scaled to bytes. */
  function OriginalBytes(r: Matrix, g: Matrix, b: Matrix): (img: Image3<int>)
    requires IsRect(r) && IsRect(g) && IsRect(b) && SameShape(r, g) && SameShape(r, b)
    ensures SameShape(img, CropCenterSquare(r)) && HasChannels(img, 3)
    ensures forall x, y :: (0 <= x < |img| && 0 <= y < |img[x]|) ==>
      img[x][y] == [ScaleToByte(r[Top(r) + x][Left(r) + y]),
                    ScaleToByte(g[Top(g) + x][Left(g) + y]),
                    ScaleToByte(b[Top(b) + x][Left(b) + y])]
  {
    var rc, gc, bc := CropCenterSquare(r), CropCenterSquare(g), CropCenterSquare(b);
    CropSameShape(r, g);
    CropSameShape(r, b);
    var img := ToBytes(Recombine(rc, gc, bc).value);
    assert forall x, y :: (0 <= x < |img| && 0 <= y < |img[x]|) ==>
      img[x][y] == [ScaleToByte(rc[x][y]), ScaleToByte(gc[x][y]), ScaleToByte(bc[x][y])] by {
      forall x, y | 0 <= x < |img| && 0 <= y < |img[x]|
        ensures img[x][y] == [ScaleToByte(rc[x][y]), ScaleToByte(gc[x][y]), ScaleToByte(bc[x][y])]
      {
        RecombinedPixelBytes(rc, gc, bc, x, y);
      }
    }
    img
  }

  /** What process_rgb_mode leaves behind when it returns: the computed
      outputs (when apply was pressed) and the stacked original it shows. */
  datatype RgbModeState = RgbModeState(outputs: Option<RgbOutputs>, rgbOriginal: Image3<int>)

  /** process_rgb_mode: each channel is replaced by its centred square
      before the batches run and before the original is stacked for
      display. An error in compute_rgb_outputs leaves the function before
      the original is stacked. */
  method ProcessRgbMode(propagate: Propagator, r: Matrix, g: Matrix, b: Matrix, zVals: seq<real>, d: real,
                        applyButton: bool, orderR: seq<nat>, orderG: seq<nat>, orderB: seq<nat>)
    returns (mode: Result<RgbModeState>)
    requires IsRect(r) && IsRect(g) && IsRect(b) && SameShape(r, g) && SameShape(r, b)
    requires IsPermutation(orderR, |zVals|) && IsPermutation(orderG, |zVals|) && IsPermutation(orderB, |zVals|)
    ensures mode.Failure? <==>
      applyButton && !RgbSucceeds(propagate, CropCenterSquare(r), CropCenterSquare(g), CropCenterSquare(b), zVals, d)
    ensures mode.Failure? ==>
      RgbError(mode.error, propagate, CropCenterSquare(r), CropCenterSquare(g), CropCenterSquare(b), zVals, d)
    ensures mode.Success? ==> (mode.value.outputs.Some? <==> applyButton)
    ensures mode.Success? && mode.value.outputs.Some? ==>
      && IsBatchOf(Success(mode.value.outputs.value.rOuts), propagate, CropCenterSquare(r), zVals, d, Wavelength(Red))
      && IsBatchOf(Success(mode.value.outputs.value.gOuts), propagate, CropCenterSquare(g), zVals, d, Wavelength(Green))
      && IsBatchOf(Success(mode.value.outputs.value.bOuts), propagate, CropCenterSquare(b), zVals, d, Wavelength(Blue))
      && StackRgbOutputs(mode.value.outputs.value.rOuts, mode.value.outputs.value.gOuts, mode.value.outputs.value.bOuts)
           == Success(mode.value.outputs.value.rgbOuts)
    ensures mode.Success? ==>
      SameShape(mode.value.rgbOriginal, CropCenterSquare(r)) && HasChannels(mode.value.rgbOriginal, 3)
    ensures mode.Success? ==> forall x, y ::
      (0 <= x < |mode.value.rgbOriginal| && 0 <= y < |mode.value.rgbOriginal[x]|) ==>
      mode.value.rgbOriginal[x][y] == [ScaleToByte(r[Top(r) + x][Left(r) + y]),
                                       ScaleToByte(g[Top(g) + x][Left(g) + y]),
                                       ScaleToByte(b[Top(b) + x][Left(b) + y])]
  {
    var rc, gc, bc := CropCenterSquare(r), CropCenterSquare(g), CropCenterSquare(b);
    var outputs: Option<RgbOutputs> := None;
    if applyButton {
      var computed := ComputeRgbOutputs(propagate, rc, gc, bc, zVals, d, orderR, orderG, orderB);
      if computed.Failure? {
        return Failure(computed.error);
      }
      outputs := Some(computed.value);
    }
    var rgbOriginal := OriginalBytes(r, g, b);
    mode := Success(RgbModeState(outputs, rgbOriginal));
  }

  // ---------------------------------------------------------------------
  // Index guards before a result is read
  // ---------------------------------------------------------------------

  function StartsWith(s: string, prefix: string): bool {
    |prefix| <= |s| && s[..|prefix|] == prefix
  }

  /** The name both headings of display_image_pair_at_z begin with: the
      bare caption for the combined images, "Canal <caption>" for a single
      channel. */
  function PairName(caption: string): (name: string)
    ensures |caption| <= |name| && name[|name| - |caption|..] == caption
    ensures StartsWith(name, "Imagen") || StartsWith(name, "Escala") || StartsWith(name, "Canal ")
    ensures name == caption <==> StartsWith(caption, "Imagen") || StartsWith(caption, "Escala")
    ensures name == caption || name == "Canal " + caption
  {
    if StartsWith(caption, "Imagen") || StartsWith(caption, "Escala") then caption
    else "Canal " + caption
  }

  /** The two headings, for the original and for the result at z. */
  function PairTitles(caption: string, zText: string): (titles: (string, string))
    ensures StartsWith(titles.0, PairName(caption)) && StartsWith(titles.1, PairName(caption))
    ensures |titles.0| >= 11 && titles.0[|titles.0| - 11..] == " (original)"
    ensures |titles.1| >= 9 + |zText| && titles.1[|titles.1| - 9 - |zText|..] == " (z = " + zText + " m)"
  {
    var name := PairName(caption);
    var left, right := name + " (original)", name + (" (z = " + zText + " m)");
    assert left[..|name|] == name && right[..|name|] == name;
    assert left[|left| - 11..] == " (original)";
    assert right[|right| - 9 - |zText|..] == " (z = " + zText + " m)";
    (left, right)
  }

  /** What display_image_pair_at_z shows: two headings, and the result at
      idx only when there is a list long enough to hold it. */
  datatype PairView<M> = PairView(leftTitle: string, rightTitle: string, shown: Option<M>)

  /** z_vals[idx] is read for the heading before any guard, so an idx past
      the distances raises IndexError. */
  function DisplayImagePairAtZ<M>(caption: string, outs: Option<seq<M>>, zVals: seq<real>, idx: nat,
                                  zText: real -> string): (v: Result<PairView<M>>)
    ensures v.Failure? <==> idx >= |zVals|
    ensures v.Failure? ==> v.error == IndexOutOfRange
    ensures v.Success? ==> (v.value.shown.Some? <==> outs.Some? && idx < |outs.value|)
    ensures v.Success? && v.value.shown.Some? ==> v.value.shown.value == outs.value[idx]
    ensures v.Success? ==> (v.value.leftTitle, v.value.rightTitle) == PairTitles(caption, zText(zVals[idx]))
  {
    if idx >= |zVals| then Failure(IndexOutOfRange)
    else
      var titles := PairTitles(caption, zText(zVals[idx]));
      var shown := if outs.Some? && idx < |outs.value| then Some(outs.value[idx]) else None;
      Success(PairView(titles.0, titles.1, shown))
  }

  /** Appending a blank never changes a strip. */
  lemma StripBlankSuffix(s: string)
    ensures Strip(s + " ") == Strip(s)
  {
    var t := s + " ";
    var r, a := Strip(s), Leading(s);
    assert IsSpace(t[|s|]);
    assert forall k :: 0 <= k < |s| ==> t[k] == s[k];
    StripUnique(t, a, a + |r|);
    assert t[a..a + |r|] == s[a..a + |r|];
  }

  /** A heading "<name> (<rest>" with no parenthesis in the name splits
      into the stripped name and the parenthesised, stripped rest. */
  lemma HeadingSplit(name: string, rest: string)
    requires '(' !in name && ')' in rest
    ensures SplitTitle(name + " (" + rest) == TitleLines(Strip(name), "(" + Strip(rest))
  {
    var prefix := name + " ";
    assert '(' !in prefix;
    assert name + " (" + rest == prefix + "(" + rest;
    SplitTitleAt(prefix, rest);
    StripBlankSuffix(name);
  }

  /** The same, for a rest that has no whitespace at its ends. */
  lemma TrimmedHeadingSplit(name: string, rest: string)
    requires '(' !in name && ')' in rest
    requires !IsSpace(rest[0]) && !IsSpace(rest[|rest| - 1])
    ensures SplitTitle(name + " (" + rest) == TitleLines(Strip(name), "(" + rest)
  {
    HeadingSplit(name, rest);
    StripTrimmed(rest);
  }

  /** The left heading splits, in render_image_section, into the name on
      line 1 and "(original)" on line 2. */
  lemma OriginalTitleSplit(caption: string, zText: string)
    requires '(' !in caption
    ensures SplitTitle(PairTitles(caption, zText).0) == TitleLines(Strip(PairName(caption)), "(original)")
  {
    var rest := "original)";
    assert "(" + rest == "(original)";
    assert PairTitles(caption, zText).0 == PairName(caption) + " (" + rest;
    assert rest[8] == ')' && !IsSpace(rest[0]) && !IsSpace(rest[8]);
    TrimmedHeadingSplit(PairName(caption), rest);
  }

  /** The right heading splits into the name on line 1 and the distance in
      parentheses on line 2. */
  lemma ResultTitleSplit(caption: string, zText: string)
    requires '(' !in caption
    ensures SplitTitle(PairTitles(caption, zText).1)
      == TitleLines(Strip(PairName(caption)), "(" + Strip("z = " + zText + " m)"))
  {
    var rest := "z = " + zText + " m)";
    assert PairTitles(caption, zText).1 == PairName(caption) + " (" + rest;
    assert rest[|rest| - 1] == ')';
    HeadingSplit(PairName(caption), rest);
  }

  /** z_vals.index(z): the first position holding z. */
  function IndexOf(s: seq<real>, x: real): (i: nat)
    requires x in s
    ensures i < |s| && s[i] == x && x !in s[..i]
  {
    if s[0] == x then 0
    else
      var k := IndexOf(s[1..], x);
      assert s[..k + 1] == [s[0]] + s[1..][..k];
      k + 1
  }

  /** Lines 164-167 of process_image_export: `if outs and idx < len(outs)`. */
  function SelectExportImage<M>(outs: Option<seq<M>>, idx: nat): (img: Option<M>)
    ensures img.Some? <==> outs.Some? && |outs.value| > 0 && idx < |outs.value|
    ensures img.Some? ==> img.value == outs.value[idx]
  {
    if outs.Some? && |outs.value| > 0 && idx < |outs.value| then Some(outs.value[idx]) else None
  }

  /** process_image_export: nothing without distances; otherwise the result
      at the first position of the chosen z, when the list holds one. */
  function ProcessImageExport<M>(outs: Option<seq<M>>, zVals: seq<real>, z: real): (img: Option<M>)
    requires zVals != [] ==> z in zVals
    ensures zVals == [] ==> img.None?
    ensures zVals != [] ==>
      (img.Some? <==> outs.Some? && |outs.value| > 0 && IndexOf(zVals, z) < |outs.value|)
    ensures img.Some? ==> zVals != [] && img.value == outs.value[IndexOf(zVals, z)]
    ensures img.Some? ==> exists i :: (0 <= i < |zVals| && zVals[i] == z && outs.Some? && i < |outs.value|
                                       && img.value == outs.value[i])
  {
    if zVals == [] then None
    else
      var idx := IndexOf(zVals, z);
      SelectExportImage(outs, idx)
  }

  /** The export guard and the display guard admit the same reads. */
  lemma ExportGuardMatchesDisplay<M>(caption: string, outs: Option<seq<M>>, zVals: seq<real>, idx: nat,
                                     zText: real -> string)
    requires idx < |zVals|
    ensures SelectExportImage(outs, idx) == DisplayImagePairAtZ(caption, outs, zVals, idx, zText).value.shown
  {
  }

  /** The channels offered for export and the session key of each. */
  datatype ExportChannel = Grises | Rgb | Rojo | Verde | Azul

  function ChannelKey(c: ExportChannel): (key: string)
    ensures key in ResultKeys && key != "z_vals"
  {
    match c
    case Grises => "gray_outs"
    case Rgb => "rgb_outs"
    case Rojo => "r_outs"
    case Verde => "g_outs"
    case Azul => "b_outs"
  }

  /** Each export channel reads its own session key. */
  lemma ChannelKeyInjective(c: ExportChannel, d: ExportChannel)
    ensures ChannelKey(c) == ChannelKey(d) <==> c == d
  {
  }

  /** After clear_previous_results no channel has a result left to export. */
  lemma ClearedSessionExportsNothing<V>(m: map<string, V>, c: ExportChannel)
    ensures ChannelKey(c) !in WithoutResults(m)
  {
    assert ChannelKey(c) in ResultKeys;
  }

  // ---------------------------------------------------------------------
  // create_channel_zip
  // ---------------------------------------------------------------------

  /** str.replace(from, to) for one character. */
  function ReplaceChar(s: string, from: char, to: char): (r: string)
    ensures |r| == |s|
    ensures forall k :: 0 <= k < |s| ==> r[k] == (if s[k] == from then to else s[k])
  {
    if |s| == 0 then [] else [if s[0] == from then to else s[0]] + ReplaceChar(s[1..], from, to)
  }

  /** The entry name f"z_{str(z).replace('.', '-')}.png". */
  function ZipName(zText: string): (name: string)
    ensures |name| == |zText| + 6
    ensures name[..2] == "z_" && name[|name| - 4..] == ".png"
    ensures '.' !in name[2..|name| - 4]
    ensures forall k :: 0 <= k < |zText| ==> name[k + 2] == (if zText[k] == '.' then '-' else zText[k])
  {
    var stem := ReplaceChar(zText, '.', '-');
    var name := "z_" + stem + ".png";
    assert name[2..|name| - 4] == stem;
    name
  }

  datatype ZipEntry<B> = ZipEntry(name: string, data: B)

  /** create_channel_zip: None when there are no results or no distances;
      otherwise one entry per result, named after the distance at the same
      index (an IndexError if the results outnumber the distances). */
  method CreateChannelZip<M, B>(outs: Option<seq<M>>, zVals: seq<real>, encode: M -> B, zText: real -> string)
    returns (zip: Result<Option<seq<ZipEntry<B>>>>)
    ensures zip == Success(None) <==> outs.None? || |outs.value| == 0 || |zVals| == 0
    ensures zip.Failure? <==> outs.Some? && 0 < |zVals| < |outs.value|
    ensures zip.Failure? ==> zip.error == IndexOutOfRange
    ensures zip.Success? && zip.value.Some? ==>
      |zip.value.value| == |outs.value| && forall i :: 0 <= i < |outs.value| ==>
        zip.value.value[i] == ZipEntry(ZipName(zText(zVals[i])), encode(outs.value[i]))
  {
    if outs.None? || |outs.value| == 0 || |zVals| == 0 {
      return Success(None);
    }
    var images := outs.value;
    var entries: seq<ZipEntry<B>> := [];
    for i := 0 to |images|
      invariant |entries| == i <= |zVals|
      invariant forall j :: 0 <= j < i ==> entries[j] == ZipEntry(ZipName(zText(zVals[j])), encode(images[j]))
    {
      if i >= |zVals| {
        return Failure(IndexOutOfRange);
      }
      entries := entries + [ZipEntry(ZipName(zText(zVals[i])), encode(images[i]))];
    }
    zip := Success(Some(entries));
  }
}
