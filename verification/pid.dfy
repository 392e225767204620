/** The PID (proportional-integral-derivative) controller that regulates a
    bitrate from a lag measurement.

    The source has two textually identical implementations, one over `f32`
    and one over `f64`; both are modelled once over `real`, where
    not-a-number cannot arise. The integral window is a double-ended queue
    whose FRONT is index 0 of the sequence here.
 */
module PidController {
  import opened Outcomes

  /** Why `adjust` stops the process instead of returning. */
  datatype PidFault =
    | SizeUnderflow    // `integral_size - 1` computed on a `usize` holding 0
    | InvertedBounds   // `clamp(min, max)` called with `min > max`

  datatype Controller = Controller(
    proportion: real,
    integral: seq<real>,
    integralSize: nat,
    derivative: real,
    derivativePrevious: real,
    current: real,
    weightProportion: real,
    weightIntegral: real,
    weightDerivative: real,
    min: real,
    max: real)

  /** The controller after one `adjust` together with the value it returned. */
  datatype Adjusted = Adjusted(controller: Controller, output: real)

  function Min(a: nat, b: nat): nat {
    if a <= b then a else b
  }

  /** `n` zeros, as `vec![0.0; n]` builds them. */
  function Zeros(n: nat): (z: seq<real>)
    ensures |z| == n
    ensures forall i :: 0 <= i < n ==> z[i] == 0.0
  {
    if n == 0 then [] else [0.0] + Zeros(n - 1)
  }

  function Sum(s: seq<real>): real {
    if |s| == 0 then 0.0 else s[0] + Sum(s[1..])
  }

  function Mean(s: seq<real>): real
    requires |s| > 0
  {
    Sum(s) / (|s| as real)
  }

  /** The bounds an output is clamped to, and what clamping does to `x`. */
  ghost predicate ClampedFrom(x: real, lo: real, hi: real, r: real) {
    && lo <= r <= hi
    && (lo <= x <= hi ==> r == x)
    && (x < lo ==> r == lo)
    && (x > hi ==> r == hi)
  }

  /** `f32::clamp`; the source panics when `lo > hi`, so callers check that first. */
  function Clamp(x: real, lo: real, hi: real): (r: real)
    requires lo <= hi
    ensures ClampedFrom(x, lo, hi, r)
  {
    if x < lo then lo else if x > hi then hi else x
  }

  /** Builds a controller. Nothing is checked or clamped: `current` is
      `startAt` even when it lies outside `[min, max]`. */
  function New(min: real, max: real,
               weightProportion: real, weightIntegral: real, weightDerivative: real,
               integralSize: nat,
               startAt: real, startProportion: real, startDerivative: real): (c: Controller)
    ensures |c.integral| == integralSize
    ensures forall i :: 0 <= i < |c.integral| ==> c.integral[i] == 0.0
    ensures c.integralSize == integralSize
    ensures c.current == startAt
    ensures c.proportion == startProportion
    ensures c.derivative == startDerivative && c.derivativePrevious == startDerivative
    ensures c.min == min && c.max == max
    ensures c.weightProportion == weightProportion
    ensures c.weightIntegral == weightIntegral
    ensures c.weightDerivative == weightDerivative
  {
    Controller(startProportion, Zeros(integralSize), integralSize,
               startDerivative, startDerivative, startAt,
               weightProportion, weightIntegral, weightDerivative, min, max)
  }

  // ---------------------------------------------------------------------
  // The integral window
  // ---------------------------------------------------------------------

  /** The first loop of `adjust`: `pop_back` while the window is longer than `keep`. */
  function TrimBack(w: seq<real>, keep: nat): seq<real>
    decreases |w|
  {
    if keep < |w| then TrimBack(w[..|w| - 1], keep) else w
  }

  /** The second loop of `adjust`: `push_front(0)` while the window is shorter than `floor`. */
  function PadFront(w: seq<real>, floor: nat): seq<real>
    decreases floor - |w|
  {
    if floor > |w| then PadFront([0.0] + w, floor) else w
  }

  lemma {:induction false} TrimBackKeepsPrefix(w: seq<real>, keep: nat)
    ensures TrimBack(w, keep) == w[..Min(|w|, keep)]
    decreases |w|
  {
    if keep < |w| {
      TrimBackKeepsPrefix(w[..|w| - 1], keep);
      assert w[..|w| - 1][..Min(|w| - 1, keep)] == w[..Min(|w|, keep)];
    }
  }

  /** How many zeros the second loop puts in front of a window of length `len`. */
  function PadCount(len: nat, floor: nat): nat {
    if floor > len then floor - len else 0
  }

  lemma {:induction false} PadFrontPrependsZeros(w: seq<real>, floor: nat)
    ensures PadFront(w, floor) == Zeros(PadCount(|w|, floor)) + w
    decreases floor - |w|
  {
    if floor > |w| {
      PadFrontPrependsZeros([0.0] + w, floor);
      assert Zeros(PadCount(|w|, floor)) == Zeros(PadCount(|w| + 1, floor)) + [0.0];
    }
  }

  /** The three window steps: trim the back down to `keep`, pad the front
      up to `floor`, then push the newest proportion at the front. The
      result is the new proportion, then the padding zeros, then the oldest
      `keep` entries of the old window kept in order. */
  function UpdateWindow(w: seq<real>, keep: nat, floor: nat, p: real): (r: seq<real>)
    ensures r == [p] + Zeros(PadCount(Min(|w|, keep), floor)) + w[..Min(|w|, keep)]
    ensures |r| == 1 + (if Min(|w|, keep) < floor then floor else Min(|w|, keep))
    ensures r[0] == p
  {
    TrimBackKeepsPrefix(w, keep);
    PadFrontPrependsZeros(TrimBack(w, keep), floor);
    [p] + PadFront(TrimBack(w, keep), floor)
  }

  // ---------------------------------------------------------------------
  // One control step
  // ---------------------------------------------------------------------

  /** Every field `adjust` leaves alone. */
  ghost predicate SameSettings(c: Controller, d: Controller) {
    && d.min == c.min && d.max == c.max
    && d.weightProportion == c.weightProportion
    && d.weightIntegral == c.weightIntegral
    && d.weightDerivative == c.weightDerivative
    && d.integralSize == c.integralSize
  }

  /** The weighted sum of the three terms that `adjust` adds to `current`
      before clamping. */
  function Correction(c: Controller, proportion: real, integral: seq<real>, derivative: real): real
    requires |integral| > 0
  {
    proportion * c.weightProportion
    + Mean(integral) * c.weightIntegral
    + derivative * c.weightDerivative
  }

  /** The part of `adjust` after the window update: the derivative
      recurrence, the weighted sum and the clamp. */
  function Settle(c: Controller, proportion: real, integral: seq<real>): (r: Outcome<Adjusted, PidFault>)
    requires |integral| > 0
    ensures r.Panic? <==> c.min > c.max
    ensures r.Panic? ==> r.reason == InvertedBounds
    ensures r.Ok? ==>
      var d := r.value.controller;
      && r.value.output == d.current
      && d.proportion == proportion
      && d.integral == integral
      && d.derivativePrevious == c.derivative
      && d.derivative == proportion - c.derivativePrevious
      && ClampedFrom(c.current + Correction(c, proportion, integral, d.derivative),
                     c.min, c.max, d.current)
      && SameSettings(c, d)
  {
    var derivative := proportion - c.derivativePrevious;
    var result := Correction(c, proportion, integral, derivative);
    if c.min > c.max then
      Panic(InvertedBounds)
    else
      var current := Clamp(c.current + result, c.min, c.max);
      var d := c.(proportion := proportion,
                  integral := integral,
                  derivativePrevious := c.derivative,
                  derivative := derivative,
                  current := current);
      Ok(Adjusted(d, current))
  }

  /** `adjust(value)` as written: the window is trimmed to `integral_size`
      entries, padded to `integral_size - 1`, then grown by one. */
  function Adjust(c: Controller, value: real): (r: Outcome<Adjusted, PidFault>)
    ensures r.Panic? <==> c.integralSize == 0 || c.min > c.max
    ensures c.integralSize == 0 ==> r == Panic(SizeUnderflow)
    ensures r.Ok? ==>
      var d := r.value.controller;
      && r.value.output == d.current
      && d.min <= d.current <= d.max
      && d.proportion == value - c.current
      && |d.integral| == (if |c.integral| >= c.integralSize then c.integralSize + 1 else c.integralSize)
      && d.integral[0] == d.proportion
      && d.integral[1..] == Zeros(PadCount(Min(|c.integral|, c.integralSize), c.integralSize - 1))
                            + c.integral[..Min(|c.integral|, c.integralSize)]
      && d.derivativePrevious == c.derivative
      && d.derivative == d.proportion - c.derivativePrevious
      && ClampedFrom(c.current + Correction(c, d.proportion, d.integral, d.derivative),
                     c.min, c.max, d.current)
      && SameSettings(c, d)
  {
    var proportion := value - c.current;
    if c.integralSize == 0 then
      Panic(SizeUnderflow)
    else
      var integral := UpdateWindow(c.integral, c.integralSize, c.integralSize - 1, proportion);
      assert integral[1..] == Zeros(PadCount(Min(|c.integral|, c.integralSize), c.integralSize - 1))
                              + c.integral[..Min(|c.integral|, c.integralSize)];
      Settle(c, proportion, integral)
  }

  /** `adjust` with the window kept at exactly `integral_size` entries, as
      the pad-to-`integral_size - 1`-then-push shape of the code intends:
      the first loop trims to `integral_size - 1` instead. */
  function AdjustCorrected(c: Controller, value: real): (r: Outcome<Adjusted, PidFault>)
    ensures r.Panic? <==> c.integralSize == 0 || c.min > c.max
    ensures r.Ok? ==>
      var d := r.value.controller;
      && r.value.output == d.current
      && d.min <= d.current <= d.max
      && d.proportion == value - c.current
      && |d.integral| == c.integralSize
      && d.integral == [d.proportion]
                       + Zeros(PadCount(Min(|c.integral|, c.integralSize - 1), c.integralSize - 1))
                       + c.integral[..Min(|c.integral|, c.integralSize - 1)]
      && d.derivativePrevious == c.derivative
      && d.derivative == d.proportion - c.derivativePrevious
      && ClampedFrom(c.current + Correction(c, d.proportion, d.integral, d.derivative),
                     c.min, c.max, d.current)
      && SameSettings(c, d)
  {
    var proportion := value - c.current;
    if c.integralSize == 0 then
      Panic(SizeUnderflow)
    else
      var integral := UpdateWindow(c.integral, c.integralSize - 1, c.integralSize - 1, proportion);
      Settle(c, proportion, integral)
  }

  /** A controller whose `adjust` cannot panic: the size subtraction does
      not underflow and `clamp` gets ordered bounds. */
  ghost predicate CanAdjust(c: Controller) {
    c.integralSize >= 1 && c.min <= c.max
  }

  /** A controller that can adjust, with a window at least `integral_size`
      long, as `new` leaves it. */
  ghost predicate Primed(c: Controller) {
    CanAdjust(c) && |c.integral| >= c.integralSize
  }

  /** Repeated `adjust` calls: the final controller and every returned
      value. Whenever the controller can adjust at all, whatever its window
      length, every call succeeds, every output lies in `[min, max]` and the
      last output is the stored `current`; after one call the window is at
      least `integral_size` long. From a primed controller, or after two
      calls from any other, the window holds exactly `integral_size + 1`
      entries. */
  function Run(c: Controller, values: seq<real>): (r: Outcome<(Controller, seq<real>), PidFault>)
    ensures CanAdjust(c) ==>
      && r.Ok?
      && |r.value.1| == |values|
      && (forall i :: 0 <= i < |values| ==> c.min <= r.value.1[i] <= c.max)
      && (|values| > 0 ==> r.value.1[|values| - 1] == r.value.0.current)
      && (|values| > 0 ==> Primed(r.value.0))
      && CanAdjust(r.value.0)
      && SameSettings(c, r.value.0)
    ensures Primed(c) ==> r.Ok? && Primed(r.value.0)
    ensures CanAdjust(c) && ((Primed(c) && |values| > 0) || |values| >= 2) ==>
      r.Ok? && |r.value.0.integral| == c.integralSize + 1
    decreases |values|
  {
    if |values| == 0 then
      Ok((c, []))
    else
      var a :- Adjust(c, values[0]);
      var rest :- Run(a.controller, values[1..]);
      Ok((rest.0, [a.output] + rest.1))
  }

  // ---------------------------------------------------------------------
  // Properties across calls
  // ---------------------------------------------------------------------

  /** From construction with `integral_size >= 1` and `min <= max`, any
      non-empty series of `adjust` calls keeps the window at
      `integral_size + 1` entries and every output inside the bounds, even
      when `start_at` lies outside them. */
  lemma RunFromNew(min: real, max: real, wp: real, wi: real, wd: real,
                   integralSize: nat, startAt: real, startProportion: real, startDerivative: real,
                   values: seq<real>)
    requires integralSize >= 1 && min <= max
    requires |values| > 0
    ensures var r := Run(New(min, max, wp, wi, wd, integralSize, startAt, startProportion, startDerivative), values);
      && r.Ok?
      && |r.value.0.integral| == integralSize + 1
      && min <= r.value.0.current <= max
      && (forall i :: 0 <= i < |r.value.1| ==> min <= r.value.1[i] <= max)
  {
    var c := New(min, max, wp, wi, wd, integralSize, startAt, startProportion, startDerivative);
    assert Primed(c);
  }

  lemma {:induction false} SumOfZeros(s: seq<real>)
    requires forall i :: 0 <= i < |s| ==> s[i] == 0.0
    ensures Sum(s) == 0.0
  {
    if |s| > 0 {
      SumOfZeros(s[1..]);
    }
  }

  /** A controller at rest stays at rest: when the target equals the
      current value, the window holds only zeros and the older derivative
      is zero, `adjust` returns the current value unchanged. */
  lemma AtRestStaysPut(c: Controller)
    requires c.integralSize >= 1 && c.min <= c.current <= c.max
    requires forall i :: 0 <= i < |c.integral| ==> c.integral[i] == 0.0
    requires c.derivativePrevious == 0.0
    ensures Adjust(c, c.current).Ok?
    ensures Adjust(c, c.current).value.output == c.current
  {
    var d := Adjust(c, c.current).value.controller;
    assert d.proportion == 0.0 && d.derivative == 0.0;
    assert forall i :: 1 <= i < |d.integral| ==> d.integral[i] == d.integral[1..][i - 1];
    CorrectionOfZeros(c, d.integral);
  }

  lemma CorrectionOfZeros(c: Controller, w: seq<real>)
    requires |w| > 0
    requires forall i :: 0 <= i < |w| ==> w[i] == 0.0
    ensures Correction(c, 0.0, w, 0.0) == 0.0
  {
    SumOfZeros(w);
  }

  lemma ZerosPrefix(n: nat, k: nat)
    requires k <= n
    ensures Zeros(n)[..k] == Zeros(k)
  {
  }

  /** A window holding `p` followed by `k` zeros averages to `p / (k + 1)`. */
  lemma MeanOfOneHot(p: real, k: nat)
    ensures Mean([p] + Zeros(k)) == p / ((k + 1) as real)
  {
    SumOfZeros(Zeros(k));
    assert ([p] + Zeros(k))[1..] == Zeros(k);
  }

  /** The first `adjust` after `new`: the window is the new proportion
      followed by all `integral_size` zeros of the fresh window. */
  lemma FirstWindowAfterNew(c: Controller, value: real)
    requires c.integralSize >= 1 && c.min <= c.max
    requires c.integral == Zeros(c.integralSize)
    ensures Adjust(c, value).Ok?
    ensures Adjust(c, value).value.controller.integral == [value - c.current] + Zeros(c.integralSize)
    ensures Mean(Adjust(c, value).value.controller.integral) == (value - c.current) / ((c.integralSize + 1) as real)
  {
    var d := Adjust(c, value).value.controller;
    assert Zeros(c.integralSize)[..c.integralSize] == Zeros(c.integralSize);
    assert d.integral == [d.integral[0]] + d.integral[1..];
    MeanOfOneHot(value - c.current, c.integralSize);
  }

  /** The first output after `new`, in closed form: the error `e` against
      `start_at` enters once weighted, once averaged over the
      `integral_size + 1` window entries, and once as a derivative against
      `start_derivative`. */
  lemma FirstStepAfterNew(min: real, max: real, wp: real, wi: real, wd: real,
                          n: nat, startAt: real, startProportion: real, startDerivative: real,
                          value: real, unclamped: real)
    requires n >= 1 && min <= max
    requires unclamped == startAt
                          + (value - startAt) * wp
                          + ((value - startAt) / ((n + 1) as real)) * wi
                          + (value - startAt - startDerivative) * wd
    ensures var r := Adjust(New(min, max, wp, wi, wd, n, startAt, startProportion, startDerivative), value);
      && r.Ok?
      && |r.value.controller.integral| == n + 1
      && ClampedFrom(unclamped, min, max, r.value.output)
  {
    var c := New(min, max, wp, wi, wd, n, startAt, startProportion, startDerivative);
    assert c.integral == Zeros(n);
    FirstWindowAfterNew(c, value);
  }

  /** The source's own test values. */
  ghost predicate SourceTestSetup(min: real, max: real, wp: real, wi: real, wd: real,
                                  n: nat, startAt: real, startProportion: real, startDerivative: real)
  {
    && min == 500.0 && max == 2500.0
    && wp == 0.02 && wi == 0.15 && wd == 0.01
    && n == 4
    && startAt == 500.0 && startProportion == 0.0 && startDerivative == 0.0
  }

  /** The pre-clamp sums of the first step on the source's test values,
      with the window averaged over five and over four entries. */
  lemma SourceTestFirstSum(min: real, max: real, wp: real, wi: real, wd: real,
                           n: nat, startAt: real, startProportion: real, startDerivative: real)
    requires SourceTestSetup(min, max, wp, wi, wd, n, startAt, startProportion, startDerivative)
    ensures startAt + (1000.0 - startAt) * wp + ((1000.0 - startAt) / ((n + 1) as real)) * wi
            + (1000.0 - startAt - startDerivative) * wd == 530.0
    ensures startAt + (1000.0 - startAt) * wp + ((1000.0 - startAt) / (n as real)) * wi
            + (1000.0 - startAt - startDerivative) * wd == 533.75
  {
  }

  /** The first step of the source's own test: `new(500, 2500, 0.02, 0.15,
      0.01, 4, 500, 0, 0)` then `adjust(1000)`. The window ends up with five
      entries, not four, so the mean is 500/5 and the first output is 530. */
  lemma FirstStepOfSourceTest(min: real, max: real, wp: real, wi: real, wd: real,
                              n: nat, startAt: real, startProportion: real, startDerivative: real)
    requires SourceTestSetup(min, max, wp, wi, wd, n, startAt, startProportion, startDerivative)
    ensures var r := Adjust(New(min, max, wp, wi, wd, n, startAt, startProportion, startDerivative), 1000.0);
      && r.Ok?
      && |r.value.controller.integral| == 5
      && r.value.output == 530.0
  {
    SourceTestFirstSum(min, max, wp, wi, wd, n, startAt, startProportion, startDerivative);
    FirstStepAfterNew(min, max, wp, wi, wd, n, startAt, startProportion, startDerivative, 1000.0, 530.0);
  }

  /** The first output after `new` with the corrected window: the error is
      averaged over `integral_size` entries. */
  lemma FirstStepAfterNewCorrected(min: real, max: real, wp: real, wi: real, wd: real,
                                   n: nat, startAt: real, startProportion: real, startDerivative: real,
                                   value: real, unclamped: real)
    requires n >= 1 && min <= max
    requires unclamped == startAt
                          + (value - startAt) * wp
                          + ((value - startAt) / (n as real)) * wi
                          + (value - startAt - startDerivative) * wd
    ensures var r := AdjustCorrected(New(min, max, wp, wi, wd, n, startAt, startProportion, startDerivative), value);
      && r.Ok?
      && |r.value.controller.integral| == n
      && ClampedFrom(unclamped, min, max, r.value.output)
  {
    var c := New(min, max, wp, wi, wd, n, startAt, startProportion, startDerivative);
    var d := AdjustCorrected(c, value).value.controller;
    assert c.integral == Zeros(n);
    ZerosPrefix(n, n - 1);
    assert d.integral == [value - startAt] + Zeros(n - 1);
    MeanOfOneHot(value - startAt, n - 1);
  }

  /** The same step with the corrected window: four entries, mean 500/4,
      first output 533.75. */
  lemma FirstStepCorrected(min: real, max: real, wp: real, wi: real, wd: real,
                           n: nat, startAt: real, startProportion: real, startDerivative: real)
    requires SourceTestSetup(min, max, wp, wi, wd, n, startAt, startProportion, startDerivative)
    ensures var r := AdjustCorrected(New(min, max, wp, wi, wd, n, startAt, startProportion, startDerivative), 1000.0);
      && r.Ok?
      && |r.value.controller.integral| == 4
      && r.value.output == 533.75
  {
    SourceTestFirstSum(min, max, wp, wi, wd, n, startAt, startProportion, startDerivative);
    FirstStepAfterNewCorrected(min, max, wp, wi, wd, n, startAt, startProportion, startDerivative, 1000.0, 533.75);
  }
}
