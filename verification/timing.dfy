/**
  The timing arithmetic of the multi-image path of backend/createVideoFromScenes.js:
  how many images a scene of `d` seconds uses, how `d` is split among
  them, and where each one-second cross-fade starts. Durations are exact
  reals; floating-point rounding is not modelled.
*/
module Timing {

  /** `minSec`: the shortest time an image is meant to stay on screen. */
  const MinSec: real := 3.0
  /** The `duration=1` of every `xfade`. */
  const FadeDuration: real := 1.0

  function Floor(x: real): int {
    x.Floor
  }

  function Max(a: real, b: real): real {
    if a >= b then a else b
  }

  /** `Math.max(1, Math.min(Math.floor(d / minSec), n))`: the number of
      images a scene of `d` seconds with `n` existing images uses. */
  function Slots(d: real, n: nat): (k: nat)
    ensures n >= 1 ==> 1 <= k <= n
    ensures k >= 2 ==> k as real * MinSec <= d
    ensures k == 1 <==> (n <= 1 || d < 2.0 * MinSec)
    ensures n >= 1 ==> k == n || (k as real + 1.0) * MinSec > d
  {
    var fit := Floor(d / MinSec);
    var slots := if fit < n then fit else n;
    if slots < 1 then 1 else slots
  }

  /** The sum of a list of durations. */
  function Sum(xs: seq<real>): real {
    if |xs| == 0 then 0.0 else Sum(xs[..|xs| - 1]) + xs[|xs| - 1]
  }

  lemma {:induction false} SumCons(x: real, xs: seq<real>)
    ensures Sum([x] + xs) == x + Sum(xs)
    decreases |xs|
  {
    if |xs| > 0 {
      assert ([x] + xs)[..|[x] + xs| - 1] == [x] + xs[..|xs| - 1];
      SumCons(x, xs[..|xs| - 1]);
    } else {
      assert ([x] + xs)[..0] == [];
    }
  }

  lemma {:induction false} ShareTimesCount(d: real, k: nat)
    requires k >= 1
    ensures (k as real) * (d / k as real) == d
  {
  }

  lemma {:induction false} OneMoreShare(i: nat, share: real)
    ensures (i as real) * share + share == ((i + 1) as real) * share
  {
  }

  /** The loop that fills `segDur`, from index `i` on, with `acc` the
      time already handed out: every image but the last gets `d / k`, the
      last gets what is left. */
  function SegmentsFrom(d: real, k: nat, i: nat, acc: real): (r: seq<real>)
    requires 1 <= k && i <= k
    requires acc == (i as real) * (d / k as real)
    ensures |r| == k - i
    ensures acc + Sum(r) == d
    ensures forall j :: 0 <= j < |r| ==> r[j] == d / k as real
    decreases k - i
  {
    if i == k then
      assert acc == (k as real) * (d / k as real);
      ShareTimesCount(d, k);
      []
    else
      var x := if i == k - 1 then d - acc else d / k as real;
      ShareTimesCount(d, k);
      OneMoreShare(i, d / k as real);
      var rest := SegmentsFrom(d, k, i + 1, acc + x);
      SumCons(x, rest);
      [x] + rest
  }

  /** `segDur` for `k` images and `d` seconds: `k` shares that add up to
      exactly `d`, every one `d / k` (the last one, `d` minus the others,
      is `d / k` too in exact arithmetic). */
  function Segments(d: real, k: nat): (r: seq<real>)
    requires k >= 1
    ensures |r| == k
    ensures Sum(r) == d
    ensures forall j :: 0 <= j < k ==> r[j] == d / k as real
  {
    SegmentsFrom(d, k, 0, 0.0)
  }

  /** With at most `d / minSec` images, every image stays on screen for at
      least `minSec` seconds. */
  lemma {:induction false} SegmentsAtLeastMinSec(d: real, n: nat)
    requires Slots(d, n) >= 2
    ensures forall j :: 0 <= j < Slots(d, n) ==> Segments(d, Slots(d, n))[j] >= MinSec
  {
    var k := Slots(d, n);
    ShareAtLeast(d, k as real, MinSec);
  }

  lemma {:induction false} ShareAtLeast(d: real, kr: real, m: real)
    requires kr > 0.0 && kr * m <= d
    ensures d / kr >= m
  {
    assert kr * (d / kr) == d;
  }

  /** The xfade loop from transition `i` on, `offset` being the end of the
      first `i` segments: each transition starts one fade-length before
      that point, but not before 0. */
  function OffsetsFrom(segs: seq<real>, i: nat, offset: real): (r: seq<real>)
    requires 1 <= i <= |segs|
    ensures |r| == |segs| - i
    decreases |segs| - i
  {
    if i == |segs| then []
    else [Max(offset - FadeDuration, 0.0)] + OffsetsFrom(segs, i + 1, offset + segs[i])
  }

  /** The offsets of the `k - 1` transitions between `k` segments. */
  function Offsets(segs: seq<real>): (r: seq<real>)
    requires |segs| >= 1
    ensures |r| == |segs| - 1
  {
    OffsetsFrom(segs, 1, segs[0])
  }

  lemma {:induction false} OffsetsFromClosedForm(segs: seq<real>, i: nat, offset: real)
    requires 1 <= i <= |segs|
    requires offset == Sum(segs[..i])
    ensures forall t :: 0 <= t < |segs| - i ==>
      OffsetsFrom(segs, i, offset)[t] == Max(Sum(segs[..i + t]) - FadeDuration, 0.0)
    decreases |segs| - i
  {
    if i < |segs| {
      assert segs[..i + 1][..i] == segs[..i];
      OffsetsFromClosedForm(segs, i + 1, offset + segs[i]);
    }
  }

  /** Transition `t` (between image `t` and image `t + 1`, counted from 0)
      starts at the end of the first `t + 1` segments less the fade
      length, clamped at 0. */
  lemma {:induction false} OffsetsClosedForm(segs: seq<real>)
    requires |segs| >= 1
    ensures forall t :: 0 <= t < |segs| - 1 ==>
      Offsets(segs)[t] == Max(Sum(segs[..t + 1]) - FadeDuration, 0.0)
  {
    assert segs[..1][..0] == [];
    OffsetsFromClosedForm(segs, 1, segs[0]);
  }

  lemma {:induction false} SumEqualShares(xs: seq<real>, share: real)
    requires forall j :: 0 <= j < |xs| ==> xs[j] == share
    ensures Sum(xs) == (|xs| as real) * share
  {
    if |xs| > 0 {
      SumEqualShares(xs[..|xs| - 1], share);
    }
  }

  lemma {:induction false} ScaledShare(t: nat, share: real)
    requires share >= 0.0
    ensures (t + 1) as real * share >= share
    ensures (t + 2) as real * share == (t + 1) as real * share + share
  {
    assert (t + 1) as real * share == (t as real) * share + share;
  }

  /** With equal shares of at least `minSec`, transition `t` starts at
      `(t + 1) * share - 1`, unclamped. */
  lemma {:induction false} OffsetValue(segs: seq<real>, share: real, t: nat)
    requires forall j :: 0 <= j < |segs| ==> segs[j] == share
    requires share >= MinSec
    requires t < |segs| - 1
    ensures Offsets(segs)[t] == (t + 1) as real * share - FadeDuration
  {
    OffsetsClosedForm(segs);
    SumEqualShares(segs[..t + 1], share);
    ScaledShare(t, share);
  }

  /** With equal shares of at least `minSec`, transition `t` starts at 2
      seconds or later and before transition `t + 1`. */
  lemma {:induction false} OffsetStep(segs: seq<real>, share: real, t: nat)
    requires forall j :: 0 <= j < |segs| ==> segs[j] == share
    requires share >= MinSec
    requires t < |segs| - 1
    ensures Offsets(segs)[t] >= 2.0
    ensures t + 1 < |segs| - 1 ==> Offsets(segs)[t] < Offsets(segs)[t + 1]
  {
    OffsetValue(segs, share, t);
    ScaledShare(t, share);
    if t + 1 < |segs| - 1 {
      OffsetValue(segs, share, t + 1);
    }
  }

  /** In the multi-image path every transition starts at 2 seconds or
      later, and each starts strictly after the one before. */
  lemma {:induction false} OffsetsIncreasing(d: real, n: nat)
    requires Slots(d, n) >= 2
    ensures var offs := Offsets(Segments(d, Slots(d, n)));
      && (forall t :: 0 <= t < |offs| ==> offs[t] >= 2.0)
      && (forall t :: 0 <= t < |offs| - 1 ==> offs[t] < offs[t + 1])
  {
    var k := Slots(d, n);
    var segs := Segments(d, k);
    var share := d / k as real;
    assert share >= MinSec by {
      SegmentsAtLeastMinSec(d, n);
      assert segs[0] == share;
    }
    forall t | 0 <= t < |segs| - 1 {
      OffsetStep(segs, share, t);
    }
  }

  /** A scene of 9 seconds with three images shows each for 3 seconds. */
  lemma {:induction false} NineSecondsThreeImages()
    ensures Slots(9.0, 3) == 3
    ensures Segments(9.0, 3) == [3.0, 3.0, 3.0]
  {
    assert Floor(9.0 / MinSec) == 3;
  }
}
