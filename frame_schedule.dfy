/**
 * The per-frame arithmetic of `update_plot`: the animation has one frame per
 * matrix; frame f shows the matrices with index in
 * [max(0, f - 5), min(n, f + 1)), the k of them faded from alpha 0.2 upwards
 * by `0.2 + 0.8 * i / k`, seen from elevation 30 and azimuth `f % 360`.
 */
module FrameSchedule {

  const ELEVATION := 30
  const FRAMES_PER_SECOND := 15

  /** How many older matrices stay on screen behind the newest one. */
  const TRAIL := 5

  /** The half-open index range [start, end) of the matrices drawn in one frame. */
  datatype Window = Window(start: nat, end: nat)

  /** The animation has one frame per matrix. */
  function FrameCount(matrixCount: nat): nat {
    matrixCount
  }

  /**
   * The window of frame f of n: `start = max(0, f - 5)`, `end = min(n, f + 1)`.
   * It is never empty, ends with matrix f, and holds at most six matrices;
   * it holds fewer only in the first frames.
   */
  function FrameWindow(n: nat, f: nat): (w: Window)
    requires f < FrameCount(n)
    ensures 0 <= w.start < w.end <= n
    ensures w.end == f + 1
    ensures w.end - w.start <= TRAIL + 1
    ensures w.end - w.start == if f < TRAIL then f + 1 else TRAIL + 1
  {
    Window(if f - TRAIL > 0 then f - TRAIL else 0, if n < f + 1 then n else f + 1)
  }

  /** Matrix `index` is on screen in frame f exactly when f is one of the six frames from `index` on. */
  lemma InWindowIff(n: nat, f: nat, index: nat)
    requires f < FrameCount(n) && index < n
    ensures FrameWindow(n, f).start <= index < FrameWindow(n, f).end <==> index <= f <= index + TRAIL
  {
  }

  /** Matrix `index` is the newest one on screen in frame `index` and in no other frame. */
  lemma NewestExactlyOnce(n: nat, index: nat)
    requires index < n
    ensures forall f | 0 <= f < FrameCount(n) :: FrameWindow(n, f).end - 1 == index <==> f == index
  {
  }

  /** Whether frame f of an animation of n matrices draws matrix `index`. */
  predicate Shows(n: nat, f: nat, index: nat)
    requires f < FrameCount(n)
  {
    FrameWindow(n, f).start <= index < FrameWindow(n, f).end
  }

  /** How many of the first `upTo` frames draw matrix `index`. */
  function ShowingCount(n: nat, index: nat, upTo: nat): nat
    requires upTo <= FrameCount(n)
  {
    if upTo == 0 then 0
    else ShowingCount(n, index, upTo - 1) + if Shows(n, upTo - 1, index) then 1 else 0
  }

  lemma {:induction false} ShowingCountPrefix(n: nat, index: nat, upTo: nat)
    requires index < n && upTo <= FrameCount(n)
    ensures ShowingCount(n, index, upTo) ==
      if upTo <= index then 0
      else if upTo <= index + TRAIL + 1 then upTo - index
      else TRAIL + 1
  {
    if upTo > 0 {
      ShowingCountPrefix(n, index, upTo - 1);
      InWindowIff(n, upTo - 1, index);
    }
  }

  /** Every matrix is drawn in six frames, or in every frame from its own to the last. */
  lemma FramesShowingCount(n: nat, index: nat)
    requires index < n
    ensures ShowingCount(n, index, FrameCount(n)) ==
      if n - index < TRAIL + 1 then n - index else TRAIL + 1
  {
    ShowingCountPrefix(n, index, FrameCount(n));
  }

  /** The alpha of the i-th of k window members, oldest first: `0.2 + 0.8 * i / k`. */
  function Alpha(i: nat, k: nat): real
    requires k > 0
  {
    0.2 + 0.8 * (i as real / k as real)
  }

  /** The ramp starts at 0.2 and stays below 1.0: the newest matrix is never opaque. */
  lemma AlphaRange(i: nat, k: nat)
    requires i < k
    ensures Alpha(0, k) == 0.2
    ensures 0.2 <= Alpha(i, k) < 1.0
  {
    assert i as real / k as real < 1.0 by {
      assert (i as real / k as real) * k as real == i as real;
    }
  }

  /** The ramp strictly increases: a newer matrix is drawn more opaque. */
  lemma AlphaIncreasing(i: nat, j: nat, k: nat)
    requires i < j < k
    ensures Alpha(i, k) < Alpha(j, k)
  {
    assert i as real / k as real < j as real / k as real by {
      assert (i as real / k as real) * k as real == i as real;
      assert (j as real / k as real) * k as real == j as real;
    }
  }

  /** The azimuth of frame f, in degrees. */
  function Azimuth(f: nat): (a: nat)
    ensures a < 360
    ensures a == f || f >= 360
    ensures f >= 360 ==> a == Azimuth(f - 360)
  {
    f % 360
  }

  /** One surface drawn in a frame: which matrix, and how opaque. */
  datatype Layer = Layer(index: nat, alpha: real)

  /** The surfaces of frame f of n, in drawing order. */
  function FrameLayers(n: nat, f: nat): seq<Layer>
    requires f < FrameCount(n)
  {
    var w := FrameWindow(n, f);
    var k := w.end - w.start;
    seq(k, i requires 0 <= i < k => Layer(w.start + i, Alpha(i, k)))
  }

  /**
   * What a frame draws: one to six consecutive matrices ending with matrix
   * f, the oldest at alpha 0.2, each newer one strictly more opaque, all
   * below 1.0.
   */
  lemma FrameLayersShape(n: nat, f: nat)
    requires f < FrameCount(n)
    ensures var layers := FrameLayers(n, f);
      && 1 <= |layers| <= TRAIL + 1
      && layers[|layers| - 1].index == f
      && layers[0].alpha == 0.2
      && (forall i | 0 <= i < |layers| :: layers[i].index == f + 1 - |layers| + i)
      && (forall i | 0 <= i < |layers| :: 0.2 <= layers[i].alpha < 1.0)
      && (forall i, j | 0 <= i < j < |layers| :: layers[i].alpha < layers[j].alpha)
  {
    var layers := FrameLayers(n, f);
    var k := |layers|;
    AlphaRange(0, k);
    forall i | 0 <= i < k
      ensures 0.2 <= layers[i].alpha < 1.0
    {
      AlphaRange(i, k);
    }
    forall i, j | 0 <= i < j < k
      ensures layers[i].alpha < layers[j].alpha
    {
      AlphaIncreasing(i, j, k);
    }
  }
}
