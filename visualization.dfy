/**
 * `create_3d_visualization` without the drawing: the file list is cut to
 * `max_files`, every file is converted in order while a running maximum of
 * the cell values is kept, fixed axis limits are computed once, and then one
 * frame per matrix is drawn on a shared axis that is cleared and redrawn
 * every frame.
 *
 * The numpy and Python reductions raise on some inputs, and the model keeps
 * those outcomes as a `Failure`: np.max of an array without cells, max of an
 * empty list (nothing left after the cut), and `shape[0]` or `shape[1]` of
 * an array with too few dimensions (a parsed table may be a scalar or a
 * single row).
 */
module Visualization {
  import opened Wrappers
  import opened NdArrays
  import opened FileConversion
  import opened FrameSchedule

  /** The exception that ends a run. */
  datatype Failure =
    | ZeroSizeArray  // np.max of an array without cells
    | NoMatrices     // max() of an empty list of shapes
    | TooFewAxes     // shape[0] of a scalar or shape[1] of a one-dimensional array

  /** The fixed axis ranges: x in [0, x], y in [0, y], z in [0, z]. */
  datatype Limits = Limits(x: nat, y: nat, z: real)

  /** The converted matrices and the limits shared by every frame. */
  datatype Scene = Scene(matrices: seq<Array>, limits: Limits)

  /** The view of the 3D axis, in degrees. */
  datatype View = View(elevation: int, azimuth: int)

  /** What one frame of the animation shows. */
  datatype Frame = Frame(layers: seq<Layer>, limits: Limits, view: View)

  /** The saved video: its path, its frame rate and its frames. */
  datatype Video = Video(path: string, fps: nat, frames: seq<Frame>)

  /** Python's `s[:k]`; a negative k counts from the end. */
  function SliceTo<T>(s: seq<T>, k: int): seq<T> {
    if k >= 0 then s[..if k < |s| then k else |s|]
    else s[..if |s| + k > 0 then |s| + k else 0]
  }

  /**
   * The cut to `max_files`: a prefix of the scanned list, in the same order,
   * of length min(|files|, maxFiles); a negative `maxFiles` drops that many
   * files from the end instead.
   */
  function Truncate<T>(files: seq<T>, maxFiles: int): (r: seq<T>)
    ensures |r| <= |files| && r == files[..|r|]
    ensures maxFiles >= 0 ==> |r| == if |files| < maxFiles then |files| else maxFiles
    ensures maxFiles < 0 ==> |r| == if |files| + maxFiles > 0 then |files| + maxFiles else 0
  {
    if |files| > maxFiles then SliceTo(files, maxFiles) else files
  }

  function ConvertAll(files: seq<FileRecord>, zoom: (Matrix, real) -> Matrix): seq<Array> {
    seq(|files|, i requires 0 <= i < |files| => Convert(files[i], zoom))
  }

  /** Converting one more file appends its array. */
  lemma ConvertAllStep(files: seq<FileRecord>, zoom: (Matrix, real) -> Matrix, k: nat)
    requires k < |files|
    ensures ConvertAll(files[..k + 1], zoom) == ConvertAll(files[..k], zoom) + [Convert(files[k], zoom)]
  {
  }

  predicate AllNonEmpty(ms: seq<Array>) {
    forall i | 0 <= i < |ms| :: Size(ms[i]) > 0
  }

  /** One array without cells makes the whole list fail. */
  lemma EmptyArrayFails(files: seq<FileRecord>, zoom: (Matrix, real) -> Matrix, k: nat)
    requires k < |files| && Size(Convert(files[k], zoom)) == 0
    ensures !AllNonEmpty(ConvertAll(files, zoom))
  {
    assert Size(ConvertAll(files, zoom)[k]) == 0;
  }

  predicate AllGrids(ms: seq<Array>) {
    forall i | 0 <= i < |ms| :: ms[i].Grid?
  }

  /** `max_z_height`: 0 folded with np.max of every matrix, in list order. */
  function RunningPeak(ms: seq<Array>): real
    requires AllNonEmpty(ms)
  {
    if ms == [] then 0.0 else Max(RunningPeak(ms[..|ms| - 1]), Peak(ms[|ms| - 1]))
  }

  /**
   * The running maximum is at least 0 and at least every matrix's largest
   * cell, and it is 0 or one of those.
   */
  lemma {:induction false} RunningPeakBounds(ms: seq<Array>)
    requires AllNonEmpty(ms)
    ensures 0.0 <= RunningPeak(ms)
    ensures forall i | 0 <= i < |ms| :: Peak(ms[i]) <= RunningPeak(ms)
    ensures RunningPeak(ms) == 0.0 || exists i | 0 <= i < |ms| :: RunningPeak(ms) == Peak(ms[i])
  {
    if ms != [] {
      var init := ms[..|ms| - 1];
      RunningPeakBounds(init);
      assert forall i | 0 <= i < |init| :: init[i] == ms[i];
      if RunningPeak(ms) != 0.0 && RunningPeak(ms) != Peak(ms[|ms| - 1]) {
        var i :| 0 <= i < |init| && RunningPeak(init) == Peak(init[i]);
        assert RunningPeak(ms) == Peak(ms[i]);
      }
    }
  }

  /** One more matrix folds its np.max into the running maximum. */
  lemma RunningPeakAppend(ms: seq<Array>, m: Array)
    requires AllNonEmpty(ms) && Size(m) > 0
    ensures AllNonEmpty(ms + [m])
    ensures RunningPeak(ms + [m]) == Max(RunningPeak(ms), Peak(m))
  {
    assert (ms + [m])[..|ms|] == ms;
  }

  /** `max_x`: the largest `shape[0]`, which is one of them. */
  function MaxRows(ms: seq<Array>): (x: nat)
    requires |ms| > 0 && forall i | 0 <= i < |ms| :: !ms[i].Scalar?
    ensures forall i | 0 <= i < |ms| :: Axis0(ms[i]) <= x
    ensures exists i | 0 <= i < |ms| :: x == Axis0(ms[i])
  {
    if |ms| == 1 then Axis0(ms[0])
    else
      var x := MaxRows(ms[..|ms| - 1]);
      assert forall i | 0 <= i < |ms| - 1 :: ms[..|ms| - 1][i] == ms[i];
      IntMax(x, Axis0(ms[|ms| - 1]))
  }

  /** `max_y`: the largest `shape[1]`, which is one of them. */
  function MaxCols(ms: seq<Array>): (y: nat)
    requires |ms| > 0 && AllGrids(ms)
    ensures forall i | 0 <= i < |ms| :: Axis1(ms[i]) <= y
    ensures exists i | 0 <= i < |ms| :: y == Axis1(ms[i])
  {
    if |ms| == 1 then Axis1(ms[0])
    else
      var y := MaxCols(ms[..|ms| - 1]);
      assert forall i | 0 <= i < |ms| - 1 :: ms[..|ms| - 1][i] == ms[i];
      IntMax(y, Axis1(ms[|ms| - 1]))
  }

  /** What `create_3d_visualization` computes before it animates, or the exception it raises. */
  function Visualize(files: seq<FileRecord>, maxFiles: int, zoom: (Matrix, real) -> Matrix): Result<Scene, Failure> {
    var ms := ConvertAll(Truncate(files, maxFiles), zoom);
    if !AllNonEmpty(ms) then Failure(ZeroSizeArray)
    else if ms == [] then Failure(NoMatrices)
    else if !AllGrids(ms) then Failure(TooFewAxes)
    else Success(Scene(ms, Limits(MaxRows(ms), MaxCols(ms), RunningPeak(ms))))
  }

  /**
   * The conversion loop: the files' arrays in order with the running
   * maximum of their cells, or the failure of np.max on the first array
   * without cells.
   */
  method ConvertFiles(files: seq<FileRecord>, zoom: (Matrix, real) -> Matrix)
    returns (r: Result<(seq<Array>, real), Failure>)
    ensures var ms := ConvertAll(files, zoom);
      if AllNonEmpty(ms) then r == Success((ms, RunningPeak(ms))) else r == Failure(ZeroSizeArray)
  {
    var matrices: seq<Array> := [];
    var maxZ := 0.0;
    for k := 0 to |files|
      invariant matrices == ConvertAll(files[..k], zoom)
      invariant AllNonEmpty(matrices)
      invariant maxZ == RunningPeak(matrices)
    {
      var matrix := Convert(files[k], zoom);
      if Size(matrix) == 0 {
        EmptyArrayFails(files, zoom, k);
        return Failure(ZeroSizeArray);
      }
      ConvertAllStep(files, zoom, k);
      RunningPeakAppend(matrices, matrix);
      matrices := matrices + [matrix];
      maxZ := Max(maxZ, Peak(matrix));
    }
    assert files[..|files|] == files;
    return Success((matrices, maxZ));
  }

  /** `max_x`: the largest `shape[0]` of a non-empty list, or the failure on a scalar. */
  method RowLimit(ms: seq<Array>) returns (r: Result<nat, Failure>)
    requires |ms| > 0
    ensures if forall i | 0 <= i < |ms| :: !ms[i].Scalar? then r == Success(MaxRows(ms))
            else r == Failure(TooFewAxes)
  {
    var maxX := 0;
    for k := 0 to |ms|
      invariant forall i | 0 <= i < k :: !ms[i].Scalar?
      invariant k > 0 ==> maxX == MaxRows(ms[..k])
    {
      if ms[k].Scalar? {
        return Failure(TooFewAxes);
      }
      assert ms[..k + 1][..k] == ms[..k];
      maxX := if k == 0 then Axis0(ms[k]) else IntMax(maxX, Axis0(ms[k]));
    }
    assert ms[..|ms|] == ms;
    return Success(maxX);
  }

  /** `max_y`: the largest `shape[1]` of a non-empty list, or the failure on an array that is not two-dimensional. */
  method ColLimit(ms: seq<Array>) returns (r: Result<nat, Failure>)
    requires |ms| > 0
    ensures if AllGrids(ms) then r == Success(MaxCols(ms)) else r == Failure(TooFewAxes)
  {
    var maxY := 0;
    for k := 0 to |ms|
      invariant AllGrids(ms[..k])
      invariant k > 0 ==> maxY == MaxCols(ms[..k])
    {
      if !ms[k].Grid? {
        return Failure(TooFewAxes);
      }
      assert ms[..k + 1][..k] == ms[..k];
      maxY := if k == 0 then Axis1(ms[k]) else IntMax(maxY, Axis1(ms[k]));
    }
    assert ms[..|ms|] == ms;
    return Success(maxY);
  }

  /** The cut, the conversion loop and the axis limits, in the source's order. */
  method BuildScene(files: seq<FileRecord>, maxFiles: int, zoom: (Matrix, real) -> Matrix)
    returns (r: Result<Scene, Failure>)
    ensures r == Visualize(files, maxFiles, zoom)
  {
    var chosen := files;
    if |chosen| > maxFiles {
      chosen := SliceTo(chosen, maxFiles);
    }
    assert chosen == Truncate(files, maxFiles);
    var converted := ConvertFiles(chosen, zoom);
    if converted.Failure? {
      return Failure(converted.error);
    }
    var (matrices, maxZ) := converted.value;
    if matrices == [] {
      return Failure(NoMatrices);
    }
    var maxX := RowLimit(matrices);
    if maxX.Failure? {
      return Failure(maxX.error);
    }
    var maxY := ColLimit(matrices);
    if maxY.Failure? {
      return Failure(maxY.error);
    }
    return Success(Scene(matrices, Limits(maxX.value, maxY.value, maxZ)));
  }

  /** Grids that all have cells: positive sides, bounded by the x and y limits, which two of them reach. */
  lemma ShapeLimits(ms: seq<Array>)
    requires ms != [] && AllNonEmpty(ms) && AllGrids(ms)
    ensures forall i | 0 <= i < |ms| :: 0 < ms[i].m.rows <= MaxRows(ms) && 0 < ms[i].m.cols <= MaxCols(ms)
    ensures exists i | 0 <= i < |ms| :: ms[i].m.rows == MaxRows(ms)
    ensures exists i | 0 <= i < |ms| :: ms[i].m.cols == MaxCols(ms)
  {
    forall i | 0 <= i < |ms|
      ensures 0 < ms[i].m.rows && 0 < ms[i].m.cols
    {
      GridHasCells(ms[i].m);
    }
    var x := MaxRows(ms);
    var i :| 0 <= i < |ms| && x == Axis0(ms[i]);
    var y := MaxCols(ms);
    var j :| 0 <= j < |ms| && y == Axis1(ms[j]);
  }

  /**
   * On success, the scene holds one non-empty two-dimensional matrix per
   * kept file, in order, and the x and y limits are the largest row and
   * column counts: each covers every matrix and is reached by one.
   */
  lemma SceneCoversShapes(files: seq<FileRecord>, maxFiles: int, zoom: (Matrix, real) -> Matrix)
    requires Visualize(files, maxFiles, zoom).Success?
    ensures var scene := Visualize(files, maxFiles, zoom).value;
      var kept := Truncate(files, maxFiles);
      && |scene.matrices| == |kept| > 0
      && (forall i | 0 <= i < |kept| :: scene.matrices[i] == Convert(kept[i], zoom))
      && (forall i | 0 <= i < |kept| :: scene.matrices[i].Grid?
            && 0 < scene.matrices[i].m.rows <= scene.limits.x
            && 0 < scene.matrices[i].m.cols <= scene.limits.y)
      && (exists i | 0 <= i < |kept| :: scene.matrices[i].m.rows == scene.limits.x)
      && (exists i | 0 <= i < |kept| :: scene.matrices[i].m.cols == scene.limits.y)
  {
    var ms := ConvertAll(Truncate(files, maxFiles), zoom);
    assert AllNonEmpty(ms) && AllGrids(ms) && ms != [];
    assert Visualize(files, maxFiles, zoom).value ==
      Scene(ms, Limits(MaxRows(ms), MaxCols(ms), RunningPeak(ms)));
    ShapeLimits(ms);
  }

  /** On success, the z limit is at least 0 and at least every cell of every matrix. */
  lemma SceneCoversHeights(files: seq<FileRecord>, maxFiles: int, zoom: (Matrix, real) -> Matrix)
    requires Visualize(files, maxFiles, zoom).Success?
    ensures var scene := Visualize(files, maxFiles, zoom).value;
      && 0.0 <= scene.limits.z
      && (forall i, r, c | 0 <= i < |scene.matrices| && scene.matrices[i].Grid?
            && 0 <= r < scene.matrices[i].m.rows && 0 <= c < scene.matrices[i].m.cols
            :: scene.matrices[i].m.cells[r][c] <= scene.limits.z)
  {
    var ms := ConvertAll(Truncate(files, maxFiles), zoom);
    assert AllNonEmpty(ms) && AllGrids(ms) && ms != [];
    var scene := Scene(ms, Limits(MaxRows(ms), MaxCols(ms), RunningPeak(ms)));
    assert Visualize(files, maxFiles, zoom).value == scene;
    RunningPeakBounds(ms);
    forall i, r, c | 0 <= i < |ms| && 0 <= r < ms[i].m.rows && 0 <= c < ms[i].m.cols
      ensures ms[i].m.cells[r][c] <= scene.limits.z
    {
      assert Size(ms[i]) > 0;
      PeakOfMatrix(ms[i].m);
    }
  }

  /**
   * The run fails for want of matrices exactly when the cut leaves no file:
   * never for a non-empty scan with `maxFiles` at least 1, always for
   * `maxFiles` 0.
   */
  lemma NoMatricesIff(files: seq<FileRecord>, maxFiles: int, zoom: (Matrix, real) -> Matrix)
    ensures Visualize(files, maxFiles, zoom) == Failure(NoMatrices) <==> Truncate(files, maxFiles) == []
    ensures |files| > 0 && maxFiles > 0 ==> Visualize(files, maxFiles, zoom) != Failure(NoMatrices)
    ensures maxFiles == 0 ==> Visualize(files, maxFiles, zoom) == Failure(NoMatrices)
  {
  }

  /** np.max of a metadata matrix is below 255. */
  lemma MetadataPeak(size: nat, mtime: nat)
    ensures Size(Grid(MetadataMatrix(size, mtime))) > 0
    ensures Peak(Grid(MetadataMatrix(size, mtime))) < 255.0
  {
    var m := MetadataMatrix(size, mtime);
    FlattenMembers(m.cells, Peak(Grid(m)));
    var r, c :| 0 <= r < m.rows && 0 <= c < m.cols && m.cells[r][c] == Peak(Grid(m));
    MetadataCellRange(size, mtime, r, c);
  }

  /** The array of a file of neither list: a grid with sides in [5, 50] whose np.max is below 255. */
  lemma MetadataArray(file: FileRecord, zoom: (Matrix, real) -> Matrix)
    requires Classify(file.extension) == OtherFile
    ensures var a := Convert(file, zoom);
      a.Grid? && 5 <= a.m.rows <= 50 && 5 <= a.m.cols <= 50 && Size(a) > 0 && Peak(a) < 255.0
  {
    assert Convert(file, zoom) == Grid(MetadataMatrix(file.size, file.mtime));
    MetadataPeak(file.size, file.mtime);
  }

  /**
   * A run over files that are neither images nor text tables always
   * succeeds, with x and y limits in [5, 50] and a z limit below 255.
   */
  lemma MetadataFilesSucceed(files: seq<FileRecord>, maxFiles: int, zoom: (Matrix, real) -> Matrix)
    requires Truncate(files, maxFiles) != []
    requires forall i | 0 <= i < |files| :: Classify(files[i].extension) == OtherFile
    ensures Visualize(files, maxFiles, zoom).Success?
    ensures var limits := Visualize(files, maxFiles, zoom).value.limits;
      5 <= limits.x <= 50 && 5 <= limits.y <= 50 && limits.z < 255.0
  {
    var kept := Truncate(files, maxFiles);
    var ms := ConvertAll(kept, zoom);
    forall i | 0 <= i < |ms|
      ensures ms[i].Grid? && 5 <= ms[i].m.rows <= 50 && 5 <= ms[i].m.cols <= 50
      ensures Size(ms[i]) > 0 && Peak(ms[i]) < 255.0
    {
      assert kept[i] == files[i];
      MetadataArray(kept[i], zoom);
    }
    assert AllNonEmpty(ms) && AllGrids(ms);
    var limits := Limits(MaxRows(ms), MaxCols(ms), RunningPeak(ms));
    assert Visualize(files, maxFiles, zoom) == Success(Scene(ms, limits));
    var i :| 0 <= i < |ms| && limits.x == Axis0(ms[i]);
    var j :| 0 <= j < |ms| && limits.y == Axis1(ms[j]);
    RunningPeakBounds(ms);
    if limits.z != 0.0 {
      var h :| 0 <= h < |ms| && limits.z == Peak(ms[h]);
    }
  }

  /**
   * The one 3D axis all frames are drawn on: the surfaces on it (each
   * recorded as its matrix index and alpha), its limits and its view.
   */
  class Axes {
    var layers: seq<Layer>
    var limits: Option<Limits>
    var view: Option<View>

    /** A new 3D axis: nothing drawn, library-default limits and view. */
    constructor ()
      ensures layers == [] && limits == None && view == None
    {
      layers := [];
      limits := None;
      view := None;
    }

    /** `ax.clear()`: removes every surface and resets the limits. */
    method Clear()
      modifies this
      ensures layers == [] && limits == None && view == old(view)
    {
      layers := [];
      limits := None;
    }

    /** `ax.plot_surface(...)` of matrix `index` at opacity `alpha`. */
    method PlotSurface(index: nat, alpha: real) returns (surf: Layer)
      modifies this
      ensures surf == Layer(index, alpha)
      ensures layers == old(layers) + [surf]
      ensures limits == old(limits) && view == old(view)
    {
      surf := Layer(index, alpha);
      layers := layers + [surf];
    }

    /** `ax.set_xlim/set_ylim/set_zlim(0, ...)`. */
    method SetLimits(l: Limits)
      modifies this
      ensures limits == Some(l)
      ensures layers == old(layers) && view == old(view)
    {
      limits := Some(l);
    }

    /** `ax.view_init(elev, azim)`. */
    method ViewInit(elevation: int, azimuth: int)
      modifies this
      ensures view == Some(View(elevation, azimuth))
      ensures layers == old(layers) && limits == old(limits)
    {
      view := Some(View(elevation, azimuth));
    }

    /**
     * `update_plot` for frame f: the axis ends up showing exactly the
     * frame's window with its fade, the scene's limits and the frame's view,
     * and the surface returned is the newest one, matrix f.
     */
    method UpdatePlot(scene: Scene, f: nat) returns (surf: Option<Layer>)
      requires f < FrameCount(|scene.matrices|)
      modifies this
      ensures layers == FrameLayers(|scene.matrices|, f)
      ensures limits == Some(scene.limits)
      ensures view == Some(View(ELEVATION, Azimuth(f)))
      ensures surf.Some? && surf.value.index == f && surf.value == layers[|layers| - 1]
    {
      var n := |scene.matrices|;
      Clear();
      var w := FrameWindow(n, f);
      var k := w.end - w.start;
      surf := None;
      for i := 0 to k
        invariant layers == FrameLayers(n, f)[..i]
        invariant limits == None
        invariant i > 0 ==> surf == Some(layers[i - 1])
      {
        var alpha := 0.2 + 0.8 * (i as real / k as real);
        var s := PlotSurface(w.start + i, alpha);
        surf := Some(s);
      }
      SetLimits(scene.limits);
      ViewInit(ELEVATION, Azimuth(f));
    }
  }

  /** Frame f of the animation of a scene. */
  function ExpectedFrame(scene: Scene, f: nat): Frame
    requires f < FrameCount(|scene.matrices|)
  {
    Frame(FrameLayers(|scene.matrices|, f), scene.limits, View(ELEVATION, Azimuth(f)))
  }

  /** The frames of the animation of a scene, one per matrix. */
  function Animation(scene: Scene): seq<Frame> {
    seq(FrameCount(|scene.matrices|), f requires 0 <= f < FrameCount(|scene.matrices|) => ExpectedFrame(scene, f))
  }

  /** The animation loop: `update_plot` on one axis for every frame in turn. */
  method Animate(scene: Scene) returns (frames: seq<Frame>)
    ensures frames == Animation(scene)
  {
    var ax := new Axes();
    ax.SetLimits(scene.limits);
    frames := [];
    for f := 0 to FrameCount(|scene.matrices|)
      invariant frames == Animation(scene)[..f]
    {
      var _ := ax.UpdatePlot(scene, f);
      frames := frames + [Frame(ax.layers, ax.limits.value, ax.view.value)];
    }
  }

  /**
   * Every frame of an animation shares the scene's limits, so the scale
   * never jumps; frame f draws matrix f as its newest surface and turns
   * the view to azimuth f % 360 at elevation 30.
   */
  lemma AnimationFrames(scene: Scene)
    ensures |Animation(scene)| == |scene.matrices|
    ensures forall f | 0 <= f < |scene.matrices| ::
      && Animation(scene)[f].limits == scene.limits
      && Animation(scene)[f].view == View(30, f % 360)
      && |Animation(scene)[f].layers| > 0
      && Animation(scene)[f].layers[|Animation(scene)[f].layers| - 1].index == f
  {
    forall f | 0 <= f < |scene.matrices|
      ensures |Animation(scene)[f].layers| > 0
      ensures Animation(scene)[f].layers[|Animation(scene)[f].layers| - 1].index == f
    {
      FrameLayersShape(|scene.matrices|, f);
    }
  }

  /**
   * `create_3d_visualization`: build the scene, animate it and save it at
   * 15 frames per second under `outputVideo`; or the exception that stops it.
   */
  method CreateVisualization(files: seq<FileRecord>, outputVideo: string, maxFiles: int,
                             zoom: (Matrix, real) -> Matrix)
    returns (r: Result<Video, Failure>)
    ensures r.Failure? <==> Visualize(files, maxFiles, zoom).Failure?
    ensures r.Failure? ==> r.error == Visualize(files, maxFiles, zoom).error
    ensures r.Success? ==>
      r.value == Video(outputVideo, FRAMES_PER_SECOND, Animation(Visualize(files, maxFiles, zoom).value))
  {
    var built := BuildScene(files, maxFiles, zoom);
    if built.Failure? {
      return Failure(built.error);
    }
    var frames := Animate(built.value);
    r := Success(Video(outputVideo, FRAMES_PER_SECOND, frames));
  }
}
