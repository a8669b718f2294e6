# 3d_art: directory to 3D animation, data side

A Dafny model of the data side of `3d_art/3d_art.py`. The tool turns the files
of a directory into a sequence of numeric matrices. It then animates them as
fading 3D surfaces. The drawing itself is not modelled. The model covers three parts:

- **The file-to-matrix converter** (`process_file_to_data`), module
  `FileConversion`. The lower-cased extension selects one of three policies:
  image, numeric text, or any other file.
  - An image that fails to decode becomes a 10×10 zero matrix.
  - A decoded image with a side over 100 is rescaled by `100 / max(h, w)`.
  - A text file that fails to parse becomes a 2×2 matrix built from its size
    and modification time.
  - Any other file becomes a metadata matrix. Its sides are clamped to
    [5, 50] and its cells are `(i*j + size + mtime) % 255`.
- **Scene construction** (`create_3d_visualization` up to the animation),
  module `Visualization`.
  - The file list is cut to `max_files`.
  - The files are converted in order while a running maximum of the cell
    values is kept.
  - The x, y and z axis limits are computed once.
  - `BuildScene` and its loop methods are proved against the specification
    function `Visualize`. The lemmas about `Visualize` state the prefix,
    fold-maximum and covering properties.
- **Frames** (`update_plot` and the animation loop), modules `FrameSchedule`
  and `Visualization`.
  - There is one frame per matrix.
  - Frame f draws matrices `max(0, f-5) .. f` with alpha `0.2 + 0.8*i/k`.
  - The view is elevation 30, azimuth `f % 360`.
  - The shared axis is the class `Visualization.Axes`. Its `UpdatePlot`
    clears the axis and redraws it. It is proved to leave exactly the
    frame's layers, the scene's limits and the frame's view.

The decoders are inputs, not part of the model. Each `FileConversion.FileRecord`
carries the file's extension, size and modification time. It also carries the
grayscale image the image decoder returned (`None` when decoding raised) and
the array the text parser returned (`None` when parsing raised). The image
rescaler is the function parameter `zoom`.

Exceptions that end a run are the datatype `Visualization.Failure`:
- `ZeroSizeArray`: np.max of an array without cells, in the conversion loop.
- `NoMatrices`: `max()` of an empty list. This happens when the cut leaves no
  file, for example with `max_files = 0`.
- `TooFewAxes`: `shape[0]` or `shape[1]` of a parsed table that is a single
  value, a single row or a single column (the parser squeezes each of these
  to fewer than two dimensions).

An array is modelled as a scalar, a vector or a rectangular matrix
(`NdArrays.Array`), because the text parser may return any of the three.

Where descriptions of this tool differ from this code, the model follows the code:
- There is no audio track and no duration negotiation.
- The frame rate is fixed at 15 (3d_art/3d_art.py:242).
- The frame count is the number of matrices (3d_art/3d_art.py:237), not
  duration × fps.
- Frame f's window ends at matrix f. It is not a frame-to-file scaling.
- The azimuth is `f % 360`, not `2f % 360`.
- The fade never reaches 1.0. The newest surface is drawn at `0.2 + 0.8*(k-1)/k`.
  In the first frame this is 0.2.
- The conversion is not total. The text policy catches only `ValueError` and
  `OSError`. A parsed table of fewer than two dimensions, or with no cells,
  makes the run fail.

## Model

| member | source | states |
|---|---|---|
| NdArrays.Filled | 3d_art/3d_art.py:126 | the zero fallback has the requested shape and every cell is the fill value |
| NdArrays.Max | 3d_art/3d_art.py:183 | Python's two-argument max is at least both arguments and is one of them |
| NdArrays.IntMax | 3d_art/3d_art.py:192-193 | the same, for the integer shape entries |
| NdArrays.SeqMax | 3d_art/3d_art.py:183 | the maximum of a non-empty sequence is one of its elements and bounds all of them |
| NdArrays.Peak | 3d_art/3d_art.py:183 | np.max of an array with cells is one of its cells and at least every cell |
| NdArrays.SizeCountsElements | 3d_art/3d_art.py:183 | the product of the shape counts the cells, so np.max fails exactly when a side is 0 |
| NdArrays.GridHasCells | 3d_art/3d_art.py:183 | a matrix has cells exactly when it has at least one row and one column |
| NdArrays.PeakOfMatrix | 3d_art/3d_art.py:183 | for a matrix with cells, np.max bounds every cell (i, j) and equals one of them |
| FileConversion.Lower | 3d_art/3d_art.py:114 | lower-casing keeps the length of the extension |
| FileConversion.LowerCharacters | 3d_art/3d_art.py:114 | the lower-cased extension has no upper-case letter, keeps every other character and maps each upper-case letter to its lower-case partner |
| FileConversion.LowerIdempotent | 3d_art/3d_art.py:114 | lower-casing an already lower-cased extension changes nothing |
| FileConversion.ExtensionSetsDisjoint | 3d_art/3d_art.py:116-128 | no extension is both an image and a text extension |
| FileConversion.ClassifyIgnoresCase | 3d_art/3d_art.py:114-140 | an extension and its lower-cased form take the same branch; each of the three branches is taken iff the lower-cased extension is in its list, or in neither for the last |
| FileConversion.UpperCaseImage | 3d_art/3d_art.py:114-116 | `.PNG` is treated as an image |
| FileConversion.ZoomFactor | 3d_art/3d_art.py:121-122 | the factor 100 / max(h, w) of an oversized image is strictly between 0 and 1, maps the longer side to exactly 100 and each side to at most 100 |
| FileConversion.ImageMatrix | 3d_art/3d_art.py:116-126 | decoding failure gives the 10×10 zero matrix; a decoded image with both sides at most 100 is returned unchanged; otherwise it is rescaled by ZoomFactor |
| FileConversion.StatMatrix | 3d_art/3d_art.py:131-139 | the parse fallback is exactly [[size%100, mtime%100], [mtime%50, size%50]] |
| FileConversion.MetadataMatrix | 3d_art/3d_art.py:141-148 | rows and columns are clamp(size/1000) and clamp(mtime%100) to [5, 50], case by case, and cell (i, j) is (i*j + size + mtime) % 255 |
| FileConversion.MetadataCellRange | 3d_art/3d_art.py:148 | every cell of the metadata matrix lies in [0, 255) |
| FileConversion.Classify | 3d_art/3d_art.py:114-140 | the three-way choice on the lower-cased extension; stated by ClassifyIgnoresCase, ExtensionSetsDisjoint and UpperCaseImage |
| FileConversion.NeedsResize | 3d_art/3d_art.py:121 | an image is rescaled when a side exceeds 100; stated through ImageMatrix and ZoomFactor |
| FileConversion.TextArray | 3d_art/3d_art.py:128-139 | the parsed table, or the metadata fallback when parsing raised; stated by ConvertPolicy and ConvertFallbacksAreMatrices |
| FileConversion.Convert | 3d_art/3d_art.py:109-148 | `process_file_to_data`, the three-way policy; stated by ConvertPolicy, ConvertFallbacksAreMatrices and MetadataArray |
| FileConversion.ConvertPolicy | 3d_art/3d_art.py:109-148 | each file takes exactly the policy its lower-cased extension selects: the image matrix, the parsed table or its fallback, or the metadata matrix |
| FileConversion.ConvertFallbacksAreMatrices | 3d_art/3d_art.py:124-148 | every fallback and the metadata policy give a non-empty two-dimensional matrix with sides in [2, 50] |
| FrameSchedule.FrameWindow | 3d_art/3d_art.py:207-208 | for frame f of n: 0 <= start < end = f + 1 <= n, at most six members, fewer only in frames 0 to 4 |
| FrameSchedule.InWindowIff | 3d_art/3d_art.py:207-208 | matrix i is drawn in frame f iff i <= f <= i + 5 |
| FrameSchedule.NewestExactlyOnce | 3d_art/3d_art.py:207-208 | matrix i is the newest window member in frame i and in no other frame |
| FrameSchedule.ShowingCountPrefix | 3d_art/3d_art.py:207-208 | of the first u frames, matrix i is drawn in none before frame i, then in every one up to six |
| FrameSchedule.FramesShowingCount | 3d_art/3d_art.py:207-237 | over the whole animation, matrix i is drawn in min(6, n - i) frames |
| FrameSchedule.Alpha | 3d_art/3d_art.py:219 | the fade `0.2 + 0.8 * i / k`; stated by AlphaRange and AlphaIncreasing |
| FrameSchedule.AlphaRange | 3d_art/3d_art.py:219 | the first member's alpha is exactly 0.2 and every alpha lies in [0.2, 1.0) |
| FrameSchedule.AlphaIncreasing | 3d_art/3d_art.py:219 | alphas strictly increase from older to newer members |
| FrameSchedule.Azimuth | 3d_art/3d_art.py:231 | the azimuth lies in [0, 360), equals f for f < 360 and repeats every 360 frames |
| FrameSchedule.FrameLayers | 3d_art/3d_art.py:211-219 | the surfaces of one frame in drawing order; stated by FrameLayersShape and produced by Axes.UpdatePlot |
| FrameSchedule.FrameLayersShape | 3d_art/3d_art.py:211-219 | a frame draws 1 to 6 consecutive matrices ending with matrix f, the oldest at 0.2, strictly increasing alphas, all below 1.0 |
| Visualization.SliceTo | 3d_art/3d_art.py:171 | Python's `s[:k]`, negative k included; stated through Truncate |
| Visualization.Truncate | 3d_art/3d_art.py:169-171 | the cut list is a prefix of the scanned list of length min(len, max_files); a negative max_files drops that many files from the end |
| Visualization.RunningPeak | 3d_art/3d_art.py:179-183 | the `max_z_height` fold; stated by RunningPeakBounds and RunningPeakAppend, and computed by ConvertFiles |
| Visualization.RunningPeakBounds | 3d_art/3d_art.py:179-183 | max_z_height is at least 0 and at least np.max of every matrix, and is 0 or one of them |
| Visualization.RunningPeakAppend | 3d_art/3d_art.py:181-183 | one more array with cells keeps every array non-empty and folds its np.max into the running maximum with max |
| Visualization.ConvertAllStep | 3d_art/3d_art.py:180-182 | converting one more file appends exactly its array to the converted list |
| Visualization.EmptyArrayFails | 3d_art/3d_art.py:181-183 | one converted array without cells makes np.max, and so the run, fail |
| Visualization.MaxRows | 3d_art/3d_art.py:192 | max_x bounds every shape[0] and is one of them |
| Visualization.MaxCols | 3d_art/3d_art.py:193 | max_y bounds every shape[1] and is one of them |
| Visualization.Visualize | 3d_art/3d_art.py:166-196 | the scene or the first exception, in the source's order; computed by BuildScene and stated by SceneCoversShapes, SceneCoversHeights, NoMatricesIff and MetadataFilesSucceed |
| Visualization.ConvertFiles | 3d_art/3d_art.py:178-183 | the loop returns the files' arrays in order with the running maximum, or ZeroSizeArray iff some array has no cells |
| Visualization.RowLimit | 3d_art/3d_art.py:192 | max_x, or TooFewAxes iff some array is a scalar |
| Visualization.ColLimit | 3d_art/3d_art.py:193 | max_y, or TooFewAxes iff some array is not two-dimensional |
| Visualization.BuildScene | 3d_art/3d_art.py:166-196 | the cut, conversion loop and limit computation give exactly Visualize's scene or failure |
| Visualization.ShapeLimits | 3d_art/3d_art.py:192-195 | for non-empty matrices, each side is positive and within the limits, and each limit is reached |
| Visualization.SceneCoversShapes | 3d_art/3d_art.py:169-195 | on success, matrix i is the conversion of kept file i, a non-empty matrix within the x/y limits, which are reached |
| Visualization.SceneCoversHeights | 3d_art/3d_art.py:179-196 | on success, the z limit is at least 0 and at least every cell of every matrix |
| Visualization.NoMatricesIff | 3d_art/3d_art.py:169-192 | the run fails with an empty list iff the cut leaves no file; never for a non-empty scan and max_files >= 1, always for max_files = 0 |
| Visualization.MetadataPeak | 3d_art/3d_art.py:141-148 | the metadata matrix has cells and its np.max is below 255 |
| Visualization.MetadataArray | 3d_art/3d_art.py:140-148 | a file of neither list becomes a grid with sides in [5, 50] whose np.max is below 255 |
| Visualization.MetadataFilesSucceed | 3d_art/3d_art.py:140-196 | a run over files that are neither images nor text succeeds with x, y limits in [5, 50] and z limit below 255 |
| Visualization.Axes.constructor | 3d_art/3d_art.py:174-175 | a fresh axis has no surfaces, default limits and default view |
| Visualization.Axes.Clear | 3d_art/3d_art.py:200 | clearing removes every surface and resets the limits |
| Visualization.Axes.PlotSurface | 3d_art/3d_art.py:222-224 | plotting appends one surface with its matrix index and alpha and changes nothing else |
| Visualization.Axes.SetLimits | 3d_art/3d_art.py:194-196 | setting limits replaces only the limits |
| Visualization.Axes.ViewInit | 3d_art/3d_art.py:231 | setting the view replaces only the view |
| Visualization.Axes.UpdatePlot | 3d_art/3d_art.py:199-233 | after frame f, the axis shows exactly the frame's window with its fade, the scene's limits and view (30, f % 360), and the returned surface is matrix f's |
| Visualization.ExpectedFrame | 3d_art/3d_art.py:199-233 | the frame `update_plot` leaves for frame f; stated by AnimationFrames and produced by Axes.UpdatePlot |
| Visualization.Animation | 3d_art/3d_art.py:236-237 | one frame per matrix; stated by AnimationFrames and produced by Animate |
| Visualization.Animate | 3d_art/3d_art.py:236-238 | the animation loop produces the frames of Animation(scene), one per matrix |
| Visualization.AnimationFrames | 3d_art/3d_art.py:226-237 | one frame per matrix; every frame has the scene's limits, view (30, f % 360) and matrix f as its newest surface |
| Visualization.CreateVisualization | 3d_art/3d_art.py:166-247 | the run fails exactly when Visualize fails, with the same failure; otherwise it yields the animation at 15 frames per second under the given path |

## Left out

- Dependency bootstrap (3d_art/3d_art.py:8-106 and 3d_art/setup.py): package installation, version comparison by a library, the ffmpeg probe and the interactive prompt.
- Directory scanning (`scan_directory`): file system I/O. The scanned files are the input sequence of `FileRecord`s, with extensions already split off the path.
- The command line (`main`): argument parsing. It keeps only the guard that the scan is non-empty, which appears as a hypothesis in `NoMatricesIff`.
- The decoders: image decoding and grayscale conversion, numeric-table parsing, and the rescaler's pixel values. They are inputs or the parameter `zoom`.
- FileConversion.ImageMatrix: the shape of a rescaled image is not modelled. The rescaler rounds each side times the factor, so the model states only the resize decision and the factor (the longer side times the factor is exactly 100).
- FileConversion.Lower: only ASCII letters are lower-cased. Non-ASCII case mapping is not modelled. No non-ASCII character lower-cases to a single letter that occurs in the two extension lists, so classification is not affected.
- FileConversion.ConvertPolicy: exceptions outside the caught ones are not modelled, such as `os.stat` failing on a vanished file or the parser raising another exception type. The image branch catches every exception, and a failing rescale is folded into a decode failure.
- Floating point: modification times are whole seconds (`nat`), sizes are exact, `int(size / 1000)` is integer division of a natural number, and the alphas and all cell values are exact reals. Rounding, NaN and negative modification times are not modelled.
- Visualization.Axes.Clear: what clearing does to the view angle is not modelled. The view is left as it was, and `update_plot` sets it again every frame.
- Rendering and encoding: figure and axis creation, labels and titles, meshgrids, the colour map, `plot_surface` drawing, the animation interval, the video writer, saving, printing and closing the figure. The model records only the data handed to these calls: matrix indices, alphas, limits and the view. A failing save, such as a missing FFmpeg after the bootstrap let the run continue without it (3d_art/3d_art.py:85, 243), is not modelled.
- The scatter-plot tool (scatter-np-plt/sc_np_plt.py): GUI dialogs, CSV reading, random sampling and floating-point marker sizes.
