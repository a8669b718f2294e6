/**
 * The file-to-matrix converter (`process_file_to_data`): every file yields
 * an array, chosen by the lower-cased extension among three policies, and the
 * image and text policies fall back to a fixed matrix when their decoder
 * fails.
 *
 * The decoders are not part of this model: what the image decoder returned
 * (a grayscale matrix, or nothing when it raised) and what the text parser
 * returned (an array, or nothing when it raised) are fields of the file
 * record, and the image rescaler is the parameter `zoom`.
 */
module FileConversion {
  import opened Wrappers
  import opened NdArrays

  /** One scanned file, with what its decoders report. */
  datatype FileRecord = FileRecord(
    extension: string,        // the extension as found, with its dot
    size: nat,                // the size in bytes
    mtime: nat,               // the modification time, in whole seconds
    decoded: Option<Matrix>,  // the grayscale image, None when decoding raised
    parsed: Option<Array>)    // the parsed table, None when parsing raised

  /** The three conversion policies. */
  datatype FileKind = ImageFile | TextFile | OtherFile

  const IMAGE_EXTENSIONS: set<string> := {".jpg", ".jpeg", ".png", ".bmp", ".tif", ".tiff"}
  const TEXT_EXTENSIONS: set<string> := {".txt", ".csv", ".dat"}

  /** The largest side an image keeps without being rescaled. */
  const MAX_IMAGE_SIDE := 100

  predicate IsUpper(c: char) {
    'A' <= c <= 'Z'
  }

  function LowerChar(c: char): char {
    if IsUpper(c) then (c as int - 'A' as int + 'a' as int) as char else c
  }

  /** `str.lower` on the ASCII letters. */
  function Lower(s: string): (r: string)
    ensures |r| == |s|
  {
    if s == [] then [] else [LowerChar(s[0])] + Lower(s[1..])
  }

  /**
   * Lower-casing leaves no upper-case letter, keeps every other character
   * and moves each upper-case letter to its lower-case partner.
   */
  lemma {:induction false} LowerCharacters(s: string)
    ensures forall i | 0 <= i < |s| :: !IsUpper(Lower(s)[i])
    ensures forall i | 0 <= i < |s| && !IsUpper(s[i]) :: Lower(s)[i] == s[i]
    ensures forall i | 0 <= i < |s| && IsUpper(s[i]) :: Lower(s)[i] as int == s[i] as int + 32
  {
    if s != [] {
      LowerCharacters(s[1..]);
      assert forall i | 1 <= i < |s| :: Lower(s)[i] == Lower(s[1..])[i - 1];
    }
  }

  /** Lower-casing twice is lower-casing once. */
  lemma {:induction false} LowerIdempotent(s: string)
    ensures Lower(Lower(s)) == Lower(s)
  {
    if s != [] {
      LowerIdempotent(s[1..]);
    }
  }

  /** The policy for an extension: the extension is lower-cased first. */
  function Classify(extension: string): FileKind {
    var ext := Lower(extension);
    if ext in IMAGE_EXTENSIONS then ImageFile
    else if ext in TEXT_EXTENSIONS then TextFile
    else OtherFile
  }

  /** The two extension lists share no extension, so the branch order does not matter. */
  lemma ExtensionSetsDisjoint()
    ensures IMAGE_EXTENSIONS * TEXT_EXTENSIONS == {}
  {
  }

  /**
   * Classification ignores case: an extension and its lower-cased form
   * take the same branch, and each branch is taken exactly when the
   * lower-cased extension is in its list.
   */
  lemma ClassifyIgnoresCase(extension: string)
    ensures Classify(extension) == Classify(Lower(extension))
    ensures Classify(extension) == ImageFile <==> Lower(extension) in IMAGE_EXTENSIONS
    ensures Classify(extension) == TextFile <==> Lower(extension) in TEXT_EXTENSIONS
    ensures Classify(extension) == OtherFile <==>
      Lower(extension) !in IMAGE_EXTENSIONS + TEXT_EXTENSIONS
  {
    var ext := Lower(extension);
    LowerIdempotent(extension);
    assert Classify(extension) == Classify(ext) by {
      assert Lower(ext) == ext;
    }
  }

  /** An upper-case image extension is an image. */
  lemma UpperCaseImage()
    ensures Classify(".PNG") == ImageFile
  {
    assert Lower(".PNG") == ".png" by {
      assert Lower("G") == "g";
      assert Lower("NG") == "ng";
      assert Lower("PNG") == "png";
    }
  }

  predicate NeedsResize(img: Matrix) {
    img.rows > MAX_IMAGE_SIDE || img.cols > MAX_IMAGE_SIDE
  }

  /**
   * The zoom factor `100 / max(h, w)` of an image with a side over 100: it
   * shrinks, brings the longer side to exactly 100 and keeps the other at
   * most 100.
   */
  function ZoomFactor(rows: nat, cols: nat): (z: real)
    requires rows > MAX_IMAGE_SIDE || cols > MAX_IMAGE_SIDE
    ensures 0.0 < z < 1.0
    ensures (if rows >= cols then rows else cols) as real * z == MAX_IMAGE_SIDE as real
    ensures rows as real * z <= MAX_IMAGE_SIDE as real
    ensures cols as real * z <= MAX_IMAGE_SIDE as real
  {
    var longest := if rows >= cols then rows else cols;
    var z := MAX_IMAGE_SIDE as real / longest as real;
    assert longest as real * z == MAX_IMAGE_SIDE as real;
    assert rows as real * z <= longest as real * z;
    assert cols as real * z <= longest as real * z;
    z
  }

  /**
   * The image policy: a decoding failure yields the 10×10 zero matrix; a
   * decoded image with both sides at most 100 is kept as it is; a larger one
   * is rescaled by its zoom factor.
   */
  function ImageMatrix(decoded: Option<Matrix>, zoom: (Matrix, real) -> Matrix): (r: Matrix)
    ensures decoded.None? ==> (r.rows == 10 && r.cols == 10 &&
      forall i, j | 0 <= i < 10 && 0 <= j < 10 :: r.cells[i][j] == 0.0)
    ensures decoded.Some? && !NeedsResize(decoded.value) ==> r == decoded.value
    ensures decoded.Some? && NeedsResize(decoded.value) ==>
      r == zoom(decoded.value, ZoomFactor(decoded.value.rows, decoded.value.cols))
  {
    match decoded
    case None => Filled(10, 10, 0.0)
    case Some(img) =>
      if NeedsResize(img) then zoom(img, ZoomFactor(img.rows, img.cols)) else img
  }

  /**
   * The fallback of the text policy, built from the file's metadata:
   * `[[size % 100, mtime % 100], [mtime % 50, size % 50]]`.
   */
  function StatMatrix(size: nat, mtime: nat): (m: Matrix)
    ensures m.rows == 2 && m.cols == 2
    ensures m.cells[0][0] == (size % 100) as real && m.cells[0][1] == (mtime % 100) as real
    ensures m.cells[1][0] == (mtime % 50) as real && m.cells[1][1] == (size % 50) as real
  {
    RawMatrix(2, 2, [[(size % 100) as real, (mtime % 100) as real],
                     [(mtime % 50) as real, (size % 50) as real]])
  }

  /** The text policy: the parsed table, or the metadata fallback when parsing raised. */
  function TextArray(parsed: Option<Array>, size: nat, mtime: nat): Array {
    match parsed
    case Some(a) => a
    case None => Grid(StatMatrix(size, mtime))
  }

  /** Python's `min(max(x, lo), hi)`. */
  function Clamp(x: int, lo: int, hi: int): int {
    var atLeast := if lo > x then lo else x;
    if hi < atLeast then hi else atLeast
  }

  /**
   * The policy for every other file: `min(max(size / 1000, 5), 50)` rows,
   * `min(max(mtime % 100, 5), 50)` columns, and cell (i, j) holding
   * `(i * j + size + mtime) % 255`.
   */
  function MetadataMatrix(size: nat, mtime: nat): (m: Matrix)
    ensures 5 <= m.rows <= 50 && 5 <= m.cols <= 50
    ensures 5 <= size / 1000 <= 50 ==> m.rows == size / 1000
    ensures size / 1000 < 5 ==> m.rows == 5
    ensures size / 1000 > 50 ==> m.rows == 50
    ensures 5 <= mtime % 100 <= 50 ==> m.cols == mtime % 100
    ensures mtime % 100 < 5 ==> m.cols == 5
    ensures mtime % 100 > 50 ==> m.cols == 50
    ensures forall i, j | 0 <= i < m.rows && 0 <= j < m.cols ::
      m.cells[i][j] == ((i * j + size + mtime) % 255) as real
  {
    var rows: nat := Clamp(size / 1000, 5, 50);
    var cols: nat := Clamp(mtime % 100, 5, 50);
    RawMatrix(rows, cols, seq(rows, i => seq(cols, j => ((i * j + size + mtime) % 255) as real)))
  }

  /** Every cell of the metadata matrix lies in [0, 255). */
  lemma MetadataCellRange(size: nat, mtime: nat, i: nat, j: nat)
    requires i < MetadataMatrix(size, mtime).rows && j < MetadataMatrix(size, mtime).cols
    ensures 0.0 <= MetadataMatrix(size, mtime).cells[i][j] < 255.0
  {
  }

  /** `process_file_to_data`: the array for one file. */
  function Convert(file: FileRecord, zoom: (Matrix, real) -> Matrix): Array {
    match Classify(file.extension)
    case ImageFile => Grid(ImageMatrix(file.decoded, zoom))
    case TextFile => TextArray(file.parsed, file.size, file.mtime)
    case OtherFile => Grid(MetadataMatrix(file.size, file.mtime))
  }

  /**
   * Each file takes exactly the policy its lower-cased extension selects:
   * the image policy, the parsed table or its metadata fallback, or the
   * metadata matrix.
   */
  lemma ConvertPolicy(file: FileRecord, zoom: (Matrix, real) -> Matrix)
    ensures Lower(file.extension) in IMAGE_EXTENSIONS ==>
      Convert(file, zoom) == Grid(ImageMatrix(file.decoded, zoom))
    ensures Lower(file.extension) in TEXT_EXTENSIONS ==>
      Convert(file, zoom) ==
        if file.parsed.Some? then file.parsed.value else Grid(StatMatrix(file.size, file.mtime))
    ensures Lower(file.extension) !in IMAGE_EXTENSIONS + TEXT_EXTENSIONS ==>
      Convert(file, zoom) == Grid(MetadataMatrix(file.size, file.mtime))
  {
    ExtensionSetsDisjoint();
  }

  /**
   * These policies never fail: the two decoder fallbacks and the metadata
   * policy each yield a non-empty two-dimensional matrix with sides in
   * [2, 50]. A parsed table and a decoded or rescaled image keep the shape
   * their decoder gave them.
   */
  lemma ConvertFallbacksAreMatrices(file: FileRecord, zoom: (Matrix, real) -> Matrix)
    requires Classify(file.extension) == OtherFile ||
             (Classify(file.extension) == TextFile && file.parsed.None?) ||
             (Classify(file.extension) == ImageFile && file.decoded.None?)
    ensures Convert(file, zoom).Grid?
    ensures 2 <= Convert(file, zoom).m.rows <= 50 && 2 <= Convert(file, zoom).m.cols <= 50
    ensures Size(Convert(file, zoom)) > 0
  {
  }
}
