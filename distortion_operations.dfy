/**
 * The lens-distortion application layer of mmlens: one point, one pixel,
 * a strided buffer (whose input and output may be the same memory) and
 * an identity grid. Points in buffers are in marker space (-0.5 to 0.5);
 * the lens works in unit space (0 to 1) converted to and from the
 * lens's diagonal-normalised (DN) space.
 */
module DistortionOperations {
  import opened MathUtils
  import opened StridedBuffer

  datatype Direction = Undistort | Redistort | UndistortAndRedistort | RedistortAndUndistort

  /** The element type of an output buffer: 64-bit or 32-bit floating point. */
  datatype OutType = F64 | F32

  /**
   * A lens as the buffer layer sees it: `eval` undistorts a DN point and
   * `mapInverse` redistorts one (both are LDPK numerics, left abstract).
   */
  datatype Lens = Lens(eval: Point2 -> Point2, mapInverse: Point2 -> Point2)

  /**
   * The unit-to-DN conversion and its reverse, fixed by the camera
   * parameters and film-back radius.
   */
  datatype Camera = Camera(unitToDn: Point2 -> Point2, dnToUnit: Point2 -> Point2)

  /** The compile-time choices of one pass (direction, output type) and its lens and camera. */
  datatype Setup = Setup(direction: Direction, outType: OutType, camera: Camera, lens: Lens)

  predicate IsSingle(direction: Direction)
  {
    direction == Undistort || direction == Redistort
  }

  /** The number of values written per pixel. */
  function Width(direction: Direction): nat
  {
    if IsSingle(direction) then 2 else 4
  }

  /**
   * `apply_lens_distortion_once`: undistort evaluates the lens in DN
   * space, every other direction evaluates its inverse without a guess.
   */
  function ApplyOnce(direction: Direction, inX: real, inY: real, camera: Camera, lens: Lens): Point2
  {
    var inDn := camera.unitToDn(Point2(inX, inY));
    var outDn := if direction == Undistort then lens.eval(inDn) else lens.mapInverse(inDn);
    camera.dnToUnit(outDn)
  }

  ghost predicate Inverts(f: Point2 -> Point2, g: Point2 -> Point2)
  {
    forall p :: f(g(p)) == p
  }

  /** With exact inverses, redistorting an undistorted unit point gives the point back. */
  lemma RedistortUndistortRoundTrip(x: real, y: real, camera: Camera, lens: Lens)
    requires Inverts(camera.unitToDn, camera.dnToUnit) && Inverts(camera.dnToUnit, camera.unitToDn)
    requires Inverts(lens.mapInverse, lens.eval)
    ensures var u := ApplyOnce(Undistort, x, y, camera, lens);
            ApplyOnce(Redistort, u.x, u.y, camera, lens) == Point2(x, y)
  {
    var p := Point2(x, y);
    var u := camera.dnToUnit(lens.eval(camera.unitToDn(p)));
    assert camera.unitToDn(Point2(u.x, u.y)) == lens.eval(camera.unitToDn(p));
    assert lens.mapInverse(lens.eval(camera.unitToDn(p))) == camera.unitToDn(p);
    assert camera.dnToUnit(camera.unitToDn(p)) == p;
  }

  /** Marker space value of a unit coordinate, or the raw unit value for 32-bit output. */
  function OutValue(outType: OutType, unit: real): real
  {
    if outType == F32 then unit else unit - 0.5
  }

  /**
   * The values `apply_lens_distortion_to_pixel` writes for the unit point
   * (inX, inY): two for a single direction, four for both directions.
   */
  function PixelValues(setup: Setup, inX: real, inY: real): (r: seq<real>)
    ensures |r| == Width(setup.direction)
    ensures IsSingle(setup.direction) ==>
              var o := ApplyOnce(setup.direction, inX, inY, setup.camera, setup.lens);
              r == [OutValue(setup.outType, o.x), OutValue(setup.outType, o.y)]
    ensures setup.direction == UndistortAndRedistort ==>
              var u := ApplyOnce(Undistort, inX, inY, setup.camera, setup.lens);
              var d := ApplyOnce(Redistort, inX, inY, setup.camera, setup.lens);
              r == [OutValue(setup.outType, u.x), OutValue(setup.outType, u.y),
                    OutValue(setup.outType, d.x), OutValue(setup.outType, d.y)]
    ensures setup.direction == RedistortAndUndistort ==>
              var u := ApplyOnce(Undistort, inX, inY, setup.camera, setup.lens);
              var d := ApplyOnce(Redistort, inX, inY, setup.camera, setup.lens);
              r == [OutValue(setup.outType, d.x), OutValue(setup.outType, d.y),
                    OutValue(setup.outType, u.x), OutValue(setup.outType, u.y)]
  {
    var t := setup.outType;
    if IsSingle(setup.direction) then
      var o := ApplyOnce(setup.direction, inX, inY, setup.camera, setup.lens);
      [OutValue(t, o.x), OutValue(t, o.y)]
    else
      var u := ApplyOnce(Undistort, inX, inY, setup.camera, setup.lens);
      var d := ApplyOnce(Redistort, inX, inY, setup.camera, setup.lens);
      var undistorted := [OutValue(t, u.x), OutValue(t, u.y)];
      var redistorted := [OutValue(t, d.x), OutValue(t, d.y)];
      if setup.direction == UndistortAndRedistort then undistorted + redistorted
      else redistorted + undistorted
  }

  /**
   * A marker-space point undistorted into a 64-bit buffer and read back
   * for redistortion returns to the same marker-space point.
   */
  lemma MarkerSpaceRoundTrip(mx: real, my: real, camera: Camera, lens: Lens)
    requires Inverts(camera.unitToDn, camera.dnToUnit) && Inverts(camera.dnToUnit, camera.unitToDn)
    requires Inverts(lens.mapInverse, lens.eval)
    ensures var u := PixelValues(Setup(Undistort, F64, camera, lens), mx + 0.5, my + 0.5);
            PixelValues(Setup(Redistort, F64, camera, lens), u[0] + 0.5, u[1] + 0.5) == [mx, my]
  {
    RedistortUndistortRoundTrip(mx + 0.5, my + 0.5, camera, lens);
  }

  /**
   * `apply_lens_distortion_to_pixel`: the pixel's values are written at
   * `at`, and nothing else changes. Both directions at once need a
   * stride of at least 4, which the source asserts.
   */
  method ApplyToPixel(setup: Setup, inX: real, inY: real, outData: array<real>, at: nat)
    requires at + Width(setup.direction) <= outData.Length
    modifies outData
    ensures outData[..] == Write(old(outData[..]), at, PixelValues(setup, inX, inY))
  {
    var vals := PixelValues(setup, inX, inY);
    outData[at] := vals[0];
    outData[at + 1] := vals[1];
    if !IsSingle(setup.direction) {
      outData[at + 2] := vals[2];
      outData[at + 3] := vals[3];
    }
    assert outData[..] == Write(old(outData[..]), at, vals);
  }

  /** The pixel computation of one pass, as a function of the unit-space input point. */
  function Pixel(setup: Setup): (f: Point2 -> seq<real>)
    ensures HasWidth(f, Width(setup.direction))
  {
    (p: Point2) => PixelValues(setup, p.x, p.y)
  }

  /**
   * The state of an `apply_lens_distortion_to_buffer` pass after its
   * first `i` points: the input is untouched unless it is the output, and
   * the output holds the pass so far.
   */
  ghost predicate BufferState(setup: Setup, input: seq<real>, output: seq<real>, src: seq<real>, mem: seq<real>,
                              inStride: nat, outStride: nat, aliased: bool, i: nat)
  {
    (aliased ==> |src| == |mem|) && Fits(i, inStride, 2, |src|) && Fits(i, outStride, Width(setup.direction), |mem|)
    && (!aliased ==> input == src)
    && output == Pass(Pixel(setup), Width(setup.direction), src, mem, inStride, outStride, aliased, i)
  }

  /**
   * One iteration of `apply_lens_distortion_to_buffer`: point `i` is read
   * from the input (shifted from marker to unit space) before its pixel
   * is written at `i * outStride`, which extends the pass by one point.
   */
  method ApplyToBufferPoint(setup: Setup, inData: array<real>, inStride: nat, outData: array<real>, outStride: nat,
                            i: nat, ghost src: seq<real>, ghost mem: seq<real>)
    requires |src| == inData.Length && |mem| == outData.Length
    requires Fits(i + 1, inStride, 2, |src|) && Fits(i + 1, outStride, Width(setup.direction), |mem|)
    requires BufferState(setup, inData[..], outData[..], src, mem, inStride, outStride, inData == outData, i)
    modifies outData
    ensures BufferState(setup, inData[..], outData[..], src, mem, inStride, outStride, inData == outData, i + 1)
  {
    PassStep(Pixel(setup), Width(setup.direction), src, mem, inStride, outStride, inData == outData, i);
    ghost var from := inData[..];
    var inIndex := Index(i, inStride);
    var inX := inData[inIndex] + 0.5;
    var inY := inData[inIndex + 1] + 0.5;
    assert Point2(inX, inY) == ReadPoint(from, inIndex);
    var outIndex := Index(i, outStride);
    ApplyToPixel(setup, inX, inY, outData, outIndex);
  }

  /** The loop of `apply_lens_distortion_to_buffer` over its first `n` points. */
  method ApplyToBufferPoints(setup: Setup, inData: array<real>, n: nat, inStride: nat, outData: array<real>, outStride: nat)
    requires Fits(n, inStride, 2, inData.Length) && Fits(n, outStride, Width(setup.direction), outData.Length)
    modifies outData
    ensures outData[..] == Pass(Pixel(setup), Width(setup.direction), old(inData[..]), old(outData[..]),
                                inStride, outStride, inData == outData, n)
  {
    ghost var src := inData[..];
    ghost var mem := outData[..];
    var i := 0;
    while i < n
      invariant i <= n
      invariant BufferState(setup, inData[..], outData[..], src, mem, inStride, outStride, inData == outData, i)
    {
      FitsPrefix(n, i + 1, outStride, Width(setup.direction), |mem|);
      FitsPrefix(n, i + 1, inStride, 2, |src|);
      ApplyToBufferPoint(setup, inData, inStride, outData, outStride, i, src, mem);
      i := i + 1;
    }
  }

  /**
   * `apply_lens_distortion_to_buffer`: point `i` of the input (marker
   * space, `inStride` apart, `inSize / inStride` points) is shifted to
   * unit space and its pixel is written at `i * outStride`. The two
   * buffers may be the same array; then each point is read before its
   * own pixel is written, and when output slots are no wider than input
   * slots the result is the same as for a separate copy.
   */
  method ApplyToBuffer(setup: Setup, inData: array<real>, inSize: nat, inStride: nat, outData: array<real>, outStride: nat)
    requires inStride > 0 && inSize <= inData.Length
    requires Fits(inSize / inStride, inStride, 2, inData.Length)
    requires Fits(inSize / inStride, outStride, Width(setup.direction), outData.Length)
    requires !IsSingle(setup.direction) ==> outStride >= 4
    modifies outData
    ensures outData[..] == Pass(Pixel(setup), Width(setup.direction), old(inData[..]), old(outData[..]),
                                inStride, outStride, inData == outData, inSize / inStride)
    ensures inData != outData || Width(setup.direction) <= outStride <= inStride ==>
              outData[..] == WriteAll(old(outData[..]), outStride, Width(setup.direction),
                                      BufferPixels(Pixel(setup), Width(setup.direction), old(inData[..]), inStride, inSize / inStride))
  {
    var n := inSize / inStride;
    ghost var src := inData[..];
    ghost var mem := outData[..];
    ApplyToBufferPoints(setup, inData, n, inStride, outData, outStride);
    if inData != outData || Width(setup.direction) <= outStride <= inStride {
      PassClosedForm(Pixel(setup), Width(setup.direction), src, mem, inStride, outStride, inData == outData, n);
    }
  }

  /**
   * `k / d` in floating point; `undefined` stands for the value of
   * 0.0 / 0.0 (NaN), which occurs for a grid one pixel wide or high.
   */
  function Ratio(k: nat, d: nat, undefined: real): real
  {
    if d == 0 then undefined else k as real / d as real
  }

  /** The unit-space point of grid cell (col, row) in a `w` by `h` identity grid. */
  function GridPoint(col: nat, row: nat, w: nat, h: nat, undefined: real): Point2
    requires col < w && row < h
  {
    Point2(Ratio(col, w - 1, undefined), Ratio(row, h - 1, undefined))
  }

  /** The grid's corner cells are the corners of the unit square. */
  lemma GridCorners(w: nat, h: nat, undefined: real)
    requires w > 1 && h > 1
    ensures GridPoint(0, 0, w, h, undefined) == Point2(0.0, 0.0)
    ensures GridPoint(w - 1, h - 1, w, h, undefined) == Point2(1.0, 1.0)
  {
  }

  /** Along a row the x coordinate increases strictly from cell to cell. */
  lemma GridIncreasing(col: nat, row: nat, w: nat, h: nat, undefined: real)
    requires col + 1 < w && row < h
    ensures GridPoint(col, row, w, h, undefined).x < GridPoint(col + 1, row, w, h, undefined).x
  {
    var d := (w - 1) as real;
    assert col as real / d < (col + 1) as real / d by {
      assert d > 0.0;
      assert (col + 1) as real / d - col as real / d == 1.0 / d;
    }
  }

  /**
   * The pixels of the grid cells before cell (col, row) in row-major
   * order; `(row, w)` and `(row + 1, 0)` name the same position.
   */
  function CellsBefore(pixel: Point2 -> seq<real>, width: nat, w: nat, h: nat, undefined: real, row: nat, col: nat): (res: seq<seq<real>>)
    requires HasWidth(pixel, width) && row <= h && col <= w && (row == h ==> col == 0)
    ensures |res| == Offset(row, w) + col && Uniform(res, width)
    decreases row, col
  {
    if col > 0 then CellsBefore(pixel, width, w, h, undefined, row, col - 1) + [pixel(GridPoint(col - 1, row, w, h, undefined))]
    else if row > 0 then CellsBefore(pixel, width, w, h, undefined, row - 1, w)
    else []
  }

  /** Cell `c` of row `r` is pixel `r * w + c` of the grid's row-major order. */
  lemma {:induction false} CellAt(pixel: Point2 -> seq<real>, width: nat, w: nat, h: nat, undefined: real,
                                  row: nat, col: nat, r: nat, c: nat)
    requires HasWidth(pixel, width) && row <= h && col <= w && (row == h ==> col == 0)
    requires c < w && (r < row || (r == row && c < col))
    ensures r < h && Offset(r, w) + c < Offset(row, w) + col
    ensures CellsBefore(pixel, width, w, h, undefined, row, col)[Offset(r, w) + c] == pixel(GridPoint(c, r, w, h, undefined))
    decreases row, col
  {
    if col > 0 {
      var before := CellsBefore(pixel, width, w, h, undefined, row, col - 1);
      if r == row && c == col - 1 {
        assert |before| == Offset(r, w) + c;
      } else {
        if r < row { OffsetMono(r + 1, row, w); }
        CellAt(pixel, width, w, h, undefined, row, col - 1, r, c);
      }
    } else {
      OffsetMono(r + 1, row, w);
      CellAt(pixel, width, w, h, undefined, row - 1, w, r, c);
    }
  }

  /**
   * The state of `apply_lens_distortion_from_identity` before cell
   * (col, row): every earlier cell's pixel is written in row-major order.
   */
  ghost predicate GridState(setup: Setup, output: seq<real>, mem: seq<real>, outStride: nat,
                            w: nat, h: nat, undefined: real, row: nat, col: nat)
  {
    row <= h && col <= w && (row == h ==> col == 0)
    && Fits(Offset(row, w) + col, outStride, Width(setup.direction), |mem|)
    && output == WriteAll(mem, outStride, Width(setup.direction),
                          CellsBefore(Pixel(setup), Width(setup.direction), w, h, undefined, row, col))
  }

  /**
   * One cell of `apply_lens_distortion_from_identity`: cell (col, row) is
   * pixel `row * w + col` and its input is its unit-space grid point.
   */
  method FromIdentityCell(setup: Setup, w: nat, h: nat, outData: array<real>, outStride: nat, undefined: real,
                          row: nat, col: nat, ghost mem: seq<real>)
    requires row < h && col < w && |mem| == outData.Length
    requires Fits(Offset(row, w) + col + 1, outStride, Width(setup.direction), |mem|)
    requires GridState(setup, outData[..], mem, outStride, w, h, undefined, row, col)
    modifies outData
    ensures GridState(setup, outData[..], mem, outStride, w, h, undefined, row, col + 1)
  {
    ghost var pixel := Pixel(setup);
    ghost var width := Width(setup.direction);
    ghost var done := CellsBefore(pixel, width, w, h, undefined, row, col);
    var index := Index(row, w) + col;
    var inX := Ratio(col, w - 1, undefined);
    var inY := Ratio(row, h - 1, undefined);
    var outIndex := Index(index, outStride);
    assert Point2(inX, inY) == GridPoint(col, row, w, h, undefined);
    WriteAllSnoc(mem, outStride, width, done, pixel(GridPoint(col, row, w, h, undefined)));
    ApplyToPixel(setup, inX, inY, outData, outIndex);
  }

  /** The column loop of `apply_lens_distortion_from_identity` for one row. */
  method FromIdentityRow(setup: Setup, w: nat, h: nat, outData: array<real>, outStride: nat, undefined: real,
                         row: nat, ghost mem: seq<real>)
    requires row < h && |mem| == outData.Length
    requires Fits(Offset(row + 1, w), outStride, Width(setup.direction), |mem|)
    requires GridState(setup, outData[..], mem, outStride, w, h, undefined, row, 0)
    modifies outData
    ensures GridState(setup, outData[..], mem, outStride, w, h, undefined, row + 1, 0)
  {
    var col := 0;
    while col < w
      invariant GridState(setup, outData[..], mem, outStride, w, h, undefined, row, col)
    {
      FitsPrefix(Offset(row + 1, w), Offset(row, w) + col + 1, outStride, Width(setup.direction), |mem|);
      FromIdentityCell(setup, w, h, outData, outStride, undefined, row, col, mem);
      col := col + 1;
    }
  }

  /**
   * `apply_lens_distortion_from_identity`: the pixels of a `w` by `h`
   * identity grid, cell (col, row) at unit point (col / (w - 1),
   * row / (h - 1)), written in row-major order `outStride` apart.
   */
  method FromIdentity(setup: Setup, w: nat, h: nat, outData: array<real>, outStride: nat, undefined: real)
    requires Fits(Offset(h, w), outStride, Width(setup.direction), outData.Length)
    requires !IsSingle(setup.direction) ==> outStride >= 4
    modifies outData
    ensures outData[..] == WriteAll(old(outData[..]), outStride, Width(setup.direction),
                                    CellsBefore(Pixel(setup), Width(setup.direction), w, h, undefined, h, 0))
  {
    ghost var mem := outData[..];
    assert |mem| == outData.Length;
    var row := 0;
    while row < h
      invariant GridState(setup, outData[..], mem, outStride, w, h, undefined, row, 0)
    {
      OffsetMono(row + 1, h, w);
      FitsPrefix(Offset(h, w), Offset(row + 1, w), outStride, Width(setup.direction), |mem|);
      FromIdentityRow(setup, w, h, outData, outStride, undefined, row, mem);
      row := row + 1;
    }
  }
}
