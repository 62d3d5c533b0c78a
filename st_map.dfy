/**
 * The mmlens test helpers: an identity ST-map (every pixel holds its own
 * image or NDC coordinate) and a loop that undistorts or redistorts an
 * interleaved buffer with independent input and output channel counts.
 */
module StMap {
  import opened MathUtils
  import opened StridedBuffer
  import opened DistortionOperations

  /** The test lens: its undistort and distort models, kept abstract. */
  datatype TestLens = TestLens(undistort: Point2 -> Point2, distort: Point2 -> Point2)

  const DirectionUndistort: int := 0
  const DirectionRedistort: int := 1

  /** The values an ST-map cell holds for its unit point: image (0 to 1) or NDC (-0.5 to 0.5) coordinates. */
  function StPixel(ndc: bool): (f: Point2 -> seq<real>)
    ensures HasWidth(f, 2)
  {
    (p: Point2) => if ndc then [-0.5 + p.x, -0.5 + p.y] else [p.x, p.y]
  }

  function Zeros(n: nat): (r: seq<real>)
    ensures |r| == n && forall i :: 0 <= i < n ==> r[i] == 0.0
  {
    seq(n, _ => 0.0)
  }

  /** The state of `generate_st_map_identity` before cell (col, row). */
  ghost predicate StMapState(output: seq<real>, w: nat, h: nat, nc: nat, ndc: bool, undefined: real, row: nat, col: nat)
  {
    row <= h && col <= w && (row == h ==> col == 0) && 2 <= nc
    && |output| == Offset(Offset(h, w), nc)
    && Fits(Offset(row, w) + col, nc, 2, |output|)
    && output == WriteAll(Zeros(|output|), nc, 2, CellsBefore(StPixel(ndc), 2, w, h, undefined, row, col))
  }

  /** One cell of `generate_st_map_identity`: x then y at `(row * w + col) * nc`. */
  method StMapCell(buffer: array<real>, w: nat, h: nat, nc: nat, ndc: bool, undefined: real, row: nat, col: nat)
    requires row < h && col < w
    requires Fits(Offset(row, w) + col + 1, nc, 2, buffer.Length)
    requires StMapState(buffer[..], w, h, nc, ndc, undefined, row, col)
    modifies buffer
    ensures StMapState(buffer[..], w, h, nc, ndc, undefined, row, col + 1)
  {
    ghost var mem := buffer[..];
    ghost var pixel := StPixel(ndc);
    ghost var done := CellsBefore(pixel, 2, w, h, undefined, row, col);
    var index := Index(Index(row, w) + col, nc);
    var x := Ratio(col, w - 1, undefined);
    var y := Ratio(row, h - 1, undefined);
    if ndc {
      x := -0.5 + x;
      y := -0.5 + y;
    }
    buffer[index] := x;
    buffer[index + 1] := y;
    assert [x, y] == pixel(GridPoint(col, row, w, h, undefined));
    assert buffer[..] == Write(mem, index, [x, y]);
    WriteAllSnoc(Zeros(|mem|), nc, 2, done, [x, y]);
  }

  /** The column loop of `generate_st_map_identity` for one row. */
  method StMapRow(buffer: array<real>, w: nat, h: nat, nc: nat, ndc: bool, undefined: real, row: nat)
    requires row < h && Fits(Offset(row + 1, w), nc, 2, buffer.Length)
    requires StMapState(buffer[..], w, h, nc, ndc, undefined, row, 0)
    modifies buffer
    ensures StMapState(buffer[..], w, h, nc, ndc, undefined, row + 1, 0)
  {
    var col := 0;
    while col < w
      invariant StMapState(buffer[..], w, h, nc, ndc, undefined, row, col)
    {
      FitsPrefix(Offset(row + 1, w), Offset(row, w) + col + 1, nc, 2, buffer.Length);
      StMapCell(buffer, w, h, nc, ndc, undefined, row, col);
      col := col + 1;
    }
  }

  /** `w * h` cells of `nc` channels fit in the ST-map buffer. */
  lemma AllCellsFit(w: nat, h: nat, nc: nat)
    requires 2 <= nc
    ensures Fits(Offset(h, w), nc, 2, Offset(Offset(h, w), nc))
  {
    if Offset(h, w) > 0 {
      assert Offset(Offset(h, w), nc) == Offset(Offset(h, w) - 1, nc) + nc;
    }
  }

  /**
   * `generate_st_map_identity`: a zero-filled buffer of `w * h * nc`
   * values in which cell (col, row), at `(row * w + col) * nc`, holds its
   * grid coordinate (col / (w - 1), row / (h - 1)) in its first two
   * channels, shifted by -0.5 for NDC. Both channels are written for every
   * cell, so a cell needs at least two channels.
   */
  method GenerateStMapIdentity(w: nat, h: nat, nc: nat, ndc: bool, undefined: real) returns (buffer: array<real>)
    requires Offset(h, w) == 0 || 2 <= nc
    ensures buffer.Length == Offset(Offset(h, w), nc)
    ensures Offset(h, w) > 0 ==>
              buffer[..] == WriteAll(Zeros(buffer.Length), nc, 2, CellsBefore(StPixel(ndc), 2, w, h, undefined, h, 0))
  {
    var total := Index(h, w);
    buffer := new real[Index(total, nc)](_ => 0.0);
    if total == 0 {
      return;
    }
    assert buffer[..] == Zeros(buffer.Length);
    AllCellsFit(w, h, nc);
    var row := 0;
    while row < h
      invariant StMapState(buffer[..], w, h, nc, ndc, undefined, row, 0)
    {
      OffsetMono(row + 1, h, w);
      FitsPrefix(Offset(h, w), Offset(row + 1, w), nc, 2, buffer.Length);
      StMapRow(buffer, w, h, nc, ndc, undefined, row);
      row := row + 1;
    }
  }

  /**
   * The finished identity ST-map: cell (c, r) holds its grid coordinate
   * in channels 0 and 1 and zero in every other channel.
   */
  lemma {:induction false} StMapEntry(w: nat, h: nat, nc: nat, ndc: bool, undefined: real, r: nat, c: nat, ch: nat)
    requires 2 <= nc && r < h && c < w && ch < nc
    ensures Offset(Offset(r, w) + c, nc) + ch < Offset(Offset(h, w), nc)
    ensures var p := GridPoint(c, r, w, h, undefined);
            var shift := if ndc then -0.5 else 0.0;
            var map_ := WriteAll(Zeros(Offset(Offset(h, w), nc)), nc, 2, CellsBefore(StPixel(ndc), 2, w, h, undefined, h, 0));
            map_[Offset(Offset(r, w) + c, nc) + ch] == (if ch == 0 then shift + p.x else if ch == 1 then shift + p.y else 0.0)
  {
    var total := Offset(Offset(h, w), nc);
    var cells := CellsBefore(StPixel(ndc), 2, w, h, undefined, h, 0);
    var k := Offset(r, w) + c;
    AllCellsFit(w, h, nc);
    CellAt(StPixel(ndc), 2, w, h, undefined, h, 0, r, c);
    OffsetMono(k + 1, Offset(h, w), nc);
    assert Offset(k + 1, nc) == Offset(k, nc) + nc;
    if ch < 2 {
      WriteAllAt(Zeros(total), nc, 2, cells, k, ch);
    } else {
      WriteAllGap(Zeros(total), nc, 2, cells, k, ch);
    }
  }

  /** The test lens's model for the direction: undistort for `DirectionUndistort`, distort otherwise. */
  function ApplyModel(lens: TestLens, direction: int, p: Point2): Point2
  {
    if direction == DirectionUndistort then lens.undistort(p) else lens.distort(p)
  }

  /**
   * The two values `apply_distortion_loop` writes for a point read from
   * the buffer. The buffer layer hands a pixel function the point shifted
   * by +0.5, which this loop does not apply; the shift is undone here.
   */
  function LoopValues(lens: TestLens, direction: int, p: Point2): (r: seq<real>)
    ensures |r| == 2
  {
    var q := ApplyModel(lens, direction, Point2(p.x - 0.5, p.y - 0.5));
    [q.x, q.y]
  }

  function LoopPixel(lens: TestLens, direction: int): (f: Point2 -> seq<real>)
    ensures HasWidth(f, 2)
  {
    (p: Point2) => LoopValues(lens, direction, p)
  }

  /** The state of `apply_distortion_loop` after its first `k` cells. */
  ghost predicate LoopState(lens: TestLens, direction: int, input: seq<real>, output: seq<real>, src: seq<real>, mem: seq<real>,
                            inNc: nat, outNc: nat, aliased: bool, k: nat)
  {
    (aliased ==> |src| == |mem|) && Fits(k, inNc, 2, |src|) && Fits(k, outNc, 2, |mem|)
    && (!aliased ==> input == src)
    && output == Pass(LoopPixel(lens, direction), 2, src, mem, inNc, outNc, aliased, k)
  }

  /** One cell of `apply_distortion_loop`: read x and y, apply the model, write x and y. */
  method LoopCell(lens: TestLens, direction: int, w: nat, inNc: nat, outNc: nat,
                  inData: array<real>, outData: array<real>, row: nat, col: nat, ghost src: seq<real>, ghost mem: seq<real>,
                  ghost k: nat)
    requires k == Offset(row, w) + col
    requires |src| == inData.Length && |mem| == outData.Length
    requires Fits(k + 1, inNc, 2, |src|) && Fits(k + 1, outNc, 2, |mem|)
    requires LoopState(lens, direction, inData[..], outData[..], src, mem, inNc, outNc, inData == outData, k)
    modifies outData
    ensures LoopState(lens, direction, inData[..], outData[..], src, mem, inNc, outNc, inData == outData, k + 1)
  {
    ghost var aliased := inData == outData;
    ghost var from := inData[..];
    ghost var before := outData[..];
    LoopStateFits(lens, direction, from, before, src, mem, inNc, outNc, aliased, k);
    var cell := Index(row, w) + col;
    var inIndex := Index(cell, inNc);
    var outIndex := Index(cell, outNc);
    var x := inData[inIndex];
    var y := inData[inIndex + 1];
    var out := ApplyModel(lens, direction, Point2(x, y));
    WritePair(outData, outIndex, out.x, out.y);
    LoopStateStep(lens, direction, from, before, src, mem, inNc, outNc, aliased, k, out);
    ghost var next := Write(before, Offset(k, outNc), [out.x, out.y]);
    assert outData[..] == next;
    if aliased {
      assert inData[..] == next;
    } else {
      assert inData[..] == from;
    }
  }

  /** Cell `k`'s input and output channels lie inside the buffers. */
  lemma LoopStateFits(lens: TestLens, direction: int, input: seq<real>, output: seq<real>, src: seq<real>, mem: seq<real>,
                      inNc: nat, outNc: nat, aliased: bool, k: nat)
    requires Fits(k + 1, inNc, 2, |src|) && Fits(k + 1, outNc, 2, |mem|)
    requires |input| == |src| && |output| == |mem|
    ensures Offset(k, inNc) + 1 < |input| && Offset(k, outNc) + 2 <= |output|
  {
  }

  /**
   * One cell of the loop: writing the model's (x, y) for input cell `k`
   * into output cell `k` takes the loop state from `k` cells to `k + 1`.
   */
  lemma LoopStateStep(lens: TestLens, direction: int, input: seq<real>, output: seq<real>, src: seq<real>, mem: seq<real>,
                      inNc: nat, outNc: nat, aliased: bool, k: nat, out: Point2)
    requires Fits(k + 1, inNc, 2, |src|) && Fits(k + 1, outNc, 2, |mem|)
    requires LoopState(lens, direction, input, output, src, mem, inNc, outNc, aliased, k)
    requires |input| == |src| && (aliased ==> input == output)
    requires Offset(k, inNc) + 1 < |input| && Offset(k, outNc) + 2 <= |output|
    requires out == ApplyModel(lens, direction, Point2(input[Offset(k, inNc)], input[Offset(k, inNc) + 1]))
    ensures var next := Write(output, Offset(k, outNc), [out.x, out.y]);
      LoopState(lens, direction, if aliased then next else input, next, src, mem, inNc, outNc, aliased, k + 1)
  {
    var f := LoopPixel(lens, direction);
    PassStep(f, 2, src, mem, inNc, outNc, aliased, k);
    LoopValuesAt(lens, direction, input, Offset(k, inNc), out);
    assert f(ReadPoint(input, Offset(k, inNc))) == [out.x, out.y];
    assert (if aliased then output else src) == input;
  }

  /** The loop's values for the point read at `at` are the model applied to the stored (x, y). */
  lemma LoopValuesAt(lens: TestLens, direction: int, input: seq<real>, at: nat, out: Point2)
    requires at + 1 < |input|
    requires out == ApplyModel(lens, direction, Point2(input[at], input[at + 1]))
    ensures LoopValues(lens, direction, ReadPoint(input, at)) == [out.x, out.y]
  {
    var p := ReadPoint(input, at);
    assert Point2(p.x - 0.5, p.y - 0.5) == Point2(input[at], input[at + 1]);
  }

  /** Channels 0 and 1 of an output cell: `x` at `at` and `y` after it. */
  method WritePair(outData: array<real>, at: nat, x: real, y: real)
    requires at + 2 <= outData.Length
    modifies outData
    ensures outData[..] == Write(old(outData[..]), at, [x, y])
  {
    outData[at] := x;
    outData[at + 1] := y;
    assert outData[..] == Write(old(outData[..]), at, [x, y]);
  }

  /** The column loop of `apply_distortion_loop` for one row. */
  method LoopRow(lens: TestLens, direction: int, w: nat, inNc: nat, outNc: nat,
                 inData: array<real>, outData: array<real>, row: nat, ghost src: seq<real>, ghost mem: seq<real>)
    requires |src| == inData.Length && |mem| == outData.Length
    requires Fits(Offset(row + 1, w), inNc, 2, |src|) && Fits(Offset(row + 1, w), outNc, 2, |mem|)
    requires LoopState(lens, direction, inData[..], outData[..], src, mem, inNc, outNc, inData == outData, Offset(row, w))
    modifies outData
    ensures LoopState(lens, direction, inData[..], outData[..], src, mem, inNc, outNc, inData == outData, Offset(row + 1, w))
  {
    ghost var end := Offset(row + 1, w);
    ghost var k := Offset(row, w);
    var col := 0;
    while col < w
      invariant col <= w && k == Offset(row, w) + col && end == Offset(row, w) + w
      invariant LoopState(lens, direction, inData[..], outData[..], src, mem, inNc, outNc, inData == outData, k)
    {
      FitsPrefix(end, k + 1, inNc, 2, |src|);
      FitsPrefix(end, k + 1, outNc, 2, |mem|);
      LoopCell(lens, direction, w, inNc, outNc, inData, outData, row, col, src, mem, k);
      col := col + 1;
      k := k + 1;
    }
    assert k == end;
  }

  /**
   * `apply_distortion_loop`: cell `k = row * w + col` is read from
   * channels 0 and 1 at `k * inNc`, undistorted or distorted, and written
   * to channels 0 and 1 at `k * outNc`; other output channels are left
   * alone. The buffers may be the same array.
   */
  method ApplyDistortionLoop(lens: TestLens, direction: int, w: nat, h: nat, inNc: nat, outNc: nat,
                             inData: array<real>, outData: array<real>)
    requires Fits(Offset(h, w), inNc, 2, inData.Length) && Fits(Offset(h, w), outNc, 2, outData.Length)
    modifies outData
    ensures outData[..] == Pass(LoopPixel(lens, direction), 2, old(inData[..]), old(outData[..]),
                                inNc, outNc, inData == outData, Offset(h, w))
  {
    ghost var src := inData[..];
    ghost var mem := outData[..];
    var row := 0;
    while row < h
      invariant row <= h
      invariant LoopState(lens, direction, inData[..], outData[..], src, mem, inNc, outNc, inData == outData, Offset(row, w))
    {
      OffsetMono(row + 1, h, w);
      FitsPrefix(Offset(h, w), Offset(row + 1, w), inNc, 2, |src|);
      FitsPrefix(Offset(h, w), Offset(row + 1, w), outNc, 2, |mem|);
      LoopRow(lens, direction, w, inNc, outNc, inData, outData, row, src, mem);
      row := row + 1;
    }
  }

  /**
   * With separate buffers, output cell `k` holds the model applied to
   * input cell `k`'s (x, y), and channels from 2 up keep their old values.
   */
  lemma {:induction false} LoopResult(lens: TestLens, direction: int, src: seq<real>, mem: seq<real>, inNc: nat, outNc: nat, n: nat, k: nat, ch: nat)
    requires Fits(n, inNc, 2, |src|) && Fits(n, outNc, 2, |mem|) && 2 <= outNc && k < n && ch < outNc
    requires Offset(k, outNc) + ch < |mem|
    ensures Offset(k, inNc) + 1 < |src|
    ensures var q := ApplyModel(lens, direction, Point2(src[Offset(k, inNc)], src[Offset(k, inNc) + 1]));
            Pass(LoopPixel(lens, direction), 2, src, mem, inNc, outNc, false, n)[Offset(k, outNc) + ch]
            == (if ch == 0 then q.x else if ch == 1 then q.y else mem[Offset(k, outNc) + ch])
  {
    var f := LoopPixel(lens, direction);
    PassSeparate(f, 2, src, mem, inNc, outNc, n);
    BufferPixelAt(f, 2, src, inNc, n, k);
    var at := Offset(k, inNc);
    assert ReadPoint(src, at) == Point2(src[at] + 0.5, src[at + 1] + 0.5);
    assert Point2(src[at] + 0.5 - 0.5, src[at + 1] + 0.5 - 0.5) == Point2(src[at], src[at + 1]);
    if ch < 2 {
      WriteAllAt(mem, outNc, 2, BufferPixels(f, 2, src, inNc, n), k, ch);
    } else {
      WriteAllGap(mem, outNc, 2, BufferPixels(f, 2, src, inNc, n), k, ch);
    }
  }
}
