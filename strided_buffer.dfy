/**
 * Flat buffers of interleaved pixel values: pixel `k` of a buffer with
 * stride `s` starts at element `Offset(k, s)`, which is `k * s`.
 * `WriteAll` is the state left by writing a sequence of pixels, one
 * after another, to consecutive strided slots; the lemmas give its
 * closed form.
 */
module StridedBuffer {
  import opened MathUtils

  /** `k * stride`, defined by repeated addition so that proofs reason about it step by step. */
  function Offset(k: nat, stride: nat): nat
  {
    if k == 0 then 0 else Offset(k - 1, stride) + stride
  }

  lemma {:induction false} OffsetIsProduct(k: nat, stride: nat)
    ensures Offset(k, stride) == k * stride
  {
    if k > 0 { OffsetIsProduct(k - 1, stride); }
  }

  /** The element index `k * stride` that the buffer loops compute, equal to `Offset(k, stride)`. */
  function Index(k: nat, stride: nat): (r: nat)
    ensures r == Offset(k, stride)
  {
    OffsetIsProduct(k, stride);
    k * stride
  }

  lemma {:induction false} OffsetMono(a: nat, b: nat, stride: nat)
    requires a <= b
    ensures Offset(a, stride) <= Offset(b, stride)
    decreases b
  {
    if a < b { OffsetMono(a, b - 1, stride); }
  }

  lemma {:induction false} OffsetMonoStride(k: nat, a: nat, b: nat)
    requires a <= b
    ensures Offset(k, a) <= Offset(k, b)
  {
    if k > 0 { OffsetMonoStride(k - 1, a, b); }
  }

  /** `vals` written over `mem` from position `at`, everything else kept. */
  function Write(mem: seq<real>, at: nat, vals: seq<real>): (r: seq<real>)
    requires at + |vals| <= |mem|
    ensures |r| == |mem|
  {
    mem[..at] + vals + mem[at + |vals|..]
  }

  lemma WriteInside(mem: seq<real>, at: nat, vals: seq<real>, c: nat)
    requires at + |vals| <= |mem| && c < |vals|
    ensures Write(mem, at, vals)[at + c] == vals[c]
  {
  }

  lemma WriteOutside(mem: seq<real>, at: nat, vals: seq<real>, p: nat)
    requires at + |vals| <= |mem| && p < |mem| && (p < at || at + |vals| <= p)
    ensures Write(mem, at, vals)[p] == mem[p]
  {
  }

  /** `n` slots of `width` values, `stride` apart, fit in `len` elements. */
  predicate Fits(n: nat, stride: nat, width: nat, len: nat)
  {
    n == 0 || Offset(n - 1, stride) + width <= len
  }

  predicate Uniform(pixels: seq<seq<real>>, width: nat)
  {
    forall k :: 0 <= k < |pixels| ==> |pixels[k]| == width
  }

  lemma FitsPrefix(n: nat, m: nat, stride: nat, width: nat, len: nat)
    requires m <= n && Fits(n, stride, width, len)
    ensures Fits(m, stride, width, len)
  {
    if m > 0 { OffsetMono(m - 1, n - 1, stride); }
  }

  /** Pixel `k` of `pixels` written at `Offset(k, stride)`, for k = 0, 1, ... in turn. */
  function WriteAll(mem: seq<real>, stride: nat, width: nat, pixels: seq<seq<real>>): (r: seq<real>)
    requires Uniform(pixels, width) && Fits(|pixels|, stride, width, |mem|)
    ensures |r| == |mem|
    decreases |pixels|
  {
    if |pixels| == 0 then mem
    else
      var n := |pixels| - 1;
      FitsPrefix(|pixels|, n, stride, width, |mem|);
      Write(WriteAll(mem, stride, width, pixels[..n]), Offset(n, stride), pixels[n])
  }

  /** Slots do not overlap when the stride is at least the width: each holds its own pixel. */
  lemma {:induction false} WriteAllAt(mem: seq<real>, stride: nat, width: nat, pixels: seq<seq<real>>, k: nat, c: nat)
    requires Uniform(pixels, width) && Fits(|pixels|, stride, width, |mem|)
    requires width <= stride && k < |pixels| && c < width
    ensures Offset(k, stride) + c < |mem|
    ensures WriteAll(mem, stride, width, pixels)[Offset(k, stride) + c] == pixels[k][c]
    decreases |pixels|
  {
    var n := |pixels| - 1;
    var pos := Offset(k, stride) + c;
    var at := Offset(n, stride);
    OffsetMono(k, n, stride);
    FitsPrefix(|pixels|, n, stride, width, |mem|);
    var before := WriteAll(mem, stride, width, pixels[..n]);
    assert WriteAll(mem, stride, width, pixels) == Write(before, at, pixels[n]);
    if k < n {
      OffsetMono(k + 1, n, stride);
      assert pos < at;
      assert pixels[..n][k] == pixels[k];
      WriteAllAt(mem, stride, width, pixels[..n], k, c);
    }
  }

  /** Values of a slot beyond the width, between two pixels, are not written. */
  lemma {:induction false} WriteAllGap(mem: seq<real>, stride: nat, width: nat, pixels: seq<seq<real>>, k: nat, c: nat)
    requires Uniform(pixels, width) && Fits(|pixels|, stride, width, |mem|)
    requires k < |pixels| && width <= c < stride && Offset(k, stride) + c < |mem|
    ensures WriteAll(mem, stride, width, pixels)[Offset(k, stride) + c] == mem[Offset(k, stride) + c]
    decreases |pixels|
  {
    var n := |pixels| - 1;
    var pos := Offset(k, stride) + c;
    var at := Offset(n, stride);
    FitsPrefix(|pixels|, n, stride, width, |mem|);
    var before := WriteAll(mem, stride, width, pixels[..n]);
    assert WriteAll(mem, stride, width, pixels) == Write(before, at, pixels[n]);
    if k < n {
      OffsetMono(k + 1, n, stride);
      assert pos < at;
      assert Uniform(pixels[..n], width);
      WriteAllGap(mem, stride, width, pixels[..n], k, c);
      assert WriteAll(mem, stride, width, pixels)[pos] == before[pos];
    } else {
      assert pos == at + c;
      assert WriteAll(mem, stride, width, pixels)[pos] == before[pos];
      WriteAllTail(mem, stride, width, pixels[..n], pos);
    }
  }

  /** Nothing from the start of slot `|pixels|` on is written. */
  lemma {:induction false} WriteAllTail(mem: seq<real>, stride: nat, width: nat, pixels: seq<seq<real>>, p: nat)
    requires Uniform(pixels, width) && Fits(|pixels|, stride, width, |mem|)
    requires width <= stride && Offset(|pixels|, stride) <= p < |mem|
    ensures WriteAll(mem, stride, width, pixels)[p] == mem[p]
    decreases |pixels|
  {
    if |pixels| > 0 {
      var n := |pixels| - 1;
      var at := Offset(n, stride);
      FitsPrefix(|pixels|, n, stride, width, |mem|);
      var before := WriteAll(mem, stride, width, pixels[..n]);
      assert WriteAll(mem, stride, width, pixels) == Write(before, at, pixels[n]);
      assert Offset(|pixels|, stride) == at + stride;
      WriteOutside(before, at, pixels[n], p);
      WriteAllTail(mem, stride, width, pixels[..n], p);
    }
  }

  /** A buffer point in marker space, as the lens expects it in unit space (each coordinate + 0.5). */
  function ReadPoint(src: seq<real>, at: nat): Point2
    requires at + 1 < |src|
  {
    Point2(src[at] + 0.5, src[at + 1] + 0.5)
  }

  ghost predicate HasWidth(pixel: Point2 -> seq<real>, width: nat)
  {
    forall p :: |pixel(p)| == width
  }

  /** The pixels computed for the first `n` points of an input buffer, `inStride` apart. */
  function BufferPixels(pixel: Point2 -> seq<real>, width: nat, src: seq<real>, inStride: nat, n: nat): (r: seq<seq<real>>)
    requires HasWidth(pixel, width) && Fits(n, inStride, 2, |src|)
    ensures |r| == n && Uniform(r, width)
  {
    if n == 0 then []
    else
      FitsPrefix(n, n - 1, inStride, 2, |src|);
      BufferPixels(pixel, width, src, inStride, n - 1) + [pixel(ReadPoint(src, Offset(n - 1, inStride)))]
  }

  /** Pixel `k` comes from the two input values at `Offset(k, inStride)`. */
  lemma {:induction false} BufferPixelAt(pixel: Point2 -> seq<real>, width: nat, src: seq<real>, inStride: nat, n: nat, k: nat)
    requires HasWidth(pixel, width) && Fits(n, inStride, 2, |src|) && k < n
    ensures Offset(k, inStride) + 1 < |src|
    ensures BufferPixels(pixel, width, src, inStride, n)[k] == pixel(ReadPoint(src, Offset(k, inStride)))
  {
    OffsetMono(k, n - 1, inStride);
    FitsPrefix(n, n - 1, inStride, 2, |src|);
    var before := BufferPixels(pixel, width, src, inStride, n - 1);
    var last := pixel(ReadPoint(src, Offset(n - 1, inStride)));
    assert BufferPixels(pixel, width, src, inStride, n) == before + [last];
    if k < n - 1 {
      BufferPixelAt(pixel, width, src, inStride, n - 1, k);
      assert (before + [last])[k] == before[k];
    }
  }

  /**
   * The buffer after the first `n` points of a pass that reads `src` and
   * writes over `mem`. When the two are the same memory (`aliased`),
   * each point reads what the earlier points left there.
   */
  function Pass(pixel: Point2 -> seq<real>, width: nat, src: seq<real>, mem: seq<real>,
                inStride: nat, outStride: nat, aliased: bool, n: nat): (r: seq<real>)
    requires HasWidth(pixel, width) && (aliased ==> |src| == |mem|)
    requires Fits(n, inStride, 2, |src|) && Fits(n, outStride, width, |mem|)
    ensures |r| == |mem|
  {
    if n == 0 then mem
    else
      FitsPrefix(n, n - 1, outStride, width, |mem|);
      FitsPrefix(n, n - 1, inStride, 2, |src|);
      var before := Pass(pixel, width, src, mem, inStride, outStride, aliased, n - 1);
      var from := if aliased then before else src;
      Write(before, Offset(n - 1, outStride), pixel(ReadPoint(from, Offset(n - 1, inStride))))
  }

  lemma WriteAllSnoc(mem: seq<real>, stride: nat, width: nat, pixels: seq<seq<real>>, last: seq<real>)
    requires Uniform(pixels, width) && |last| == width && Fits(|pixels| + 1, stride, width, |mem|)
    ensures Uniform(pixels + [last], width) && Fits(|pixels|, stride, width, |mem|)
    ensures WriteAll(mem, stride, width, pixels + [last])
            == Write(WriteAll(mem, stride, width, pixels), Offset(|pixels|, stride), last)
  {
    FitsPrefix(|pixels| + 1, |pixels|, stride, width, |mem|);
    assert (pixels + [last])[..|pixels|] == pixels;
  }

  /** A pass over separate memory writes each input point's pixel to its slot. */
  lemma {:induction false} PassSeparate(pixel: Point2 -> seq<real>, width: nat, src: seq<real>, mem: seq<real>,
                                        inStride: nat, outStride: nat, n: nat)
    requires HasWidth(pixel, width)
    requires Fits(n, inStride, 2, |src|) && Fits(n, outStride, width, |mem|)
    ensures Pass(pixel, width, src, mem, inStride, outStride, false, n)
            == WriteAll(mem, outStride, width, BufferPixels(pixel, width, src, inStride, n))
  {
    if n > 0 {
      FitsPrefix(n, n - 1, outStride, width, |mem|);
      FitsPrefix(n, n - 1, inStride, 2, |src|);
      PassSeparate(pixel, width, src, mem, inStride, outStride, n - 1);
      var prefix := BufferPixels(pixel, width, src, inStride, n - 1);
      WriteAllSnoc(mem, outStride, width, prefix, pixel(ReadPoint(src, Offset(n - 1, inStride))));
    }
  }

  /** A pass over the first `n` points leaves everything from slot `n` on alone. */
  lemma {:induction false} PassTail(pixel: Point2 -> seq<real>, width: nat, src: seq<real>, mem: seq<real>,
                                    inStride: nat, outStride: nat, aliased: bool, n: nat, p: nat)
    requires HasWidth(pixel, width) && (aliased ==> |src| == |mem|)
    requires Fits(n, inStride, 2, |src|) && Fits(n, outStride, width, |mem|)
    requires width <= outStride && Offset(n, outStride) <= p < |mem|
    ensures Pass(pixel, width, src, mem, inStride, outStride, aliased, n)[p] == mem[p]
  {
    if n > 0 {
      FitsPrefix(n, n - 1, outStride, width, |mem|);
      FitsPrefix(n, n - 1, inStride, 2, |src|);
      var before := Pass(pixel, width, src, mem, inStride, outStride, aliased, n - 1);
      var from := if aliased then before else src;
      var at := Offset(n - 1, outStride);
      var value := pixel(ReadPoint(from, Offset(n - 1, inStride)));
      assert Pass(pixel, width, src, mem, inStride, outStride, aliased, n) == Write(before, at, value);
      assert Offset(n, outStride) == at + outStride;
      WriteOutside(before, at, value, p);
      PassTail(pixel, width, src, mem, inStride, outStride, aliased, n - 1, p);
    }
  }

  /**
   * Reading each point before writing it makes in-place use safe: when
   * output slots are no wider than input slots, the aliased pass leaves
   * the buffer just as a pass reading a separate copy would.
   */
  lemma {:induction false} AliasSafe(pixel: Point2 -> seq<real>, width: nat, mem: seq<real>, inStride: nat, outStride: nat, n: nat)
    requires HasWidth(pixel, width) && width <= outStride <= inStride
    requires Fits(n, inStride, 2, |mem|) && Fits(n, outStride, width, |mem|)
    ensures Pass(pixel, width, mem, mem, inStride, outStride, true, n)
            == Pass(pixel, width, mem, mem, inStride, outStride, false, n)
  {
    if n > 0 {
      FitsPrefix(n, n - 1, outStride, width, |mem|);
      FitsPrefix(n, n - 1, inStride, 2, |mem|);
      AliasSafe(pixel, width, mem, inStride, outStride, n - 1);
      ReadAhead(pixel, width, mem, inStride, outStride, n);
      AliasStep(pixel, width, mem, inStride, outStride, n);
    }
  }

  /** The separate pass over the points before point `n - 1` leaves that point's input alone. */
  lemma ReadAhead(pixel: Point2 -> seq<real>, width: nat, mem: seq<real>, inStride: nat, outStride: nat, n: nat)
    requires HasWidth(pixel, width) && width <= outStride <= inStride && n > 0
    requires Fits(n, inStride, 2, |mem|) && Fits(n - 1, outStride, width, |mem|)
    ensures Fits(n - 1, inStride, 2, |mem|) && Offset(n - 1, inStride) + 1 < |mem|
    ensures ReadPoint(Pass(pixel, width, mem, mem, inStride, outStride, false, n - 1), Offset(n - 1, inStride))
            == ReadPoint(mem, Offset(n - 1, inStride))
  {
    var at := Offset(n - 1, inStride);
    OffsetMonoStride(n - 1, outStride, inStride);
    FitsPrefix(n, n - 1, inStride, 2, |mem|);
    PassTail(pixel, width, mem, mem, inStride, outStride, false, n - 1, at);
    PassTail(pixel, width, mem, mem, inStride, outStride, false, n - 1, at + 1);
  }

  /** If the two passes agree before point `n - 1` and that point reads the same input, they agree after it. */
  lemma AliasStep(pixel: Point2 -> seq<real>, width: nat, mem: seq<real>, inStride: nat, outStride: nat, n: nat)
    requires HasWidth(pixel, width) && n > 0
    requires Fits(n, inStride, 2, |mem|) && Fits(n, outStride, width, |mem|)
    requires Fits(n - 1, inStride, 2, |mem|) && Fits(n - 1, outStride, width, |mem|) && Offset(n - 1, inStride) + 1 < |mem|
    requires Pass(pixel, width, mem, mem, inStride, outStride, true, n - 1)
             == Pass(pixel, width, mem, mem, inStride, outStride, false, n - 1)
    requires ReadPoint(Pass(pixel, width, mem, mem, inStride, outStride, false, n - 1), Offset(n - 1, inStride))
             == ReadPoint(mem, Offset(n - 1, inStride))
    ensures Pass(pixel, width, mem, mem, inStride, outStride, true, n)
            == Pass(pixel, width, mem, mem, inStride, outStride, false, n)
  {
  }

  /**
   * The closed form of a pass: every input point's pixel in its output
   * slot, whenever the pass reads a separate copy or aliasing is safe.
   */
  lemma PassClosedForm(pixel: Point2 -> seq<real>, width: nat, src: seq<real>, mem: seq<real>,
                       inStride: nat, outStride: nat, aliased: bool, n: nat)
    requires HasWidth(pixel, width) && (aliased ==> src == mem)
    requires Fits(n, inStride, 2, |src|) && Fits(n, outStride, width, |mem|)
    requires aliased ==> width <= outStride <= inStride
    ensures Pass(pixel, width, src, mem, inStride, outStride, aliased, n)
            == WriteAll(mem, outStride, width, BufferPixels(pixel, width, src, inStride, n))
  {
    if aliased {
      AliasSafe(pixel, width, mem, inStride, outStride, n);
    }
    PassSeparate(pixel, width, src, mem, inStride, outStride, n);
  }

  /** One more point of a pass reads its input, then writes its slot. */
  lemma PassStep(pixel: Point2 -> seq<real>, width: nat, src: seq<real>, mem: seq<real>,
                 inStride: nat, outStride: nat, aliased: bool, n: nat)
    requires HasWidth(pixel, width) && (aliased ==> |src| == |mem|)
    requires Fits(n + 1, inStride, 2, |src|) && Fits(n + 1, outStride, width, |mem|)
    ensures Fits(n, inStride, 2, |src|) && Fits(n, outStride, width, |mem|)
    ensures Offset(n, inStride) + 1 < |src| && Offset(n, outStride) + width <= |mem|
    ensures var before := Pass(pixel, width, src, mem, inStride, outStride, aliased, n);
            var from := if aliased then before else src;
            Pass(pixel, width, src, mem, inStride, outStride, aliased, n + 1)
            == Write(before, Offset(n, outStride), pixel(ReadPoint(from, Offset(n, inStride))))
  {
    FitsPrefix(n + 1, n, inStride, 2, |src|);
    FitsPrefix(n + 1, n, outStride, width, |mem|);
  }
}
