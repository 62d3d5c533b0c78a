/**
 * The pure parts of the mmConvertImage command: frame-number path
 * expansion, pixel-type guessing from a format or file name, the
 * same-path refusal, and the per-frame success/failure counting of the
 * command's main loop. Image reading, resizing, gamma correction and
 * writing are Maya I/O and enter only as the outcome of a conversion.
 */
module ConvertImage {
  import opened StringUtils

  const U32_MODULUS: int := 0x1_0000_0000

  /** A C++ conversion of a 32-bit signed value to `uint32_t`. */
  function ToU32(x: int): (r: nat)
    ensures r < U32_MODULUS
    ensures 0 <= x < U32_MODULUS ==> r == x
  {
    x % U32_MODULUS
  }

  const I32_BOUND: int := 0x8000_0000

  /**
   * A C++ `static_cast<int>` of a `uint32_t` value: from 2^31 up the
   * value wraps to a negative one. Only the low 32 bits of `x` count.
   */
  function ToI32(x: nat): (r: int)
    ensures -I32_BOUND <= r < I32_BOUND
    ensures x < I32_BOUND ==> r == x
    ensures I32_BOUND <= x < U32_MODULUS ==> r == x - U32_MODULUS
  {
    var u := x % U32_MODULUS;
    if u < I32_BOUND then u else u - U32_MODULUS
  }

  /**
   * The decimal frame number, left-padded with '0' to at least `padding`
   * characters. The number of zeros is computed on `int`s, so a
   * `uint32_t` padding of 2^31 or more is negative there and adds none.
   */
  function PadNumber(frameNumber: nat, padding: nat): (r: string)
    ensures IsDigits(r) && DigitsValue(r) == frameNumber
    ensures |r| == if ToI32(padding) > |NumberToString(frameNumber)| then ToI32(padding) else |NumberToString(frameNumber)|
    ensures EndsWith(r, NumberToString(frameNumber))
  {
    var digits := NumberToString(frameNumber);
    var extra := ToI32(padding) - |digits|;
    var zeros := if extra > 0 then extra else 0;
    var r := Zeros(zeros) + digits;
    LeadingZerosValue(zeros, digits);
    assert r[|r| - |digits|..] == digits;
    r
  }

  /** A padding no wider than the number leaves the number as it is. */
  lemma NarrowPaddingIsNumber(frameNumber: nat, padding: nat)
    requires ToI32(padding) <= |NumberToString(frameNumber)|
    ensures PadNumber(frameNumber, padding) == NumberToString(frameNumber)
  {
    var r := PadNumber(frameNumber, padding);
    assert r == r[|r| - |NumberToString(frameNumber)|..];
  }

  /**
   * A padding of -1, which the command turns into 4294967295, pads
   * nothing: the '#' run becomes the bare frame number.
   */
  lemma MinusOnePaddingPadsNothing(filePath: string, frame: nat, first: nat, last: nat)
    requires frame < U32_MODULUS
    requires first <= last < |filePath| && filePath[first] == '#' && filePath[last] == '#'
    requires '#' !in filePath[..first] && '#' !in filePath[last + 1..]
    ensures ToU32(-1) == U32_MODULUS - 1
    ensures FramePath(filePath, -1, frame) == filePath[..first] + NumberToString(frame) + filePath[last + 1..]
  {
    var padding := ToU32(-1);
    assert padding == U32_MODULUS - 1;
    NarrowPaddingIsNumber(frame, padding);
    ExpandWithHash(filePath, padding, frame, first, last);
  }

  function Zeros(n: nat): (r: string)
    ensures |r| == n && forall i :: 0 <= i < n ==> r[i] == '0'
  {
    if n == 0 then [] else ['0'] + Zeros(n - 1)
  }

  /** Leading zeros do not change the value of a digit string. */
  lemma {:induction false} LeadingZerosValue(n: nat, digits: string)
    requires IsDigits(digits)
    ensures IsDigits(Zeros(n) + digits) && DigitsValue(Zeros(n) + digits) == DigitsValue(digits)
  {
    var s := Zeros(n) + digits;
    assert forall i :: 0 <= i < |s| ==> IsDigit(s[i]);
    if |digits| == 1 {
      ZerosValue(n);
      assert s[..|s| - 1] == Zeros(n);
    } else {
      assert s[..|s| - 1] == Zeros(n) + digits[..|digits| - 1];
      LeadingZerosValue(n, digits[..|digits| - 1]);
    }
  }

  lemma {:induction false} ZerosValue(n: nat)
    ensures forall i :: 0 <= i < n ==> IsDigit(Zeros(n)[i])
    ensures DigitsValue(Zeros(n)) == 0
  {
    if n > 0 {
      assert Zeros(n)[..n - 1] == Zeros(n - 1);
      ZerosValue(n - 1);
    }
  }

  /**
   * Replaces the text from the first to the last '#' of `filePath` by
   * the padded frame number; a path without '#' is not an image sequence
   * and is returned unchanged.
   */
  function ExpandFilePathWithFrameNumber(filePath: string, framePadding: nat, frameNumber: nat): (r: string)
  {
    var first := IndexOf(filePath, '#');
    if first == -1 then filePath
    else
      var last := LastIndexOf(filePath, '#');
      filePath[..first] + PadNumber(frameNumber, framePadding) + filePath[last + 1..]
  }

  lemma ExpandWithoutHash(filePath: string, framePadding: nat, frameNumber: nat)
    requires '#' !in filePath
    ensures ExpandFilePathWithFrameNumber(filePath, framePadding, frameNumber) == filePath
  {
  }

  /**
   * With '#' at `first` (its first occurrence) and at `last` (its last
   * occurrence), the expansion keeps the text before `first` and after
   * `last` and puts the padded frame number in between.
   */
  lemma ExpandWithHash(filePath: string, framePadding: nat, frameNumber: nat, first: nat, last: nat)
    requires first <= last < |filePath| && filePath[first] == '#' && filePath[last] == '#'
    requires '#' !in filePath[..first] && '#' !in filePath[last + 1..]
    ensures ExpandFilePathWithFrameNumber(filePath, framePadding, frameNumber)
            == filePath[..first] + PadNumber(frameNumber, framePadding) + filePath[last + 1..]
  {
    IndexOfAt(filePath, '#', first);
    LastIndexOfAt(filePath, '#', last);
  }

  datatype PixelType = Byte | Float

  /** "exr" and "hdr", in any letter case, are floating-point formats; anything else is 8-bit. */
  function GuessOutputFormatPixelType(outputFormat: string): (r: PixelType)
    ensures r == Float <==> ToLower(outputFormat) == "exr" || ToLower(outputFormat) == "hdr"
  {
    var format := ToLower(outputFormat);
    if format == "exr" then Float else if format == "hdr" then Float else Byte
  }

  lemma GuessOutputFormatIgnoresCase(outputFormat: string)
    ensures GuessOutputFormatPixelType(ToLower(outputFormat)) == GuessOutputFormatPixelType(outputFormat)
  {
    ToLowerIdempotent(outputFormat);
  }

  /** The text after the last '.' of a name (all of it when there is no '.'). */
  function Extension(name: string): (r: string)
    ensures '.' !in r && EndsWith(name, r)
  {
    var parts := Split(name, '.');
    var r := parts[|parts| - 1];
    ExtensionIsSuffix(parts);
    r
  }

  lemma {:induction false} ExtensionIsSuffix(parts: seq<string>)
    requires |parts| >= 1
    ensures EndsWith(Join(parts, '.'), parts[|parts| - 1])
  {
    if |parts| > 1 {
      ExtensionIsSuffix(parts[1..]);
      var j := Join(parts[1..], '.');
      assert Join(parts, '.') == parts[0] + ['.'] + j;
      var e := parts[|parts| - 1];
      assert parts[1..][|parts[1..]| - 1] == e;
      assert (parts[0] + ['.'] + j)[|parts[0] + ['.'] + j| - |e|..] == j[|j| - |e|..];
    }
  }

  /** The pixel type implied by a file path's lower-cased extension. */
  function GuessFilePathPixelType(filePath: string): (r: PixelType)
    ensures r == Float <==> Extension(ToLower(filePath)) == "exr" || Extension(ToLower(filePath)) == "hdr"
  {
    var ext := Extension(ToLower(filePath));
    ToLowerIdempotent(filePath);
    Lower(ext, ToLower(filePath));
    GuessOutputFormatPixelType(ext)
  }

  /** A suffix of an already lower-cased string is lower-cased. */
  lemma Lower(suffix: string, s: string)
    requires ToLower(s) == s && EndsWith(s, suffix)
    ensures ToLower(suffix) == suffix
  {
    ToLowerAt(s);
    ToLowerAt(suffix);
    assert forall i :: 0 <= i < |suffix| ==> suffix[i] == s[|s| - |suffix| + i];
  }

  datatype Status = Success | Failure

  /**
   * The conversion of one frame. `io` stands for the status of reading,
   * converting and writing the image, which is Maya I/O; it is reached
   * only for distinct source and destination paths.
   */
  function ConvertImageStatus(srcFilePath: string, dstFilePath: string, io: Status): (r: Status)
    ensures srcFilePath == dstFilePath ==> r == Failure
    ensures srcFilePath != dstFilePath ==> r == io
  {
    if srcFilePath == dstFilePath then Failure else io
  }

  /**
   * The file system queries one frame needs: whether a source path
   * exists, how a path resolves (empty when it does not), and the
   * outcome of converting a pair of paths.
   */
  datatype FileSystem = FileSystem(
    exists_: string -> bool,
    resolve: string -> string,
    convert: (string, string) -> Status)

  datatype Arguments = Arguments(
    srcFilePath: string, dstFilePath: string,
    srcFrameStart: int, srcFrameEnd: int, srcFramePadding: int,
    dstFrameStart: int, dstFramePadding: int)

  /** `find_file_path`: the resolved name when it is non-empty, else the path as given. */
  function FindFilePath(fs: FileSystem, path: string): string
  {
    if |fs.resolve(path)| > 0 then fs.resolve(path) else path
  }

  /** Does converting `src` to `dst` succeed: the source exists and both paths resolve? */
  predicate ConvertSucceeds(fs: FileSystem, src: string, dst: string)
  {
    fs.exists_(src)
    && var srcPath := FindFilePath(fs, src);
       var dstPath := FindFilePath(fs, dst);
       |srcPath| > 0 && |dstPath| > 0
       && ConvertImageStatus(srcPath, dstPath, fs.convert(srcPath, dstPath)) == Success
  }

  /** The path of one frame: the template expanded with the frame number, both taken as `uint32_t`. */
  function FramePath(filePath: string, framePadding: int, frame: int): string
  {
    ExpandFilePathWithFrameNumber(filePath, ToU32(framePadding), ToU32(frame))
  }

  /** Does the conversion of the frame pair (`srcFrame`, `dstFrame`) succeed? */
  predicate FrameSucceeds(fs: FileSystem, args: Arguments, srcFrame: int, dstFrame: int)
  {
    ConvertSucceeds(fs, FramePath(args.srcFilePath, args.srcFramePadding, srcFrame),
                        FramePath(args.dstFilePath, args.dstFramePadding, dstFrame))
  }

  /** One iteration of the frame loop: expand both paths, check, resolve and convert. */
  method ConvertFrame(fs: FileSystem, args: Arguments, srcFrame: int, dstFrame: int) returns (ok: bool)
    ensures ok <==> FrameSucceeds(fs, args, srcFrame, dstFrame)
  {
    var srcPath := FramePath(args.srcFilePath, args.srcFramePadding, srcFrame);
    var dstPath := FramePath(args.dstFilePath, args.dstFramePadding, dstFrame);
    if !fs.exists_(srcPath) {
      return false;
    }
    srcPath := FindFilePath(fs, srcPath);
    dstPath := FindFilePath(fs, dstPath);
    if |srcPath| == 0 || |dstPath| == 0 {
      ok := false;
    } else if ConvertImageStatus(srcPath, dstPath, fs.convert(srcPath, dstPath)) != Success {
      ok := false;
    } else {
      ok := true;
    }
  }

  /**
   * The number of successful frames from the start of the range up to,
   * not including, the pair (`srcFrame`, `dstFrame`).
   */
  function CountSucceeded(fs: FileSystem, args: Arguments, srcFrame: int, dstFrame: int): (c: nat)
    requires srcFrame >= args.srcFrameStart
    ensures c <= srcFrame - args.srcFrameStart
    decreases srcFrame - args.srcFrameStart
  {
    if srcFrame == args.srcFrameStart then 0
    else CountSucceeded(fs, args, srcFrame - 1, dstFrame - 1) + (if FrameSucceeds(fs, args, srcFrame - 1, dstFrame - 1) then 1 else 0)
  }

  /** Counting one more frame adds one exactly when that frame succeeds. */
  lemma CountStep(fs: FileSystem, args: Arguments, srcFrame: int, dstFrame: int)
    requires srcFrame >= args.srcFrameStart
    ensures CountSucceeded(fs, args, srcFrame + 1, dstFrame + 1)
            == CountSucceeded(fs, args, srcFrame, dstFrame) + if FrameSucceeds(fs, args, srcFrame, dstFrame) then 1 else 0
  {
    assert srcFrame + 1 - 1 == srcFrame && dstFrame + 1 - 1 == dstFrame;
  }

  /** The count depends only on where it stops. */
  lemma CountAt(fs: FileSystem, args: Arguments, srcFrame: int, dstFrame: int, srcFrame': int, dstFrame': int)
    requires srcFrame >= args.srcFrameStart && srcFrame == srcFrame' && dstFrame == dstFrame'
    ensures CountSucceeded(fs, args, srcFrame, dstFrame) == CountSucceeded(fs, args, srcFrame', dstFrame')
  {
  }

  /**
   * One iteration of the frame loop with its bookkeeping: the frame is
   * converted and counted as a success or as a failure.
   */
  method CountFrame(fs: FileSystem, args: Arguments, srcFrame: int, dstFrame: int, succeeded: nat, failed: nat)
    returns (succeeded': nat, failed': nat)
    requires srcFrame >= args.srcFrameStart && succeeded == CountSucceeded(fs, args, srcFrame, dstFrame)
    ensures succeeded' == CountSucceeded(fs, args, srcFrame + 1, dstFrame + 1)
    ensures succeeded' + failed' == succeeded + failed + 1
  {
    var ok := ConvertFrame(fs, args, srcFrame, dstFrame);
    CountStep(fs, args, srcFrame, dstFrame);
    if ok {
      succeeded', failed' := succeeded + 1, failed;
    } else {
      succeeded', failed' := succeeded, failed + 1;
    }
  }

  /**
   * The frame loop of the command: every frame from the source start to
   * the source end (inclusive, the destination frame advancing with it)
   * is counted once, as a success or as a failure. The command sets a
   * false result when any frame failed, and also when the range is empty
   * (then all zero frames count as "all failed"); otherwise it sets none.
   */
  method DoIt(fs: FileSystem, args: Arguments)
    returns (totalCount: nat, succeededCount: nat, failCount: nat, resultFalse: bool)
    ensures totalCount == if args.srcFrameEnd >= args.srcFrameStart then args.srcFrameEnd - args.srcFrameStart + 1 else 0
    ensures totalCount == succeededCount + failCount
    ensures succeededCount == CountSucceeded(fs, args, args.srcFrameStart + totalCount, args.dstFrameStart + totalCount)
    ensures resultFalse <==> failCount > 0 || totalCount == 0
  {
    totalCount, succeededCount, failCount := 0, 0, 0;
    var srcFrame, dstFrame := args.srcFrameStart, args.dstFrameStart;
    while srcFrame < args.srcFrameEnd + 1
      invariant srcFrame == args.srcFrameStart + totalCount && dstFrame == args.dstFrameStart + totalCount
      invariant args.srcFrameEnd >= args.srcFrameStart ==> srcFrame <= args.srcFrameEnd + 1
      invariant args.srcFrameEnd < args.srcFrameStart ==> totalCount == 0
      invariant totalCount == succeededCount + failCount
      invariant succeededCount == CountSucceeded(fs, args, srcFrame, dstFrame)
      decreases args.srcFrameEnd + 1 - srcFrame
    {
      totalCount := totalCount + 1;
      succeededCount, failCount := CountFrame(fs, args, srcFrame, dstFrame, succeededCount, failCount);
      srcFrame, dstFrame := srcFrame + 1, dstFrame + 1;
    }
    CountAt(fs, args, srcFrame, dstFrame, args.srcFrameStart + totalCount, args.dstFrameStart + totalCount);
    if totalCount == failCount && succeededCount == 0 {
      resultFalse := true;
    } else if failCount > 0 {
      resultFalse := true;
    } else {
      resultFalse := false;
    }
  }
}
