/**
 * The 3DEqualizer track importer's data handling: the format registry,
 * nearest-keyframe lookup, keyframe data, comment removal, the PFTrack
 * 2D track parser, the UV track format version and the fill of occluded
 * frames. Files are given as their lines or their parsed contents.
 */
module ImportTracks {
  import opened Wrappers
  import opened StringUtils

  // Sorting frame numbers (Python's `sorted` on the integer keys).

  predicate Increasing(s: seq<int>)
  {
    forall i, j :: 0 <= i < j < |s| ==> s[i] < s[j]
  }

  predicate NoDup<T(==)>(s: seq<T>)
  {
    forall i, j :: 0 <= i < j < |s| ==> s[i] != s[j]
  }

  function InsertSorted(x: int, s: seq<int>): (r: seq<int>)
    ensures |r| == |s| + 1
    ensures forall y :: y in r <==> y == x || y in s
    ensures Increasing(s) && x !in s ==> Increasing(r)
  {
    if |s| == 0 then [x]
    else if x < s[0] then [x] + s
    else
      var rest := InsertSorted(x, s[1..]);
      assert Increasing(s) && x !in s ==> forall k :: 0 <= k < |rest| ==> s[0] < rest[k] by {
        if Increasing(s) && x !in s {
          forall k | 0 <= k < |rest| ensures s[0] < rest[k] {
            assert rest[k] in rest;
          }
        }
      }
      [s[0]] + rest
  }

  /** The frame numbers in increasing order. */
  function Sort(s: seq<int>): (r: seq<int>)
    ensures |r| == |s|
    ensures forall y :: y in r <==> y in s
    ensures NoDup(s) ==> Increasing(r)
  {
    if |s| == 0 then []
    else
      assert NoDup(s) ==> s[0] !in s[1..];
      InsertSorted(s[0], Sort(s[1..]))
  }

  lemma FirstIsLeast(s: seq<int>, x: int)
    requires Increasing(s) && x in s
    ensures s[0] <= x
  {
    var j :| 0 <= j < |s| && s[j] == x;
    if j > 0 { assert s[0] < s[j]; }
  }

  lemma LastIsGreatest(s: seq<int>, x: int)
    requires Increasing(s) && x in s
    ensures x <= s[|s| - 1]
  {
    var j :| 0 <= j < |s| && s[j] == x;
    if j < |s| - 1 { assert s[j] < s[|s| - 1]; }
  }

  // `FormatManager`.

  /** The registered loader classes, by their name (`str(class_obj)`), in registration order. */
  class FormatManager<F> {
    var names: seq<string>
    var formats: map<string, F>

    ghost predicate Valid()
      reads this
    {
      NoDup(names) && forall n :: n in names <==> n in formats
    }

    constructor ()
      ensures Valid() && names == [] && formats == map[]
    {
      names := [];
      formats := map[];
    }

    /** `register_format`: a name already registered keeps its first class; always succeeds. */
    method RegisterFormat(name: string, classObj: F) returns (ok: bool)
      requires Valid()
      modifies this
      ensures Valid() && ok
      ensures name in old(formats) ==> names == old(names) && formats == old(formats)
      ensures name !in old(formats) ==> names == old(names) + [name] && formats == old(formats)[name := classObj]
    {
      if name !in formats {
        formats := formats[name := classObj];
        names := names + [name];
      }
      ok := true;
    }

    /** `get_formats`: the registered classes in registration order. */
    method GetFormats() returns (formatList: seq<F>)
      requires Valid()
      ensures |formatList| == |names|
      ensures forall i :: 0 <= i < |names| ==> formatList[i] == formats[names[i]]
    {
      formatList := [];
      for i := 0 to |names|
        invariant |formatList| == i
        invariant forall k :: 0 <= k < i ==> formatList[k] == formats[names[k]]
      {
        assert names[i] in names;
        formatList := formatList + [formats[names[i]]];
      }
    }
  }

  // `get_closest_frame`.

  function Dist(a: int, b: int): nat
  {
    if a >= b then a - b else b - a
  }

  /** `r` is a key nearest to `frame`, the lower one on a tie. */
  predicate IsClosest(keys: seq<int>, frame: int, r: int)
  {
    r in keys && forall k :: k in keys ==> Dist(r, frame) <= Dist(k, frame) && (Dist(k, frame) == Dist(r, frame) ==> r <= k)
  }

  /** At most one key is the closest. */
  lemma ClosestUnique(keys: seq<int>, frame: int, a: int, b: int)
    requires IsClosest(keys, frame, a) && IsClosest(keys, frame, b)
    ensures a == b
  {
  }

  /** A frame that is a key is its own closest frame. */
  lemma ClosestOfKey(keys: seq<int>, frame: int)
    requires frame in keys
    ensures IsClosest(keys, frame, frame)
  {
  }

  /**
   * `get_closest_frame` on the sorted keys: the largest key not after
   * the frame (else the first key), the smallest key not before it (else
   * the last key), and the second only when strictly nearer.
   */
  method GetClosestFrame(frame: int, keys: seq<int>) returns (closestFrame: int)
    requires |keys| > 0 && Increasing(keys)
    ensures IsClosest(keys, frame, closestFrame)
  {
    closestFrame := keys[0];
    for i := 0 to |keys|
      invariant closestFrame in keys
      invariant closestFrame <= frame || closestFrame == keys[0]
      invariant forall j :: 0 <= j < i && keys[j] <= frame ==> keys[j] <= closestFrame
    {
      var key := keys[i];
      if key <= frame && key > closestFrame {
        closestFrame := key;
      }
    }
    var closestFrameRev := keys[|keys| - 1];
    var n := |keys|;
    while n > 0
      invariant 0 <= n <= |keys|
      invariant closestFrameRev in keys
      invariant closestFrameRev >= frame || closestFrameRev == keys[|keys| - 1]
      invariant forall j :: n <= j < |keys| && keys[j] >= frame ==> closestFrameRev <= keys[j]
    {
      n := n - 1;
      var key := keys[n];
      if key >= frame && key < closestFrameRev {
        closestFrameRev := key;
      }
    }
    var diffRev := Dist(closestFrameRev, frame);
    var diff := Dist(closestFrame, frame);
    if diffRev < diff {
      closestFrame := closestFrameRev;
    }
    forall k | k in keys
      ensures Dist(closestFrame, frame) <= Dist(k, frame) && (Dist(k, frame) == Dist(closestFrame, frame) ==> closestFrame <= k)
    {
      FirstIsLeast(keys, k);
      LastIsGreatest(keys, k);
    }
  }

  // `KeyframeData`.

  /** The (frame, value) pairs in frame order. */
  function KeyframePairs<V>(keys: seq<int>, data: map<int, V>): (pairs: seq<(int, V)>)
    requires forall k :: k in keys ==> k in data
    ensures |pairs| == |keys|
  {
    var times := Sort(keys);
    SortedKeysInData(keys, data);
    PairsOf(times, data)
  }

  /** The sorted keys are keys of the data. */
  lemma SortedKeysInData<V>(keys: seq<int>, data: map<int, V>)
    requires forall k :: k in keys ==> k in data
    ensures forall i :: 0 <= i < |Sort(keys)| ==> Sort(keys)[i] in data
  {
    var times := Sort(keys);
    forall i | 0 <= i < |times|
      ensures times[i] in data
    {
      var k := times[i];
      assert k in times;
      assert k in keys;
    }
  }

  /** Each frame with its value. */
  function PairsOf<V>(times: seq<int>, data: map<int, V>): (pairs: seq<(int, V)>)
    requires forall i :: 0 <= i < |times| ==> times[i] in data
    ensures |pairs| == |times|
    ensures forall i :: 0 <= i < |times| ==> pairs[i] == (times[i], data[times[i]])
  {
    if |times| == 0 then []
    else
      var rest := times[1..];
      assert forall i :: 0 <= i < |rest| ==> rest[i] == times[i + 1];
      [(times[0], data[times[0]])] + PairsOf(rest, data)
  }

  /**
   * `KeyframeData`: values by integer frame (the source's string keys
   * are the frames' decimal text), the keys in insertion order, and the
   * cached sorted pairs.
   */
  class KeyframeData<V> {
    var data: map<int, V>
    var keys: seq<int>
    var upToDate: bool
    var keyframeValues: seq<(int, V)>

    ghost predicate Valid()
      reads this
    {
      && NoDup(keys) && (forall k :: k in keys <==> k in data)
      && (upToDate ==> keyframeValues == KeyframePairs(keys, data))
    }

    /** An empty keyframe set, with no cached pairs. */
    constructor ()
      ensures Valid() && data == map[] && keys == [] && !upToDate
    {
      data := map[];
      keys := [];
      upToDate := false;
      keyframeValues := [];
    }

    /**
     * `get_value`: the value on the frame, else the value on the closest
     * frame; with no keys at all the closest-frame search fails
     * (`None`).
     */
    method GetValue(frame: int) returns (value: Option<V>)
      requires Valid()
      ensures frame in data ==> value == Some(data[frame])
      ensures value.None? <==> |keys| == 0
      ensures frame !in data && |keys| > 0 ==>
        exists k :: IsClosest(keys, frame, k) && k in data && value == Some(data[k])
    {
      if frame in data {
        return Some(data[frame]);
      }
      if |keys| == 0 {
        return None;
      }
      var sorted := Sort(keys);
      var closest := GetClosestFrame(frame, sorted);
      assert IsClosest(keys, frame, closest);
      value := Some(data[closest]);
    }

    /** `get_keyframe_values`: the pairs in frame order, computed once until the data changes. */
    method GetKeyframeValues() returns (keyValues: seq<(int, V)>)
      requires Valid()
      modifies this`upToDate, this`keyframeValues
      ensures Valid() && upToDate && keyframeValues == keyValues
      ensures keyValues == KeyframePairs(keys, data)
    {
      if upToDate {
        return keyframeValues;
      }
      var times := Sort(keys);
      keyValues := [];
      for i := 0 to |times|
        invariant Valid() && !upToDate
        invariant |keyValues| == i
        invariant forall k :: 0 <= k < i ==> times[k] in data && keyValues[k] == (times[k], data[times[k]])
      {
        assert times[i] in times;
        var value := GetValue(times[i]);
        keyValues := keyValues + [(times[i], value.value)];
      }
      keyframeValues := keyValues;
      upToDate := true;
    }

    /** `get_times`: the frames in increasing order. */
    method GetTimes() returns (times: seq<int>)
      requires Valid()
      modifies this`upToDate, this`keyframeValues
      ensures Valid() && upToDate
      ensures times == Sort(keys) && Increasing(times)
      ensures forall k :: k in times <==> k in data
    {
      var keyValues := GetKeyframeValues();
      times := [];
      for i := 0 to |keyValues|
        invariant times == Sort(keys)[..i]
      {
        times := times + [keyValues[i].0];
      }
    }

    /** `get_values`: the values in frame order. */
    method GetValues() returns (values: seq<V>)
      requires Valid()
      modifies this`upToDate, this`keyframeValues
      ensures Valid() && upToDate && |values| == |keys|
      ensures forall i :: 0 <= i < |values| ==> Sort(keys)[i] in data && values[i] == data[Sort(keys)[i]]
    {
      var keyValues := GetKeyframeValues();
      values := [];
      for i := 0 to |keyValues|
        invariant |values| == i
        invariant forall k :: 0 <= k < i ==> values[k] == keyValues[k].1
      {
        values := values + [keyValues[i].1];
      }
    }

    /** `get_start_frame`: the first frame, or None without keys. */
    method GetStartFrame() returns (start: Option<int>)
      requires Valid()
      modifies this`upToDate, this`keyframeValues
      ensures Valid()
      ensures start.None? <==> |keys| == 0
      ensures start.Some? ==> start.value in data && forall k :: k in data ==> start.value <= k
    {
      var times := GetTimes();
      if |times| == 0 {
        return None;
      }
      forall k | k in data ensures times[0] <= k {
        FirstIsLeast(times, k);
      }
      start := Some(times[0]);
    }

    /** `get_end_frame`: the last frame, or None without keys. */
    method GetEndFrame() returns (end: Option<int>)
      requires Valid()
      modifies this`upToDate, this`keyframeValues
      ensures Valid()
      ensures end.None? <==> |keys| == 0
      ensures end.Some? ==> end.value in data && forall k :: k in data ==> k <= end.value
    {
      var times := GetTimes();
      if |times| == 0 {
        return None;
      }
      forall k | k in data ensures k <= times[|times| - 1] {
        LastIsGreatest(times, k);
      }
      end := Some(times[|times| - 1]);
    }

    /** `set_value`: stores the value on the frame and drops the cached pairs. */
    method SetValue(frame: int, value: V) returns (ok: bool)
      requires Valid()
      modifies this`data, this`keys, this`upToDate
      ensures Valid() && ok && !upToDate
      ensures data == old(data)[frame := value]
      ensures keys == if frame in old(data) then old(keys) else old(keys) + [frame]
    {
      upToDate := false;
      if frame !in data {
        keys := keys + [frame];
      }
      data := data[frame := value];
      ok := true;
    }
  }

  // The fill of occluded frames.

  function SeqMin(s: seq<int>): (m: int)
    requires |s| > 0
    ensures m in s && forall x :: x in s ==> m <= x
  {
    if |s| == 1 then s[0]
    else
      var r := SeqMin(s[1..]);
      assert forall x :: x in s ==> x == s[0] || x in s[1..] by { assert s == [s[0]] + s[1..]; }
      if s[0] <= r then s[0] else r
  }

  function SeqMax(s: seq<int>): (m: int)
    requires |s| > 0
    ensures m in s && forall x :: x in s ==> x <= m
  {
    if |s| == 1 then s[0]
    else
      var r := SeqMax(s[1..]);
      assert forall x :: x in s ==> x == s[0] || x in s[1..] by { assert s == [s[0]] + s[1..]; }
      if s[0] >= r then s[0] else r
  }

  /** The enable flag of a frame: 1 when the marker has data on it, else 0. */
  function EnableOn(frames: seq<int>, f: int): int
  {
    if f in frames then 1 else 0
  }

  /** The enable keys after the fill of the frames from `lo` up to (not including) `upTo`, one frame at a time. */
  function EnableFilled(data: map<int, int>, frames: seq<int>, lo: int, upTo: int): map<int, int>
    decreases upTo - lo
  {
    if upTo <= lo then data
    else EnableFilled(data, frames, lo, upTo - 1)[upTo - 1 := EnableOn(frames, upTo - 1)]
  }

  /** The weight keys after the intended fill of the frames from `lo` up to `upTo`: 0 where there is no data. */
  function WeightFilled(data: map<int, real>, frames: seq<int>, lo: int, upTo: int): map<int, real>
    decreases upTo - lo
  {
    if upTo <= lo then data
    else
      var w := WeightFilled(data, frames, lo, upTo - 1);
      if upTo - 1 in frames then w else w[upTo - 1 := 0.0]
  }

  /** The fills depend only on the frame range. */
  lemma FilledAt(enable: map<int, int>, weight: map<int, real>, frames: seq<int>, lo: int, upTo: int, upTo': int)
    requires upTo == upTo'
    ensures EnableFilled(enable, frames, lo, upTo) == EnableFilled(enable, frames, lo, upTo')
    ensures WeightFilled(weight, frames, lo, upTo) == WeightFilled(weight, frames, lo, upTo')
  {
  }

  lemma EnableFilledStep(data: map<int, int>, frames: seq<int>, lo: int, f: int)
    requires lo <= f
    ensures EnableFilled(data, frames, lo, f)[f := EnableOn(frames, f)] == EnableFilled(data, frames, lo, f + 1)
  {
  }

  lemma WeightFilledStep(data: map<int, real>, frames: seq<int>, lo: int, f: int)
    requires lo <= f
    ensures f !in frames ==> WeightFilled(data, frames, lo, f)[f := 0.0] == WeightFilled(data, frames, lo, f + 1)
    ensures f in frames ==> WeightFilled(data, frames, lo, f) == WeightFilled(data, frames, lo, f + 1)
  {
  }

  /**
   * `_parse_marker_occluded_frames_v1_v2_v3` as written: every frame from
   * the first to the last with data gets enable 1 or 0; the weight is
   * meant to be zeroed where enable is 0, but the test compares the
   * integer flag with False by identity and never holds, so the weights
   * are not touched. An empty frame list fails (Python's `min` of an
   * empty list).
   */
  method FillOccludedFramesAsWritten(enable: KeyframeData<int>, weight: KeyframeData<real>, frames: seq<int>)
    returns (ok: bool)
    requires enable.Valid()
    modifies enable
    ensures enable.Valid()
    ensures ok <==> |frames| > 0
    ensures ok ==> enable.data == EnableFilled(old(enable.data), frames, SeqMin(frames), SeqMax(frames) + 1)
    ensures !ok ==> enable.data == old(enable.data) && enable.keys == old(enable.keys)
  {
    if |frames| == 0 {
      return false;
    }
    var lo, hi := SeqMin(frames), SeqMax(frames);
    ghost var start := enable.data;
    for frame := lo to hi + 1
      invariant enable.Valid()
      invariant enable.data == EnableFilled(start, frames, lo, frame)
    {
      FillFrameAsWritten(enable, frames, start, lo, frame);
    }
    FilledAt(start, map[], frames, lo, hi + 1, SeqMax(frames) + 1);
    ok := true;
  }

  /** One frame of the fill as written: only the enable key is set. */
  method FillFrameAsWritten(enable: KeyframeData<int>, frames: seq<int>, ghost start: map<int, int>, lo: int, frame: int)
    requires enable.Valid() && lo <= frame && enable.data == EnableFilled(start, frames, lo, frame)
    modifies enable
    ensures enable.Valid()
    ensures enable.data == EnableFilled(start, frames, lo, frame + 1)
  {
    var mkrEnable := if frame in frames then 1 else 0;
    var _ := enable.SetValue(frame, mkrEnable);
    EnableFilledStep(start, frames, lo, frame);
  }

  /** One frame of the intended fill. */
  method FillFrame(enable: KeyframeData<int>, weight: KeyframeData<real>, frames: seq<int>,
                   ghost startEnable: map<int, int>, ghost startWeight: map<int, real>, lo: int, frame: int)
    requires enable.Valid() && weight.Valid() && lo <= frame
    requires enable.data == EnableFilled(startEnable, frames, lo, frame)
    requires weight.data == WeightFilled(startWeight, frames, lo, frame)
    modifies enable, weight
    ensures enable.Valid() && weight.Valid()
    ensures enable.data == EnableFilled(startEnable, frames, lo, frame + 1)
    ensures weight.data == WeightFilled(startWeight, frames, lo, frame + 1)
  {
    var mkrEnable := frame in frames;
    var _ := enable.SetValue(frame, if mkrEnable then 1 else 0);
    EnableFilledStep(startEnable, frames, lo, frame);
    WeightFilledStep(startWeight, frames, lo, frame);
    if !mkrEnable {
      var _ := weight.SetValue(frame, 0.0);
    }
  }

  /** The fill as intended: as written, and every frame without data also gets weight 0. */
  method FillOccludedFrames(enable: KeyframeData<int>, weight: KeyframeData<real>, frames: seq<int>)
    returns (ok: bool)
    requires enable.Valid() && weight.Valid()
    modifies enable, weight
    ensures enable.Valid() && weight.Valid()
    ensures ok <==> |frames| > 0
    ensures ok ==> enable.data == EnableFilled(old(enable.data), frames, SeqMin(frames), SeqMax(frames) + 1)
    ensures ok ==> weight.data == WeightFilled(old(weight.data), frames, SeqMin(frames), SeqMax(frames) + 1)
    ensures !ok ==> enable.data == old(enable.data) && weight.data == old(weight.data)
  {
    if |frames| == 0 {
      return false;
    }
    var lo, hi := SeqMin(frames), SeqMax(frames);
    ghost var startEnable, startWeight := enable.data, weight.data;
    for frame := lo to hi + 1
      invariant enable.Valid() && weight.Valid()
      invariant enable.data == EnableFilled(startEnable, frames, lo, frame)
      invariant weight.data == WeightFilled(startWeight, frames, lo, frame)
    {
      FillFrame(enable, weight, frames, startEnable, startWeight, lo, frame);
    }
    FilledAt(startEnable, startWeight, frames, lo, hi + 1, SeqMax(frames) + 1);
    ok := true;
  }

  /** Between the first and last frame, enable is 1 exactly on the frames with data. */
  lemma {:induction false} EnableFlagsFrames(data: map<int, int>, frames: seq<int>, lo: int, upTo: int, f: int)
    requires lo <= f < upTo
    ensures f in EnableFilled(data, frames, lo, upTo)
    ensures EnableFilled(data, frames, lo, upTo)[f] == 1 <==> f in frames
    decreases upTo - lo
  {
    if f < upTo - 1 {
      EnableFlagsFrames(data, frames, lo, upTo - 1, f);
    }
  }

  /** The intended fill zeroes the weight of every occluded frame and keeps the others. */
  lemma {:induction false} WeightZeroOnOccluded(data: map<int, real>, frames: seq<int>, lo: int, upTo: int, f: int)
    ensures lo <= f < upTo && f !in frames ==> f in WeightFilled(data, frames, lo, upTo) && WeightFilled(data, frames, lo, upTo)[f] == 0.0
    ensures f in frames && f in data ==> f in WeightFilled(data, frames, lo, upTo) && WeightFilled(data, frames, lo, upTo)[f] == data[f]
    ensures f !in data && !(lo <= f < upTo) ==> f !in WeightFilled(data, frames, lo, upTo)
    decreases upTo - lo
  {
    if lo < upTo {
      WeightZeroOnOccluded(data, frames, lo, upTo - 1, f);
    }
  }

  /**
   * As written, a marker seen on frames 1 and 3 (weight 1 on each) is
   * disabled on frame 2, yet frame 2 has no weight key, so the weight
   * lookup falls back to the closest frame, 1, and reads weight 1.
   */
  lemma OccludedFrameKeepsWeight()
    ensures SeqMin([1, 3]) == 1 && SeqMax([1, 3]) == 3
    ensures EnableFilled(map[1 := 1, 3 := 1], [1, 3], 1, 4)[2] == 0
    ensures 2 !in map[1 := 1.0, 3 := 1.0] && IsClosest([1, 3], 2, 1) && (map[1 := 1.0, 3 := 1.0])[1] == 1.0
    ensures WeightFilled(map[1 := 1.0, 3 := 1.0], [1, 3], 1, 4)[2] == 0.0
  {
    assert [1, 3][1..] == [3];
    assert 2 !in [1, 3];
  }

  // `_remove_comments_from_lines`.

  /** One line's contribution: nothing for a comment line, else the stripped text before any '#'. */
  function CleanLine(line: string): (r: seq<string>)
    ensures |r| <= 1
    ensures forall k :: 0 <= k < |r| ==> '#' !in r[k]
  {
    var stripped := Strip(line);
    if StartsWith(stripped, "#") then []
    else
      NoSepBeforePartition(stripped, '#');
      [Partition(stripped, "#").0]
  }

  function CleanLines(lines: seq<string>): (r: seq<string>)
    ensures |r| <= |lines|
    ensures forall k :: 0 <= k < |r| ==> '#' !in r[k]
  {
    if |lines| == 0 then [] else CleanLines(lines[..|lines| - 1]) + CleanLine(lines[|lines| - 1])
  }

  /** `_remove_comments_from_lines`: comment lines dropped, the rest stripped and cut at '#'. */
  method RemoveCommentsFromLines(lines: seq<string>) returns (cleanLines: seq<string>)
    ensures cleanLines == CleanLines(lines)
  {
    cleanLines := [];
    for i := 0 to |lines|
      invariant cleanLines == CleanLines(lines[..i])
    {
      assert lines[..i + 1][..i] == lines[..i];
      var line := Strip(lines[i]);
      if StartsWith(line, "#") {
        continue;
      }
      line := Partition(line, "#").0;
      cleanLines := cleanLines + [line];
    }
    assert lines[..|lines|] == lines;
  }

  /** A line without '#' is kept, stripped. */
  lemma CleanLineWithoutHash(line: string)
    requires '#' !in line
    ensures CleanLine(line) == [Strip(line)]
  {
    StripKeepsOut(line, '#');
    NotContainsChar(Strip(line), '#');
  }

  // The PFTrack 2D track file.

  /** One marker position: the frame and the (u, v) position normalised by the image size. */
  datatype FramePoint = FramePoint(frame: int, u: real, v: real)

  /** A tracker's name and its positions in file order. */
  datatype Track = Track(name: string, points: seq<FramePoint>)

  predicate Quoted(line: string)
  {
    StartsWith(line, "\"") && EndsWith(line, "\"")
  }

  /** `line[1:-1]`. */
  function Unquote(line: string): string
  {
    if |line| >= 2 then line[1..|line| - 1] else []
  }

  /** A pixel position normalised by the inverse image size, with the pixel centre at 0. */
  function PixelToUnit(x: real, inv: real): real
  {
    (x + 0.5) * inv
  }

  /**
   * One per-frame line: four or five space-separated fields, the frame
   * and the x and y pixel positions first; PFTrack's pixel centre is 0,
   * so u = (x + 0.5) / width and v = (y + 0.5) / height. `parseFloat`
   * stands for Python's `float`.
   */
  function ParseFrameLine(line: string, invWidth: real, invHeight: real, parseFloat: string -> Option<real>)
    : (r: Result<FramePoint, string>)
    ensures var parts := Split(line, ' ');
      r.Ok? <==> (|parts| == 4 || |parts| == 5) && ParseInt(parts[0]).Some? && parseFloat(parts[1]).Some? && parseFloat(parts[2]).Some?
    ensures var parts := Split(line, ' ');
      r.Ok? ==> r.value == FramePoint(ParseInt(parts[0]).value, PixelToUnit(parseFloat(parts[1]).value, invWidth),
                                     PixelToUnit(parseFloat(parts[2]).value, invHeight))
  {
    var parts := Split(line, ' ');
    if |parts| != 4 && |parts| != 5 then Err("there must be 4 or 5 numbers in line")
    else
      var frame := ParseInt(parts[0]);
      var posX := parseFloat(parts[1]);
      var posY := parseFloat(parts[2]);
      if frame.None? || posX.None? || posY.None? then Err("Invalid file format.")
      else Ok(FramePoint(frame.value, PixelToUnit(posX.value, invWidth), PixelToUnit(posY.value, invHeight)))
  }

  /**
   * `LoaderPFTrack2DT.parse` without the keyframe objects: per tracker a
   * quoted name, a clip number or quoted camera name, a frame count and
   * that many per-frame lines. A missing image size counts as 1; a zero
   * size, an empty file, a missing line and a malformed line are errors,
   * as is a tracker without frames (Python's `min` of an empty list in
   * the occluded-frame fill).
   */
  method ParsePFTrack(fileLines: seq<string>, imageWidth: Option<real>, imageHeight: Option<real>,
                      parseFloat: string -> Option<real>) returns (r: Result<seq<Track>, string>)
    ensures imageWidth == Some(0.0) || imageHeight == Some(0.0) ==> r.Err?
    ensures |fileLines| == 0 ==> r.Err?
    ensures r.Ok? ==> forall t :: t in r.value ==> |t.points| > 0
  {
    var width := if imageWidth.Some? then imageWidth.value else 1.0;
    var height := if imageHeight.Some? then imageHeight.value else 1.0;
    if width == 0.0 || height == 0.0 {
      return Err("float division by zero");
    }
    var invWidth := 1.0 / width;
    var invHeight := 1.0 / height;
    if |fileLines| == 0 {
      return Err("No contents in the file");
    }
    var tracks: seq<Track> := [];
    var lines := RemoveCommentsFromLines(fileLines);
    var i := 0;
    while i < |lines|
      invariant 0 <= i <= |lines|
      invariant forall t :: t in tracks ==> |t.points| > 0
      decreases |lines| - i
    {
      if !Quoted(lines[i]) {
        i := i + 1;
        continue;
      }
      var track;
      track, i := ReadTracker(lines, i, invWidth, invHeight, parseFloat);
      if track.Err? {
        return Err(track.error);
      }
      tracks := tracks + [track.value];
    }
    r := Ok(tracks);
  }

  /**
   * One tracker of `parse_v1`, from its quoted name line on: the clip
   * number or camera name, the frame count and the frame lines.
   */
  method ReadTracker(lines: seq<string>, start: nat, invWidth: real, invHeight: real,
                     parseFloat: string -> Option<real>) returns (r: Result<Track, string>, next: nat)
    requires start < |lines| && Quoted(lines[start])
    ensures start < next <= |lines|
    ensures r.Ok? ==> r.value.name == Unquote(lines[start]) && |r.value.points| > 0
  {
    var mkrName := Unquote(lines[start]);
    next := start + 1;
    if next >= |lines| {
      return Err("list index out of range"), next;
    }
    var line := lines[next];
    if ParseInt(line).Some? || Quoted(line) {
      next := next + 1;
    } else {
      return Err("expecting a camera name (string) in line"), next;
    }
    if next >= |lines| {
      return Err("list index out of range"), next;
    }
    var numberOfFrames := ParseInt(lines[next]);
    if numberOfFrames.None? {
      return Err("expecting a number of frames (integer) in line"), next;
    }
    next := next + 1;
    var points;
    points, next := ReadFramePoints(lines, next, numberOfFrames.value, invWidth, invHeight, parseFloat);
    if points.Err? {
      return Err(points.error), next;
    }
    if |points.value| == 0 {
      return Err("min() arg is an empty sequence"), next;
    }
    r := Ok(Track(mkrName, points.value));
  }

  /**
   * The per-frame loop of `parse_v1`: `count` frame lines from `start` on,
   * each parsed in turn; a missing or malformed line stops it with an error.
   */
  method ReadFramePoints(lines: seq<string>, start: nat, count: int, invWidth: real, invHeight: real,
                         parseFloat: string -> Option<real>) returns (r: Result<seq<FramePoint>, string>, next: nat)
    requires start <= |lines|
    ensures start <= next <= |lines|
    ensures r.Ok? ==> |r.value| == (if count > 0 then count else 0) && next == start + |r.value|
    ensures r.Ok? ==> forall k :: 0 <= k < |r.value| ==>
      ParseFrameLine(lines[start + k], invWidth, invHeight, parseFloat) == Ok(r.value[k])
    ensures start + count > |lines| ==> r.Err?
  {
    var points: seq<FramePoint> := [];
    next := start;
    var frameIndex := 0;
    while frameIndex < count
      invariant 0 <= frameIndex <= (if count > 0 then count else 0) && next == start + frameIndex <= |lines|
      invariant |points| == frameIndex
      invariant forall k :: 0 <= k < frameIndex ==> ParseFrameLine(lines[start + k], invWidth, invHeight, parseFloat) == Ok(points[k])
      decreases count - frameIndex
    {
      if next >= |lines| {
        return Err("list index out of range"), next;
      }
      var point := ParseFrameLine(lines[next], invWidth, invHeight, parseFloat);
      if point.Err? {
        return Err(point.error), next;
      }
      points := points + [point.value];
      next := next + 1;
      frameIndex := frameIndex + 1;
    }
    r := Ok(points);
  }

  // The UV track file's format version.

  const UvTrackFormatVersionUnknown: int := -1
  const UvTrackFormatVersion1: int := 1

  /**
   * `determine_format_version`, given the parsed JSON object (None when
   * the text is not JSON): no data means version 1, otherwise the
   * 'version' field, or unknown (-1) when there is none.
   */
  function DetermineFormatVersion(parsed: Option<map<string, int>>): (version: int)
    ensures parsed.None? || |parsed.value| == 0 ==> version == UvTrackFormatVersion1
    ensures parsed.Some? && |parsed.value| > 0 && "version" in parsed.value ==> version == parsed.value["version"]
    ensures parsed.Some? && |parsed.value| > 0 && "version" !in parsed.value ==> version == UvTrackFormatVersionUnknown
  {
    var data := if parsed.Some? then parsed.value else map[];
    if |data| == 0 then UvTrackFormatVersion1
    else if "version" in data then data["version"]
    else UvTrackFormatVersionUnknown
  }
}
