/**
 * The smooth-keyframes tool's chunking: the keyframes of a curve are
 * walked in time order and each run of selected keyframes becomes one
 * chunk of times and one chunk of values. A run is only closed by an
 * unselected keyframe after it.
 */
module SmoothKeyframes {

  /** The accumulators of `calculate_chunks`: the closed chunks and the chunk being built. */
  datatype ChunkState<T, V> = ChunkState(chunksTimeList: seq<seq<T>>, chunksValueList: seq<seq<V>>,
                                         chunkTime: seq<T>, chunkValue: seq<V>)

  /** One keyframe: a selected one joins the chunk being built; an unselected one closes a non-empty chunk. */
  function ChunkStep<T(==), V>(st: ChunkState<T, V>, t: T, v: V, selected: seq<T>): ChunkState<T, V>
  {
    if t in selected then st.(chunkTime := st.chunkTime + [t], chunkValue := st.chunkValue + [v])
    else if |st.chunkTime| > 0 then ChunkState(st.chunksTimeList + [st.chunkTime], st.chunksValueList + [st.chunkValue], [], [])
    else st
  }

  /** The accumulators after the first `n` keyframe pairs. */
  function ChunkingOf<T(==), V>(times: seq<T>, values: seq<V>, selected: seq<T>, n: nat): ChunkState<T, V>
    requires n <= |times| && n <= |values|
  {
    if n == 0 then ChunkState([], [], [], [])
    else ChunkStep(ChunkingOf(times, values, selected, n - 1), times[n - 1], values[n - 1], selected)
  }

  /** Python's `zip`: the number of pairs is the shorter length. */
  function ZipLength(a: nat, b: nat): nat { if a < b then a else b }

  /** `calculate_chunks`. */
  method CalculateChunks<T(==), V>(selectedKeyframes: seq<T>, allTimes: seq<T>, allValues: seq<V>)
    returns (chunksTimeList: seq<seq<T>>, chunksValueList: seq<seq<V>>)
    ensures var st := ChunkingOf(allTimes, allValues, selectedKeyframes, ZipLength(|allTimes|, |allValues|));
      chunksTimeList == st.chunksTimeList && chunksValueList == st.chunksValueList
  {
    chunksTimeList := [];
    chunksValueList := [];
    var chunkTime: seq<T> := [];
    var chunkValue: seq<V> := [];
    for i := 0 to ZipLength(|allTimes|, |allValues|)
      invariant ChunkingOf(allTimes, allValues, selectedKeyframes, i)
             == ChunkState(chunksTimeList, chunksValueList, chunkTime, chunkValue)
    {
      var t, v := allTimes[i], allValues[i];
      if t in selectedKeyframes {
        chunkTime := chunkTime + [t];
        chunkValue := chunkValue + [v];
      } else if |chunkTime| > 0 {
        chunksTimeList := chunksTimeList + [chunkTime];
        chunksValueList := chunksValueList + [chunkValue];
        chunkTime := [];
        chunkValue := [];
      }
    }
  }

  /**
   * The time and value chunks have the same shape: as many chunks, each
   * time chunk as long as its value chunk, and no chunk empty.
   */
  lemma {:induction false} ChunkShape<T, V>(times: seq<T>, values: seq<V>, selected: seq<T>, n: nat)
    requires n <= |times| && n <= |values|
    ensures var st := ChunkingOf(times, values, selected, n);
      |st.chunksTimeList| == |st.chunksValueList| && |st.chunkTime| == |st.chunkValue|
      && forall k :: 0 <= k < |st.chunksTimeList| ==>
           |st.chunksTimeList[k]| == |st.chunksValueList[k]| && |st.chunksTimeList[k]| > 0
  {
    if n > 0 {
      ChunkShape(times, values, selected, n - 1);
    }
  }

  /** The concatenation of a sequence of sequences. */
  function Flatten<T>(s: seq<seq<T>>): seq<T>
  {
    if |s| == 0 then [] else Flatten(s[..|s| - 1]) + s[|s| - 1]
  }

  /** The selected times among the first `n`, in order. */
  function SelectedOf<T(==)>(times: seq<T>, selected: seq<T>, n: nat): (r: seq<T>)
    requires n <= |times|
    ensures forall t :: t in r ==> t in selected
  {
    if n == 0 then [] else SelectedOf(times, selected, n - 1) + (if times[n - 1] in selected then [times[n - 1]] else [])
  }

  /** Whether every time of `s` is selected. */
  predicate AllSelected<T(==)>(s: seq<T>, selected: seq<T>)
  {
    forall i :: 0 <= i < |s| ==> s[i] in selected
  }

  /**
   * `c` is a maximal run of selected times ending before `n`: a slice of
   * `times` whose times are all selected, preceded by the start or by an
   * unselected time, and followed by an unselected time.
   */
  ghost predicate IsClosedRun<T>(times: seq<T>, selected: seq<T>, n: nat, c: seq<T>)
    requires n <= |times|
  {
    exists s: nat :: ClosedRunAt(times, selected, n, c, s)
  }

  /** `c` is such a run starting at `s`. */
  ghost predicate ClosedRunAt<T>(times: seq<T>, selected: seq<T>, n: nat, c: seq<T>, s: nat)
    requires n <= |times|
  {
    s + |c| < n && times[s..s + |c|] == c && AllSelected(c, selected)
      && times[s + |c|] !in selected && (s == 0 || times[s - 1] !in selected)
  }

  /** The closed chunks followed by the open one are exactly the selected times among the first `n`. */
  predicate SelectedSoFar<T(==)>(closed: seq<seq<T>>, open: seq<T>, times: seq<T>, selected: seq<T>, n: nat)
    requires n <= |times|
  {
    Flatten(closed) + open == SelectedOf(times, selected, n)
  }

  /** `open` is the trailing run of selected times among the first `n`. */
  predicate OpenRun<T(==)>(open: seq<T>, times: seq<T>, selected: seq<T>, n: nat)
    requires n <= |times|
  {
    |open| <= n && open == times[n - |open|..n] && AllSelected(open, selected)
      && (n - |open| == 0 || times[n - |open| - 1] !in selected)
  }

  /** What the chunks hold after `n` keyframes. */
  predicate ChunksHold<T(==), V>(st: ChunkState<T, V>, times: seq<T>, selected: seq<T>, n: nat)
    requires n <= |times|
  {
    SelectedSoFar(st.chunksTimeList, st.chunkTime, times, selected, n) && OpenRun(st.chunkTime, times, selected, n)
  }

  /**
   * The chunking keeps `ChunksHold` at every keyframe: the closed chunks
   * followed by the open one are exactly the selected times so far, and
   * the open one is the trailing run of selected times.
   */
  lemma {:induction false} ChunkContents<T, V>(times: seq<T>, values: seq<V>, selected: seq<T>, n: nat)
    requires n <= |times| && n <= |values|
    ensures ChunksHold(ChunkingOf(times, values, selected, n), times, selected, n)
  {
    if n > 0 {
      var q: nat := n - 1;
      ChunkContents(times, values, selected, q);
      ContentsStep(ChunkingOf(times, values, selected, q), times, values[q], selected, q, n);
    }
  }

  /** One more keyframe keeps `ChunksHold`. */
  lemma ContentsStep<T, V>(prev: ChunkState<T, V>, times: seq<T>, v: V, selected: seq<T>, q: nat, n: nat)
    requires n == q + 1 && n <= |times| && ChunksHold(prev, times, selected, q)
    ensures ChunksHold(ChunkStep(prev, times[q], v, selected), times, selected, n)
  {
    var t := times[q];
    SelectedOfStep(times, selected, q, n);
    if t in selected {
      OpenRunExtend(prev.chunkTime, times, selected, q, n);
    } else {
      OpenRunEmpty(times, selected, q, n);
      if |prev.chunkTime| > 0 {
        FlattenSnoc(prev.chunksTimeList, prev.chunkTime);
      }
    }
  }

  /** One more keyframe adds itself to the selected times when it is selected. */
  lemma SelectedOfStep<T>(times: seq<T>, selected: seq<T>, q: nat, n: nat)
    requires n == q + 1 && n <= |times|
    ensures SelectedOf(times, selected, n) == SelectedOf(times, selected, q) + if times[q] in selected then [times[q]] else []
  {
  }

  /** Flattening one more chunk appends it. */
  lemma FlattenSnoc<T>(chunks: seq<seq<T>>, c: seq<T>)
    ensures Flatten(chunks + [c]) == Flatten(chunks) + c
  {
    assert (chunks + [c])[..|chunks|] == chunks;
  }

  /** A selected keyframe extends the trailing run. */
  lemma OpenRunExtend<T>(open: seq<T>, times: seq<T>, selected: seq<T>, q: nat, n: nat)
    requires n == q + 1 && n <= |times| && OpenRun(open, times, selected, q) && times[q] in selected
    ensures OpenRun(open + [times[q]], times, selected, n)
  {
    var s := q - |open|;
    assert s == n - |open + [times[q]]|;
    assert times[s..n] == times[s..q] + [times[q]];
    var o := open + [times[q]];
    assert forall i :: 0 <= i < |o| ==> o[i] == if i < |open| then open[i] else times[q];
  }

  /** An unselected keyframe leaves no trailing run. */
  lemma OpenRunEmpty<T>(times: seq<T>, selected: seq<T>, q: nat, n: nat)
    requires n == q + 1 && n <= |times| && times[q] !in selected
    ensures OpenRun([], times, selected, n)
  {
    assert times[n..n] == [];
  }

  /** Every chunk of `chunks` is a closed run before `n`. */
  ghost predicate AllClosedRuns<T>(times: seq<T>, selected: seq<T>, n: nat, chunks: seq<seq<T>>)
    requires n <= |times|
  {
    forall k :: 0 <= k < |chunks| ==> IsClosedRun(times, selected, n, chunks[k])
  }

  /** Every closed chunk is a maximal run of selected times. */
  lemma {:induction false} ChunksAreRuns<T, V>(times: seq<T>, values: seq<V>, selected: seq<T>, n: nat)
    requires n <= |times| && n <= |values|
    ensures AllClosedRuns(times, selected, n, ChunkingOf(times, values, selected, n).chunksTimeList)
  {
    if n > 0 {
      var q: nat := n - 1;
      ChunksAreRuns(times, values, selected, q);
      ChunkContents(times, values, selected, q);
      RunsStep(times, values, selected, q, n, ChunkingOf(times, values, selected, q));
    }
  }

  /** One keyframe step keeps every closed chunk a closed run. */
  lemma RunsStep<T, V>(times: seq<T>, values: seq<V>, selected: seq<T>, q: nat, n: nat, prev: ChunkState<T, V>)
    requires n == q + 1 && n <= |times| && n <= |values|
    requires AllClosedRuns(times, selected, q, prev.chunksTimeList)
    requires OpenRun(prev.chunkTime, times, selected, q)
    ensures AllClosedRuns(times, selected, n, ChunkStep(prev, times[q], values[q], selected).chunksTimeList)
  {
    RunsExtend(times, selected, q, n, prev.chunksTimeList);
    var m := |prev.chunkTime|;
    if times[n - 1] !in selected && m > 0 {
      var c := prev.chunkTime;
      var start: nat := n - 1 - m;
      assert ClosedRunAt(times, selected, n, c, start);
      RunsAppend(times, selected, n, prev.chunksTimeList, c);
    }
  }

  /** A closed run stays closed as later keyframes are walked. */
  lemma RunsExtend<T>(times: seq<T>, selected: seq<T>, q: nat, n: nat, chunks: seq<seq<T>>)
    requires n == q + 1 && n <= |times|
    requires AllClosedRuns(times, selected, q, chunks)
    ensures AllClosedRuns(times, selected, n, chunks)
  {
    forall k | 0 <= k < |chunks|
      ensures IsClosedRun(times, selected, n, chunks[k])
    {
      var s: nat :| ClosedRunAt(times, selected, q, chunks[k], s);
      assert ClosedRunAt(times, selected, n, chunks[k], s);
    }
  }

  /** Closing one more run keeps every chunk a closed run. */
  lemma RunsAppend<T>(times: seq<T>, selected: seq<T>, n: nat, chunks: seq<seq<T>>, c: seq<T>)
    requires n <= |times|
    requires AllClosedRuns(times, selected, n, chunks)
    requires IsClosedRun(times, selected, n, c)
    ensures AllClosedRuns(times, selected, n, chunks + [c])
  {
    assert forall k :: 0 <= k < |chunks + [c]| ==> (chunks + [c])[k] == if k < |chunks| then chunks[k] else c;
  }

  /**
   * The selected times that reach the result: those before the trailing
   * run, so a run still open at the last keyframe is dropped; when every
   * keyframe is selected there are no chunks at all.
   */
  lemma TrailingRunDropped<T, V>(times: seq<T>, values: seq<V>, selected: seq<T>, n: nat)
    requires n <= |times| && n <= |values|
    ensures var st := ChunkingOf(times, values, selected, n);
      |st.chunkTime| <= n && Flatten(st.chunksTimeList) == SelectedOf(times, selected, n - |st.chunkTime|)
    ensures AllSelected(times[..n], selected) ==> ChunkingOf(times, values, selected, n).chunksTimeList == []
  {
    ChunkContents(times, values, selected, n);
    var st := ChunkingOf(times, values, selected, n);
    var k: nat := n - |st.chunkTime|;
    SelectedOfRun(times, selected, k, n);
    AppendCancel(Flatten(st.chunksTimeList), SelectedOf(times, selected, k), st.chunkTime);
    if AllSelected(times[..n], selected) {
      AllSelectedNoChunks(times, values, selected, n);
    }
  }

  /** Equal sequences with the same tail have the same head. */
  lemma AppendCancel<T>(a: seq<T>, b: seq<T>, c: seq<T>)
    requires a + c == b + c
    ensures a == b
  {
    assert |a| == |b|;
    forall i | 0 <= i < |a|
      ensures a[i] == b[i]
    {
      assert a[i] == (a + c)[i] && b[i] == (b + c)[i];
    }
  }

  /** Appending a run of selected times appends it to the selected times. */
  lemma {:induction false} SelectedOfRun<T>(times: seq<T>, selected: seq<T>, a: nat, b: nat)
    requires a <= b <= |times|
    requires AllSelected(times[a..b], selected)
    ensures SelectedOf(times, selected, b) == SelectedOf(times, selected, a) + times[a..b]
    decreases b - a
  {
    if a < b {
      assert times[a..b - 1] + [times[b - 1]] == times[a..b];
      forall j | a <= j < b - 1
        ensures times[j] in selected
      {
        assert times[j] == times[a..b][j - a];
      }
      var last := b - 1 - a;
      assert times[a..b][last] in selected;
      assert times[a..b][last] == times[b - 1];
      SelectedOfRun(times, selected, a, b - 1);
    }
  }

  /** With every keyframe selected no chunk is ever closed. */
  lemma {:induction false} AllSelectedNoChunks<T, V>(times: seq<T>, values: seq<V>, selected: seq<T>, n: nat)
    requires n <= |times| && n <= |values|
    requires AllSelected(times[..n], selected)
    ensures ChunkingOf(times, values, selected, n).chunksTimeList == []
  {
    if n > 0 {
      assert times[..n][n - 1] == times[n - 1];
      assert AllSelected(times[..n - 1], selected) by {
        assert forall i :: 0 <= i < n - 1 ==> times[..n - 1][i] == times[..n][i];
      }
      AllSelectedNoChunks(times, values, selected, n - 1);
    }
  }
}
