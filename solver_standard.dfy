/**
 * The standard solver's frame handling: the forward pairs of frames it
 * solves two at a time, the split of markers into those with enough
 * enabled frames and the rest, the frame and root-frame lists stored in
 * the solver's data, and the frame sets the solve is planned over.
 */
module SolverStandard {
  import opened Wrappers
  import ImportTracks

  /**
   * `_gen_two_frame_fwd`: a single frame gives one pair of that frame
   * with itself; otherwise each frame is paired with the next, in order.
   */
  method GenTwoFrameFwd(intList: seq<int>) returns (batchList: seq<seq<int>>)
    ensures |intList| == 1 ==> batchList == [[intList[0], intList[0]]]
    ensures |intList| != 1 ==> |batchList| == if |intList| == 0 then 0 else |intList| - 1
    ensures |intList| != 1 ==> forall i :: 0 <= i < |batchList| ==> batchList[i] == [intList[i], intList[i + 1]]
  {
    if |intList| == 1 {
      var num := intList[0];
      return [[num, num]];
    }
    var end := |intList| - 1;
    batchList := [];
    var i := 0;
    while i < end
      invariant 0 <= i <= if end < 0 then 0 else end
      invariant |batchList| == i
      invariant forall k :: 0 <= k < i ==> batchList[k] == [intList[k], intList[k + 1]]
    {
      var tmpList := intList[i..i + 2];
      var frmList: seq<int> := [];
      for j := 0 to |tmpList|
        invariant frmList == tmpList[..j]
      {
        frmList := frmList + [tmpList[j]];
      }
      assert frmList == [intList[i], intList[i + 1]];
      batchList := batchList + [frmList];
      i := i + 1;
    }
  }

  /** Consecutive pairs chain: each pair starts where the previous one ended, from the first frame to the last. */
  lemma TwoFrameFwdChains(intList: seq<int>, batchList: seq<seq<int>>)
    requires |intList| >= 2 && |batchList| == |intList| - 1
    requires forall i :: 0 <= i < |batchList| ==> batchList[i] == [intList[i], intList[i + 1]]
    ensures forall i :: 0 <= i < |batchList| ==> |batchList[i]| == 2
    ensures batchList[0][0] == intList[0] && batchList[|batchList| - 1][1] == intList[|intList| - 1]
    ensures forall i :: 0 < i < |batchList| ==> batchList[i][0] == batchList[i - 1][1]
  {
    forall i | 0 <= i < |batchList|
      ensures |batchList[i]| == 2 && batchList[i][0] == intList[i] && batchList[i][1] == intList[i + 1]
    {
      assert batchList[i] == [intList[i], intList[i + 1]];
    }
  }

  /** The number of frames of `frames` on which a marker is enabled (`get_enable` gives 0 or 1 per frame). */
  function EnabledCount<M>(enable: (M, int) -> int, mkr: M, frames: seq<int>): int
  {
    if |frames| == 0 then 0 else EnabledCount(enable, mkr, frames[..|frames| - 1]) + enable(mkr, frames[|frames| - 1])
  }

  /** Whether a marker has at least two enabled frames. */
  predicate IsUsed<M>(enable: (M, int) -> int, mkr: M, frames: seq<int>)
  {
    EnabledCount(enable, mkr, frames) >= 2
  }

  /** The markers that satisfy `IsUsed` (`keep`) or do not, in their original order. */
  function FilterUsed<M>(mkrs: seq<M>, enable: (M, int) -> int, frames: seq<int>, keep: bool): (r: seq<M>)
    ensures |r| <= |mkrs|
    ensures forall m :: m in r ==> m in mkrs && IsUsed(enable, m, frames) == keep
  {
    if |mkrs| == 0 then []
    else
      var front := FilterUsed(mkrs[..|mkrs| - 1], enable, frames, keep);
      var m := mkrs[|mkrs| - 1];
      if IsUsed(enable, m, frames) == keep then front + [m] else front
  }

  /** `_filter_mkr_list_by_frame_list`: splits the markers into used and unused, keeping their order. */
  method FilterMkrListByFrameList<M>(mkrList: seq<M>, frameList: seq<int>, enable: (M, int) -> int)
    returns (usedMkrList: seq<M>, unusedMkrList: seq<M>)
    ensures usedMkrList == FilterUsed(mkrList, enable, frameList, true)
    ensures unusedMkrList == FilterUsed(mkrList, enable, frameList, false)
  {
    usedMkrList := [];
    unusedMkrList := [];
    for i := 0 to |mkrList|
      invariant usedMkrList == FilterUsed(mkrList[..i], enable, frameList, true)
      invariant unusedMkrList == FilterUsed(mkrList[..i], enable, frameList, false)
    {
      assert mkrList[..i + 1][..i] == mkrList[..i];
      var mkr := mkrList[i];
      var frameCount := CountEnabled(mkr, frameList, enable);
      if frameCount >= 2 {
        usedMkrList := usedMkrList + [mkr];
      } else {
        unusedMkrList := unusedMkrList + [mkr];
      }
    }
    assert mkrList[..|mkrList|] == mkrList;
  }

  /** The inner loop of `_filter_mkr_list_by_frame_list`: sums the enable values over the frames. */
  method CountEnabled<M>(mkr: M, frameList: seq<int>, enable: (M, int) -> int) returns (frameCount: int)
    ensures frameCount == EnabledCount(enable, mkr, frameList)
  {
    frameCount := 0;
    for k := 0 to |frameList|
      invariant frameCount == EnabledCount(enable, mkr, frameList[..k])
    {
      assert frameList[..k + 1][..k] == frameList[..k];
      frameCount := frameCount + enable(mkr, frameList[k]);
    }
    assert frameList[..|frameList|] == frameList;
  }

  /** The split is a partition: every marker lands in exactly one of the two lists, as often as it occurs. */
  lemma {:induction false} FilterIsPartition<M>(mkrs: seq<M>, enable: (M, int) -> int, frames: seq<int>)
    ensures multiset(FilterUsed(mkrs, enable, frames, true)) + multiset(FilterUsed(mkrs, enable, frames, false)) == multiset(mkrs)
    ensures forall m :: m in mkrs ==> (m in FilterUsed(mkrs, enable, frames, true) <==> IsUsed(enable, m, frames))
  {
    if |mkrs| > 0 {
      var front := mkrs[..|mkrs| - 1];
      FilterIsPartition(front, enable, frames);
      assert mkrs == front + [mkrs[|mkrs| - 1]];
    }
  }

  /** `frame.get_data()`: the frame's number and the rest of its data. */
  datatype FrameData = FrameData(number: int, tags: seq<string>)

  /** Whether a frame list holds a frame with this number. */
  predicate HasNumber(frames: seq<FrameData>, n: int)
  {
    exists i :: 0 <= i < |frames| && frames[i].number == n
  }

  /** No two frames of the list share a number. */
  predicate UniqueNumbers(frames: seq<FrameData>)
  {
    forall i, j :: 0 <= i < j < |frames| ==> frames[i].number != frames[j].number
  }

  /**
   * Adding each frame in turn: a frame whose number is already present
   * raises NotValid, which stops the adding and leaves the frames added so
   * far in place.
   */
  function AddAll(frames: seq<FrameData>, add: seq<FrameData>): (r: (seq<FrameData>, bool))
    decreases |add|
  {
    if |add| == 0 then (frames, true)
    else if HasNumber(frames, add[0].number) then (frames, false)
    else AddAll(frames + [add[0]], add[1..])
  }

  /**
   * Adding succeeds exactly when the added frames' numbers are distinct
   * and new; then the list is the old list followed by them. Unique
   * numbers stay unique either way.
   */
  lemma {:induction false} AddAllResult(frames: seq<FrameData>, add: seq<FrameData>)
    requires UniqueNumbers(frames)
    ensures AddAll(frames, add).1 <==> UniqueNumbers(frames + add)
    ensures AddAll(frames, add).1 ==> AddAll(frames, add).0 == frames + add
    ensures UniqueNumbers(AddAll(frames, add).0)
    decreases |add|
  {
    if |add| > 0 {
      var next := frames + [add[0]];
      assert frames + add == next + add[1..];
      if HasNumber(frames, add[0].number) {
        var i :| 0 <= i < |frames| && frames[i].number == add[0].number;
        assert (frames + add)[i].number == (frames + add)[|frames|].number;
      } else {
        assert UniqueNumbers(next);
        AddAllResult(next, add[1..]);
        if UniqueNumbers(frames + add) {
          assert UniqueNumbers(next + add[1..]);
        }
      }
    } else {
      assert frames + add == frames;
    }
  }

  /** Index of the first frame with this number, or -1. */
  function FirstIndexOf(frames: seq<FrameData>, n: int): (r: int)
    ensures -1 <= r < |frames|
    ensures r == -1 <==> !HasNumber(frames, n)
    ensures r >= 0 ==> frames[r].number == n && forall k :: 0 <= k < r ==> frames[k].number != n
  {
    if |frames| == 0 then -1
    else if frames[0].number == n then 0
    else
      var t := FirstIndexOf(frames[1..], n);
      assert forall k :: 0 <= k < |frames| - 1 ==> frames[1..][k] == frames[k + 1];
      if t == -1 then -1 else t + 1
  }

  /** Deleting the first frame with this number; no such frame leaves the list as it is. */
  function RemoveFirst(frames: seq<FrameData>, n: int): seq<FrameData>
  {
    var i := FirstIndexOf(frames, n);
    if i == -1 then frames else frames[..i] + frames[i + 1..]
  }

  /** Removing each frame in turn. */
  function RemoveAll(frames: seq<FrameData>, remove: seq<FrameData>): seq<FrameData>
    decreases |remove|
  {
    if |remove| == 0 then frames else RemoveAll(RemoveFirst(frames, remove[0].number), remove[1..])
  }

  /**
   * Removing a number: exactly one frame goes when the number is present
   * and none otherwise, and every frame with another number stays.
   */
  lemma RemoveFirstResult(frames: seq<FrameData>, n: int)
    ensures !HasNumber(frames, n) ==> RemoveFirst(frames, n) == frames
    ensures HasNumber(frames, n) ==> |RemoveFirst(frames, n)| == |frames| - 1
    ensures forall f :: f in frames && f.number != n ==> f in RemoveFirst(frames, n)
  {
    var i := FirstIndexOf(frames, n);
    if i >= 0 {
      var r := frames[..i] + frames[i + 1..];
      forall f | f in frames && f.number != n
        ensures f in r
      {
        var k :| 0 <= k < |frames| && frames[k] == f;
        if k < i {
          assert r[k] == f;
        } else {
          assert r[k - 1] == f;
        }
      }
    }
  }

  /** Position `k` of a list with position `i` taken out, as a position of the whole list. */
  function Skip(k: nat, i: nat): (r: nat)
    ensures r != i && (r < i <==> k < i)
  {
    if k < i then k else k + 1
  }

  /** Taking out position `i` shifts the later frames down by one. */
  lemma DropAt(frames: seq<FrameData>, i: nat)
    requires i < |frames|
    ensures |frames[..i] + frames[i + 1..]| == |frames| - 1
    ensures forall k :: 0 <= k < |frames| - 1 ==> Skip(k, i) < |frames| && (frames[..i] + frames[i + 1..])[k] == frames[Skip(k, i)]
  {
  }

  /** Taking a frame out of a list of unique numbers keeps the numbers unique and that frame's number gone. */
  lemma DropUnique(frames: seq<FrameData>, i: nat)
    requires i < |frames| && UniqueNumbers(frames)
    ensures UniqueNumbers(frames[..i] + frames[i + 1..])
    ensures !HasNumber(frames[..i] + frames[i + 1..], frames[i].number)
  {
    var r := frames[..i] + frames[i + 1..];
    DropAt(frames, i);
    forall a, b | 0 <= a < b < |r|
      ensures r[a].number != r[b].number
    {
      assert Skip(a, i) < Skip(b, i);
    }
    forall k | 0 <= k < |r|
      ensures r[k].number != frames[i].number
    {
      if Skip(k, i) < i {
        assert frames[Skip(k, i)].number != frames[i].number;
      } else {
        assert frames[i].number != frames[Skip(k, i)].number;
      }
    }
  }

  /** In a list of unique numbers, removing a number leaves the numbers unique and that number gone. */
  lemma RemoveFirstUnique(frames: seq<FrameData>, n: int)
    requires UniqueNumbers(frames)
    ensures UniqueNumbers(RemoveFirst(frames, n))
    ensures !HasNumber(RemoveFirst(frames, n), n)
  {
    var i := FirstIndexOf(frames, n);
    if i >= 0 {
      DropUnique(frames, i);
    }
  }

  /** The frame list as read from the data: a missing list reads as empty. */
  function FrameListOf(data: Option<seq<FrameData>>): seq<FrameData>
  {
    if data.None? then [] else data.value
  }

  /** The solver's data: its frame list and its root-frame list, each absent until first set. */
  class SolverStandard {
    var frameList: Option<seq<FrameData>>
    var rootFrameList: Option<seq<FrameData>>

    /** A new solver has neither list. */
    constructor ()
      ensures frameList.None? && rootFrameList.None?
    {
      frameList := None;
      rootFrameList := None;
    }

    /** `get_frame_list`. */
    function GetFrameList(): seq<FrameData>
      reads this
    {
      FrameListOf(frameList)
    }

    /** `get_root_frame_list`. */
    function GetRootFrameList(): seq<FrameData>
      reads this
    {
      FrameListOf(rootFrameList)
    }

    /** `get_frame_list_length`. */
    function GetFrameListLength(): nat
      reads this
    {
      |GetFrameList()|
    }

    /** `add_frame`: false stands for NotValid, raised on a duplicate number with nothing changed. */
    method AddFrame(frm: FrameData) returns (ok: bool)
      modifies this`frameList
      ensures (GetFrameList(), ok) == AddAll(old(GetFrameList()), [frm])
      ensures !ok ==> frameList == old(frameList)
    {
      var frmListData := FrameListOf(frameList);
      for i := 0 to |frmListData|
        invariant forall k :: 0 <= k < i ==> frmListData[k].number != frm.number
      {
        if frmListData[i].number == frm.number {
          return false;
        }
      }
      assert [frm][1..] == [];
      frameList := Some(frmListData + [frm]);
      ok := true;
    }

    /** `add_frame_list`: adds each frame, stopping at the first NotValid. */
    method AddFrameList(frmList: seq<FrameData>) returns (ok: bool)
      modifies this`frameList
      ensures (GetFrameList(), ok) == AddAll(old(GetFrameList()), frmList)
    {
      for i := 0 to |frmList|
        invariant AddAll(GetFrameList(), frmList[i..]) == AddAll(old(GetFrameList()), frmList)
      {
        var before := GetFrameList();
        ok := AddFrame(frmList[i]);
        assert frmList[i..][1..] == frmList[i + 1..];
        if !ok {
          return;
        }
      }
      ok := true;
    }

    /** `remove_frame`: a missing list becomes empty; otherwise the first frame with the number goes. */
    method RemoveFrame(frm: FrameData)
      modifies this`frameList
      ensures frameList == Some(RemoveFirst(old(GetFrameList()), frm.number))
    {
      if frameList.None? {
        frameList := Some([]);
        return;
      }
      var frmListData := frameList.value;
      var foundIndex := -1;
      for i := 0 to |frmListData|
        invariant forall k :: 0 <= k < i ==> frmListData[k].number != frm.number
      {
        if frmListData[i].number == frm.number {
          foundIndex := i;
          break;
        }
      }
      assert foundIndex == FirstIndexOf(frmListData, frm.number);
      if foundIndex != -1 {
        frmListData := frmListData[..foundIndex] + frmListData[foundIndex + 1..];
      }
      frameList := Some(frmListData);
    }

    /** `remove_frame_list`. */
    method RemoveFrameList(frmList: seq<FrameData>)
      modifies this`frameList
      ensures GetFrameList() == RemoveAll(old(GetFrameList()), frmList)
    {
      for i := 0 to |frmList|
        invariant RemoveAll(GetFrameList(), frmList[i..]) == RemoveAll(old(GetFrameList()), frmList)
      {
        assert frmList[i..][1..] == frmList[i + 1..];
        RemoveFrame(frmList[i]);
      }
    }

    /** `clear_frame_list`. */
    method ClearFrameList()
      modifies this`frameList
      ensures frameList == Some([])
    {
      frameList := Some([]);
    }

    /** `set_frame_list`: clears the frame list, then adds each frame. */
    method SetFrameList(frmList: seq<FrameData>) returns (ok: bool)
      modifies this`frameList
      ensures (GetFrameList(), ok) == AddAll([], frmList)
    {
      ClearFrameList();
      ok := AddFrameList(frmList);
    }

    /** `add_root_frame`: as `AddFrame`, on the root-frame list. */
    method AddRootFrame(frm: FrameData) returns (ok: bool)
      modifies this`rootFrameList
      ensures (GetRootFrameList(), ok) == AddAll(old(GetRootFrameList()), [frm])
      ensures !ok ==> rootFrameList == old(rootFrameList)
    {
      var frmListData := FrameListOf(rootFrameList);
      for i := 0 to |frmListData|
        invariant forall k :: 0 <= k < i ==> frmListData[k].number != frm.number
      {
        if frmListData[i].number == frm.number {
          return false;
        }
      }
      assert [frm][1..] == [];
      rootFrameList := Some(frmListData + [frm]);
      ok := true;
    }

    /** `add_root_frame_list`. */
    method AddRootFrameList(frmList: seq<FrameData>) returns (ok: bool)
      modifies this`rootFrameList
      ensures (GetRootFrameList(), ok) == AddAll(old(GetRootFrameList()), frmList)
    {
      for i := 0 to |frmList|
        invariant AddAll(GetRootFrameList(), frmList[i..]) == AddAll(old(GetRootFrameList()), frmList)
      {
        ok := AddRootFrame(frmList[i]);
        assert frmList[i..][1..] == frmList[i + 1..];
        if !ok {
          return;
        }
      }
      ok := true;
    }

    /** `remove_root_frame`: as `RemoveFrame`, on the root-frame list. */
    method RemoveRootFrame(frm: FrameData)
      modifies this`rootFrameList
      ensures rootFrameList == Some(RemoveFirst(old(GetRootFrameList()), frm.number))
    {
      if rootFrameList.None? {
        rootFrameList := Some([]);
        return;
      }
      var frmListData := rootFrameList.value;
      var foundIndex := -1;
      for i := 0 to |frmListData|
        invariant forall k :: 0 <= k < i ==> frmListData[k].number != frm.number
      {
        if frmListData[i].number == frm.number {
          foundIndex := i;
          break;
        }
      }
      assert foundIndex == FirstIndexOf(frmListData, frm.number);
      if foundIndex != -1 {
        frmListData := frmListData[..foundIndex] + frmListData[foundIndex + 1..];
      }
      rootFrameList := Some(frmListData);
    }

    /** `remove_root_frame_list`. */
    method RemoveRootFrameList(frmList: seq<FrameData>)
      modifies this`rootFrameList
      ensures GetRootFrameList() == RemoveAll(old(GetRootFrameList()), frmList)
    {
      for i := 0 to |frmList|
        invariant RemoveAll(GetRootFrameList(), frmList[i..]) == RemoveAll(old(GetRootFrameList()), frmList)
      {
        assert frmList[i..][1..] == frmList[i + 1..];
        RemoveRootFrame(frmList[i]);
      }
    }

    /** `clear_root_frame_list`. */
    method ClearRootFrameList()
      modifies this`rootFrameList
      ensures rootFrameList == Some([])
    {
      rootFrameList := Some([]);
    }

    /**
     * `set_root_frame_list` as written: it clears the (non-root) frame
     * list, then adds the frames to the root-frame list it left in place.
     */
    method SetRootFrameListAsWritten(frmList: seq<FrameData>) returns (ok: bool)
      modifies this`frameList, this`rootFrameList
      ensures frameList == Some([])
      ensures (GetRootFrameList(), ok) == AddAll(old(GetRootFrameList()), frmList)
    {
      ClearFrameList();
      ok := AddRootFrameList(frmList);
    }

    /** `set_root_frame_list` as intended: clears the root-frame list, then adds each frame; the frame list is untouched. */
    method SetRootFrameList(frmList: seq<FrameData>) returns (ok: bool)
      modifies this`rootFrameList
      ensures (GetRootFrameList(), ok) == AddAll([], frmList)
    {
      ClearRootFrameList();
      ok := AddRootFrameList(frmList);
    }
  }

  /**
   * As written, setting the root frames again to the frames already set
   * fails with NotValid on the first frame, and the root-frame list stays
   * as it was, while the frame list is emptied.
   */
  lemma SetRootFrameListAsWrittenRejectsSameFrames(roots: seq<FrameData>)
    requires |roots| > 0
    ensures AddAll(roots, roots) == (roots, false)
  {
    assert roots[0].number == roots[0].number;
    assert HasNumber(roots, roots[0].number);
  }

  /** As intended, setting a list of frames with distinct numbers succeeds, and the list reads back as set. */
  lemma SetFrameListThenGet(frmList: seq<FrameData>)
    requires UniqueNumbers(frmList)
    ensures AddAll([], frmList) == (frmList, true)
  {
    AddAllResult([], frmList);
    assert [] + frmList == frmList;
  }

  /** `set(frame_list_num) - set(root_frame_list_num)`: the frames to solve that are not root frames. */
  function NonRootFrameNumbers(frameNums: seq<int>, rootNums: seq<int>): (r: set<int>)
    ensures forall x :: x in r <==> x in frameNums && x !in rootNums
    ensures forall x :: x in rootNums ==> x !in r
  {
    set x | x in frameNums && x !in rootNums
  }

  /** The distinct values of a sequence, first occurrence kept. */
  function Distinct(s: seq<int>): (r: seq<int>)
    ensures ImportTracks.NoDup(r)
    ensures forall x :: x in r <==> x in s
  {
    if |s| == 0 then []
    else
      var front := Distinct(s[..|s| - 1]);
      assert forall x :: x in s <==> x in s[..|s| - 1] || x == s[|s| - 1] by {
        assert s == s[..|s| - 1] + [s[|s| - 1]];
      }
      if s[|s| - 1] in front then front else front + [s[|s| - 1]]
  }

  /**
   * `sorted(set(frame_list_num + root_frame_list_num))`: every frame
   * number of either list once, in increasing order.
   */
  function AllFrameNumbers(frameNums: seq<int>, rootNums: seq<int>): (r: seq<int>)
    ensures ImportTracks.Increasing(r)
    ensures forall x :: x in r <==> x in frameNums || x in rootNums
  {
    var u := Distinct(frameNums + rootNums);
    ImportTracks.Sort(u)
  }

  /**
   * The start and end frames of the solve: the first and last of the
   * sorted union, which are its least and greatest numbers; None where
   * the source's indexing of the empty list raises IndexError.
   */
  function StartEndFrames(frameNums: seq<int>, rootNums: seq<int>): (r: Option<(int, int)>)
    ensures r.None? <==> |frameNums| == 0 && |rootNums| == 0
    ensures r.Some? ==> forall x :: x in frameNums || x in rootNums ==> r.value.0 <= x <= r.value.1
    ensures r.Some? ==> (r.value.0 in frameNums || r.value.0 in rootNums) && (r.value.1 in frameNums || r.value.1 in rootNums)
  {
    var all := AllFrameNumbers(frameNums, rootNums);
    assert |frameNums| > 0 ==> frameNums[0] in all;
    assert |rootNums| > 0 ==> rootNums[0] in all;
    if |all| == 0 then None
    else
      assert all[0] in all && all[|all| - 1] in all;
      assert forall x :: x in all ==> all[0] <= x <= all[|all| - 1] by {
        forall x | x in all
          ensures all[0] <= x <= all[|all| - 1]
        {
          ImportTracks.FirstIsLeast(all, x);
          ImportTracks.LastIsGreatest(all, x);
        }
      }
      Some((all[0], all[|all| - 1]))
  }
}
