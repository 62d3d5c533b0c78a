/**
 * The solver's bookkeeping of errors and parameters: which marker/frame
 * pairs give errors (with per-frame normalised weights), which
 * attributes give unknown parameters on which frames, and which
 * parameters can affect which errors. What Maya reports about a marker,
 * an attribute or a plug is given as a function of the indices.
 */
module AdjustRelationships {
  import opened Wrappers

  /** What is read of a marker on one frame: enable, weight and the distorted position. */
  datatype MarkerSample = MarkerSample(enable: bool, weight: real, posX: real, posY: real)

  /** A marker/frame pair gives errors when it is enabled with a positive weight. */
  predicate Counts(s: MarkerSample)
  {
    s.enable && s.weight > 0.0
  }

  type Sampler = (nat, nat) -> MarkerSample

  /** The counting pairs of marker `i` on its first `j` frames, in frame order. */
  function RowPairs(sample: Sampler, i: nat, j: nat): seq<(nat, nat)>
  {
    if j == 0 then [] else RowPairs(sample, i, j - 1) + (if Counts(sample(i, j - 1)) then [(i, j - 1)] else [])
  }

  /** The counting pairs of the first `i` markers on `frames` frames, marker by marker. */
  function Pairs(sample: Sampler, i: nat, frames: nat): seq<(nat, nat)>
  {
    if i == 0 then [] else Pairs(sample, i - 1, frames) + RowPairs(sample, i - 1, frames)
  }

  lemma {:induction false} RowPairsMembers(sample: Sampler, i: nat, j: nat, m: nat, f: nat)
    ensures (m, f) in RowPairs(sample, i, j) <==> m == i && f < j && Counts(sample(m, f))
  {
    if j > 0 { RowPairsMembers(sample, i, j - 1, m, f); }
  }

  /** Every listed pair is in range and counts. */
  lemma {:induction false} PairsSound(sample: Sampler, i: nat, frames: nat, m: nat, f: nat)
    requires (m, f) in Pairs(sample, i, frames)
    ensures m < i && f < frames && Counts(sample(m, f))
  {
    var a := Pairs(sample, i - 1, frames);
    var b := RowPairs(sample, i - 1, frames);
    assert (m, f) in a + b;
    if (m, f) in a {
      PairsSound(sample, i - 1, frames, m, f);
    } else {
      assert (m, f) in b;
      RowPairsMembers(sample, i - 1, frames, m, f);
    }
  }

  /** Every counting pair in range is listed. */
  lemma {:induction false} PairsComplete(sample: Sampler, i: nat, frames: nat, m: nat, f: nat)
    requires m < i && f < frames && Counts(sample(m, f))
    ensures (m, f) in Pairs(sample, i, frames)
  {
    var a := Pairs(sample, i - 1, frames);
    var b := RowPairs(sample, i - 1, frames);
    assert Pairs(sample, i, frames) == a + b;
    if m < i - 1 {
      PairsComplete(sample, i - 1, frames, m, f);
      assert (m, f) in a;
    } else {
      RowPairsMembers(sample, i - 1, frames, m, f);
      assert (m, f) in b;
    }
  }

  /** A pair is listed exactly when its marker and frame are in range and it counts. */
  lemma PairsMembers(sample: Sampler, i: nat, frames: nat, m: nat, f: nat)
    ensures (m, f) in Pairs(sample, i, frames) <==> m < i && f < frames && Counts(sample(m, f))
  {
    if (m, f) in Pairs(sample, i, frames) {
      PairsSound(sample, i, frames, m, f);
    }
    if m < i && f < frames && Counts(sample(m, f)) {
      PairsComplete(sample, i, frames, m, f);
    }
  }

  /** The running maximum of one frame's weight map entry after one more marker. */
  function Combine(m: Option<real>, s: MarkerSample): Option<real>
  {
    if !Counts(s) then m
    else if m.Some? && !(s.weight > m.value) then m
    else Some(s.weight)
  }

  /** The maximum counting weight of the first `i` markers on frame `fr`; None when none counts. */
  function MaxBefore(sample: Sampler, i: nat, fr: nat): Option<real>
  {
    if i == 0 then None else Combine(MaxBefore(sample, i - 1, fr), sample(i - 1, fr))
  }

  /** The per-frame maximum is positive and bounds every counting weight on that frame. */
  lemma {:induction false} MaxBounds(sample: Sampler, i: nat, fr: nat, k: nat)
    requires k < i && Counts(sample(k, fr))
    ensures MaxBefore(sample, i, fr).Some?
    ensures sample(k, fr).weight <= MaxBefore(sample, i, fr).value
    ensures MaxBefore(sample, i, fr).value > 0.0
  {
    if k < i - 1 {
      MaxBounds(sample, i - 1, fr, k);
    }
  }

  /** The maximum of the whole frame list, as the weight map holds it. */
  function FrameMax(sample: Sampler, markers: nat, fr: nat): real
  {
    match MaxBefore(sample, markers, fr)
    case None => 0.0
    case Some(w) => w
  }

  /** Every listed pair's weight, divided by its frame's maximum, lies in (0, 1]. */
  lemma NormalisedWeightBounds(sample: Sampler, markers: nat, frames: nat, p: (nat, nat))
    requires p in Pairs(sample, markers, frames)
    ensures FrameMax(sample, markers, p.1) > 0.0
    ensures 0.0 < sample(p.0, p.1).weight / FrameMax(sample, markers, p.1) <= 1.0
  {
    PairsMembers(sample, markers, frames, p.0, p.1);
    MaxBounds(sample, markers, p.1, p.0);
    var w := sample(p.0, p.1).weight;
    var m := FrameMax(sample, markers, p.1);
    assert w / m <= 1.0 by { assert w / m * m == w; }
  }

  /** How many values are positive (an attribute's stiffness or smoothness weight). */
  function CountPositive(values: seq<real>): (n: nat)
    ensures n <= |values|
  {
    if |values| == 0 then 0 else CountPositive(values[..|values| - 1]) + (if values[|values| - 1] > 0.0 then 1 else 0)
  }

  function MapGet(m: map<nat, real>, k: nat): Option<real>
  {
    if k in m then Some(m[k]) else None
  }

  /** What the output lists hold for the pairs found so far (weights not yet normalised). */
  ghost predicate PairLists(sample: Sampler, pairs: seq<(nat, nat)>, validMarkers: seq<nat>,
                            positions: seq<(real, real)>, weights: seq<real>)
  {
    && |validMarkers| == |pairs| && |positions| == |pairs| && |weights| == |pairs|
    && (forall k :: 0 <= k < |pairs| ==> validMarkers[k] == pairs[k].0)
    && (forall k :: 0 <= k < |pairs| ==>
          positions[k] == (sample(pairs[k].0, pairs[k].1).posX, sample(pairs[k].0, pairs[k].1).posY))
    && (forall k :: 0 <= k < |pairs| ==> weights[k] == sample(pairs[k].0, pairs[k].1).weight)
  }

  /** The maximum weight map after marker `i`'s first `j` frames. */
  ghost predicate MaxMap(sample: Sampler, wmax: map<nat, real>, i: nat, j: nat, frames: nat)
  {
    && (forall fr :: fr in wmax ==> fr < frames)
    && (forall fr :: 0 <= fr < frames ==> MapGet(wmax, fr) == MaxBefore(sample, if fr < j then i + 1 else i, fr))
  }

  /** The marker loop of `countUpNumberOfErrors`: one marker's frames. */
  method CountMarkerFrames(sample: Sampler, i: nat, frames: nat, errorsPerMarker: nat,
                           pairs0: seq<(nat, nat)>, validMarkers0: seq<nat>, positions0: seq<(real, real)>,
                           weights0: seq<real>, wmax0: map<nat, real>)
    returns (pairs: seq<(nat, nat)>, validMarkers: seq<nat>, positions: seq<(real, real)>,
             weights: seq<real>, wmax: map<nat, real>)
    requires PairLists(sample, pairs0, validMarkers0, positions0, weights0)
    requires MaxMap(sample, wmax0, i, 0, frames)
    ensures pairs == pairs0 + RowPairs(sample, i, frames)
    ensures PairLists(sample, pairs, validMarkers, positions, weights)
    ensures MaxMap(sample, wmax, i + 1, 0, frames)
  {
    pairs, validMarkers, positions, weights, wmax := pairs0, validMarkers0, positions0, weights0, wmax0;
    var j := 0;
    while j < frames
      invariant j <= frames
      invariant pairs == pairs0 + RowPairs(sample, i, j)
      invariant PairLists(sample, pairs, validMarkers, positions, weights)
      invariant MaxMap(sample, wmax, i, j, frames)
    {
      var s := sample(i, j);
      assert MaxBefore(sample, i + 1, j) == Combine(MaxBefore(sample, i, j), s);
      assert MapGet(wmax, j) == MaxBefore(sample, i, j);
      ghost var w0 := wmax;
      if s.enable && s.weight > 0.0 {
        pairs := pairs + [(i, j)];
        validMarkers := validMarkers + [i];
        weights := weights + [s.weight];
        var weightMax := s.weight;
        if j in wmax {
          weightMax := wmax[j];
          if s.weight > weightMax {
            weightMax := s.weight;
          }
          wmax := wmax - {j};
        }
        wmax := wmax[j := weightMax];
        positions := positions + [(s.posX, s.posY)];
      }
      forall fr | 0 <= fr < frames
        ensures MapGet(wmax, fr) == MaxBefore(sample, if fr < j + 1 then i + 1 else i, fr)
      {
        if fr != j {
          assert MapGet(wmax, fr) == MapGet(w0, fr);
        }
      }
      j := j + 1;
    }
  }

  /** The weight loop of `countUpNumberOfErrors`: each weight over the largest weight on its frame. */
  method NormaliseWeights(sample: Sampler, markers: nat, frames: nat, pairs: seq<(nat, nat)>,
                          raw: seq<real>, wmax: map<nat, real>) returns (weights: seq<real>)
    requires pairs == Pairs(sample, markers, frames) && |raw| == |pairs|
    requires MaxMap(sample, wmax, markers, 0, frames)
    ensures |weights| == |pairs|
    ensures forall n :: 0 <= n < |pairs| ==>
      FrameMax(sample, markers, pairs[n].1) > 0.0 && weights[n] == raw[n] / FrameMax(sample, markers, pairs[n].1)
  {
    weights := raw;
    var k := 0;
    while k < |pairs|
      invariant k <= |pairs| && |weights| == |pairs|
      invariant forall n :: k <= n < |pairs| ==> weights[n] == raw[n]
      invariant forall n :: 0 <= n < k ==>
        FrameMax(sample, markers, pairs[n].1) > 0.0 && weights[n] == raw[n] / FrameMax(sample, markers, pairs[n].1)
    {
      var frameIndex := pairs[k].1;
      NormalisedWeightBounds(sample, markers, frames, pairs[k]);
      PairsMembers(sample, markers, frames, pairs[k].0, pairs[k].1);
      assert MapGet(wmax, frameIndex) == MaxBefore(sample, markers, frameIndex);
      var weightMax := wmax[frameIndex];
      weights := weights[k := weights[k] / weightMax];
      k := k + 1;
    }
  }

  /** The stiffness and smoothness loops of `countUpNumberOfErrors`: one error per positive weight. */
  method CountPositiveWeights(ws: seq<real>) returns (n: nat)
    ensures n == CountPositive(ws)
  {
    n := 0;
    for a := 0 to |ws|
      invariant n == CountPositive(ws[..a])
    {
      assert ws[..a + 1][..a] == ws[..a];
      if ws[a] > 0.0 {
        n := n + 1;
      }
    }
    assert ws[..|ws|] == ws;
  }

  /**
   * `countUpNumberOfErrors`: every enabled, positively weighted
   * marker/frame pair, marker by marker and frame by frame, gives
   * `errorsPerMarker` errors and one entry in each of the marker, position
   * and weight lists; each weight is divided by the largest weight on its
   * frame; every stiffness and smoothness attribute with a positive
   * weight gives one more error.
   */
  method CountUpNumberOfErrors(sample: Sampler, markers: nat, frames: nat, errorsPerMarker: nat,
                               stiffWeights: seq<real>, smoothWeights: seq<real>)
    returns (validMarkers: seq<nat>, positions: seq<(real, real)>, weights: seq<real>,
             errorToMarker: seq<(nat, nat)>, numMarkerErrors: nat, numStiffErrors: nat,
             numSmoothErrors: nat, numErrors: nat)
    ensures errorToMarker == Pairs(sample, markers, frames)
    ensures |validMarkers| == |errorToMarker| && |positions| == |errorToMarker| && |weights| == |errorToMarker|
    ensures forall k :: 0 <= k < |errorToMarker| ==> validMarkers[k] == errorToMarker[k].0
    ensures forall k :: 0 <= k < |errorToMarker| ==>
      positions[k] == (sample(errorToMarker[k].0, errorToMarker[k].1).posX, sample(errorToMarker[k].0, errorToMarker[k].1).posY)
    ensures forall k :: 0 <= k < |errorToMarker| ==>
      FrameMax(sample, markers, errorToMarker[k].1) > 0.0 &&
      weights[k] == sample(errorToMarker[k].0, errorToMarker[k].1).weight / FrameMax(sample, markers, errorToMarker[k].1)
    ensures forall k :: 0 <= k < |weights| ==> 0.0 < weights[k] <= 1.0
    ensures numMarkerErrors == errorsPerMarker * |errorToMarker|
    ensures numStiffErrors == CountPositive(stiffWeights) && numSmoothErrors == CountPositive(smoothWeights)
    ensures numErrors == numMarkerErrors + numStiffErrors + numSmoothErrors
  {
    validMarkers, positions, weights, errorToMarker := [], [], [], [];
    var wmax: map<nat, real> := map[];
    var i := 0;
    while i < markers
      invariant i <= markers
      invariant errorToMarker == Pairs(sample, i, frames)
      invariant PairLists(sample, errorToMarker, validMarkers, positions, weights)
      invariant MaxMap(sample, wmax, i, 0, frames)
    {
      errorToMarker, validMarkers, positions, weights, wmax :=
        CountMarkerFrames(sample, i, frames, errorsPerMarker, errorToMarker, validMarkers, positions, weights, wmax);
      i := i + 1;
    }
    numMarkerErrors := errorsPerMarker * |errorToMarker|;

    ghost var raw := weights;
    weights := NormaliseWeights(sample, markers, frames, errorToMarker, weights, wmax);
    forall n | 0 <= n < |weights| ensures 0.0 < weights[n] <= 1.0 {
      assert raw[n] == sample(errorToMarker[n].0, errorToMarker[n].1).weight;
      NormalisedWeightBounds(sample, markers, frames, errorToMarker[n]);
    }
    numStiffErrors := CountPositiveWeights(stiffWeights);
    numSmoothErrors := CountPositiveWeights(smoothWeights);
    numErrors := numMarkerErrors + numStiffErrors + numSmoothErrors;
  }

  // `countUpNumberOfUnknownParameters`.

  /** What is known of an attribute: animated, free to change, on a camera, and its bounds. */
  datatype Attr = Attr(animated: bool, freeToChange: bool, partOfCamera: bool, minValue: real, maxValue: real)

  /** The (attribute, frame) pairs an attribute adds: one per frame when animated, one with frame -1 when free. */
  function AttrParams(i: nat, a: Attr, frames: nat): seq<(int, int)>
  {
    if a.animated then seq(frames, j => (i, j))
    else if a.freeToChange then [(i, -1)]
    else []
  }

  /** The parameters of the first `n` attributes, attribute by attribute. */
  function Params(attrs: seq<Attr>, n: nat, frames: nat): seq<(int, int)>
    requires n <= |attrs|
  {
    if n == 0 then [] else Params(attrs, n - 1, frames) + AttrParams(n - 1, attrs[n - 1], frames)
  }

  /** A parameter's frame mask: all frames for a static one, only its own frame for an animated one. */
  function FrameMask(frameIndex: int, frames: nat): seq<bool>
  {
    seq(frames, k => frameIndex < 0 || k == frameIndex)
  }

  /** The four attribute lists: camera static, camera animated, static, animated. */
  datatype AttrLists = AttrLists(camStatic: seq<nat>, camAnim: seq<nat>, nonCamStatic: seq<nat>, anim: seq<nat>)

  /** The attribute lists after the first `n` attributes. */
  function Classify(attrs: seq<Attr>, n: nat): AttrLists
    requires n <= |attrs|
  {
    if n == 0 then AttrLists([], [], [], [])
    else
      var l := Classify(attrs, n - 1);
      var a := attrs[n - 1];
      if a.animated then
        if a.partOfCamera then l.(camAnim := l.camAnim + [n - 1]) else l.(anim := l.anim + [n - 1])
      else if a.freeToChange then
        if a.partOfCamera then l.(camStatic := l.camStatic + [n - 1]) else l.(nonCamStatic := l.nonCamStatic + [n - 1])
      else l
  }

  ghost predicate ParamLists(attrs: seq<Attr>, frames: nat, params: seq<(int, int)>, masks: seq<seq<bool>>,
                             lower: seq<real>, upper: seq<real>, paramWeights: seq<real>)
  {
    && |masks| == |params| && |lower| == |params| && |upper| == |params| && |paramWeights| == |params|
    && (forall p :: 0 <= p < |params| ==> 0 <= params[p].0 < |attrs|)
    && (forall p :: 0 <= p < |params| ==> masks[p] == FrameMask(params[p].1, frames))
    && (forall p :: 0 <= p < |params| ==> lower[p] == attrs[params[p].0].minValue && upper[p] == attrs[params[p].0].maxValue)
    && (forall p :: 0 <= p < |params| ==> paramWeights[p] == 1.0)
  }

  /** One attribute's share of `countUpNumberOfUnknownParameters`. */
  method AddAttrParams(attrs: seq<Attr>, i: nat, frames: nat, params0: seq<(int, int)>, masks0: seq<seq<bool>>,
                       lower0: seq<real>, upper0: seq<real>, weights0: seq<real>)
    returns (params: seq<(int, int)>, masks: seq<seq<bool>>, lower: seq<real>, upper: seq<real>, paramWeights: seq<real>)
    requires i < |attrs| && ParamLists(attrs, frames, params0, masks0, lower0, upper0, weights0)
    ensures params == params0 + AttrParams(i, attrs[i], frames)
    ensures ParamLists(attrs, frames, params, masks, lower, upper, paramWeights)
  {
    params, masks, lower, upper, paramWeights := params0, masks0, lower0, upper0, weights0;
    var attr := attrs[i];
    if attr.animated {
      var j := 0;
      while j < frames
        invariant j <= frames
        invariant params == params0 + seq(j, f => (i, f))
        invariant ParamLists(attrs, frames, params, masks, lower, upper, paramWeights)
      {
        params := params + [(i, j)];
        var frameIndexes := seq(frames, k => k == j);
        masks := masks + [frameIndexes];
        lower := lower + [attr.minValue];
        upper := upper + [attr.maxValue];
        paramWeights := paramWeights + [1.0];
        assert seq(j + 1, f => (i, f)) == seq(j, f => (i, f)) + [(i, j)];
        j := j + 1;
      }
    } else if attr.freeToChange {
      params := params + [(i, -1)];
      masks := masks + [seq(frames, k => true)];
      lower := lower + [attr.minValue];
      upper := upper + [attr.maxValue];
      paramWeights := paramWeights + [1.0];
    }
  }

  /**
   * `countUpNumberOfUnknownParameters`: attribute by attribute, an
   * animated attribute adds one parameter per frame and a free static one
   * adds one parameter for frame -1; each parameter has its frame mask,
   * its attribute's bounds and weight 1; the attributes are sorted into
   * the camera/non-camera and static/animated lists.
   */
  method CountUpNumberOfUnknownParameters(attrs: seq<Attr>, frames: nat)
    returns (lists: AttrLists, lower: seq<real>, upper: seq<real>, paramWeights: seq<real>,
             paramToAttr: seq<(int, int)>, paramFrame: seq<seq<bool>>, numUnknowns: nat)
    ensures paramToAttr == Params(attrs, |attrs|, frames) && numUnknowns == |paramToAttr|
    ensures ParamLists(attrs, frames, paramToAttr, paramFrame, lower, upper, paramWeights)
    ensures lists == Classify(attrs, |attrs|)
  {
    paramToAttr, paramFrame, lower, upper, paramWeights := [], [], [], [], [];
    lists := AttrLists([], [], [], []);
    numUnknowns := 0;
    for i := 0 to |attrs|
      invariant paramToAttr == Params(attrs, i, frames) && numUnknowns == |paramToAttr|
      invariant ParamLists(attrs, frames, paramToAttr, paramFrame, lower, upper, paramWeights)
      invariant lists == Classify(attrs, i)
    {
      paramToAttr, paramFrame, lower, upper, paramWeights :=
        AddAttrParams(attrs, i, frames, paramToAttr, paramFrame, lower, upper, paramWeights);
      lists, numUnknowns := ClassifyAttr(attrs, i, frames, lists, numUnknowns);
    }
  }

  /** One attribute's unknowns and list entry in `countUpNumberOfUnknownParameters`. */
  method ClassifyAttr(attrs: seq<Attr>, i: nat, frames: nat, lists0: AttrLists, count0: nat)
    returns (lists: AttrLists, numUnknowns: nat)
    requires i < |attrs| && lists0 == Classify(attrs, i)
    ensures lists == Classify(attrs, i + 1)
    ensures numUnknowns == count0 + |AttrParams(i, attrs[i], frames)|
  {
    lists, numUnknowns := lists0, count0;
    var attr := attrs[i];
    AttrParamsShape(i, attr, frames);
    if attr.animated {
      numUnknowns := numUnknowns + frames;
      if attr.partOfCamera {
        lists := lists.(camAnim := lists.camAnim + [i]);
      } else {
        lists := lists.(anim := lists.anim + [i]);
      }
    } else if attr.freeToChange {
      numUnknowns := numUnknowns + 1;
      if attr.partOfCamera {
        lists := lists.(camStatic := lists.camStatic + [i]);
      } else {
        lists := lists.(nonCamStatic := lists.nonCamStatic + [i]);
      }
    }
  }

  /**
   * An animated attribute gives as many parameters as frames, the
   * parameter for frame j masking in frame j alone; a free static one
   * gives one parameter for frame -1 masking in every frame; any other
   * gives none.
   */
  lemma AttrParamsShape(i: nat, a: Attr, frames: nat)
    ensures |AttrParams(i, a, frames)| == if a.animated then frames else if a.freeToChange then 1 else 0
    ensures a.animated ==> forall j, k :: 0 <= j < frames && 0 <= k < frames ==>
      AttrParams(i, a, frames)[j] == (i, j) && (FrameMask(AttrParams(i, a, frames)[j].1, frames)[k] <==> k == j)
    ensures !a.animated && a.freeToChange ==>
      AttrParams(i, a, frames) == [(i, -1)] && FrameMask(-1, frames) == seq(frames, k => true)
  {
  }

  /** Every attribute lands in at most one list, and exactly when it is animated or free. */
  lemma {:induction false} ClassifyCounts(attrs: seq<Attr>, n: nat)
    requires n <= |attrs|
    ensures var l := Classify(attrs, n);
      |l.camStatic| + |l.camAnim| + |l.nonCamStatic| + |l.anim| == |set i | 0 <= i < n && (attrs[i].animated || attrs[i].freeToChange)|
  {
    if n > 0 {
      ClassifyCounts(attrs, n - 1);
      var before := set i | 0 <= i < n - 1 && (attrs[i].animated || attrs[i].freeToChange);
      var after := set i | 0 <= i < n && (attrs[i].animated || attrs[i].freeToChange);
      if attrs[n - 1].animated || attrs[n - 1].freeToChange {
        assert after == before + {n - 1};
      } else {
        assert after == before;
      }
    }
  }

  // `getMarkerToAttributeRelationship` and `findErrorToParameterRelationship`.

  /**
   * Whether a marker affects an attribute: the marker's "affects" plug
   * for the attribute holds 1, or true when the plug does not exist.
   */
  predicate Affects(plug: Option<int>)
  {
    plug.None? || plug.value == 1
  }

  /** `getMarkerToAttributeRelationship`, with the plug lookups given as `plugValue(marker, attribute)`. */
  method GetMarkerToAttributeRelationship(markers: nat, attrs: nat, plugValue: (nat, nat) -> Option<int>)
    returns (markerToAttr: seq<seq<bool>>)
    ensures |markerToAttr| == markers
    ensures forall i :: 0 <= i < markers ==> |markerToAttr[i]| == attrs
    ensures forall i, j :: 0 <= i < markers && 0 <= j < attrs ==>
      (markerToAttr[i][j] <==> plugValue(i, j).None? || plugValue(i, j) == Some(1))
  {
    markerToAttr := [];
    for i := 0 to markers
      invariant |markerToAttr| == i
      invariant forall m :: 0 <= m < i ==> |markerToAttr[m]| == attrs
      invariant forall m, j :: 0 <= m < i && 0 <= j < attrs ==> markerToAttr[m][j] == Affects(plugValue(m, j))
    {
      var row := [];
      for j := 0 to attrs
        invariant |row| == j
        invariant forall a :: 0 <= a < j ==> row[a] == Affects(plugValue(i, a))
      {
        var value := true;
        var plug := plugValue(i, j);
        if plug.Some? {
          value := plug.value == 1;
        }
        row := row + [value];
      }
      markerToAttr := markerToAttr + [row];
    }
  }

  /** The index bounds `findErrorToParameterRelationship` relies on. */
  ghost predicate RelationshipInputs(frames: seq<real>, numParameters: nat, numberOfMarkers: nat,
                                     paramToAttr: seq<(int, int)>, errorToMarker: seq<(nat, nat)>,
                                     markerToAttr: seq<seq<bool>>)
  {
    && numberOfMarkers <= |errorToMarker| && numParameters <= |paramToAttr|
    && (forall e :: 0 <= e < numberOfMarkers ==> errorToMarker[e].0 < |markerToAttr| && errorToMarker[e].1 < |frames|)
    && (forall p :: 0 <= p < numParameters ==> 0 <= paramToAttr[p].0 && paramToAttr[p].1 < |frames|)
    && (forall e, p :: 0 <= e < numberOfMarkers && 0 <= p < numParameters ==>
          paramToAttr[p].0 < |markerToAttr[errorToMarker[e].0]|)
  }

  /**
   * `findErrorToParameterRelationship`: for each of the first
   * numMarkerErrors / errorsPerMarker error pairs and each parameter,
   * whether the parameter affects the error: its attribute is affected by
   * the error's marker, and the parameter is static or its frame is
   * approximately the error's frame (`approxEqual` stands for
   * `number::isApproxEqual`).
   */
  method FindErrorToParameterRelationship(frames: seq<real>, numParameters: nat, numMarkerErrors: nat,
                                          errorsPerMarker: nat, paramToAttr: seq<(int, int)>,
                                          errorToMarker: seq<(nat, nat)>, markerToAttr: seq<seq<bool>>,
                                          approxEqual: (real, real) -> bool)
    returns (errorToParam: seq<seq<bool>>)
    requires errorsPerMarker > 0
    requires RelationshipInputs(frames, numParameters, numMarkerErrors / errorsPerMarker, paramToAttr, errorToMarker, markerToAttr)
    ensures |errorToParam| == numMarkerErrors / errorsPerMarker
    ensures forall e :: 0 <= e < |errorToParam| ==> |errorToParam[e]| == numParameters
    ensures forall e, p :: 0 <= e < |errorToParam| && 0 <= p < numParameters ==>
      (errorToParam[e][p] <==>
        markerToAttr[errorToMarker[e].0][paramToAttr[p].0] &&
        (paramToAttr[p].1 < 0 || approxEqual(frames[errorToMarker[e].1], frames[paramToAttr[p].1])))
  {
    var numberOfMarkers := numMarkerErrors / errorsPerMarker;
    errorToParam := [];
    for e := 0 to numberOfMarkers
      invariant |errorToParam| == e
      invariant forall m :: 0 <= m < e ==> |errorToParam[m]| == numParameters
      invariant forall m, p :: 0 <= m < e && 0 <= p < numParameters ==>
        (errorToParam[m][p] <==>
          markerToAttr[errorToMarker[m].0][paramToAttr[p].0] &&
          (paramToAttr[p].1 < 0 || approxEqual(frames[errorToMarker[m].1], frames[paramToAttr[p].1])))
    {
      var markerIndex := errorToMarker[e].0;
      var markerFrame := frames[errorToMarker[e].1];
      var row := [];
      for p := 0 to numParameters
        invariant |row| == p
        invariant forall q :: 0 <= q < p ==>
          (row[q] <==>
            markerToAttr[markerIndex][paramToAttr[q].0] &&
            (paramToAttr[q].1 < 0 || approxEqual(markerFrame, frames[paramToAttr[q].1])))
      {
        var attrIndex := paramToAttr[p].0;
        var attrFrameIndex := paramToAttr[p].1;
        var paramAffectsError := markerToAttr[markerIndex][attrIndex];
        if paramAffectsError {
          if attrFrameIndex >= 0 {
            paramAffectsError := approxEqual(markerFrame, frames[attrFrameIndex]);
          } else {
            paramAffectsError := true;
          }
        }
        row := row + [paramAffectsError];
      }
      errorToParam := errorToParam + [row];
    }
  }
}
