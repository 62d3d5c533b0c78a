/**
 * The per-attribute solver details of the "Set Attribute Details" tool: a
 * record of seventeen optional settings (state, bounds, smoothness,
 * stiffness and curve statistics), and the update that replaces only the
 * settings it is given.
 *
 * Python's None is Option's None. `attr_detail_from_previous` asserts its
 * first argument is an AttrDetail; here the type says so.
 */
module AttrDetails {
  import opened Wrappers

  datatype AttrDetail = AttrDetail(
    state: Option<string>,
    minEnable: Option<bool>,
    minValue: Option<real>,
    maxEnable: Option<bool>,
    maxValue: Option<real>,
    smoothnessEnable: Option<bool>,
    smoothnessVariance: Option<real>,
    smoothnessWeight: Option<real>,
    stiffnessEnable: Option<bool>,
    stiffnessVariance: Option<real>,
    stiffnessWeight: Option<real>,
    curveMin: Option<real>,
    curveMax: Option<real>,
    curveMean: Option<real>,
    curveVariance: Option<real>,
    curveFrameVariance: Option<real>,
    curveMaxVariance: Option<real>)

  /** The names of the seventeen settings, in declaration order. */
  datatype Field =
    | State | MinEnable | MinValue | MaxEnable | MaxValue
    | SmoothnessEnable | SmoothnessVariance | SmoothnessWeight
    | StiffnessEnable | StiffnessVariance | StiffnessWeight
    | CurveMin | CurveMax | CurveMean | CurveVariance | CurveFrameVariance | CurveMaxVariance

  /** Whether a detail record has a value for a setting. */
  predicate Has(d: AttrDetail, f: Field)
  {
    match f
    case State => d.state.Some?
    case MinEnable => d.minEnable.Some?
    case MinValue => d.minValue.Some?
    case MaxEnable => d.maxEnable.Some?
    case MaxValue => d.maxValue.Some?
    case SmoothnessEnable => d.smoothnessEnable.Some?
    case SmoothnessVariance => d.smoothnessVariance.Some?
    case SmoothnessWeight => d.smoothnessWeight.Some?
    case StiffnessEnable => d.stiffnessEnable.Some?
    case StiffnessVariance => d.stiffnessVariance.Some?
    case StiffnessWeight => d.stiffnessWeight.Some?
    case CurveMin => d.curveMin.Some?
    case CurveMax => d.curveMax.Some?
    case CurveMean => d.curveMean.Some?
    case CurveVariance => d.curveVariance.Some?
    case CurveFrameVariance => d.curveFrameVariance.Some?
    case CurveMaxVariance => d.curveMaxVariance.Some?
  }

  /** `create_attr_detail()` with no arguments: every setting None. */
  function CreateAttrDetail(): (r: AttrDetail)
    ensures forall f :: !Has(r, f)
  {
    AttrDetail(None, None, None, None, None, None, None, None, None,
               None, None, None, None, None, None, None, None)
  }

  /** A given setting wins; a missing one keeps the previous value. */
  function Pick<T>(given: Option<T>, previous: Option<T>): (r: Option<T>)
    ensures r.Some? <==> given.Some? || previous.Some?
    ensures given.Some? ==> r == given
    ensures given.None? ==> r == previous
  {
    if given.None? then previous else given
  }

  /** `attr_detail_from_previous(value, **given)`: the given settings over the previous ones. */
  function FromPrevious(value: AttrDetail, given: AttrDetail): AttrDetail
  {
    AttrDetail(
      Pick(given.state, value.state),
      Pick(given.minEnable, value.minEnable),
      Pick(given.minValue, value.minValue),
      Pick(given.maxEnable, value.maxEnable),
      Pick(given.maxValue, value.maxValue),
      Pick(given.smoothnessEnable, value.smoothnessEnable),
      Pick(given.smoothnessVariance, value.smoothnessVariance),
      Pick(given.smoothnessWeight, value.smoothnessWeight),
      Pick(given.stiffnessEnable, value.stiffnessEnable),
      Pick(given.stiffnessVariance, value.stiffnessVariance),
      Pick(given.stiffnessWeight, value.stiffnessWeight),
      Pick(given.curveMin, value.curveMin),
      Pick(given.curveMax, value.curveMax),
      Pick(given.curveMean, value.curveMean),
      Pick(given.curveVariance, value.curveVariance),
      Pick(given.curveFrameVariance, value.curveFrameVariance),
      Pick(given.curveMaxVariance, value.curveMaxVariance))
  }

  /** The update has a value for a setting exactly when the previous record or the update has one. */
  lemma FromPreviousHas(value: AttrDetail, given: AttrDetail, f: Field)
    ensures Has(FromPrevious(value, given), f) <==> Has(value, f) || Has(given, f)
  {
  }

  /** Giving nothing gives the previous record back. */
  lemma FromPreviousOfNothing(value: AttrDetail)
    ensures FromPrevious(value, CreateAttrDetail()) == value
  {
  }

  /** A record with a value for every setting. */
  predicate IsComplete(d: AttrDetail)
  {
    d.state.Some? && d.minEnable.Some? && d.minValue.Some? && d.maxEnable.Some? && d.maxValue.Some?
    && d.smoothnessEnable.Some? && d.smoothnessVariance.Some? && d.smoothnessWeight.Some?
    && d.stiffnessEnable.Some? && d.stiffnessVariance.Some? && d.stiffnessWeight.Some?
    && d.curveMin.Some? && d.curveMax.Some? && d.curveMean.Some?
    && d.curveVariance.Some? && d.curveFrameVariance.Some? && d.curveMaxVariance.Some?
  }

  /** A complete record has a value for each setting. */
  lemma CompleteHas(d: AttrDetail, f: Field)
    requires IsComplete(d)
    ensures Has(d, f)
  {
  }

  /** A record with a value for each setting is complete. */
  lemma HasAllComplete(d: AttrDetail)
    requires forall f :: Has(d, f)
    ensures IsComplete(d)
  {
    // Naming every setting lets the quantifier in the precondition reach it.
    var all := [Has(d, State), Has(d, MinEnable), Has(d, MinValue), Has(d, MaxEnable), Has(d, MaxValue),
      Has(d, SmoothnessEnable), Has(d, SmoothnessVariance), Has(d, SmoothnessWeight),
      Has(d, StiffnessEnable), Has(d, StiffnessVariance), Has(d, StiffnessWeight),
      Has(d, CurveMin), Has(d, CurveMax), Has(d, CurveMean),
      Has(d, CurveVariance), Has(d, CurveFrameVariance), Has(d, CurveMaxVariance)];
  }

  /** Giving every setting discards the previous record. */
  lemma FromPreviousOfEverything(value: AttrDetail, given: AttrDetail)
    requires IsComplete(given)
    ensures FromPrevious(value, given) == given
  {
  }

  /** Starting from the empty record, the result is exactly what was given. */
  lemma FromNothing(given: AttrDetail)
    ensures FromPrevious(CreateAttrDetail(), given) == given
  {
  }

  /** Applying the same update twice is applying it once. */
  lemma FromPreviousIdempotent(value: AttrDetail, given: AttrDetail)
    ensures FromPrevious(FromPrevious(value, given), given) == FromPrevious(value, given)
  {
  }

  /** Two updates in a row are one update: the later settings over the earlier ones. */
  lemma FromPreviousComposes(value: AttrDetail, first: AttrDetail, second: AttrDetail)
    ensures FromPrevious(FromPrevious(value, first), second) == FromPrevious(value, FromPrevious(first, second))
  {
  }

  /** An update only touches the settings it gives. */
  lemma FromPreviousKeepsOthers(value: AttrDetail, given: AttrDetail)
    ensures given.state.None? ==> FromPrevious(value, given).state == value.state
    ensures given.minEnable.None? ==> FromPrevious(value, given).minEnable == value.minEnable
    ensures given.minValue.None? ==> FromPrevious(value, given).minValue == value.minValue
    ensures given.maxEnable.None? ==> FromPrevious(value, given).maxEnable == value.maxEnable
    ensures given.maxValue.None? ==> FromPrevious(value, given).maxValue == value.maxValue
    ensures given.smoothnessEnable.None? ==> FromPrevious(value, given).smoothnessEnable == value.smoothnessEnable
    ensures given.smoothnessVariance.None? ==> FromPrevious(value, given).smoothnessVariance == value.smoothnessVariance
    ensures given.smoothnessWeight.None? ==> FromPrevious(value, given).smoothnessWeight == value.smoothnessWeight
    ensures given.stiffnessEnable.None? ==> FromPrevious(value, given).stiffnessEnable == value.stiffnessEnable
    ensures given.stiffnessVariance.None? ==> FromPrevious(value, given).stiffnessVariance == value.stiffnessVariance
    ensures given.stiffnessWeight.None? ==> FromPrevious(value, given).stiffnessWeight == value.stiffnessWeight
    ensures given.curveMin.None? ==> FromPrevious(value, given).curveMin == value.curveMin
    ensures given.curveMax.None? ==> FromPrevious(value, given).curveMax == value.curveMax
    ensures given.curveMean.None? ==> FromPrevious(value, given).curveMean == value.curveMean
    ensures given.curveVariance.None? ==> FromPrevious(value, given).curveVariance == value.curveVariance
    ensures given.curveFrameVariance.None? ==> FromPrevious(value, given).curveFrameVariance == value.curveFrameVariance
    ensures given.curveMaxVariance.None? ==> FromPrevious(value, given).curveMaxVariance == value.curveMaxVariance
  {
  }
}
