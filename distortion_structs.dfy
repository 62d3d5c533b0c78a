/**
 * The mmlens wrappers around the LDPK lens models: for each lens family,
 * where `set_parameter` stores a parameter index, what
 * `initialize_parameters` prepares, and how the undistort (`eval`) and
 * distort (`eval_inv`) maps are composed from LDPK building blocks. The
 * building blocks' numerics are LDPK's and stay abstract.
 */
module DistortionStructs {
  import opened MathUtils
  import opened Wrappers

  datatype Family =
    | Classic
    | RadialStdDeg4
    | AnamorphicStdDeg4
    | AnamorphicStdDeg4Rescaled
    | AnamorphicStdDeg6
    | AnamorphicStdDeg6Rescaled

  predicate IsAnamorphic(family: Family)
  {
    family != Classic && family != RadialStdDeg4
  }

  predicate HasRescale(family: Family)
  {
    family == AnamorphicStdDeg4Rescaled || family == AnamorphicStdDeg6Rescaled
  }

  /** The polynomial degree of an anamorphic family. */
  function Degree(family: Family): nat
  {
    if family == AnamorphicStdDeg6 || family == AnamorphicStdDeg6Rescaled then 6 else 4
  }

  /** How many leading parameter indices go to the model's coefficient array. */
  function CoefficientCount(family: Family): nat
  {
    match family
    case Classic => 5
    case RadialStdDeg4 => 6
    case _ => if Degree(family) == 6 then 18 else 10
  }

  /** The number of fields of the family's parameter struct; `create_distortion` sets indices 0 up to this. */
  function ParameterCount(family: Family): nat
  {
    match family
    case Classic => 5
    case RadialStdDeg4 => 8
    case _ => CoefficientCount(family) + (if HasRescale(family) then 4 else 3)
  }

  /** Where a parameter index is stored. */
  datatype Target =
    | Coeff(index: int)
    | Phi
    | Bending
    | Rotation
    | SqueezeX
    | SqueezeY
    | Rescale
    | Ignored

  /**
   * `set_parameter`'s routing. Classic hands every index to its
   * coefficient setter. The other families send indices below the
   * coefficient count to the coefficients, the next indices to the
   * cylindric extender (phi, bending) or to rotation, squeeze x, squeeze
   * y and (rescaled families) rescale, and silently ignore the rest.
   */
  function Route(family: Family, index: int): (t: Target)
    ensures t.Coeff? ==> t.index == index
    ensures family == Classic ==> t.Coeff?
    ensures family != Classic ==> (t.Coeff? <==> index < CoefficientCount(family))
    ensures family != Classic ==> (t == Ignored <==> index >= ParameterCount(family))
    ensures family == RadialStdDeg4 && !t.Coeff? && t != Ignored ==> t == Phi || t == Bending
    ensures IsAnamorphic(family) && !t.Coeff? && t != Ignored ==> t != Phi && t != Bending
    ensures !HasRescale(family) ==> t != Rescale
  {
    var c := CoefficientCount(family);
    if family == Classic || index < c then Coeff(index)
    else if family == RadialStdDeg4 then
      if index == 6 then Phi else if index == 7 then Bending else Ignored
    else if index == c then Rotation
    else if index == c + 1 then SqueezeX
    else if index == c + 2 then SqueezeY
    else if index == c + 3 && HasRescale(family) then Rescale
    else Ignored
  }

  /** Distinct parameter indices of a family go to distinct places. */
  lemma RouteInjective(family: Family, i: int, j: int)
    requires 0 <= i < ParameterCount(family) && 0 <= j < ParameterCount(family) && i != j
    ensures Route(family, i) != Route(family, j)
  {
  }

  const Pi: real := 3.141592653589793

  /**
   * The parameter fields of a wrapped model. Field values other than the
   * family's own keep whatever they held.
   */
  datatype Params = Params(coeffs: map<int, real>, phi: real, bending: real, rotation: real,
                           squeezeX: real, squeezeY: real, rescale: real, pixelAspect: real)

  /** The value stored for a parameter value: the lens rotation is given in degrees and kept in radians. */
  function Stored(t: Target, value: real): real
  {
    if t == Rotation then value / 180.0 * Pi else value
  }

  /** Stores `value` where `t` says. */
  function Assign(p: Params, t: Target, value: real): Params
  {
    var v := Stored(t, value);
    match t
    case Coeff(k) => p.(coeffs := p.coeffs[k := v])
    case Phi => p.(phi := v)
    case Bending => p.(bending := v)
    case Rotation => p.(rotation := v)
    case SqueezeX => p.(squeezeX := v)
    case SqueezeY => p.(squeezeY := v)
    case Rescale => p.(rescale := v)
    case Ignored => p
  }

  /** The value held for a target (none for an unset coefficient or an ignored index). */
  function Read(p: Params, t: Target): Option<real>
  {
    match t
    case Coeff(k) => if k in p.coeffs then Some(p.coeffs[k]) else None
    case Phi => Some(p.phi)
    case Bending => Some(p.bending)
    case Rotation => Some(p.rotation)
    case SqueezeX => Some(p.squeezeX)
    case SqueezeY => Some(p.squeezeY)
    case Rescale => Some(p.rescale)
    case Ignored => None
  }

  /** After an assignment its target holds the stored value and every other target is unchanged. */
  lemma AssignRead(p: Params, t: Target, value: real, u: Target)
    ensures t != Ignored ==> Read(Assign(p, t, value), t) == Some(Stored(t, value))
    ensures u != t ==> Read(Assign(p, t, value), u) == Read(p, u)
    ensures Assign(p, t, value).pixelAspect == p.pixelAspect
  {
  }

  /** The parameters after `set_parameter(i, values[i])` for the first `n` indices, in order. */
  function SetAll(family: Family, p: Params, values: seq<real>, n: nat): Params
    requires n <= |values|
  {
    if n == 0 then p else Assign(SetAll(family, p, values, n - 1), Route(family, n - 1), values[n - 1])
  }

  /**
   * After the first `n` indices are set, index `i < n` holds its own
   * value (no later index goes to the same place), and targets no index
   * below `n` goes to are untouched.
   */
  lemma {:induction false} SetAllRead(family: Family, p: Params, values: seq<real>, n: nat, i: nat, u: Target)
    requires n <= |values| && n <= ParameterCount(family)
    ensures i < n ==> Read(SetAll(family, p, values, n), Route(family, i)) == Some(Stored(Route(family, i), values[i]))
    ensures (forall j :: 0 <= j < n ==> Route(family, j) != u) ==> Read(SetAll(family, p, values, n), u) == Read(p, u)
  {
    if n > 0 {
      SetAllRead(family, p, values, n - 1, i, u);
      var before := SetAll(family, p, values, n - 1);
      AssignRead(before, Route(family, n - 1), values[n - 1], Route(family, i));
      AssignRead(before, Route(family, n - 1), values[n - 1], u);
      if i < n - 1 {
        RouteInjective(family, i, n - 1);
      }
    }
  }

  /** The camera parameters passed to `initialize_parameters`. */
  datatype CameraParameters = CameraParameters(focalLengthCm: real, filmBackWidthCm: real, filmBackHeightCm: real,
                                               pixelAspect: real, lensCenterOffsetXCm: real, lensCenterOffsetYCm: real)

  /** An elementary LDPK extender: a rotation or a squeeze along x or y. */
  datatype Transform = Rotate(phi: real) | SqueezeAlongX(sq: real) | SqueezeAlongY(sq: real)

  /**
   * The concatenated extender applied after the anamorphic polynomial:
   * rotation, squeeze x, squeeze y, rescale (rescaled families), pixel
   * aspect; the pixel aspect and rescale extenders are squeezes along x.
   */
  function OuterChain(family: Family, p: Params): seq<Transform>
  {
    [Rotate(p.rotation), SqueezeAlongX(p.squeezeX), SqueezeAlongY(p.squeezeY)]
    + (if HasRescale(family) then [SqueezeAlongX(p.rescale)] else [])
    + [SqueezeAlongX(p.pixelAspect)]
  }

  /** The concatenated extender inverted before the polynomial: pixel aspect, rescale, rotation. */
  function InnerChain(family: Family, p: Params): seq<Transform>
  {
    [SqueezeAlongX(p.pixelAspect)]
    + (if HasRescale(family) then [SqueezeAlongX(p.rescale)] else [])
    + [Rotate(p.rotation)]
  }

  /**
   * The model state a wrapper evaluates: its parameters and the two
   * concatenated extenders `initialize_parameters` built.
   */
  datatype LensState = LensState(family: Family, params: Params, outer: seq<Transform>, inner: seq<Transform>)

  /**
   * `initialize_parameters`: Classic and radial models do nothing; the
   * anamorphic models take the camera's pixel aspect and build their
   * concatenated extenders from the current parameters.
   */
  function Initialized(s: LensState, camera: CameraParameters): (r: LensState)
    ensures r.family == s.family
    ensures !IsAnamorphic(s.family) ==> r == s
    ensures IsAnamorphic(s.family) ==>
              r.params == s.params.(pixelAspect := camera.pixelAspect)
              && r.outer == OuterChain(s.family, r.params) && r.inner == InnerChain(s.family, r.params)
  {
    if !IsAnamorphic(s.family) then s
    else
      var p := s.params.(pixelAspect := camera.pixelAspect);
      LensState(s.family, p, OuterChain(s.family, p), InnerChain(s.family, p))
  }

  /** Initialising reads only the pixel aspect: doing it again with the same camera changes nothing. */
  lemma InitializedIdempotent(s: LensState, camera: CameraParameters)
    ensures Initialized(Initialized(s, camera), camera) == Initialized(s, camera)
  {
  }

  /** An LDPK polynomial model: its forward map and its iterative inverse from an initial guess. */
  datatype Block = Block(eval: Point2 -> Point2, evalInv: (Point2, Point2) -> Point2)

  /** An LDPK extender: its forward map, its exact inverse, and its inverse from a guess. */
  datatype Linear = Linear(eval: Point2 -> Point2, evalInv: Point2 -> Point2, evalInvFrom: (Point2, Point2) -> Point2)

  /** The LDPK building blocks, as functions of the parameters they are given. */
  datatype Ldpk = Ldpk(classic: map<int, real> -> Block,
                       radial: map<int, real> -> Block,
                       cylindric: (real, real) -> Linear,
                       anamorphic: (nat, map<int, real>) -> Block,
                       linear: seq<Transform> -> Linear)

  /** `eval`: undistort a DN point. */
  function Eval(lib: Ldpk, s: LensState, p: Point2): Point2
  {
    match s.family
    case Classic => lib.classic(s.params.coeffs).eval(p)
    case RadialStdDeg4 => lib.cylindric(s.params.phi, s.params.bending).eval(lib.radial(s.params.coeffs).eval(p))
    case _ =>
      lib.linear(s.outer).eval(lib.anamorphic(Degree(s.family), s.params.coeffs).eval(lib.linear(s.inner).evalInv(p)))
  }

  /** `eval_inv` without a guess: every iterative step starts from its own target point. */
  function EvalInv(lib: Ldpk, s: LensState, p: Point2): Point2
  {
    match s.family
    case Classic => lib.classic(s.params.coeffs).evalInv(p, p)
    case RadialStdDeg4 =>
      var t := lib.cylindric(s.params.phi, s.params.bending).evalInvFrom(p, p);
      lib.radial(s.params.coeffs).evalInv(t, t)
    case _ =>
      var t1 := lib.linear(s.outer).evalInvFrom(p, p);
      var t2 := lib.anamorphic(Degree(s.family), s.params.coeffs).evalInv(t1, t1);
      lib.linear(s.inner).eval(t2)
  }

  /** `eval_inv` with an initial guess, carried through the extenders by their exact inverses. */
  function EvalInvGuess(lib: Ldpk, s: LensState, p: Point2, guess: Point2): Point2
  {
    match s.family
    case Classic => lib.classic(s.params.coeffs).evalInv(p, guess)
    case RadialStdDeg4 =>
      var c := lib.cylindric(s.params.phi, s.params.bending);
      lib.radial(s.params.coeffs).evalInv(c.evalInv(p), c.evalInv(guess))
    case _ =>
      var o := lib.linear(s.outer);
      lib.linear(s.inner).eval(lib.anamorphic(Degree(s.family), s.params.coeffs).evalInv(o.evalInv(p), o.evalInv(guess)))
  }

  /** The extender that `eval_inv` without a guess inverts from an initial point. */
  function GuessedExtender(lib: Ldpk, s: LensState): Linear
  {
    if s.family == RadialStdDeg4 then lib.cylindric(s.params.phi, s.params.bending) else lib.linear(s.outer)
  }

  /**
   * When the extender's inverse from a guess equals its exact inverse at
   * `p` (as for the exactly invertible LDPK extenders), `eval_inv`
   * without a guess is `eval_inv` with `p` as its own guess.
   */
  lemma EvalInvUsesPointAsGuess(lib: Ldpk, s: LensState, p: Point2)
    requires s.family != Classic ==> GuessedExtender(lib, s).evalInvFrom(p, p) == GuessedExtender(lib, s).evalInv(p)
    ensures EvalInv(lib, s, p) == EvalInvGuess(lib, s, p, p)
  {
  }

  ghost predicate BlockInverts(b: Block)
  {
    forall q, g :: b.evalInv(b.eval(q), g) == q
  }

  ghost predicate LinearInverts(l: Linear)
  {
    (forall q :: l.evalInv(l.eval(q)) == q) && (forall q :: l.eval(l.evalInv(q)) == q)
    && (forall q, g :: l.evalInvFrom(l.eval(q), g) == q)
  }

  /** The building blocks a state's maps use. */
  ghost predicate ExactBlocks(lib: Ldpk, s: LensState)
  {
    match s.family
    case Classic => BlockInverts(lib.classic(s.params.coeffs))
    case RadialStdDeg4 => BlockInverts(lib.radial(s.params.coeffs)) && LinearInverts(lib.cylindric(s.params.phi, s.params.bending))
    case _ =>
      BlockInverts(lib.anamorphic(Degree(s.family), s.params.coeffs))
      && LinearInverts(lib.linear(s.outer)) && LinearInverts(lib.linear(s.inner))
  }

  /** With exactly inverting building blocks, distorting an undistorted point gives it back. */
  lemma EvalInvUndoesEval(lib: Ldpk, s: LensState, p: Point2)
    requires ExactBlocks(lib, s)
    ensures EvalInv(lib, s, Eval(lib, s, p)) == p
  {
    match s.family
    case Classic =>
    case RadialStdDeg4 =>
      var r := lib.radial(s.params.coeffs);
      var c := lib.cylindric(s.params.phi, s.params.bending);
      assert c.evalInvFrom(c.eval(r.eval(p)), c.eval(r.eval(p))) == r.eval(p);
    case _ =>
      var a := lib.anamorphic(Degree(s.family), s.params.coeffs);
      var o := lib.linear(s.outer);
      var i := lib.linear(s.inner);
      var q := a.eval(i.evalInv(p));
      assert o.evalInvFrom(o.eval(q), o.eval(q)) == q;
      assert a.evalInv(q, q) == i.evalInv(p);
      assert i.eval(i.evalInv(p)) == p;
  }

  /**
   * A wrapped LDPK model (`Distortion3deClassic`, `...RadialStdDeg4`,
   * `...AnamorphicStdDeg4`, `...Deg4Rescaled`, `...Deg6`,
   * `...Deg6Rescaled`): its family, parameter fields and the concatenated
   * extenders.
   */
  class Distortion {
    const family: Family
    var params: Params
    var outer: seq<Transform>
    var inner: seq<Transform>

    function State(): LensState
      reads this
    {
      LensState(family, params, outer, inner)
    }

    /** A freshly constructed model; LDPK's own initial field values are `initial`. */
    constructor (family: Family, initial: LensState)
      requires initial.family == family
      ensures State() == initial
    {
      this.family := family;
      params := initial.params;
      outer := initial.outer;
      inner := initial.inner;
    }

    /** `set_parameter`: stores the value where the family routes the index; nothing else changes. */
    method SetParameter(index: int, value: real)
      modifies this
      ensures params == Assign(old(params), Route(family, index), value)
      ensures outer == old(outer) && inner == old(inner)
    {
      params := Assign(params, Route(family, index), value);
    }

    /** `initialize_parameters`: see `Initialized`. */
    method InitializeParameters(camera: CameraParameters)
      modifies this
      ensures State() == Initialized(old(State()), camera)
    {
      if IsAnamorphic(family) {
        params := params.(pixelAspect := camera.pixelAspect);
        outer := OuterChain(family, params);
        inner := InnerChain(family, params);
      }
    }
  }
}
