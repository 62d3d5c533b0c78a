/**
 * The mmlens entry points: `create_distortion` builds a wrapped model
 * from a parameter struct, and `apply_identity_impl` and
 * `apply_buffer_impl` initialise it once and dispatch on the direction.
 */
module DistortionProcess {
  import opened MathUtils
  import opened Wrappers
  import opened StridedBuffer
  import opened DistortionOperations
  import opened DistortionStructs

  /**
   * `create_distortion`: a fresh model (in LDPK's initial state `initial`)
   * given `set_parameter(i, field i)` for every field of the family's
   * parameter struct, in declaration order. The struct is modelled as the
   * sequence of its field values.
   */
  function CreateDistortion(family: Family, lensParameters: seq<real>, initial: LensState): (s: LensState)
    requires |lensParameters| == ParameterCount(family) && initial.family == family
    ensures s.family == family && s.outer == initial.outer && s.inner == initial.inner
  {
    LensState(family, SetAll(family, initial.params, lensParameters, |lensParameters|), initial.outer, initial.inner)
  }

  /**
   * Every field of the parameter struct ends up where its index routes:
   * field `i` is read back from `Route(family, i)` (rotation converted to
   * radians), and places no field routes to keep their initial value.
   */
  lemma CreateDistortionFields(family: Family, lensParameters: seq<real>, initial: LensState, i: nat, u: Target)
    requires |lensParameters| == ParameterCount(family) && initial.family == family
    ensures i < |lensParameters| ==>
              Read(CreateDistortion(family, lensParameters, initial).params, Route(family, i))
              == Some(Stored(Route(family, i), lensParameters[i]))
    ensures (forall j :: 0 <= j < |lensParameters| ==> Route(family, j) != u) ==>
              Read(CreateDistortion(family, lensParameters, initial).params, u) == Read(initial.params, u)
  {
    SetAllRead(family, initial.params, lensParameters, |lensParameters|, i, u);
  }

  /** Every parameter index `create_distortion` uses is stored somewhere, and the rescale field comes last. */
  lemma CreateDistortionCovers(family: Family, i: nat)
    requires i < ParameterCount(family)
    ensures Route(family, i) != Ignored
    ensures HasRescale(family) ==> Route(family, ParameterCount(family) - 1) == Rescale
  {
  }

  /** The model state the impl functions evaluate: created, then initialised once with the camera. */
  function ImplState(family: Family, lensParameters: seq<real>, initial: LensState, cameraParameters: CameraParameters): LensState
    requires |lensParameters| == ParameterCount(family) && initial.family == family
  {
    Initialized(CreateDistortion(family, lensParameters, initial), cameraParameters)
  }

  /** The lens the operations see: `eval` undistorts and the guess-free `eval_inv` redistorts. */
  function AsLens(lib: Ldpk, s: LensState): (lens: Lens)
    ensures forall p :: lens.eval(p) == Eval(lib, s, p)
    ensures forall p :: lens.mapInverse(p) == EvalInv(lib, s, p)
  {
    Lens((p: Point2) => Eval(lib, s, p), (p: Point2) => EvalInv(lib, s, p))
  }

  /** The direction an impl function runs, if any: the combination that writes redistorted values first is not dispatched. */
  function Dispatched(direction: Direction): (r: Option<Direction>)
    ensures r.Some? <==> direction != RedistortAndUndistort
    ensures r.Some? ==> r.value == direction
  {
    if direction == RedistortAndUndistort then None else Some(direction)
  }

  /**
   * `apply_buffer_impl`: creates and initialises the model, then runs the
   * buffer loop of the dispatched direction over the whole buffer; an
   * undispatched direction writes nothing.
   */
  method ApplyBufferImpl(direction: Direction, outType: OutType, family: Family, lensParameters: seq<real>,
                         initial: LensState, lib: Ldpk, cameraParameters: CameraParameters, camera: Camera,
                         inData: array<real>, inSize: nat, inStride: nat, outData: array<real>, outStride: nat)
    requires |lensParameters| == ParameterCount(family) && initial.family == family
    requires inStride > 0 && inSize <= inData.Length
    requires Fits(inSize / inStride, inStride, 2, inData.Length)
    requires Fits(inSize / inStride, outStride, Width(direction), outData.Length)
    requires direction == UndistortAndRedistort ==> outStride >= 4
    modifies outData
    ensures Dispatched(direction).None? ==> outData[..] == old(outData[..])
    ensures Dispatched(direction).Some? ==>
              var setup := Setup(direction, outType, camera, AsLens(lib, ImplState(family, lensParameters, initial, cameraParameters)));
              outData[..] == Pass(Pixel(setup), Width(direction), old(inData[..]), old(outData[..]),
                                  inStride, outStride, inData == outData, inSize / inStride)
  {
    var created := CreateDistortion(family, lensParameters, initial);
    var distortion := Initialized(created, cameraParameters);
    var dispatched := Dispatched(direction);
    if dispatched.Some? {
      var setup := Setup(dispatched.value, outType, camera, AsLens(lib, distortion));
      ApplyToBuffer(setup, inData, inSize, inStride, outData, outStride);
    }
  }

  /**
   * `apply_identity_impl`: creates and initialises the model, then fills
   * the identity grid for the dispatched direction; an undispatched
   * direction writes nothing.
   */
  method ApplyIdentityImpl(direction: Direction, outType: OutType, family: Family, lensParameters: seq<real>,
                           initial: LensState, lib: Ldpk, cameraParameters: CameraParameters, camera: Camera,
                           w: nat, h: nat, outData: array<real>, outStride: nat, undefined: real)
    requires |lensParameters| == ParameterCount(family) && initial.family == family
    requires Fits(Offset(h, w), outStride, Width(direction), outData.Length)
    requires direction == UndistortAndRedistort ==> outStride >= 4
    modifies outData
    ensures Dispatched(direction).None? ==> outData[..] == old(outData[..])
    ensures Dispatched(direction).Some? ==>
              var setup := Setup(direction, outType, camera, AsLens(lib, ImplState(family, lensParameters, initial, cameraParameters)));
              outData[..] == WriteAll(old(outData[..]), outStride, Width(direction),
                                      CellsBefore(Pixel(setup), Width(direction), w, h, undefined, h, 0))
  {
    var created := CreateDistortion(family, lensParameters, initial);
    var distortion := Initialized(created, cameraParameters);
    var dispatched := Dispatched(direction);
    if dispatched.Some? {
      var setup := Setup(dispatched.value, outType, camera, AsLens(lib, distortion));
      FromIdentity(setup, w, h, outData, outStride, undefined);
    }
  }
}
