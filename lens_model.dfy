/**
 * The mmlens lens model for 3DE's anamorphic degree 6 distortion with
 * rotation, x/y squeeze and rescale: 22 parameter fields, a model type
 * tag, and a state that a setter marks dirty when it changes a value.
 */
module LensModel {

  /** The lens model type tags. */
  datatype LensModelType =
    | UninitializedType
    | Passthrough
    | Classic3de
    | RadialStdDeg4Type
    | AnamorphicStdDeg4Type
    | AnamorphicStdDeg4RescaledType
    | AnamorphicStdDeg6Type
    | AnamorphicStdDeg6RescaledType

  datatype LensModelState = Uninitialized | Clean | Dirty

  /** The fields of the degree 6 rescaled parameter struct, in declaration order. */
  datatype Field =
    | Degree2Cx02 | Degree2Cy02 | Degree2Cx22 | Degree2Cy22
    | Degree4Cx04 | Degree4Cy04 | Degree4Cx24 | Degree4Cy24 | Degree4Cx44 | Degree4Cy44
    | Degree6Cx06 | Degree6Cy06 | Degree6Cx26 | Degree6Cy26 | Degree6Cx46 | Degree6Cy46 | Degree6Cx66 | Degree6Cy66
    | LensRotation | SqueezeX | SqueezeY | Rescale

  const FieldCount: nat := 22

  /** The fields in declaration order. */
  const Fields: seq<Field> := [
    Degree2Cx02, Degree2Cy02, Degree2Cx22, Degree2Cy22,
    Degree4Cx04, Degree4Cy04, Degree4Cx24, Degree4Cy24, Degree4Cx44, Degree4Cy44,
    Degree6Cx06, Degree6Cy06, Degree6Cx26, Degree6Cy26, Degree6Cx46, Degree6Cy46, Degree6Cx66, Degree6Cy66,
    LensRotation, SqueezeX, SqueezeY, Rescale]

  /** A field's position in the struct. */
  function Slot(f: Field): (i: nat)
    ensures i < FieldCount && i < |Fields| && Fields[i] == f
  {
    match f
    case Degree2Cx02 => 0 case Degree2Cy02 => 1 case Degree2Cx22 => 2 case Degree2Cy22 => 3
    case Degree4Cx04 => 4 case Degree4Cy04 => 5 case Degree4Cx24 => 6 case Degree4Cy24 => 7
    case Degree4Cx44 => 8 case Degree4Cy44 => 9
    case Degree6Cx06 => 10 case Degree6Cy06 => 11 case Degree6Cx26 => 12 case Degree6Cy26 => 13
    case Degree6Cx46 => 14 case Degree6Cy46 => 15 case Degree6Cx66 => 16 case Degree6Cy66 => 17
    case LensRotation => 18 case SqueezeX => 19 case SqueezeY => 20 case Rescale => 21
  }

  /** Different fields occupy different slots. */
  lemma SlotInjective(f: Field, g: Field)
    requires f != g
    ensures Slot(f) != Slot(g)
  {
  }

  /** A lens model's observable value: its type tag, its state and its 22 field values. */
  datatype Model = Model(modelType: LensModelType, state: LensModelState, values: seq<real>)

  ghost predicate WellFormed(m: Model)
  {
    |m.values| == FieldCount
  }

  function Get(m: Model, f: Field): real
    requires WellFormed(m)
  {
    m.values[Slot(f)]
  }

  /**
   * A setter: the current value leaves the model as it is; a different
   * value is stored and the state becomes dirty.
   */
  function Set(m: Model, f: Field, value: real): (r: Model)
    requires WellFormed(m)
    ensures WellFormed(r) && r.modelType == m.modelType
  {
    if m.values[Slot(f)] == value then m
    else Model(m.modelType, Dirty, m.values[Slot(f) := value])
  }

  /** After a setter its getter returns the value; every other getter is unchanged. */
  lemma SetThenGet(m: Model, f: Field, value: real, g: Field)
    requires WellFormed(m)
    ensures Get(Set(m, f, value), f) == value
    ensures g != f ==> Get(Set(m, f, value), g) == Get(m, g)
  {
    if g != f {
      SetKeepsOther(m, f, value, g);
    }
  }

  /** A setter leaves the other fields' values alone. */
  lemma SetKeepsOther(m: Model, f: Field, value: real, g: Field)
    requires WellFormed(m) && g != f
    ensures Set(m, f, value).values[Slot(g)] == m.values[Slot(g)]
  {
    SlotInjective(f, g);
  }

  /** The state changes exactly when the value changes, and only to dirty. */
  lemma SetState(m: Model, f: Field, value: real)
    requires WellFormed(m)
    ensures Get(m, f) == value <==> Set(m, f, value) == m
    ensures Get(m, f) != value ==> Set(m, f, value).state == Dirty
  {
    if Get(m, f) != value {
      assert Get(Set(m, f, value), f) == value;
    }
  }

  /** Setting the same value twice is setting it once. */
  lemma SetIdempotent(m: Model, f: Field, value: real)
    requires WellFormed(m)
    ensures Set(Set(m, f, value), f, value) == Set(m, f, value)
  {
  }

  /** The default field values: 19 zeros, then squeeze x, squeeze y and rescale at 1. */
  function DefaultValues(): (v: seq<real>)
    ensures |v| == FieldCount
    ensures forall f :: Slot(f) < 19 ==> v[Slot(f)] == 0.0
    ensures v[Slot(SqueezeX)] == 1.0 && v[Slot(SqueezeY)] == 1.0 && v[Slot(Rescale)] == 1.0
  {
    seq(FieldCount, i => if i < 19 then 0.0 else 1.0)
  }

  /**
   * The default-constructed model; its state is the one the base lens
   * model starts in, `baseState`.
   */
  function DefaultModel(baseState: LensModelState): (m: Model)
    ensures WellFormed(m) && m.modelType == AnamorphicStdDeg6RescaledType
  {
    Model(AnamorphicStdDeg6RescaledType, baseState, DefaultValues())
  }

  /** The 22-argument constructor as written: the values in order, tagged as the non-rescaled degree 6 model. */
  function FromValuesAsWritten(values: seq<real>, baseState: LensModelState): (m: Model)
    requires |values| == FieldCount
    ensures WellFormed(m) && m.modelType == AnamorphicStdDeg6Type && m.state == baseState
    ensures forall f :: Get(m, f) == values[Slot(f)]
  {
    Model(AnamorphicStdDeg6Type, baseState, values)
  }

  /**
   * Constructing from the default values as written gives a model whose
   * tag differs from the default-constructed one of the same class.
   */
  lemma FromValuesAsWrittenMislabels(baseState: LensModelState)
    ensures FromValuesAsWritten(DefaultValues(), baseState).modelType != DefaultModel(baseState).modelType
    ensures FromValuesAsWritten(DefaultValues(), baseState) != DefaultModel(baseState)
  {
  }

  /** The 22-argument constructor as intended: the values in order, tagged like every other instance of the class. */
  function FromValues(values: seq<real>, baseState: LensModelState): (m: Model)
    requires |values| == FieldCount
    ensures WellFormed(m) && m.modelType == DefaultModel(baseState).modelType
    ensures forall f :: Get(m, f) == values[Slot(f)]
  {
    Model(AnamorphicStdDeg6RescaledType, baseState, values)
  }

  /** Constructing from the default values gives the default model. */
  lemma FromDefaultValues(baseState: LensModelState)
    ensures FromValues(DefaultValues(), baseState) == DefaultModel(baseState)
  {
  }

  /** `LensModel3deAnamorphicDeg6RotateSqueezeXYRescaled`. */
  class LensModel3deAnamorphicDeg6RotateSqueezeXYRescaled {
    var modelType: LensModelType
    var state: LensModelState
    var values: seq<real>

    function Snapshot(): Model
      reads this
    {
      Model(modelType, state, values)
    }

    ghost predicate Valid()
      reads this
    {
      WellFormed(Snapshot())
    }

    /** The default constructor. */
    constructor (baseState: LensModelState)
      ensures Valid() && Snapshot() == DefaultModel(baseState)
    {
      modelType := AnamorphicStdDeg6RescaledType;
      state := baseState;
      values := DefaultValues();
    }

    /** The 22-argument constructor, with the tag corrected. */
    constructor FromFields(values: seq<real>, baseState: LensModelState)
      requires |values| == FieldCount
      ensures Valid() && Snapshot() == FromValues(values, baseState)
    {
      modelType := AnamorphicStdDeg6RescaledType;
      state := baseState;
      this.values := values;
    }

    /** The copy constructor: the base part (type and state) and every field's value through its getter. */
    constructor Copy(rhs: LensModel3deAnamorphicDeg6RotateSqueezeXYRescaled)
      requires rhs.Valid()
      ensures Valid() && Snapshot() == rhs.Snapshot()
    {
      modelType := rhs.modelType;
      state := rhs.state;
      values := rhs.values;
    }

    /** `cloneAsUniquePtr` and `cloneAsSharedPtr`: a new copy. */
    method Clone() returns (c: LensModel3deAnamorphicDeg6RotateSqueezeXYRescaled)
      requires Valid()
      ensures fresh(c) && c.Valid() && c.Snapshot() == Snapshot()
    {
      c := new LensModel3deAnamorphicDeg6RotateSqueezeXYRescaled.Copy(this);
    }

    /** A getter. */
    function GetField(f: Field): real
      requires Valid()
      reads this
    {
      values[Slot(f)]
    }

    /** A setter: see `Set`. */
    method SetField(f: Field, value: real)
      requires Valid()
      modifies this
      ensures Valid() && Snapshot() == Set(old(Snapshot()), f, value)
    {
      var sameValue := values[Slot(f)] == value;
      if !sameValue {
        state := Dirty;
        values := values[Slot(f) := value];
      }
    }
  }
}
