/** FluidDataset: the display state the server keeps for one open dataset,
 *  its colour mapping and its rotation. */
module FluidDataset {
  import opened Common

  /** ColorMode. */
  datatype ColorMode = Rainbow | Grayscale | WarmColdCielab | WarmColdCieluv | WarmColdMsh

  /** The identity rotation (i, j, k, w) = (0, 0, 0, 1). */
  const IDENTITY_ROTATION: seq<Float> := [FLOAT_ZERO, FLOAT_ZERO, FLOAT_ZERO, FLOAT_ONE]

  /** What a dataset holds, as a value. */
  datatype DatasetState = DatasetState(name: string, mode: ColorMode, colorMin: Float, colorMax: Float, rotation: seq<Float>)

  /** The state of a dataset just opened under `name`. */
  function Opened(name: string): (d: DatasetState)
    ensures d.name == name && d.mode == Rainbow
    ensures d.colorMin == FLOAT_ZERO && d.colorMax == FLOAT_ONE && d.rotation == IDENTITY_ROTATION
  {
    DatasetState(name, Rainbow, FLOAT_ZERO, FLOAT_ONE, IDENTITY_ROTATION)
  }

  /** setColor on the value: exactly the mode and the two clamps change. */
  function WithColor(d: DatasetState, mode: ColorMode, min: Float, max: Float): (r: DatasetState)
    ensures r.mode == mode && r.colorMin == min && r.colorMax == max
    ensures r.name == d.name && r.rotation == d.rotation
  {
    d.(mode := mode, colorMin := min, colorMax := max)
  }

  /** setRotation on the value: exactly the first four values given become
   *  the rotation. */
  function WithRotation(d: DatasetState, q: seq<Float>): (r: DatasetState)
    requires |q| >= 4
    ensures |r.rotation| == 4 && forall i :: 0 <= i < 4 ==> r.rotation[i] == q[i]
    ensures r.name == d.name && r.mode == d.mode && r.colorMin == d.colorMin && r.colorMax == d.colorMax
  {
    d.(rotation := q[..4])
  }

  class FluidDataset {
    /** m_name: set by the constructor, never changed. */
    const name: string
    var colorMode: ColorMode
    var colorMin: Float
    var colorMax: Float
    /** m_rotation, the quaternion (i, j, k, w): an array member of the
     *  object itself, so a sequence field here. */
    var rotation: seq<Float>

    ghost predicate Valid()
      reads this
    {
      |rotation| == 4
    }

    /** The dataset as a value. */
    function State(): (d: DatasetState)
      reads this
      ensures d.name == name && d.rotation == rotation
    {
      DatasetState(name, colorMode, colorMin, colorMax, rotation)
    }

    constructor (name: string)
      ensures Valid() && State() == Opened(name)
    {
      this.name := name;
      colorMode := Rainbow;
      colorMin := FLOAT_ZERO;
      colorMax := FLOAT_ONE;
      rotation := IDENTITY_ROTATION;
    }

    /** setColor: the mode and the two clamps, nothing else. */
    method SetColor(mode: ColorMode, min: Float, max: Float)
      modifies this
      ensures State() == WithColor(old(State()), mode, min, max)
    {
      colorMode := mode;
      colorMin := min;
      colorMax := max;
    }

    /** setRotation: copies the first four values given, in order, into
     *  the quaternion; nothing else changes. */
    method SetRotation(r: seq<Float>)
      requires Valid() && |r| >= 4
      modifies this
      ensures Valid() && State() == WithRotation(old(State()), r)
    {
      for i := 0 to 4
        invariant |rotation| == 4
        invariant rotation[..i] == r[..i] && rotation[i..] == old(rotation)[i..]
        invariant State() == old(State()).(rotation := rotation)
      {
        rotation := rotation[i := r[i]];
        assert rotation[i + 1..] == old(rotation)[i + 1..];
      }
      assert rotation == rotation[..4];
    }

    /** getColorMode. */
    function GetColorMode(): (m: ColorMode)
      reads this
      ensures m == State().mode
    {
      colorMode
    }

    /** getMinColor. */
    function GetMinColor(): (x: Float)
      reads this
      ensures x == State().colorMin
    {
      colorMin
    }

    /** getMaxColor. */
    function GetMaxColor(): (x: Float)
      reads this
      ensures x == State().colorMax
    {
      colorMax
    }

    /** getRotation: the four stored values (i, j, k, w). */
    function GetRotation(): (q: seq<Float>)
      requires Valid()
      reads this
      ensures |q| == 4 && q == State().rotation
    {
      rotation
    }
  }

  /** A setColor or setRotation call, with its arguments. */
  datatype Update = ColorUpdate(mode: ColorMode, min: Float, max: Float) | RotationUpdate(q: seq<Float>)

  /** The state after a sequence of setter calls; a rotation shorter than
   *  four values is not something the caller can pass, and is skipped. */
  function Apply(d: DatasetState, us: seq<Update>): (r: DatasetState)
    ensures r.name == d.name
    decreases |us|
  {
    if us == [] then d
    else
      var d' := match us[0]
        case ColorUpdate(m, lo, hi) => WithColor(d, m, lo, hi)
        case RotationUpdate(q) => if |q| >= 4 then WithRotation(d, q) else d;
      Apply(d', us[1..])
  }

  /** The colour a sequence of updates leaves: the last ColorUpdate's, or
   *  the initial one when there is none. */
  function LastColor(d: DatasetState, us: seq<Update>): (ColorMode, Float, Float)
    decreases |us|
  {
    if us == [] then (d.mode, d.colorMin, d.colorMax)
    else if us[|us| - 1].ColorUpdate? then (us[|us| - 1].mode, us[|us| - 1].min, us[|us| - 1].max)
    else LastColor(d, us[..|us| - 1])
  }

  /** The getters report the colour of the last setColor (RAINBOW, 0 and 1
   *  for a dataset just opened); rotation updates never touch it. */
  lemma {:induction false} ColorIsLastSet(d: DatasetState, us: seq<Update>)
    ensures var r := Apply(d, us); (r.mode, r.colorMin, r.colorMax) == LastColor(d, us)
    decreases |us|
  {
    if us != [] {
      var d' := match us[0]
        case ColorUpdate(m, lo, hi) => WithColor(d, m, lo, hi)
        case RotationUpdate(q) => if |q| >= 4 then WithRotation(d, q) else d;
      ColorIsLastSet(d', us[1..]);
      LastColorShift(d, d', us);
    }
  }

  /** LastColor starting from the state after the first update. */
  lemma {:induction false} LastColorShift(d: DatasetState, d': DatasetState, us: seq<Update>)
    requires us != []
    requires d' == match us[0]
        case ColorUpdate(m, lo, hi) => WithColor(d, m, lo, hi)
        case RotationUpdate(q) => if |q| >= 4 then WithRotation(d, q) else d
    ensures LastColor(d', us[1..]) == LastColor(d, us)
    decreases |us|
  {
    if |us| > 1 {
      assert us[1..][|us[1..]| - 1] == us[|us| - 1];
      if !us[|us| - 1].ColorUpdate? {
        assert us[1..][..|us[1..]| - 1] == us[..|us| - 1][1..];
        LastColorShift(d, d', us[..|us| - 1]);
      }
    }
  }
}
