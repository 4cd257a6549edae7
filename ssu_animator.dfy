/**
 * SSUAnimator: maps an elapsed time to the value of one shader property.
 * The elapsed time is scaled by Speed, eased through the animation curve and
 * clamped into [0, 1]; the A/B configuration of the selected property kind is
 * then checked, and the value is a linear interpolation between A and B
 * (rounded for Int) or, for textures, a hard switch from A to B at 0.5.
 */
module SSUAnimator {
  import opened Wrappers
  import opened SSUValues

  datatype PropType = Float | Color | Vector | Texture | Int

  /**
   * The boxed object an evaluation returns. BNull is a null reference and
   * BOther a non-null value of a type with no property-block setter (only a
   * caller-supplied evaluation function can produce the last two).
   */
  datatype Boxed =
    | BNull
    | BFloat(f: real)
    | BColor(c: Vec4)
    | BVector(v: Vec4)
    | BInt(i: int)
    | BTexture(tex: TexRef)
    | BOther

  /** What a caller-supplied evaluation function does when invoked. */
  datatype CallbackOutcome = Returned(value: Boxed) | Threw

  datatype EvalError =
    | MissingCallback        // ArgumentNullException: no evaluation function
    | InvalidConfiguration   // the A/B values of the selected kind are not usable
    | CallbackFailed         // the evaluation function threw; rethrown to the caller

  /** The designer-authored part of an animator; the engine never changes it. */
  datatype AnimatorConfig = AnimatorConfig(
    PropertyName: string,
    Curve: real -> real,
    Speed: real,
    PropType: PropType,
    ColorA: Vec4, ColorB: Vec4,
    VectorA: Vec4, VectorB: Vec4,
    FloatA: real, FloatB: real,
    IntA: int, IntB: int,
    TextureA: Option<TexRef>, TextureB: Option<TexRef>)
  {
    /** Normalised time: the curve at time * Speed, clamped into [0, 1]. */
    function GetT(time: real): (t: real)
      ensures 0.0 <= t <= 1.0
    {
      Clamp01(Curve(time * Speed))
    }

    /** The A and B values of the selected kind differ (and, for textures, both exist). */
    predicate HasValidValues() {
      || (PropType == Float && FloatA != FloatB)
      || (PropType == Int && IntA != IntB)
      || (PropType == Texture && TextureA.Some? && TextureB.Some? && TextureA != TextureB)
      || (PropType == Color && ColorA != ColorB)
      || (PropType == Vector && VectorA != VectorB)
    }

    /** The built-in evaluation function for the selected kind, at normalised time t. */
    function Interpolate(t: real): Boxed {
      match PropType
      case Float => BFloat(Lerp(FloatA, FloatB, t))
      case Color => BColor(Lerp4(ColorA, ColorB, t))
      case Vector => BVector(Lerp4(VectorA, VectorB, t))
      case Int => BInt(RoundToInt(Lerp(IntA as real, IntB as real, t)))
      case Texture =>
        var chosen := if t < 0.5 then TextureA else TextureB;
        if chosen.Some? then BTexture(chosen.value) else BNull
    }

    /** The result of the built-in Evaluate(time), without its effect on the animator's state. */
    function EvaluateAt(time: real): (r: Result<Boxed, EvalError>)
      ensures r.Ok? <==> HasValidValues()
      ensures r.Err? ==> r.error == InvalidConfiguration
      ensures r.Ok? ==> r.value != BNull && r.value != BOther
      ensures r.Ok? && PropType == Float ==> r.value.BFloat?
      ensures r.Ok? && PropType == Color ==> r.value.BColor?
      ensures r.Ok? && PropType == Vector ==> r.value.BVector?
      ensures r.Ok? && PropType == Int ==> r.value.BInt?
      ensures r.Ok? && PropType == Texture ==>
                r.value == BTexture(if GetT(time) < 0.5 then TextureA.value else TextureB.value)
    {
      if HasValidValues() then Ok(Interpolate(GetT(time))) else Err(InvalidConfiguration)
    }
  }

  /** The configuration check, stated kind by kind. */
  lemma ValidValuesByKind(c: AnimatorConfig)
    ensures c.PropType == Float ==> (c.HasValidValues() <==> c.FloatA != c.FloatB)
    ensures c.PropType == Int ==> (c.HasValidValues() <==> c.IntA != c.IntB)
    ensures c.PropType == Color ==> (c.HasValidValues() <==> c.ColorA != c.ColorB)
    ensures c.PropType == Vector ==> (c.HasValidValues() <==> c.VectorA != c.VectorB)
    ensures c.PropType == Texture ==>
              (c.HasValidValues() <==> c.TextureA.Some? && c.TextureB.Some? && c.TextureA != c.TextureB)
  {
  }

  /**
   * At the ends of the normalised time range the interpolating kinds give
   * exactly A and exactly B, and Int stays within half a unit of the
   * interpolated real.
   */
  lemma InterpolateEndpoints(c: AnimatorConfig, time: real)
    requires c.HasValidValues() && c.PropType != Texture
    ensures c.GetT(time) == 0.0 ==>
              c.EvaluateAt(time) == Ok(match c.PropType
                                       case Float => BFloat(c.FloatA)
                                       case Color => BColor(c.ColorA)
                                       case Vector => BVector(c.VectorA)
                                       case Int => BInt(c.IntA)
                                       case Texture => BNull)
    ensures c.GetT(time) == 1.0 ==>
              c.EvaluateAt(time) == Ok(match c.PropType
                                       case Float => BFloat(c.FloatB)
                                       case Color => BColor(c.ColorB)
                                       case Vector => BVector(c.VectorB)
                                       case Int => BInt(c.IntB)
                                       case Texture => BNull)
  {
    var t := c.GetT(time);
    if c.PropType == Int {
      var l := Lerp(c.IntA as real, c.IntB as real, t);
      if t == 0.0 { assert l == c.IntA as real; assert l.Floor == c.IntA; }
      if t == 1.0 { assert l == c.IntB as real; assert l.Floor == c.IntB; }
    }
  }

  /** Int evaluation rounds the real interpolation to the nearest integer. */
  lemma IntEvaluationRounds(c: AnimatorConfig, time: real)
    requires c.HasValidValues() && c.PropType == Int
    ensures var l := Lerp(c.IntA as real, c.IntB as real, c.GetT(time));
            c.EvaluateAt(time).Ok? &&
            (c.EvaluateAt(time).value.i as real) - 0.5 <= l <= (c.EvaluateAt(time).value.i as real) + 0.5
  {
  }

  /** Texture evaluation never blends: it yields A below 0.5 and B from 0.5 on. */
  lemma TextureHardSwitch(c: AnimatorConfig, time: real)
    requires c.HasValidValues() && c.PropType == Texture
    ensures c.GetT(time) < 0.5 ==> c.EvaluateAt(time) == Ok(BTexture(c.TextureA.value))
    ensures c.GetT(time) >= 0.5 ==> c.EvaluateAt(time) == Ok(BTexture(c.TextureB.value))
  {
  }

  /**
   * One SSUAnimator: its configuration, whether it is active in the current
   * playback cycle, and the normalised time of its last successful evaluation.
   */
  class Animator {
    const cfg: AnimatorConfig
    var Active: bool
    var currentTime: real

    constructor (cfg: AnimatorConfig)
      ensures this.cfg == cfg && Active && currentTime == 0.0
    {
      this.cfg := cfg;
      Active := true;
      currentTime := 0.0;
    }

    /** Percentage of progress of the last evaluation. */
    function Progress(): (p: real)
      reads this
      ensures 0.0 <= p <= 100.0
      ensures 0.0 <= currentTime <= 1.0 ==> p == currentTime * 100.0
    {
      Clamp01(currentTime) * 100.0
    }

    /** The stored normalised time is put through the curve and Speed once more. */
    predicate IsComplete()
      reads this
    {
      cfg.GetT(currentTime) >= 1.0
    }

    predicate IsDisabled()
      reads this
    {
      !Active
    }

    /** The IsDisabled setter. */
    method SetDisabled(value: bool)
      modifies this`Active
      ensures IsDisabled() == value && Active == !value
    {
      Active := !value;
    }

    /**
     * Evaluate(time, callback): a missing callback fails first, then an
     * invalid configuration; neither touches the state. Otherwise the
     * normalised time is stored and the callback invoked with it; a throwing
     * callback is rethrown after the time has been stored.
     */
    method EvaluateWith(time: real, callback: Option<real -> CallbackOutcome>)
      returns (r: Result<Boxed, EvalError>)
      modifies this`currentTime
      ensures callback.None? ==> r == Err(MissingCallback) && currentTime == old(currentTime)
      ensures callback.Some? && !cfg.HasValidValues() ==>
                r == Err(InvalidConfiguration) && currentTime == old(currentTime)
      ensures callback.Some? && cfg.HasValidValues() ==>
                && currentTime == cfg.GetT(time)
                && r == match callback.value(currentTime)
                        case Returned(v) => Ok(v)
                        case Threw => Err(CallbackFailed)
    {
      if callback.None? {
        return Err(MissingCallback);
      }
      if !cfg.HasValidValues() {
        return Err(InvalidConfiguration);
      }
      currentTime := cfg.GetT(time);
      var outcome := callback.value(currentTime);
      match outcome {
        case Returned(v) => r := Ok(v);
        case Threw => r := Err(CallbackFailed);
      }
    }

    /** Evaluate(time): the built-in evaluation for the selected kind. */
    method Evaluate(time: real) returns (r: Result<Boxed, EvalError>)
      modifies this`currentTime
      ensures r == cfg.EvaluateAt(time)
      ensures currentTime == if cfg.HasValidValues() then cfg.GetT(time) else old(currentTime)
      ensures r.Ok? ==> 0.0 <= currentTime <= 1.0 && 0.0 <= Progress() <= 100.0
    {
      var c := cfg;
      r := EvaluateWith(time, Some(t => Returned(c.Interpolate(t))));
    }
  }

  /**
   * IsComplete is not "the stored time reached 1": with a linear curve and
   * Speed 0.5, an animator evaluated at any time keeps IsComplete false,
   * although its stored time reaches 1 from time 2 on.
   */
  lemma SlowAnimatorNeverCompletes(c: AnimatorConfig, time: real)
    requires c.Speed == 0.5 && forall x :: c.Curve(x) == x
    ensures c.GetT(time) >= 1.0 <==> time >= 2.0
    ensures c.GetT(c.GetT(time)) < 1.0
  {
    assert c.Curve(time * c.Speed) == time * 0.5;
    assert c.Curve(c.GetT(time) * c.Speed) == c.GetT(time) * 0.5;
  }
}
