/**
 * CharacterDamageDashExt: before a dash starts, the DamageOnTouch object to
 * activate is chosen from the dash direction. A diagonal dash (both
 * components beyond the threshold) follows the DiagonalDashDamage option;
 * otherwise the horizontal and then the upwards rule may each override the
 * default copy, the upwards rule last.
 */
module DamageDash {

  /** The DamageOnTouch objects the choice is made among. */
  datatype DamageTarget = DefaultCopy | UpwardsTarget | HorizontalTarget

  datatype DiagonalDashDamageOptions = Default | Upwards | Horizontal

  function Abs(x: real): real {
    if x < 0.0 then -x else x
  }

  /** Both components of the direction exceed the threshold in magnitude. */
  predicate IsDiagonal(x: real, y: real, threshold: real) {
    Abs(x) > threshold && Abs(y) > threshold
  }

  /**
   * The selection table: a diagonal dash uses its option (a direction whose
   * flag is off falls back to the default); a straight dash uses the
   * upwards rule when that flag is on, else the horizontal rule when that
   * flag is on, else the default.
   */
  function ChosenTarget(x: real, y: real, threshold: real, option: DiagonalDashDamageOptions,
                        upwardsFlag: bool, horizontalFlag: bool): (r: DamageTarget)
    ensures r == UpwardsTarget ==> upwardsFlag && Abs(y) > threshold
    ensures r == HorizontalTarget ==> horizontalFlag && Abs(x) > threshold
  {
    if IsDiagonal(x, y, threshold) then
      match option
      case Default => DefaultCopy
      case Upwards => if upwardsFlag then UpwardsTarget else DefaultCopy
      case Horizontal => if horizontalFlag then HorizontalTarget else DefaultCopy
    else if upwardsFlag then
      if Abs(y) > threshold then UpwardsTarget else DefaultCopy
    else if horizontalFlag then
      if Abs(x) > threshold then HorizontalTarget else DefaultCopy
    else DefaultCopy
  }

  /** A diagonal dash with the Default option, or any dash with neither flag on, takes the default copy. */
  lemma DefaultCases(x: real, y: real, threshold: real, option: DiagonalDashDamageOptions, up: bool, hor: bool)
    ensures IsDiagonal(x, y, threshold) && option == Default ==> ChosenTarget(x, y, threshold, option, up, hor) == DefaultCopy
    ensures !up && !hor ==> ChosenTarget(x, y, threshold, option, up, hor) == DefaultCopy
  {
  }

  /** A diagonal dash with a directional option takes that direction's target exactly when its flag is on. */
  lemma DiagonalDirectional(x: real, y: real, threshold: real, up: bool, hor: bool)
    requires IsDiagonal(x, y, threshold)
    ensures ChosenTarget(x, y, threshold, Upwards, up, hor) == (if up then UpwardsTarget else DefaultCopy)
    ensures ChosenTarget(x, y, threshold, Horizontal, up, hor) == (if hor then HorizontalTarget else DefaultCopy)
  {
  }

  /**
   * A straight dash with only the horizontal flag takes the horizontal target
   * exactly when |x| exceeds the threshold; with the upwards flag on the
   * choice depends on |y| alone, so with both flags a purely horizontal dash
   * ends on the default.
   */
  lemma StraightDashRules(x: real, y: real, threshold: real, option: DiagonalDashDamageOptions, hor: bool)
    requires !IsDiagonal(x, y, threshold)
    ensures ChosenTarget(x, y, threshold, option, false, true) == (if Abs(x) > threshold then HorizontalTarget else DefaultCopy)
    ensures ChosenTarget(x, y, threshold, option, true, hor) == (if Abs(y) > threshold then UpwardsTarget else DefaultCopy)
    ensures Abs(x) > threshold && Abs(y) <= threshold ==> ChosenTarget(x, y, threshold, option, true, true) == DefaultCopy
  {
  }

  class CharacterDamageDashExt {
    var UpwardsDamageOnTouch: bool
    var HorizontalDamageOnTouch: bool
    var DiagonalDashDamage: DiagonalDashDamageOptions
    var DashDirectionMinThreshold: real
    var TargetDamageOnTouch: DamageTarget
    /** The target in force each time the base dash was initiated. */
    var dashes: seq<DamageTarget>

    constructor (threshold: real)
      ensures !UpwardsDamageOnTouch && !HorizontalDamageOnTouch && DiagonalDashDamage == Default
      ensures DashDirectionMinThreshold == threshold && TargetDamageOnTouch == DefaultCopy && dashes == []
    {
      UpwardsDamageOnTouch := false;
      HorizontalDamageOnTouch := false;
      DiagonalDashDamage := Default;
      DashDirectionMinThreshold := threshold;
      TargetDamageOnTouch := DefaultCopy;
      dashes := [];
    }

    /**
     * DetermineTargetDamageOnTouch for the computed dash direction (x, y):
     * the field is overwritten branch by branch, and ends as the table says.
     */
    method DetermineTargetDamageOnTouch(x: real, y: real)
      modifies this`TargetDamageOnTouch
      ensures TargetDamageOnTouch == ChosenTarget(x, y, DashDirectionMinThreshold, DiagonalDashDamage,
                                                  UpwardsDamageOnTouch, HorizontalDamageOnTouch)
    {
      TargetDamageOnTouch := DefaultCopy;
      if Abs(x) > DashDirectionMinThreshold && Abs(y) > DashDirectionMinThreshold {
        match DiagonalDashDamage {
          case Default =>
            TargetDamageOnTouch := DefaultCopy;
          case Upwards =>
            TargetDamageOnTouch := if UpwardsDamageOnTouch then UpwardsTarget else DefaultCopy;
          case Horizontal =>
            TargetDamageOnTouch := if HorizontalDamageOnTouch then HorizontalTarget else DefaultCopy;
        }
      } else {
        if HorizontalDamageOnTouch {
          TargetDamageOnTouch := if Abs(x) > DashDirectionMinThreshold then HorizontalTarget else DefaultCopy;
        }
        if UpwardsDamageOnTouch {
          TargetDamageOnTouch := if Abs(y) > DashDirectionMinThreshold then UpwardsTarget else DefaultCopy;
        }
      }
    }

    /** InitiateDash: the target is chosen first, then the base dash starts with it. */
    method InitiateDash(x: real, y: real)
      modifies this`TargetDamageOnTouch, this`dashes
      ensures TargetDamageOnTouch == ChosenTarget(x, y, DashDirectionMinThreshold, DiagonalDashDamage,
                                                  UpwardsDamageOnTouch, HorizontalDamageOnTouch)
      ensures dashes == old(dashes) + [TargetDamageOnTouch]
    {
      DetermineTargetDamageOnTouch(x, y);
      dashes := dashes + [TargetDamageOnTouch];
    }
  }
}
