/**
 * HotelDoorController: a door whose glow fade moves from StartFadeValue
 * towards EndFadeValue while the player is in range, and back while not.
 * The direction of travel is whichever way End lies from Start; each Update
 * moves one step of Speed times the frame's delta and writes the new value
 * to the door material. There is no clamping.
 */
module HotelDoor {
  import opened Wrappers

  /** The float property writes the door sends to its material, in order. */
  class DoorMaterial {
    var writes: seq<(int, real)>

    constructor ()
      ensures writes == []
    {
      writes := [];
    }

    /** Material.SetFloat. */
    method SetFloat(id: int, value: real)
      modifies this`writes
      ensures writes == old(writes) + [(id, value)]
    {
      writes := writes + [(id, value)];
    }
  }

  /** Whether the fade travels upwards (Start below End) or downwards. */
  predicate Ascending(startFade: real, endFade: real) {
    startFade < endFade
  }

  /** IsFadeValueOnEnd: the value has reached or passed End in the direction of travel. */
  function IsOnEnd(startFade: real, endFade: real, v: real): (r: bool)
    ensures Ascending(startFade, endFade) ==> (r <==> v >= endFade)
    ensures !Ascending(startFade, endFade) ==> (r <==> v <= endFade)
  {
    if startFade < endFade then v >= endFade else v <= endFade
  }

  /** IsFadeValueOnStart: the value has reached or passed Start against the direction of travel. */
  function IsOnStart(startFade: real, endFade: real, v: real): (r: bool)
    ensures Ascending(startFade, endFade) ==> (r <==> v <= startFade)
    ensures !Ascending(startFade, endFade) ==> (r <==> v >= startFade)
  {
    if startFade < endFade then v <= startFade else v >= startFade
  }

  /** The signed step of one frame: Speed times delta, in the direction from Start to End. */
  function Step(startFade: real, endFade: real, speed: real, dt: real): real {
    if startFade < endFade then speed * dt else -(speed * dt)
  }

  /** GetNextFadeValue: one step towards End. */
  function NextFade(startFade: real, endFade: real, speed: real, dt: real, v: real): (r: real)
    ensures r == v + Step(startFade, endFade, speed, dt)
    ensures speed * dt >= 0.0 && Ascending(startFade, endFade) ==> r >= v
    ensures speed * dt >= 0.0 && !Ascending(startFade, endFade) ==> r <= v
  {
    if startFade < endFade then v + speed * dt else v - speed * dt
  }

  /** GetPrevFadeValue: one step towards Start. */
  function PrevFade(startFade: real, endFade: real, speed: real, dt: real, v: real): (r: real)
    ensures r == v - Step(startFade, endFade, speed, dt)
  {
    if startFade < endFade then v - speed * dt else v + speed * dt
  }

  /** With the same delta, a step back undoes a step forward and the other way round. */
  lemma PrevUndoesNext(startFade: real, endFade: real, speed: real, dt: real, v: real)
    ensures PrevFade(startFade, endFade, speed, dt, NextFade(startFade, endFade, speed, dt, v)) == v
    ensures NextFade(startFade, endFade, speed, dt, PrevFade(startFade, endFade, speed, dt, v)) == v
  {
  }

  /**
   * The value one Update writes, if any: in range and not at End a step
   * forward, out of range and not at Start a step back, otherwise nothing.
   */
  function DoorStep(startFade: real, endFade: real, speed: real, dt: real, inRange: bool, v: real): (r: Option<real>)
    ensures inRange && IsOnEnd(startFade, endFade, v) ==> r == None
    ensures inRange && !IsOnEnd(startFade, endFade, v) ==> r == Some(NextFade(startFade, endFade, speed, dt, v))
    ensures !inRange && IsOnStart(startFade, endFade, v) ==> r == None
    ensures !inRange && !IsOnStart(startFade, endFade, v) ==> r == Some(PrevFade(startFade, endFade, speed, dt, v))
  {
    if inRange then
      if !IsOnEnd(startFade, endFade, v) then Some(NextFade(startFade, endFade, speed, dt, v)) else None
    else
      if !IsOnStart(startFade, endFade, v) then Some(PrevFade(startFade, endFade, speed, dt, v)) else None
  }

  /**
   * No clamping: the step that reaches End may pass it, but by less than
   * one step, and from there on the door stays put while in range.
   */
  lemma OvershootBelowOneStep(startFade: real, endFade: real, speed: real, dt: real, v: real)
    requires !IsOnEnd(startFade, endFade, v)
    requires IsOnEnd(startFade, endFade, NextFade(startFade, endFade, speed, dt, v))
    ensures Ascending(startFade, endFade) ==> 0.0 <= NextFade(startFade, endFade, speed, dt, v) - endFade < speed * dt
    ensures !Ascending(startFade, endFade) ==> 0.0 <= endFade - NextFade(startFade, endFade, speed, dt, v) < speed * dt
    ensures DoorStep(startFade, endFade, speed, dt, true, NextFade(startFade, endFade, speed, dt, v)) == None
  {
  }

  /** The same for closing: the step that reaches Start passes it by less than one step. */
  lemma UndershootBelowOneStep(startFade: real, endFade: real, speed: real, dt: real, v: real)
    requires !IsOnStart(startFade, endFade, v)
    requires IsOnStart(startFade, endFade, PrevFade(startFade, endFade, speed, dt, v))
    ensures Ascending(startFade, endFade) ==> 0.0 <= startFade - PrevFade(startFade, endFade, speed, dt, v) < speed * dt
    ensures !Ascending(startFade, endFade) ==> 0.0 <= PrevFade(startFade, endFade, speed, dt, v) - startFade < speed * dt
    ensures DoorStep(startFade, endFade, speed, dt, false, PrevFade(startFade, endFade, speed, dt, v)) == None
  {
  }

  /** A door at rest at Start stays shut while nobody is in range. */
  lemma ClosedDoorStaysClosed(startFade: real, endFade: real, speed: real, dt: real)
    ensures DoorStep(startFade, endFade, speed, dt, false, startFade) == None
  {
  }

  /** With Start below End and a positive step, an Update in range from Start writes a value strictly above Start. */
  lemma OpeningMovesAwayFromStart(startFade: real, endFade: real, speed: real, dt: real)
    requires Ascending(startFade, endFade) && speed * dt > 0.0
    ensures DoorStep(startFade, endFade, speed, dt, true, startFade) == Some(startFade + speed * dt)
    ensures startFade + speed * dt > startFade
  {
  }

  class HotelDoorController {
    var StartFadeValue: real
    var EndFadeValue: real
    var Speed: real
    var doorMaterial: DoorMaterial?
    var inRange: bool
    var fadePropertyID: int
    var fadeValue: real

    constructor ()
      ensures StartFadeValue == 0.1 && EndFadeValue == -3.8 && Speed == 1.0
      ensures doorMaterial == null && !inRange && fadePropertyID == 0 && fadeValue == 0.0
    {
      StartFadeValue := 0.1;
      EndFadeValue := -3.8;
      Speed := 1.0;
      doorMaterial := null;
      inRange := false;
      fadePropertyID := 0;
      fadeValue := 0.0;
    }

    /** Start: the renderer's material and the fade property's id are given; the fade begins at StartFadeValue. */
    method Start(material: DoorMaterial?, propertyId: int)
      modifies this`doorMaterial, this`fadePropertyID, this`fadeValue
      ensures doorMaterial == material && fadePropertyID == propertyId && fadeValue == StartFadeValue
    {
      doorMaterial := material;
      fadePropertyID := propertyId;
      fadeValue := StartFadeValue;
    }

    /** Update with the frame's delta: without a material nothing happens; otherwise the DoorStep value, if any, is stored and written. */
    method Update(dt: real)
      modifies this`fadeValue, doorMaterial
      ensures doorMaterial == null ==> fadeValue == old(fadeValue)
      ensures doorMaterial != null ==>
                match DoorStep(StartFadeValue, EndFadeValue, Speed, dt, inRange, old(fadeValue))
                case None => fadeValue == old(fadeValue) && doorMaterial.writes == old(doorMaterial.writes)
                case Some(v) => fadeValue == v && doorMaterial.writes == old(doorMaterial.writes) + [(fadePropertyID, v)]
    {
      if doorMaterial == null {
        return;
      }
      if inRange {
        if !IsOnEnd(StartFadeValue, EndFadeValue, fadeValue) {
          fadeValue := NextFade(StartFadeValue, EndFadeValue, Speed, dt, fadeValue);
          doorMaterial.SetFloat(fadePropertyID, fadeValue);
        }
      } else {
        if !IsOnStart(StartFadeValue, EndFadeValue, fadeValue) {
          fadeValue := PrevFade(StartFadeValue, EndFadeValue, Speed, dt, fadeValue);
          doorMaterial.SetFloat(fadePropertyID, fadeValue);
        }
      }
    }

    method OnTriggerEnter2D()
      modifies this`inRange
      ensures inRange
    {
      inRange := true;
    }

    method OnTriggerExit2D()
      modifies this`inRange
      ensures !inRange
    {
      inRange := false;
    }
  }
}
