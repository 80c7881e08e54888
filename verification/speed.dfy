/**
 * The animation speed and pause controls of scene-boilerplate.js:
 * `currentSpeedIndex` into the five-entry `speedLevels` table,
 * `isAnimationPaused`, `animationSpeed`, and the text of the speed display.
 * The arrow keys and the two buttons move the index one step, clamped at
 * both ends; any such move re-reads the multiplier and clears the pause.
 */
module Speed {

  datatype Level = Level(name: string, multiplier: real)

  const Levels: seq<Level> := [
    Level("Very Slow", 0.1),
    Level("Slow", 0.5),
    Level("Normal", 1.0),
    Level("Fast", 2.0),
    Level("Very Fast", 5.0)
  ]

  /** `currentSpeedIndex` starts at 'Normal'. */
  const StartIndex: nat := 2

  /** What the speed display shows while paused. */
  const PausedText: string := "Paused"

  /** `Math.min(currentSpeedIndex + 1, speedLevels.length - 1)` */
  function Faster(i: nat): nat {
    if i + 1 < |Levels| - 1 then i + 1 else |Levels| - 1
  }

  /** `Math.max(currentSpeedIndex - 1, 0)` */
  function Slower(i: nat): nat {
    if i == 0 then 0 else i - 1
  }

  /** Both moves keep the index inside the table, wherever it starts in it. */
  lemma MovesStayInTable(i: nat)
    requires i < |Levels|
    ensures Faster(i) < |Levels| && Slower(i) < |Levels|
  {
  }

  /** Speeding up at the top and slowing down at the bottom change nothing; elsewhere the index moves by exactly one. */
  lemma MovesClampAtEnds(i: nat)
    requires i < |Levels|
    ensures Faster(i) == i <==> i == |Levels| - 1
    ensures Slower(i) == i <==> i == 0
    ensures i < |Levels| - 1 ==> Faster(i) == i + 1
    ensures 0 < i ==> Slower(i) == i - 1
  {
  }

  /** Away from the ends the two moves undo each other. */
  lemma MovesUndoEachOther(i: nat)
    requires i < |Levels|
    ensures i < |Levels| - 1 ==> Slower(Faster(i)) == i
    ensures 0 < i ==> Faster(Slower(i)) == i
  {
  }

  /** The table is ordered by multiplier, so a speed-up never slows the animation and a slow-down never speeds it. */
  lemma MovesAreMonotone(i: nat)
    requires i < |Levels|
    ensures Levels[Slower(i)].multiplier <= Levels[i].multiplier <= Levels[Faster(i)].multiplier
    ensures Levels[i].multiplier < Levels[Faster(i)].multiplier <==> i < |Levels| - 1
  {
    if i == 0 {
    } else if i == 1 {
    } else if i == 2 {
    } else if i == 3 {
    } else {
      assert i == 4;
    }
  }

  class SpeedController {
    var index: nat
    var paused: bool
    var speed: real
    var display: string

    /** The multiplier in use is always the one the index selects. */
    predicate Valid()
      reads this
    {
      index < |Levels| && speed == Levels[index].multiplier
    }

    constructor ()
      ensures Valid()
      ensures index == StartIndex && !paused && speed == 1.0
    {
      index := StartIndex;
      paused := false;
      speed := Levels[StartIndex].multiplier;
      display := "Normal";
    }

    /** `updateSpeed`: take the selected level's multiplier and name, and unpause. */
    method Apply()
      requires index < |Levels|
      modifies this`speed, this`display, this`paused
      ensures Valid() && !paused
      ensures speed == Levels[index].multiplier && display == Levels[index].name
    {
      speed := Levels[index].multiplier;
      display := Levels[index].name;
      if paused {
        paused := false;
      }
    }

    /** ArrowRight or the speed-up button. */
    method SpeedUp()
      requires Valid()
      modifies this`index, this`speed, this`display, this`paused
      ensures Valid() && !paused
      ensures index == Faster(old(index))
      ensures speed == Levels[index].multiplier && display == Levels[index].name
      ensures old(speed) <= speed
    {
      MovesAreMonotone(index);
      index := Faster(index);
      Apply();
    }

    /** ArrowLeft or the speed-down button. */
    method SlowDown()
      requires Valid()
      modifies this`index, this`speed, this`display, this`paused
      ensures Valid() && !paused
      ensures index == Slower(old(index))
      ensures speed == Levels[index].multiplier && display == Levels[index].name
      ensures speed <= old(speed)
    {
      MovesAreMonotone(index);
      index := Slower(index);
      Apply();
    }

    /** The pause checkbox: the flag follows the box; the index and multiplier are kept for when it is cleared. */
    method SetPaused(checked: bool)
      requires Valid()
      modifies this`paused, this`display
      ensures Valid()
      ensures paused == checked
      ensures display == if checked then PausedText else Levels[index].name
    {
      paused := checked;
      if paused {
        display := PausedText;
      } else {
        display := Levels[index].name;
      }
    }
  }

  /** Pausing, pressing speed-up, and reading the state: the press both raised the speed and cleared the pause. */
  method PauseThenSpeedUp() returns (paused: bool, speed: real)
    ensures !paused && speed == 2.0
  {
    var c := new SpeedController();
    c.SetPaused(true);
    c.SpeedUp();
    paused, speed := c.paused, c.speed;
  }
}
