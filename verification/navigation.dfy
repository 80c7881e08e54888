/**
 * The module-level camera state of scene-boilerplate.js and the handlers that
 * mutate it: `currentScale`, the `autoZoom` and `cameraTransition` records,
 * `focusedObject`, `lastFocusedSystem`, and the camera position and
 * orbit-controls target they drive.
 *
 * The camera-to-target distance, the object a click hits, the focused
 * object's world position and what the data lookup says about it are computed
 * by the rendering library or by table lookups; they come in as parameters.
 */
module Navigation {
  import opened Wrappers
  import opened Geometry
  import opened Flights
  import opened ScaleRegime

  const AutoZoomDuration: real := 3000.0
  const TransitionDuration: real := 1500.0
  /** `followLerpFactor` when no transition is active. */
  const FollowLerpFactor: real := 0.1

  /** A focusable scene object: its identity and its `name`. */
  datatype Target = Target(id: nat, name: string)

  /** The first object the ray caster hit (after walking up to a named ancestor) and its world position. */
  datatype Hit = Hit(target: Target, position: Vec3)

  /** End position of a click-to-focus glide: the camera keeps its offset from the target. */
  function GlideEnd(camera: Vec3, target: Vec3, newTarget: Vec3): Vec3 {
    Add(Sub(camera, target), newTarget)
  }

  /** The glide preserves the camera-to-target offset, so the viewing distance and angle survive a refocus. */
  lemma GlideKeepsOffset(camera: Vec3, target: Vec3, newTarget: Vec3)
    ensures Sub(GlideEnd(camera, target, newTarget), newTarget) == Sub(camera, target)
  {
  }

  /**
   * The auto-zoom record after the scale pass of one frame: untouched while a
   * zoom is flying or when Decide asks for none; otherwise restarted from
   * the current camera and target towards the point `zoomTo` gives above
   * the origin.
   */
  function ClassifiedZoom(az: Flight, s: Scale, camera: Vec3, target: Vec3, d: real, bodyFocused: bool,
                          now: real, zoomTo: Zoom -> real): Flight {
    var dec := Decide(s, d, bodyFocused);
    if az.active || dec.zoom.None? then az
    else Begin(az, now, camera, target, Above(Origin, zoomTo(dec.zoom.value)), Origin)
  }

  class Navigator {
    var scale: Scale
    var camera: Vec3
    var target: Vec3
    var autoZoom: Flight
    var transition: Flight
    var focus: Option<Target>
    var lastFocusedSystem: string
    /** The latest `performance.now()` value seen; the clock never runs backwards. */
    ghost var clock: real

    ghost predicate Valid()
      reads this
    {
      && autoZoom.duration == AutoZoomDuration
      && transition.duration == TransitionDuration
      && autoZoom.startTime <= clock
      && transition.startTime <= clock
    }

    constructor ()
      ensures Valid()
      ensures scale == System && camera == Vec3(0.0, 20.0, 100.0) && target == Origin
      ensures autoZoom == Idle(AutoZoomDuration) && transition == Idle(TransitionDuration)
      ensures focus == None && lastFocusedSystem == "Sol" && clock == 0.0
    {
      scale := System;
      camera := Vec3(0.0, 20.0, 100.0);
      target := Origin;
      autoZoom := Idle(AutoZoomDuration);
      transition := Idle(TransitionDuration);
      focus := None;
      lastFocusedSystem := "Sol";
      clock := 0.0;
    }

    /** `startAutoZoom(targetDist, targetFocus)`: fly from the current camera and target to a point above the focus. */
    method StartAutoZoom(targetDist: real, focusPoint: Vec3, now: real)
      requires Valid() && clock <= now
      modifies this`autoZoom, this`clock
      ensures Valid() && clock == now
      ensures autoZoom == Begin(old(autoZoom), now, camera, target, Above(focusPoint, targetDist), focusPoint)
      ensures autoZoom.active && autoZoom.startTime == now
      ensures autoZoom.startPos == camera && autoZoom.startTarget == target
      ensures autoZoom.endPos == Vec3(focusPoint.x, focusPoint.y + targetDist, focusPoint.z)
      ensures autoZoom.endTarget == focusPoint
    {
      clock := now;
      autoZoom := Begin(autoZoom, now, camera, target, Above(focusPoint, targetDist), focusPoint);
    }

    /**
     * The scale state machine: skipped while an auto-zoom is flying; otherwise
     * one pass of Decide, starting the requested auto-zoom towards the origin.
     * `zoomTo` gives the distance each zoom flies to: ZoomDistanceAsWritten
     * for the frame as written, ZoomDistance for the corrected one.
     */
    method ClassifyScale(d: real, bodyFocused: bool, now: real, zoomTo: Zoom -> real)
      requires Valid() && clock <= now
      modifies this`scale, this`autoZoom, this`clock
      ensures Valid() && clock == now
      ensures old(autoZoom.active) ==> scale == old(scale) && autoZoom == old(autoZoom)
      ensures !old(autoZoom.active) ==>
        var dec := Decide(old(scale), d, bodyFocused);
        && scale == dec.next
        && autoZoom == if dec.zoom.None? then old(autoZoom)
                       else Begin(old(autoZoom), now, camera, target,
                                  Above(Origin, zoomTo(dec.zoom.value)), Origin)
    {
      clock := now;
      if !autoZoom.active {
        var dec := Decide(scale, d, bodyFocused);
        scale := dec.next;
        if dec.zoom.Some? {
          StartAutoZoom(zoomTo(dec.zoom.value), Origin, now);
        }
      }
    }

    /** The auto-zoom branch of `animate`: one eased step of an active flight. */
    method StepAutoZoom(now: real)
      requires Valid() && clock <= now
      modifies this`camera, this`target, this`autoZoom, this`clock
      ensures Valid() && clock == now
      ensures old(autoZoom.active) ==>
        var r := Step(old(autoZoom), now);
        camera == r.camera && target == r.target && autoZoom == r.flight
      ensures !old(autoZoom.active) ==>
        camera == old(camera) && target == old(target) && autoZoom == old(autoZoom)
    {
      clock := now;
      if autoZoom.active {
        var r := Step(autoZoom, now);
        camera, target, autoZoom := r.camera, r.target, r.flight;
      }
    }

    /**
     * One eased step of an active click-to-focus glide, the same step as the
     * auto-zoom's. The source starts this record but never advances it (see
     * the findings in README.md); this is the corrected frame step.
     */
    method StepTransition(now: real)
      requires Valid() && clock <= now
      modifies this`camera, this`target, this`transition, this`clock
      ensures Valid() && clock == now
      ensures old(transition.active) ==>
        var r := Step(old(transition), now);
        camera == r.camera && target == r.target && transition == r.flight
      ensures !old(transition.active) ==>
        camera == old(camera) && target == old(target) && transition == old(transition)
    {
      clock := now;
      if transition.active {
        var r := Step(transition, now);
        camera, target, transition := r.camera, r.target, r.flight;
      }
    }

    /**
     * Lines 1615-1654 of `animate`: classify the scale, then advance the
     * auto-zoom. With `zoomTo` = ZoomDistanceAsWritten this is the frame as
     * written. The regime changes at most one step and not at all while an
     * auto-zoom was flying. A flight started in this pass has progress 0, so
     * it leaves the camera where it was. The focus glide is not touched.
     */
    method UpdateScaleAndZoom(d: real, bodyFocused: bool, now: real, zoomTo: Zoom -> real)
      requires Valid() && clock <= now
      modifies this`scale, this`camera, this`target, this`autoZoom, this`clock
      ensures Valid() && clock == now
      ensures old(autoZoom.active) ==> scale == old(scale)
      ensures !old(autoZoom.active) ==> scale == Decide(old(scale), d, bodyFocused).next
      ensures -1 <= Rank(scale) - Rank(old(scale)) <= 1
      ensures var az := ClassifiedZoom(old(autoZoom), old(scale), old(camera), old(target), d, bodyFocused, now, zoomTo);
        var r := Step(az, now);
        && autoZoom == (if az.active then r.flight else az)
        && camera == (if az.active then r.camera else old(camera))
        && target == (if az.active then r.target else old(target))
      ensures !old(autoZoom.active) ==> camera == old(camera) && target == old(target)
    {
      ClassifyScale(d, bodyFocused, now, zoomTo);
      ghost var started := autoZoom;
      StepAutoZoom(now);
      if !old(autoZoom.active) && started.active {
        assert started.startTime == now && started.startPos == old(camera);
        assert Progress(started, now) == 0.0;
        LerpEnds(started.startPos, started.endPos);
        LerpEnds(started.startTarget, started.endTarget);
      }
    }

    /**
     * The camera part of one corrected frame: the scale pass with the
     * corrected zoom distances, the auto-zoom step, then the glide step.
     */
    method Frame(d: real, bodyFocused: bool, now: real)
      requires Valid() && clock <= now
      modifies this`scale, this`camera, this`target, this`autoZoom, this`transition, this`clock
      ensures Valid() && clock == now
      ensures old(autoZoom.active) ==> scale == old(scale)
      ensures !old(autoZoom.active) ==> scale == Decide(old(scale), d, bodyFocused).next
      ensures -1 <= Rank(scale) - Rank(old(scale)) <= 1
      ensures var az := ClassifiedZoom(old(autoZoom), old(scale), old(camera), old(target), d, bodyFocused, now, ZoomDistance);
        var r := Step(az, now);
        var g := Step(old(transition), now);
        && autoZoom == (if az.active then r.flight else az)
        && transition == (if old(transition.active) then g.flight else old(transition))
        && camera == (if old(transition.active) then g.camera else if az.active then r.camera else old(camera))
        && target == (if old(transition.active) then g.target else if az.active then r.target else old(target))
      ensures !old(autoZoom.active) && !old(transition.active) ==>
        camera == old(camera) && target == old(target) && transition == old(transition)
    {
      UpdateScaleAndZoom(d, bodyFocused, now, ZoomDistance);
      StepTransition(now);
    }

    /** The controls' 'start' event (user interaction) cancels both flights. */
    method CancelFlights()
      modifies this`autoZoom, this`transition
      ensures autoZoom == old(autoZoom).(active := false)
      ensures transition == old(transition).(active := false)
    {
      transition := transition.(active := false);
      if autoZoom.active {
        autoZoom := autoZoom.(active := false);
      }
    }

    /**
     * The focus branch of `onMouseClick`. A click that ends a drag, or that
     * lands on the UI, is ignored. A hit on a different object focuses it and,
     * unless the camera is locked, starts a glide that keeps the camera's
     * offset from the target; a hit on the focused object changes nothing;
     * a click on empty space clears the focus.
     */
    method ClickFocus(dragging: bool, onUi: bool, hit: Option<Hit>, locked: bool, now: real)
      requires Valid() && clock <= now
      modifies this`focus, this`transition, this`clock
      ensures Valid() && clock == now
      ensures dragging || onUi ==> focus == old(focus) && transition == old(transition)
      ensures !dragging && !onUi && hit.None? ==> focus == None && transition == old(transition)
      ensures !dragging && !onUi && hit.Some? ==>
        && focus == Some(hit.value.target)
        && transition == if old(focus) == Some(hit.value.target) || locked then old(transition)
                         else Begin(old(transition), now, camera, target,
                                    GlideEnd(camera, target, hit.value.position), hit.value.position)
    {
      clock := now;
      if dragging || onUi {
        return;
      }
      if hit.Some? {
        var clicked := hit.value.target;
        if focus != Some(clicked) {
          focus := Some(clicked);
          if !locked {
            var p := hit.value.position;
            transition := Begin(transition, now, camera, target, GlideEnd(camera, target, p), p);
          }
        }
      } else {
        focus := None;
      }
    }

    /**
     * Choosing a search suggestion focuses its object; a planet or moon of a
     * star other than the last focused system switches straight to
     * interstellar view, whatever the current regime.
     */
    method SelectSuggestion(item: Target, planetStar: Option<string>)
      modifies this`focus, this`scale
      ensures focus == Some(item)
      ensures scale == if planetStar.Some? && planetStar.value != lastFocusedSystem then Interstellar
                       else old(scale)
    {
      focus := Some(item);
      if planetStar.Some? && planetStar.value != lastFocusedSystem {
        scale := Interstellar;
      }
    }

    /**
     * Clicking a name in the pinned-items list focuses the searchable object
     * of that name, if the lookup finds one; neither the camera nor the
     * regime moves.
     */
    method FocusPinned(found: Option<Target>)
      modifies this`focus
      ensures focus == if found.Some? then found else old(focus)
    {
      if found.Some? {
        focus := found;
      }
    }

    /**
     * The follow branch of `animate` (and `maintainCameraDistance`): with a
     * focus and no glide under way, the target follows the focused object's
     * world position. Locked: the target snaps to it and the camera is put
     * back on its ray at the old distance (`lengthScale` is that distance over
     * the new offset's length, a square root computed outside the model).
     * Unlocked: the target moves 10% of the way. The last focused system is
     * updated when the data lookup knows the object.
     */
    method Follow(focusPos: Vec3, locked: bool, lengthScale: real, focusSystem: Option<string>)
      modifies this`camera, this`target, this`lastFocusedSystem
      ensures focus.None? || transition.active ==>
        camera == old(camera) && target == old(target) && lastFocusedSystem == old(lastFocusedSystem)
      ensures focus.Some? && !transition.active ==>
        && (locked ==> target == focusPos
                       && camera == Add(focusPos, Times(Sub(old(camera), focusPos), lengthScale)))
        && (!locked ==> target == Lerp(old(target), focusPos, FollowLerpFactor) && camera == old(camera))
        && lastFocusedSystem == if focusSystem.Some? then focusSystem.value else old(lastFocusedSystem)
    {
      if focus.Some? && !transition.active {
        if locked {
          target := focusPos;
          camera := Add(target, Times(Sub(camera, target), lengthScale));
        } else {
          target := Lerp(target, focusPos, FollowLerpFactor);
        }
        if focusSystem.Some? {
          lastFocusedSystem := focusSystem.value;
        }
      }
    }
  }

  /** Earth's world position in the two scenarios below: 1 AU along x. */
  const Earth: Vec3 := Vec3(SceneUnitsPerAU, 0.0, 0.0)

  /** From the starting view, a glide to Earth ends 35 units along x from where the camera started. */
  lemma GlideFromStartToEarth()
    ensures GlideEnd(Vec3(0.0, 20.0, 100.0), Origin, Earth) == Vec3(35.0, 20.0, 100.0)
  {
  }

  /** A fresh scene in which the user clicked Earth one second in: the glide towards it has started. */
  method ClickEarth() returns (nav: Navigator)
    ensures fresh(nav) && nav.Valid() && nav.clock == 1000.0
    ensures nav.autoZoom == Idle(AutoZoomDuration) && nav.scale == System
    ensures nav.focus == Some(Target(1, "Earth"))
    ensures nav.camera == Vec3(0.0, 20.0, 100.0) && nav.target == Origin
    ensures nav.transition.active && nav.transition.startTime == 1000.0
    ensures nav.transition.duration == TransitionDuration
    ensures nav.transition.endTarget == Earth && nav.transition.endPos == Vec3(35.0, 20.0, 100.0)
  {
    nav := new Navigator();
    var hit := Hit(Target(1, "Earth"), Earth);
    ghost var before := nav.transition;
    nav.ClickFocus(false, false, Some(hit), false, 1000.0);
    assert nav.transition == Begin(before, 1000.0, Vec3(0.0, 20.0, 100.0), Origin, GlideEnd(Vec3(0.0, 20.0, 100.0), Origin, Earth), Earth);
    GlideFromStartToEarth();
  }

  /**
   * As written: after a click starts a glide towards Earth, no frame ever
   * ends it. Long after its 1.5 s the record is still active, and because it
   * is active the follow branch leaves the target where it was.
   */
  method StalledGlideAsWritten() returns (stillActive: bool, targetMoved: bool)
    ensures stillActive && !targetMoved
  {
    var nav := ClickEarth();
    nav.UpdateScaleAndZoom(100.0, true, 5000.0, ZoomDistanceAsWritten);
    nav.Follow(Earth, false, 1.0, Some("Sol"));
    stillActive := nav.transition.active;
    targetMoved := nav.target != Origin;
  }

  /**
   * Corrected: with the glide stepped every frame, the same click lands the
   * target on Earth, the camera at the same offset, and ends the glide.
   */
  method GlideArrives() returns (arrived: bool)
    ensures arrived
  {
    var nav := ClickEarth();
    Arrives(nav.transition, 5000.0);
    nav.Frame(100.0, true, 5000.0);
    LerpStays(Earth, FollowLerpFactor);
    nav.Follow(Earth, false, 1.0, Some("Sol"));
    arrived := !nav.transition.active && nav.target == Earth && nav.camera == Vec3(35.0, 20.0, 100.0);
  }
}
