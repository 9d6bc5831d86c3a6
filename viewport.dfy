/**
 * The stage transform of the viewer: a world point w is shown on screen at
 * w * scale + offset. The stage is centred on the map once, then every wheel
 * event zooms by a fixed factor about the pointer.
 */
module Viewport {
  import World

  /** `scaleBy`: the zoom factor of one wheel event. */
  const ScaleBy: real := 11.0 / 10.0

  datatype Point = Point(x: real, y: real)

  /** One wheel event: where the pointer is on screen and the event's `deltaY`. */
  datatype WheelEvent = WheelEvent(pointer: Point, deltaY: real)

  /** A snapshot of the stage's position (`offset`) and uniform scale. */
  datatype View = View(offset: Point, scale: real) {

    predicate Valid() {
      scale > 0.0
    }

    /** Where the world point `w` is drawn on screen. */
    function WorldToScreen(w: Point): Point {
      Point(w.x * scale + offset.x, w.y * scale + offset.y)
    }

    /** The world point drawn under the screen point `p` (`mousePointTo`). */
    function ScreenToWorld(p: Point): (w: Point)
      requires Valid()
      ensures WorldToScreen(w) == p
    {
      Point((p.x - offset.x) / scale, (p.y - offset.y) / scale)
    }

    /**
     * The wheel handler's new transform: a positive `deltaY` divides the
     * scale by `ScaleBy`, any other `deltaY` multiplies it, and the offset is
     * chosen so that the world point under the pointer stays under it.
     */
    function Zoom(pointer: Point, deltaY: real): (r: View)
      requires Valid()
      ensures r.Valid()
      ensures deltaY > 0.0 ==> r.scale * ScaleBy == scale && r.scale < scale
      ensures deltaY <= 0.0 ==> r.scale == scale * ScaleBy && r.scale > scale
      ensures r.WorldToScreen(ScreenToWorld(pointer)) == pointer
    {
      var m := ScreenToWorld(pointer);
      var newScale := if deltaY > 0.0 then scale / ScaleBy else scale * ScaleBy;
      View(Point(pointer.x - m.x * newScale, pointer.y - m.y * newScale), newScale)
    }
  }

  /** The transform set up at start: the map centre is on the screen centre at scale 1. */
  function Initial(screenWidth: real, screenHeight: real): (v: View)
    ensures v.Valid() && v.scale == 1.0
    ensures v.ScreenToWorld(Point(screenWidth / 2.0, screenHeight / 2.0))
            == Point(World.MapCenterX, World.MapCenterY)
  {
    View(Point(screenWidth / 2.0 - World.MapCenterX, screenHeight / 2.0 - World.MapCenterY), 1.0)
  }

  /** The transform after the wheel events `events`, handled in order. */
  function ZoomAll(v: View, events: seq<WheelEvent>): (r: View)
    requires v.Valid()
    ensures r.Valid()
    decreases |events|
  {
    if events == [] then v
    else ZoomAll(v.Zoom(events[0].pointer, events[0].deltaY), events[1..])
  }

  /** `b` raised to the power `n`. */
  function Pow(b: real, n: nat): real {
    if n == 0 then 1.0 else b * Pow(b, n - 1)
  }

  /** The stage object: its position and scale change in place on every wheel event. */
  class ViewState {
    var offsetX: real
    var offsetY: real
    var scale: real

    ghost predicate Valid()
      reads this
    {
      scale > 0.0
    }

    /** The current transform as a value. */
    function Snapshot(): View
      reads this
    {
      View(Point(offsetX, offsetY), scale)
    }

    /** Centres the map on a screen of the given size, at scale 1. */
    constructor Init(screenWidth: real, screenHeight: real)
      ensures Valid()
      ensures Snapshot() == Initial(screenWidth, screenHeight)
      ensures offsetX == screenWidth / 2.0 - 4500.0 && offsetY == screenHeight / 2.0 - 4500.0
    {
      offsetX := screenWidth / 2.0 - World.MapCenterX;
      offsetY := screenHeight / 2.0 - World.MapCenterY;
      scale := 1.0;
    }

    /** The wheel handler: zooms by `ScaleBy` about the pointer (px, py). */
    method ZoomAt(px: real, py: real, deltaY: real)
      requires Valid()
      modifies this
      ensures Valid()
      ensures Snapshot() == old(Snapshot()).Zoom(Point(px, py), deltaY)
      ensures Snapshot().WorldToScreen(old(Snapshot()).ScreenToWorld(Point(px, py))) == Point(px, py)
      ensures deltaY > 0.0 ==> scale < old(scale)
      ensures deltaY <= 0.0 ==> scale > old(scale)
    {
      var oldScale := scale;
      var mouseX := (px - offsetX) / oldScale;
      var mouseY := (py - offsetY) / oldScale;
      var direction := if deltaY > 0.0 then -1 else 1;
      var newScale := if direction > 0 then oldScale * ScaleBy else oldScale / ScaleBy;
      scale := newScale;
      offsetX, offsetY := px - mouseX * newScale, py - mouseY * newScale;
    }
  }

  /** Mapping a world point to the screen and back gives the point again. */
  lemma WorldToScreenRoundTrip(v: View, w: Point)
    requires v.Valid()
    ensures v.ScreenToWorld(v.WorldToScreen(w)) == w
  {
  }

  /** After a zoom, the pointer still shows the world point it showed before. */
  lemma ZoomKeepsWorldPointUnderPointer(v: View, pointer: Point, deltaY: real)
    requires v.Valid()
    ensures v.Zoom(pointer, deltaY).ScreenToWorld(pointer) == v.ScreenToWorld(pointer)
  {
  }

  /**
   * A zoom in followed by a zoom out at the same pointer, or the other way
   * round, restores both the scale and the offset.
   */
  lemma ZoomInOutRestores(v: View, pointer: Point, d1: real, d2: real)
    requires v.Valid()
    requires (d1 <= 0.0 < d2) || (d2 <= 0.0 < d1)
    ensures v.Zoom(pointer, d1).Zoom(pointer, d2) == v
  {
  }

  /** A run of wheel events at one pointer never moves the world point under it. */
  lemma {:induction false} ZoomAllKeepsAnchor(v: View, pointer: Point, events: seq<WheelEvent>)
    requires v.Valid()
    requires forall k :: 0 <= k < |events| ==> events[k].pointer == pointer
    ensures ZoomAll(v, events).ScreenToWorld(pointer) == v.ScreenToWorld(pointer)
    decreases |events|
  {
    if events != [] {
      ZoomKeepsWorldPointUnderPointer(v, pointer, events[0].deltaY);
      ZoomAllKeepsAnchor(v.Zoom(pointer, events[0].deltaY), pointer, events[1..]);
    }
  }

  /** n zoom-in events multiply the scale by ScaleBy^n. */
  lemma {:induction false} ZoomInsMultiply(v: View, events: seq<WheelEvent>)
    requires v.Valid()
    requires forall k :: 0 <= k < |events| ==> events[k].deltaY <= 0.0
    ensures ZoomAll(v, events).scale == v.scale * Pow(ScaleBy, |events|)
    decreases |events|
  {
    if events != [] {
      var u := v.Zoom(events[0].pointer, events[0].deltaY);
      ZoomInsMultiply(u, events[1..]);
      assert u.scale == v.scale * ScaleBy;
    }
  }

  /** n zoom-out events divide the scale by ScaleBy^n. */
  lemma {:induction false} ZoomOutsDivide(v: View, events: seq<WheelEvent>)
    requires v.Valid()
    requires forall k :: 0 <= k < |events| ==> events[k].deltaY > 0.0
    ensures ZoomAll(v, events).scale * Pow(ScaleBy, |events|) == v.scale
    decreases |events|
  {
    if events != [] {
      var u := v.Zoom(events[0].pointer, events[0].deltaY);
      ZoomOutsDivide(u, events[1..]);
      assert u.scale * ScaleBy == v.scale;
    }
  }

  /** Repeated zoom-in strictly increases the scale. */
  lemma {:induction false} RepeatedZoomInGrows(v: View, events: seq<WheelEvent>)
    requires v.Valid() && events != []
    requires forall k :: 0 <= k < |events| ==> events[k].deltaY <= 0.0
    ensures ZoomAll(v, events).scale > v.scale
    decreases |events|
  {
    var u := v.Zoom(events[0].pointer, events[0].deltaY);
    if |events| > 1 {
      RepeatedZoomInGrows(u, events[1..]);
    }
  }

  /** Repeated zoom-out strictly decreases the scale, and it stays positive. */
  lemma {:induction false} RepeatedZoomOutShrinks(v: View, events: seq<WheelEvent>)
    requires v.Valid() && events != []
    requires forall k :: 0 <= k < |events| ==> events[k].deltaY > 0.0
    ensures 0.0 < ZoomAll(v, events).scale < v.scale
    decreases |events|
  {
    var u := v.Zoom(events[0].pointer, events[0].deltaY);
    if |events| > 1 {
      RepeatedZoomOutShrinks(u, events[1..]);
    }
  }

  /** The sample start-up: a 1000 x 800 screen. */
  lemma InitialOn1000By800()
    ensures Initial(1000.0, 800.0) == View(Point(-4000.0, -4100.0), 1.0)
    ensures Initial(1000.0, 800.0).ScreenToWorld(Point(500.0, 400.0)) == Point(4500.0, 4500.0)
  {
  }

  /** The sample zoom: identity transform, zoom in at (100, 100). */
  lemma ZoomInAt100()
    ensures View(Point(0.0, 0.0), 1.0).Zoom(Point(100.0, 100.0), -1.0) == View(Point(-10.0, -10.0), 1.1)
  {
  }
}
