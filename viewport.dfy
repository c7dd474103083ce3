/** The ladder view's viewport (LadderViewComponent.tsx): the `scale` and
    `offset` state the render effect reads, the zoom, pan and "100%" buttons
    that change it, and the canvas drag, which registers a pair of document
    listeners on mousedown and removes them on mouseup.

    Numbers are exact reals; the floating-point drift of repeated 0.1 steps is
    not modelled. */
module Viewport {

  const MIN_SCALE: real := 0.5
  const MAX_SCALE: real := 3.0
  /** The scale change per zoom step (`delta * 0.1`). */
  const ZOOM_STEP: real := 0.1

  /** `Math.max(0.5, Math.min(3, s + delta * 0.1))`. */
  function ZoomedScale(s: real, delta: real): (r: real)
    ensures MIN_SCALE <= r <= MAX_SCALE
    ensures MIN_SCALE <= s + delta * ZOOM_STEP <= MAX_SCALE ==> r == s + delta * ZOOM_STEP
    ensures s + delta * ZOOM_STEP > MAX_SCALE ==> r == MAX_SCALE
    ensures s + delta * ZOOM_STEP < MIN_SCALE ==> r == MIN_SCALE
  {
    var target := s + delta * ZOOM_STEP;
    var capped := if target < MAX_SCALE then target else MAX_SCALE;
    if MIN_SCALE > capped then MIN_SCALE else capped
  }

  /** Zooming never moves the scale the wrong way: a larger delta never gives
      a smaller scale. */
  lemma ZoomMonotone(s: real, d1: real, d2: real)
    requires d1 <= d2
    ensures ZoomedScale(s, d1) <= ZoomedScale(s, d2)
  {
    assert d1 * ZOOM_STEP <= d2 * ZOOM_STEP;
  }

  /** Zooming out undoes zooming in, as long as the first step did not hit
      the upper bound (and the start was in range). */
  lemma ZoomInOut(s: real)
    requires MIN_SCALE <= s <= MAX_SCALE - ZOOM_STEP
    ensures ZoomedScale(ZoomedScale(s, 1.0), -1.0) == s
  {
  }

  /** Repeated zooming in reaches the upper bound and stays there. */
  lemma ZoomSaturates(s: real)
    requires MAX_SCALE - ZOOM_STEP <= s
    ensures ZoomedScale(s, 1.0) == MAX_SCALE
    ensures ZoomedScale(MAX_SCALE, 1.0) == MAX_SCALE
  {
  }

  /** One registered `mousemove`/`mouseup` pair: the pointer position at the
      mousedown that created it and the scale of the render it was created in
      (the closure's captured `scale`). */
  datatype DragListener = DragListener(startX: real, startY: real, scale: real)

  predicate NonZeroScales(ls: seq<DragListener>) {
    forall k :: 0 <= k < |ls| ==> ls[k].scale != 0.0
  }

  /** How far the `mousemove` handler of `l` pans for a pointer at `c` along
      one axis, given the start coordinate `start` on that axis. */
  function PanStep(c: real, start: real, scale: real): real
    requires scale != 0.0
  {
    (c - start) / scale
  }

  /** The total horizontal pan one `mousemove` event at `cx` causes: every
      registered handler pans once, by the pointer's displacement from its own
      start point, divided by its own captured scale. */
  function PanX(ls: seq<DragListener>, cx: real): real
    requires NonZeroScales(ls)
  {
    if ls == [] then 0.0
    else PanX(ls[..|ls| - 1], cx) + PanStep(cx, ls[|ls| - 1].startX, ls[|ls| - 1].scale)
  }

  /** The vertical counterpart of `PanX`. */
  function PanY(ls: seq<DragListener>, cy: real): real
    requires NonZeroScales(ls)
  {
    if ls == [] then 0.0
    else PanY(ls[..|ls| - 1], cy) + PanStep(cy, ls[|ls| - 1].startY, ls[|ls| - 1].scale)
  }

  /** With the one listener of an ordinary drag, a move pans by the pointer's
      displacement from the mousedown point divided by the captured scale. */
  lemma SingleDragPan(l: DragListener, cx: real, cy: real)
    requires l.scale != 0.0
    ensures PanX([l], cx) == (cx - l.startX) / l.scale
    ensures PanY([l], cy) == (cy - l.startY) / l.scale
  {
    assert [l][..0] == [];
  }

  /** A move back to the mousedown point pans by nothing, however many drags
      started there. */
  lemma {:induction false} PanAtStart(ls: seq<DragListener>, cx: real, cy: real)
    requires NonZeroScales(ls)
    requires forall k :: 0 <= k < |ls| ==> ls[k].startX == cx && ls[k].startY == cy
    ensures PanX(ls, cx) == 0.0 && PanY(ls, cy) == 0.0
  {
    if ls != [] {
      PanAtStart(ls[..|ls| - 1], cx, cy);
    }
  }

  /** The viewport state of one mounted ladder view. */
  class Viewport {
    var scale: real
    var offsetX: real
    var offsetY: real
    /** The drag listener pairs currently registered on `document`, oldest first. */
    var listeners: seq<DragListener>

    /** The scale is within the zoom bounds, and so is every scale a drag
        handler captured. */
    ghost predicate Valid()
      reads this
    {
      MIN_SCALE <= scale <= MAX_SCALE
      && forall k :: 0 <= k < |listeners| ==> MIN_SCALE <= listeners[k].scale <= MAX_SCALE
    }

    /** `useState(1)` and `useState({ x: 0, y: 0 })`; no drag in progress. */
    constructor()
      ensures Valid()
      ensures scale == 1.0 && offsetX == 0.0 && offsetY == 0.0 && listeners == []
    {
      scale := 1.0;
      offsetX := 0.0;
      offsetY := 0.0;
      listeners := [];
    }

    /** `handleZoom(delta)`: scale moves by `delta * 0.1`, clamped to
        [0.5, 3]; a step past a bound saturates there and is never refused. */
    method HandleZoom(delta: real)
      requires Valid()
      modifies this
      ensures Valid()
      ensures scale == ZoomedScale(old(scale), delta)
      ensures offsetX == old(offsetX) && offsetY == old(offsetY) && listeners == old(listeners)
    {
      scale := ZoomedScale(scale, delta);
    }

    /** `handlePan(dx, dy)`: the offset moves by exactly `(dx, dy)`, without
        any bound; the scale stays. */
    method HandlePan(dx: real, dy: real)
      requires Valid()
      modifies this
      ensures Valid()
      ensures offsetX == old(offsetX) + dx && offsetY == old(offsetY) + dy
      ensures scale == old(scale) && listeners == old(listeners)
    {
      offsetX := offsetX + dx;
      offsetY := offsetY + dy;
    }

    /** The "100%" button (`setScale(1)`): the offset is left where it is. */
    method ResetScale()
      requires Valid()
      modifies this
      ensures Valid()
      ensures scale == 1.0
      ensures offsetX == old(offsetX) && offsetY == old(offsetY) && listeners == old(listeners)
    {
      scale := 1.0;
    }

    /** `onMouseDown` at client point `(cx, cy)`: registers a new listener
        pair that remembers that point and the current scale. */
    method MouseDown(cx: real, cy: real)
      requires Valid()
      modifies this
      ensures Valid()
      ensures listeners == old(listeners) + [DragListener(cx, cy, old(scale))]
      ensures scale == old(scale) && offsetX == old(offsetX) && offsetY == old(offsetY)
    {
      listeners := listeners + [DragListener(cx, cy, scale)];
    }

    /** A `mousemove` on the document at client point `(cx, cy)`: each
        registered handler, in registration order, calls `handlePan` with the
        displacement from its own start point over its own captured scale.
        The displacement is measured from the start every time, so the offset
        grows by the cumulative displacement on each move. With no drag in
        progress nothing happens. */
    method MouseMove(cx: real, cy: real)
      requires Valid()
      modifies this
      ensures Valid()
      ensures NonZeroScales(old(listeners))
      ensures offsetX == old(offsetX) + PanX(old(listeners), cx)
      ensures offsetY == old(offsetY) + PanY(old(listeners), cy)
      ensures scale == old(scale) && listeners == old(listeners)
    {
      var k := 0;
      while k < |listeners|
        invariant 0 <= k <= |listeners|
        invariant Valid() && NonZeroScales(listeners)
        invariant scale == old(scale) && listeners == old(listeners)
        invariant offsetX == old(offsetX) + PanX(listeners[..k], cx)
        invariant offsetY == old(offsetY) + PanY(listeners[..k], cy)
      {
        var l := listeners[k];
        assert listeners[..k + 1][..k] == listeners[..k];
        HandlePan(PanStep(cx, l.startX, l.scale), PanStep(cy, l.startY, l.scale));
        k := k + 1;
      }
      assert listeners[..k] == listeners;
    }

    /** A `mouseup` on the document: every registered pair's `mouseup`
        handler removes its own pair, so afterwards no drag is in progress. */
    method MouseUp()
      requires Valid()
      modifies this
      ensures Valid()
      ensures listeners == []
      ensures scale == old(scale) && offsetX == old(offsetX) && offsetY == old(offsetY)
    {
      listeners := [];
    }
  }

  /** A drag on a freshly mounted view zoomed in to 2x: press at `(sx, sy)`,
      move twice to `(cx, cy)`, release, move again. The first move pans by
      the displacement over the captured scale 2; the second move, though the
      pointer has not moved, pans by the same amount again; after the release
      a move pans nothing. */
  method DragAtDoubleScale(sx: real, sy: real, cx: real, cy: real)
    returns (afterFirst: (real, real), afterSecond: (real, real), afterRelease: (real, real))
    ensures afterFirst == ((cx - sx) / 2.0, (cy - sy) / 2.0)
    ensures afterSecond == (2.0 * ((cx - sx) / 2.0), 2.0 * ((cy - sy) / 2.0))
    ensures afterRelease == afterSecond
  {
    var v := new Viewport();
    v.HandleZoom(10.0);
    assert v.scale == 2.0;
    v.MouseDown(sx, sy);
    SingleDragPan(DragListener(sx, sy, 2.0), cx, cy);
    v.MouseMove(cx, cy);
    afterFirst := (v.offsetX, v.offsetY);
    v.MouseMove(cx, cy);
    afterSecond := (v.offsetX, v.offsetY);
    v.MouseUp();
    v.MouseMove(cx + 1.0, cy + 1.0);
    afterRelease := (v.offsetX, v.offsetY);
  }

  /** Panning and zooming touch disjoint parts of the state: "100%" after a
      zoom and a pan keeps the pan, and the scale is back to 1. */
  method ZoomPanReset(delta: real, dx: real, dy: real) returns (scale: real, ox: real, oy: real)
    ensures scale == 1.0 && ox == dx && oy == dy
  {
    var v := new Viewport();
    v.HandleZoom(delta);
    v.HandlePan(dx, dy);
    v.ResetScale();
    scale, ox, oy := v.scale, v.offsetX, v.offsetY;
  }
}
