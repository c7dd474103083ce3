/** The ladder view's drawing (LadderViewComponent.tsx): what the render effect
    puts on the canvas, as a sequence of draw commands in diagram coordinates,
    together with the transform the effect installs before drawing.

    Layout is pure index arithmetic: rung `i` starts at `y = 100*i + 20`,
    element `j` of a rung at `x = 60*j + 40`; the `x`/`y` an element carries
    are never read. Colours, line widths and fonts are not modelled; the four
    stroke settings the view uses (grid, power rail, connection wire, symbol)
    are kept apart as a `Pen` so that rails and wires can be told from glyph
    strokes. */
module LadderView {
  import opened Wrappers
  import opened Ladder

  const GRID_SIZE: int := 20
  const RUNG_HEIGHT: int := 100
  const ELEMENT_WIDTH: int := 60
  const ELEMENT_HEIGHT: int := 40
  /** The x of every rung's power rail. */
  const RAIL_X: int := 20
  /** Canvas size used when the parent passes none. */
  const DEFAULT_WIDTH: nat := 800
  const DEFAULT_HEIGHT: nat := 600

  datatype Point = Point(x: int, y: int)

  /** The stroke settings: grid (#f0f0f0, 1px), power rail (#333, 3px),
      connection (#666, 2px), symbol (#333, 2px). */
  datatype Pen = GridPen | RailPen | WirePen | SymbolPen

  /** What one canvas call (or one stroked path piece) draws. */
  datatype DrawCommand =
    | Segment(from: Point, to: Point, pen: Pen)
    | Circle(center: Point, radius: int)
    | Box(origin: Point, width: int, height: int)
    | Text(at: Point, text: string)

  /** Top of rung `i` (`rungIndex * RUNG_HEIGHT + 20`). */
  function RungTop(i: nat): int {
    i * RUNG_HEIGHT + 20
  }

  /** Left edge of element `j` of a rung (`elementIndex * ELEMENT_WIDTH + 40`). */
  function ElementLeft(j: nat): int {
    j * ELEMENT_WIDTH + 40
  }

  // ---------------------------------------------------------------- grid

  /** The vertical grid lines `x, x + 20, ...` up to and including `width`. */
  function VerticalLines(x: int, width: nat, height: nat): (r: seq<DrawCommand>)
    ensures forall c :: c in r ==> c.Segment? && c.pen == GridPen
    decreases width + GRID_SIZE - x
  {
    if x > width then []
    else [Segment(Point(x, 0), Point(x, height), GridPen)] + VerticalLines(x + GRID_SIZE, width, height)
  }

  /** The horizontal grid lines `y, y + 20, ...` up to and including `height`. */
  function HorizontalLines(y: int, width: nat, height: nat): (r: seq<DrawCommand>)
    ensures forall c :: c in r ==> c.Segment? && c.pen == GridPen
    decreases height + GRID_SIZE - y
  {
    if y > height then []
    else [Segment(Point(0, y), Point(width, y), GridPen)] + HorizontalLines(y + GRID_SIZE, width, height)
  }

  /** `drawGrid`: vertical lines first, then horizontal ones. */
  function DrawGrid(width: nat, height: nat): seq<DrawCommand> {
    VerticalLines(0, width, height) + HorizontalLines(0, width, height)
  }

  lemma {:induction false} VerticalLinesFrom(m: nat, width: nat, height: nat)
    requires m <= width / GRID_SIZE + 1
    ensures VerticalLines(GRID_SIZE * m, width, height)
         == seq(width / GRID_SIZE + 1 - m, k => Segment(Point(GRID_SIZE * (m + k), 0), Point(GRID_SIZE * (m + k), height), GridPen))
    decreases width / GRID_SIZE + 1 - m
  {
    if m <= width / GRID_SIZE {
      VerticalLinesFrom(m + 1, width, height);
    }
  }

  lemma {:induction false} HorizontalLinesFrom(m: nat, width: nat, height: nat)
    requires m <= height / GRID_SIZE + 1
    ensures HorizontalLines(GRID_SIZE * m, width, height)
         == seq(height / GRID_SIZE + 1 - m, k => Segment(Point(0, GRID_SIZE * (m + k)), Point(width, GRID_SIZE * (m + k)), GridPen))
    decreases height / GRID_SIZE + 1 - m
  {
    if m <= height / GRID_SIZE {
      HorizontalLinesFrom(m + 1, width, height);
    }
  }

  /** The grid is `width/20 + 1` full-height vertical lines at `x = 20k`,
      followed by `height/20 + 1` full-width horizontal lines at `y = 20k`. */
  lemma GridLines(width: nat, height: nat)
    ensures |DrawGrid(width, height)| == (width / GRID_SIZE + 1) + (height / GRID_SIZE + 1)
    ensures forall k :: 0 <= k <= width / GRID_SIZE ==>
      DrawGrid(width, height)[k] == Segment(Point(GRID_SIZE * k, 0), Point(GRID_SIZE * k, height), GridPen)
    ensures forall k :: 0 <= k <= height / GRID_SIZE ==>
      DrawGrid(width, height)[width / GRID_SIZE + 1 + k] == Segment(Point(0, GRID_SIZE * k), Point(width, GRID_SIZE * k), GridPen)
  {
    VerticalLinesFrom(0, width, height);
    HorizontalLinesFrom(0, width, height);
  }

  // ---------------------------------------------------------------- glyphs

  /** `drawContact` centred on `(x, y)`. A normally-open contact is two
      horizontal strokes with a gap between `x - 5` and `x + 5`; a normally
      closed one is two slanted strokes meeting the terminals plus the
      diagonal strike-through. */
  function DrawContact(x: int, y: int, normallyOpen: bool): (r: seq<DrawCommand>)
    ensures forall c :: c in r ==> c.Segment? && c.pen == SymbolPen
    ensures Point(x - 20, y) in Endpoints(r) && Point(x + 20, y) in Endpoints(r)
    ensures normallyOpen ==> forall c :: c in r ==>
      c.from.y == y && c.to.y == y && (c.to.x <= x - 5 || c.from.x >= x + 5)
    ensures normallyOpen ==> Point(x - 5, y) in Endpoints(r) && Point(x + 5, y) in Endpoints(r)
    ensures !normallyOpen <==> Segment(Point(x - 8, y - 8), Point(x + 8, y + 8), SymbolPen) in r
  {
    if normallyOpen then
      [Segment(Point(x - 20, y), Point(x - 5, y), SymbolPen),
       Segment(Point(x + 5, y), Point(x + 20, y), SymbolPen)]
    else
      [Segment(Point(x - 20, y), Point(x - 8, y - 8), SymbolPen),
       Segment(Point(x - 8, y + 8), Point(x + 20, y), SymbolPen),
       Segment(Point(x - 8, y - 8), Point(x + 8, y + 8), SymbolPen)]
  }

  /** All end points of the segments among `cmds`. */
  function Endpoints(cmds: seq<DrawCommand>): set<Point> {
    (set c | c in cmds && c.Segment? :: c.from) + (set c | c in cmds && c.Segment? :: c.to)
  }

  /** `drawCoil` centred on `(x, y)`: a circle of radius 10 and two horizontal
      stubs that run from the terminals at `x -/+ 20` to the circle. */
  function DrawCoil(x: int, y: int): (r: seq<DrawCommand>)
    ensures forall c :: c in r && c.Circle? ==> c == Circle(Point(x, y), 10)
    ensures Circle(Point(x, y), 10) in r
    ensures forall c :: c in r && c.Segment? ==>
      c.pen == SymbolPen && c.from.y == y && c.to.y == y && c.to.x - c.from.x == 10
      && ((c.from.x == x - 20 && c.to.x == x - 10) || (c.from.x == x + 10 && c.to.x == x + 20))
    ensures Point(x - 20, y) in Endpoints(r) && Point(x + 20, y) in Endpoints(r)
  {
    [Segment(Point(x - 20, y), Point(x - 10, y), SymbolPen),
     Segment(Point(x + 10, y), Point(x + 20, y), SymbolPen),
     Circle(Point(x, y), 10)]
  }

  /** `drawFunction` with box origin `(x, y)`: an ELEMENT_WIDTH x ELEMENT_HEIGHT
      box with the caption written at its centre. */
  function DrawFunction(x: int, y: int, caption: string): (r: seq<DrawCommand>)
    ensures forall c :: c in r ==> c.Box? || c.Text?
    ensures forall c :: c in r && c.Box? ==> c == Box(Point(x, y), ELEMENT_WIDTH, ELEMENT_HEIGHT)
    ensures forall c :: c in r && c.Text? ==>
      c.text == caption && c.at == Point(x + ELEMENT_WIDTH / 2, y + ELEMENT_HEIGHT / 2)
    ensures Box(Point(x, y), ELEMENT_WIDTH, ELEMENT_HEIGHT) in r
    ensures Text(Point(x + ELEMENT_WIDTH / 2, y + ELEMENT_HEIGHT / 2), caption) in r
  {
    [Box(Point(x, y), ELEMENT_WIDTH, ELEMENT_HEIGHT),
     Text(Point(x + ELEMENT_WIDTH / 2, y + ELEMENT_HEIGHT / 2), caption)]
  }

  /** `drawLabel`. */
  function DrawLabel(x: int, y: int, text: string): seq<DrawCommand> {
    [Text(Point(x, y), text)]
  }

  /** The type-specific glyph of `drawElement` for an element whose box has
      origin `(x, y)`; an unknown type draws nothing. */
  function Glyph(e: Element, x: int, y: int): (r: seq<DrawCommand>)
  {
    var centerX := x + ELEMENT_WIDTH / 2;
    var centerY := y + ELEMENT_HEIGHT / 2;
    match e.kind
    case Contact => DrawContact(centerX, centerY, !IsNormallyClosed(e))
    case Coil => DrawCoil(centerX, centerY)
    case Function => DrawFunction(x, y, OrElse(e.labelText, "FUNC"))
    case Other(_) => []
  }

  /** Where `drawElement` writes the address label of an element whose box has
      origin `(x, y)`: centred under the box. */
  function LabelAt(x: int, y: int): Point {
    Point(x + ELEMENT_WIDTH / 2, y + ELEMENT_HEIGHT + 15)
  }

  /** `drawElement`: the glyph, then the address label when the element has a
      non-empty address or description. */
  function DrawElement(e: Element, x: int, y: int): seq<DrawCommand> {
    var centerX := x + ELEMENT_WIDTH / 2;
    Glyph(e, x, y)
      + (if Truthy(e.address) || Truthy(e.description)
         then DrawLabel(centerX, y + ELEMENT_HEIGHT + 15, OrElse(e.address, ""))
         else [])
  }

  /** What `drawElement` draws for an element whose box has origin `(x, y)`
      (so whose centre is `(x + 30, y + 20)`): only symbol strokes; a contact
      gets the diagonal strike-through exactly when `isNormallyOpen` is
      `false`; a coil its circle at the centre; a function its box and its
      label (default 'FUNC'); any other type nothing but the address label.
      The address label is drawn exactly when the address or the description
      is non-empty, 55 below the top at the centre's x, and reads the address
      (empty when there is none). */
  lemma DrawElementShape(e: Element, x: int, y: int)
    ensures var r := DrawElement(e, x, y);
      (forall c :: c in r && c.Segment? ==> c.pen == SymbolPen)
      && (e.kind.Contact? ==>
            (Segment(Point(x + 22, y + 12), Point(x + 38, y + 28), SymbolPen) in r <==> IsNormallyClosed(e)))
      && (e.kind.Coil? ==> Circle(Point(x + 30, y + 20), 10) in r)
      && (e.kind.Function? ==>
            Box(Point(x, y), 60, 40) in r && Text(Point(x + 30, y + 20), OrElse(e.labelText, "FUNC")) in r)
      && (e.kind.Other? ==> forall c :: c in r ==> c.Text? && c.at == LabelAt(x, y))
      && ((Truthy(e.address) || Truthy(e.description)) <==> exists t :: Text(LabelAt(x, y), t) in r)
      && (forall t :: Text(LabelAt(x, y), t) in r ==> t == e.address.GetOr(""))
  {
    var g := Glyph(e, x, y);
    var lbl := if Truthy(e.address) || Truthy(e.description)
               then DrawLabel(x + ELEMENT_WIDTH / 2, y + ELEMENT_HEIGHT + 15, OrElse(e.address, ""))
               else [];
    assert DrawElement(e, x, y) == g + lbl;
    assert forall c :: c in g ==> !(c.Text? && c.at == LabelAt(x, y));
    if Truthy(e.address) || Truthy(e.description) {
      assert Text(LabelAt(x, y), OrElse(e.address, "")) in lbl;
    }
  }

  // ---------------------------------------------------------------- rungs

  /** `drawPowerRail`: the rail of the rung whose top is `y`. */
  function DrawPowerRail(y: int): seq<DrawCommand> {
    [Segment(Point(RAIL_X, y), Point(RAIL_X, y + RUNG_HEIGHT - 20), RailPen)]
  }

  /** `drawConnection`. */
  function DrawConnection(x1: int, y1: int, x2: int, y2: int): seq<DrawCommand> {
    [Segment(Point(x1, y1), Point(x2, y2), WirePen)]
  }

  /** The inner `forEach` of `drawLadderRungs` from element `j` on: each element
      at its index-derived box, followed by a connection to the next one unless
      it is the last. */
  function DrawElementsFrom(elements: seq<Element>, j: nat, y: int): seq<DrawCommand>
    decreases |elements| - j
  {
    if j >= |elements| then []
    else
      var x := ElementLeft(j);
      DrawElement(elements[j], x, y)
        + (if j < |elements| - 1
           then DrawConnection(x + ELEMENT_WIDTH, y + ELEMENT_HEIGHT / 2, x + ELEMENT_WIDTH + 20, y + ELEMENT_HEIGHT / 2)
           else [])
        + DrawElementsFrom(elements, j + 1, y)
  }

  /** One iteration of the outer `forEach` of `drawLadderRungs`, for rung `i`. */
  function DrawRung(rung: Rung, i: nat): seq<DrawCommand> {
    var y := RungTop(i);
    DrawPowerRail(y) + (if rung.elements.Some? then DrawElementsFrom(rung.elements.value, 0, y) else [])
  }

  function DrawRungsFrom(rungs: seq<Rung>, i: nat): seq<DrawCommand>
    decreases |rungs| - i
  {
    if i >= |rungs| then [] else DrawRung(rungs[i], i) + DrawRungsFrom(rungs, i + 1)
  }

  /** `drawLadderRungs`. */
  function DrawLadderRungs(rungs: seq<Rung>): seq<DrawCommand> {
    DrawRungsFrom(rungs, 0)
  }

  // ------------------------------------------------- rails and connections

  /** The segments among `cmds` stroked with `pen`, in drawing order. */
  function WithPen(cmds: seq<DrawCommand>, pen: Pen): seq<DrawCommand> {
    if cmds == [] then []
    else (if cmds[0].Segment? && cmds[0].pen == pen then [cmds[0]] else []) + WithPen(cmds[1..], pen)
  }

  lemma {:induction false} WithPenAppend(a: seq<DrawCommand>, b: seq<DrawCommand>, pen: Pen)
    ensures WithPen(a + b, pen) == WithPen(a, pen) + WithPen(b, pen)
  {
    if a == [] {
      assert a + b == b;
    } else {
      var head := if a[0].Segment? && a[0].pen == pen then [a[0]] else [];
      WithPenAppend(a[1..], b, pen);
      assert (a + b)[1..] == a[1..] + b;
      assert WithPen(a + b, pen) == head + (WithPen(a[1..], pen) + WithPen(b, pen));
      assert WithPen(a, pen) == head + WithPen(a[1..], pen);
      CommandsAssoc(head, WithPen(a[1..], pen), WithPen(b, pen));
    }
  }

  lemma CommandsAssoc(a: seq<DrawCommand>, b: seq<DrawCommand>, c: seq<DrawCommand>)
    ensures a + (b + c) == (a + b) + c
  {
  }

  lemma {:induction false} WithPenNone(cmds: seq<DrawCommand>, pen: Pen)
    requires forall c :: c in cmds && c.Segment? ==> c.pen != pen
    ensures WithPen(cmds, pen) == []
  {
    if cmds != [] {
      WithPenNone(cmds[1..], pen);
    }
  }

  /** The rail of rung `i`: the vertical segment at `x = 20` from the rung's
      top `100*i + 20` down 80 units. */
  function RailOf(i: int): DrawCommand {
    Segment(Point(20, 100 * i + 20), Point(20, 100 * i + 100), RailPen)
  }

  /** The connection after element `j` of the rung whose top is `y`: from the
      element's right edge `60*j + 100` to `60*j + 120`, at `y + 20`. */
  function WireOf(j: int, y: int): DrawCommand {
    Segment(Point(60 * j + 100, y + 20), Point(60 * j + 120, y + 20), WirePen)
  }

  /** An element's own drawing holds neither rail nor connection strokes. */
  lemma ElementStrokes(e: Element, x: int, y: int)
    ensures WithPen(DrawElement(e, x, y), RailPen) == []
    ensures WithPen(DrawElement(e, x, y), WirePen) == []
  {
    DrawElementShape(e, x, y);
    WithPenNone(DrawElement(e, x, y), RailPen);
    WithPenNone(DrawElement(e, x, y), WirePen);
  }

  /** The connection drawn after element `j` of `elements`, if any. */
  function ConnectionAfter(elements: seq<Element>, j: nat, y: int): seq<DrawCommand> {
    var x := ElementLeft(j);
    if j < |elements| - 1
    then DrawConnection(x + ELEMENT_WIDTH, y + ELEMENT_HEIGHT / 2, x + ELEMENT_WIDTH + 20, y + ELEMENT_HEIGHT / 2)
    else []
  }

  lemma ConnectionIsWire(elements: seq<Element>, j: nat, y: int)
    ensures ConnectionAfter(elements, j, y) == if j < |elements| - 1 then [WireOf(j, y)] else []
  {
  }

  lemma WithPenSingle(c: DrawCommand, pen: Pen)
    ensures WithPen([c], pen) == if c.Segment? && c.pen == pen then [c] else []
  {
    assert [c][1..] == [];
  }

  lemma UnfoldElementsFrom(elements: seq<Element>, j: nat, y: int)
    requires j < |elements|
    ensures DrawElementsFrom(elements, j, y)
         == DrawElement(elements[j], ElementLeft(j), y) + ConnectionAfter(elements, j, y) + DrawElementsFrom(elements, j + 1, y)
  {
  }

  lemma {:induction false} ElementsHaveNoRail(elements: seq<Element>, j: nat, y: int)
    ensures WithPen(DrawElementsFrom(elements, j, y), RailPen) == []
    decreases |elements| - j
  {
    if j < |elements| {
      var here := DrawElement(elements[j], ElementLeft(j), y);
      var conn := ConnectionAfter(elements, j, y);
      var rest := DrawElementsFrom(elements, j + 1, y);
      UnfoldElementsFrom(elements, j, y);
      ElementsHaveNoRail(elements, j + 1, y);
      ElementStrokes(elements[j], ElementLeft(j), y);
      WithPenAppend(here, conn, RailPen);
      WithPenAppend(here + conn, rest, RailPen);
    }
  }

  lemma {:induction false} RailsFrom(rungs: seq<Rung>, i: nat)
    requires i <= |rungs|
    ensures var rails := WithPen(DrawRungsFrom(rungs, i), RailPen);
      |rails| == |rungs| - i && forall k :: 0 <= k < |rails| ==> rails[k] == RailOf(i + k)
    decreases |rungs| - i
  {
    if i < |rungs| {
      RailsFrom(rungs, i + 1);
      RungRail(rungs[i], i);
      assert DrawRungsFrom(rungs, i) == DrawRung(rungs[i], i) + DrawRungsFrom(rungs, i + 1);
      WithPenAppend(DrawRung(rungs[i], i), DrawRungsFrom(rungs, i + 1), RailPen);
      var rails := WithPen(DrawRungsFrom(rungs, i), RailPen);
      var rest := WithPen(DrawRungsFrom(rungs, i + 1), RailPen);
      assert rails == [RailOf(i)] + rest;
      forall k | 0 <= k < |rails| ensures rails[k] == RailOf(i + k) {
        if k > 0 {
          assert rails[k] == rest[k - 1];
        }
      }
    }
  }

  /** Rung `i` strokes exactly one segment with the rail pen, its rail. */
  lemma RungRail(rung: Rung, i: nat)
    ensures WithPen(DrawRung(rung, i), RailPen) == [RailOf(i)]
  {
    var y := RungTop(i);
    var elems := if rung.elements.Some? then DrawElementsFrom(rung.elements.value, 0, y) else [];
    if rung.elements.Some? {
      ElementsHaveNoRail(rung.elements.value, 0, y);
    }
    WithPenAppend(DrawPowerRail(y), elems, RailPen);
    assert DrawPowerRail(y) == [RailOf(i)];
    WithPenSingle(RailOf(i), RailPen);
  }

  /** Every rung, with or without elements, gets exactly one power rail, and
      the rails come in rung order: rung `i`'s runs at `x = 20` from
      `100*i + 20` to `100*i + 100`. */
  lemma OneRailPerRung(rungs: seq<Rung>)
    ensures var rails := WithPen(DrawLadderRungs(rungs), RailPen);
      |rails| == |rungs| && forall i :: 0 <= i < |rungs| ==> rails[i] == RailOf(i)
  {
    RailsFrom(rungs, 0);
  }

  lemma WiresOfPieces(here: seq<DrawCommand>, conn: seq<DrawCommand>, rest: seq<DrawCommand>)
    requires WithPen(here, WirePen) == []
    requires forall c :: c in conn ==> c.Segment? && c.pen == WirePen
    ensures WithPen(here + conn + rest, WirePen) == conn + WithPen(rest, WirePen)
  {
    assert WithPen(here + conn, WirePen) == conn by {
      WithPenAppend(here, conn, WirePen);
      WithPenAll(conn, WirePen);
      assert [] + conn == conn;
    }
    WithPenAppend(here + conn, rest, WirePen);
  }

  lemma {:induction false} WithPenAll(cmds: seq<DrawCommand>, pen: Pen)
    requires forall c :: c in cmds ==> c.Segment? && c.pen == pen
    ensures WithPen(cmds, pen) == cmds
  {
    if cmds != [] {
      WithPenAll(cmds[1..], pen);
    }
  }

  /** Element `j` contributes to the connection strokes only the wire after it. */
  lemma WiresStep(elements: seq<Element>, j: nat, y: int)
    requires j < |elements|
    ensures WithPen(DrawElementsFrom(elements, j, y), WirePen)
         == (if j < |elements| - 1 then [WireOf(j, y)] else []) + WithPen(DrawElementsFrom(elements, j + 1, y), WirePen)
  {
    UnfoldElementsFrom(elements, j, y);
    ElementStrokes(elements[j], ElementLeft(j), y);
    ConnectionIsWire(elements, j, y);
    WiresOfPieces(DrawElement(elements[j], ElementLeft(j), y), ConnectionAfter(elements, j, y),
                  DrawElementsFrom(elements, j + 1, y));
  }

  lemma ConsWire(rest: seq<DrawCommand>, j: int, y: int)
    requires forall k :: 0 <= k < |rest| ==> rest[k] == WireOf(j + 1 + k, y)
    ensures var wires := [WireOf(j, y)] + rest;
      forall k :: 0 <= k < |wires| ==> wires[k] == WireOf(j + k, y)
  {
    var wires := [WireOf(j, y)] + rest;
    forall k | 0 <= k < |wires| ensures wires[k] == WireOf(j + k, y) {
      if k > 0 {
        assert wires[k] == rest[k - 1];
      }
    }
  }

  /** The connections a rung of `n` elements draws from element `j` on. */
  function WiresAfter(n: nat, j: nat, y: int): seq<DrawCommand>
    decreases n - j
  {
    if j >= n then [] else (if j < n - 1 then [WireOf(j, y)] else []) + WiresAfter(n, j + 1, y)
  }

  lemma {:induction false} WiresAfterAt(n: nat, j: nat, y: int)
    requires j <= n
    ensures var wires := WiresAfter(n, j, y);
      |wires| == (if j < n then n - 1 - j else 0)
      && forall k :: 0 <= k < |wires| ==> wires[k] == WireOf(j + k, y)
    decreases n - j
  {
    if j < n {
      WiresAfterAt(n, j + 1, y);
      if j < n - 1 {
        ConsWire(WiresAfter(n, j + 1, y), j, y);
      }
    }
  }

  lemma {:induction false} WiresOfElements(elements: seq<Element>, j: nat, y: int)
    requires j <= |elements|
    ensures WithPen(DrawElementsFrom(elements, j, y), WirePen) == WiresAfter(|elements|, j, y)
    decreases |elements| - j
  {
    if j < |elements| {
      WiresStep(elements, j, y);
      WiresOfElements(elements, j + 1, y);
    }
  }

  lemma WiresFrom(elements: seq<Element>, j: nat, y: int)
    requires j <= |elements|
    ensures var wires := WithPen(DrawElementsFrom(elements, j, y), WirePen);
      |wires| == (if j < |elements| then |elements| - 1 - j else 0)
      && forall k :: 0 <= k < |wires| ==> wires[k] == WireOf(j + k, y)
  {
    WiresOfElements(elements, j, y);
    WiresAfterAt(|elements|, j, y);
  }

  /** A rung with `n` elements draws `max(n - 1, 0)` connections, the `j`-th
      from `x_j + 60` to `x_j + 80` at the rung's `y + 20`; a rung without an
      element list draws none. */
  lemma ConnectionsOfRung(rung: Rung, i: nat)
    ensures var n, wires := |ElementsOf(rung)|, WithPen(DrawRung(rung, i), WirePen);
      |wires| == (if n > 0 then n - 1 else 0)
      && forall j :: 0 <= j < |wires| ==> wires[j] == WireOf(j, RungTop(i))
  {
    var y := RungTop(i);
    if rung.elements.Some? {
      WiresFrom(rung.elements.value, 0, y);
      WithPenAppend(DrawPowerRail(y), DrawElementsFrom(rung.elements.value, 0, y), WirePen);
    }
  }

  // ------------------------------------------------------------ placement

  /** `part` occurs in `whole` as the contiguous run starting at index `p`. */
  predicate SliceAt(whole: seq<DrawCommand>, part: seq<DrawCommand>, p: int) {
    0 <= p && p + |part| <= |whole| && whole[p..p + |part|] == part
  }

  lemma SliceInLeft(a: seq<DrawCommand>, b: seq<DrawCommand>, part: seq<DrawCommand>, p: int)
    requires SliceAt(a, part, p)
    ensures SliceAt(a + b, part, p)
  {
    assert (a + b)[p..p + |part|] == a[p..p + |part|];
  }

  lemma SliceInRight(a: seq<DrawCommand>, b: seq<DrawCommand>, part: seq<DrawCommand>, p: int)
    requires SliceAt(b, part, p)
    ensures SliceAt(a + b, part, |a| + p)
  {
    assert (a + b)[|a| + p..|a| + p + |part|] == b[p..p + |part|];
  }

  lemma {:induction false} ElementInElementsFrom(elements: seq<Element>, from: nat, j: nat, y: int)
    requires from <= j < |elements|
    ensures exists p :: SliceAt(DrawElementsFrom(elements, from, y), DrawElement(elements[j], ElementLeft(j), y), p)
    decreases j - from
  {
    var part := DrawElement(elements[j], ElementLeft(j), y);
    var here := DrawElement(elements[from], ElementLeft(from), y);
    var conn := ConnectionAfter(elements, from, y);
    var rest := DrawElementsFrom(elements, from + 1, y);
    UnfoldElementsFrom(elements, from, y);
    if from == j {
      assert SliceAt(here, part, 0);
      SliceInLeft(here, conn, part, 0);
      SliceInLeft(here + conn, rest, part, 0);
    } else {
      ElementInElementsFrom(elements, from + 1, j, y);
      var p :| SliceAt(rest, part, p);
      SliceInRight(here + conn, rest, part, p);
    }
  }

  lemma {:induction false} RungInRungsFrom(rungs: seq<Rung>, from: nat, i: nat, part: seq<DrawCommand>, q: int)
    requires from <= i < |rungs| && SliceAt(DrawRung(rungs[i], i), part, q)
    ensures exists p :: SliceAt(DrawRungsFrom(rungs, from), part, p)
    decreases i - from
  {
    var here := DrawRung(rungs[from], from);
    var rest := DrawRungsFrom(rungs, from + 1);
    assert DrawRungsFrom(rungs, from) == here + rest;
    if from == i {
      SliceInLeft(here, rest, part, q);
    } else {
      RungInRungsFrom(rungs, from + 1, i, part, q);
      var p :| SliceAt(rest, part, p);
      SliceInRight(here, rest, part, p);
    }
  }

  /** Element `j` of rung `i` is drawn, as one contiguous run of commands, by
      `drawElement` with box origin `(60*j + 40, 100*i + 20)` (so with centre
      `(60*j + 70, 100*i + 40)`), whatever `x`/`y` the element carries. */
  lemma ElementPlacement(rungs: seq<Rung>, i: nat, j: nat)
    requires i < |rungs| && j < |ElementsOf(rungs[i])|
    ensures ElementLeft(j) == 60 * j + 40 && RungTop(i) == 100 * i + 20
    ensures exists p :: SliceAt(DrawLadderRungs(rungs), DrawElement(ElementsOf(rungs[i])[j], ElementLeft(j), RungTop(i)), p)
  {
    var elements := ElementsOf(rungs[i]);
    var y := RungTop(i);
    var part := DrawElement(elements[j], ElementLeft(j), y);
    ElementInElementsFrom(elements, 0, j, y);
    var p :| SliceAt(DrawElementsFrom(elements, 0, y), part, p);
    assert DrawRung(rungs[i], i) == DrawPowerRail(y) + DrawElementsFrom(elements, 0, y);
    SliceInRight(DrawPowerRail(y), DrawElementsFrom(elements, 0, y), part, p);
    RungInRungsFrom(rungs, 0, i, part, |DrawPowerRail(y)| + p);
    var q :| SliceAt(DrawRungsFrom(rungs, 0), part, q);
    assert SliceAt(DrawLadderRungs(rungs), part, q);
  }

  /** An element with its producer-supplied position erased. */
  function Unplaced(e: Element): Element {
    e.(x := 0, y := 0)
  }

  /** Two rungs that differ at most in the positions their elements carry. */
  predicate SameButPositions(r: Rung, r': Rung) {
    r.elements.Some? == r'.elements.Some?
    && |ElementsOf(r)| == |ElementsOf(r')|
    && forall j :: 0 <= j < |ElementsOf(r)| ==> Unplaced(ElementsOf(r)[j]) == Unplaced(ElementsOf(r')[j])
  }

  lemma SameDrawing(e: Element, e': Element, x: int, y: int)
    requires Unplaced(e) == Unplaced(e')
    ensures DrawElement(e, x, y) == DrawElement(e', x, y)
  {
    assert e.kind == Unplaced(e).kind == e'.kind;
    assert e.address == Unplaced(e).address == e'.address;
    assert e.description == Unplaced(e).description == e'.description;
    assert e.isNormallyOpen == Unplaced(e).isNormallyOpen == e'.isNormallyOpen;
    assert e.labelText == Unplaced(e).labelText == e'.labelText;
  }

  lemma {:induction false} ElementsIgnorePositions(a: seq<Element>, b: seq<Element>, j: nat, y: int)
    requires |a| == |b| && forall k :: 0 <= k < |a| ==> Unplaced(a[k]) == Unplaced(b[k])
    ensures DrawElementsFrom(a, j, y) == DrawElementsFrom(b, j, y)
    decreases |a| - j
  {
    if j < |a| {
      UnfoldElementsFrom(a, j, y);
      UnfoldElementsFrom(b, j, y);
      SameDrawing(a[j], b[j], ElementLeft(j), y);
      ElementsIgnorePositions(a, b, j + 1, y);
    }
  }

  lemma {:induction false} RungsIgnorePositions(a: seq<Rung>, b: seq<Rung>, i: nat)
    requires |a| == |b| && forall k :: 0 <= k < |a| ==> SameButPositions(a[k], b[k])
    ensures DrawRungsFrom(a, i) == DrawRungsFrom(b, i)
    decreases |a| - i
  {
    if i < |a| {
      RungIgnoresPositions(a[i], b[i], i);
      RungsIgnorePositions(a, b, i + 1);
    }
  }

  lemma RungIgnoresPositions(r: Rung, r': Rung, i: nat)
    requires SameButPositions(r, r')
    ensures DrawRung(r, i) == DrawRung(r', i)
  {
    if r.elements.Some? {
      ElementsIgnorePositions(r.elements.value, r'.elements.value, 0, RungTop(i));
    }
  }

  /** The drawing depends on the elements' indices only: moving elements by
      editing their `x`/`y` changes nothing on the canvas. */
  lemma DrawingIgnoresPositions(a: seq<Rung>, b: seq<Rung>)
    requires |a| == |b| && forall k :: 0 <= k < |a| ==> SameButPositions(a[k], b[k])
    ensures DrawLadderRungs(a) == DrawLadderRungs(b)
  {
    RungsIgnorePositions(a, b, 0);
  }

  // ------------------------------------------------------------ transform

  /** A point of the canvas plane. */
  datatype RPoint = RPoint(x: real, y: real)

  /** A canvas transform of the form the effect builds: uniform scale `a`
      followed by translation `(e, f)`, mapping `p` to `(a*p.x + e, a*p.y + f)`. */
  datatype Transform = Transform(a: real, e: real, f: real)

  const Identity: Transform := Transform(1.0, 0.0, 0.0)

  function Apply(t: Transform, p: RPoint): RPoint {
    RPoint(t.a * p.x + t.e, t.a * p.y + t.f)
  }

  /** `ctx.scale(s, s)`: right-multiplies the current transform by a scaling. */
  function Scaled(t: Transform, s: real): Transform {
    Transform(t.a * s, t.e, t.f)
  }

  /** The new transform scales a point first, then applies the current one. */
  lemma ScaledApply(t: Transform, s: real, p: RPoint)
    ensures Apply(Scaled(t, s), p) == Apply(t, RPoint(s * p.x, s * p.y))
  {
    assert (t.a * s) * p.x == t.a * (s * p.x);
    assert (t.a * s) * p.y == t.a * (s * p.y);
  }

  /** `ctx.translate(dx, dy)`: right-multiplies the current transform by a
      translation. */
  function Translated(t: Transform, dx: real, dy: real): Transform {
    Transform(t.a, t.e + t.a * dx, t.f + t.a * dy)
  }

  /** The new transform translates a point first, then applies the current one. */
  lemma TranslatedApply(t: Transform, dx: real, dy: real, p: RPoint)
    ensures Apply(Translated(t, dx, dy), p) == Apply(t, RPoint(p.x + dx, p.y + dy))
  {
    Distributes(t.a, p.x, dx);
    Distributes(t.a, p.y, dy);
    assert t.a * (p.x + dx) + t.e == t.a * p.x + (t.e + t.a * dx);
    assert t.a * (p.y + dy) + t.f == t.a * p.y + (t.f + t.a * dy);
    assert Apply(Translated(t, dx, dy), p) == RPoint(t.a * p.x + (t.e + t.a * dx), t.a * p.y + (t.f + t.a * dy));
    assert Apply(t, RPoint(p.x + dx, p.y + dy)) == RPoint(t.a * (p.x + dx) + t.e, t.a * (p.y + dy) + t.f);
  }

  lemma Distributes(a: real, x: real, d: real)
    ensures a * (x + d) == a * x + a * d
  {
  }

  /** The transform the render effect installs: `scale` then `translate`. */
  function ViewTransform(scale: real, ox: real, oy: real): Transform {
    Translated(Scaled(Identity, scale), ox, oy)
  }

  /** Because scale is applied before translate, a diagram point `p` lands at
      `scale * (p + offset)`: the offset is measured in diagram units. */
  lemma ViewTransformMaps(scale: real, ox: real, oy: real, p: RPoint)
    ensures Apply(ViewTransform(scale, ox, oy), p) == RPoint(scale * (p.x + ox), scale * (p.y + oy))
  {
    var q := RPoint(p.x + ox, p.y + oy);
    TranslatedApply(Scaled(Identity, scale), ox, oy, p);
    ScaledApply(Identity, scale, q);
    assert Apply(Identity, RPoint(scale * q.x, scale * q.y)) == RPoint(scale * q.x, scale * q.y);
  }

  /** The diagram point under the canvas point `q`: the inverse of the view
      transform, which exists because the scale is never zero. */
  function FromScreen(scale: real, ox: real, oy: real, q: RPoint): RPoint
    requires scale != 0.0
  {
    RPoint(q.x / scale - ox, q.y / scale - oy)
  }

  /** `FromScreen` undoes the view transform in both directions. */
  lemma ScreenRoundTrip(scale: real, ox: real, oy: real, p: RPoint, q: RPoint)
    requires scale != 0.0
    ensures FromScreen(scale, ox, oy, Apply(ViewTransform(scale, ox, oy), p)) == p
    ensures Apply(ViewTransform(scale, ox, oy), FromScreen(scale, ox, oy, q)) == q
  {
    ViewTransformMaps(scale, ox, oy, p);
    var fq := FromScreen(scale, ox, oy, q);
    ViewTransformMaps(scale, ox, oy, fq);
    assert scale * (p.x + ox) / scale == p.x + ox;
    assert scale * (p.y + oy) / scale == p.y + oy;
    assert scale * (q.x / scale) == q.x;
    assert scale * (q.y / scale) == q.y;
  }

  // --------------------------------------------------------------- render

  /** What one run of the render effect leaves on the canvas: the commands in
      diagram coordinates and the transform they are drawn through. */
  datatype Frame = Frame(transform: Transform, commands: seq<DrawCommand>)

  /** The render effect for the given props and viewport. When there is no
      diagram, or it has no rungs, the component shows its placeholder
      instead of the canvas and nothing is drawn. Missing canvas sizes default
      to 800 x 600. */
  function Render(ladder: Option<LadderData>, width: Option<nat>, height: Option<nat>,
                  scale: real, ox: real, oy: real): (r: Option<Frame>)
    ensures r.Some? <==> ladder.Some? && |ladder.value.rungs| > 0
    ensures r.Some? ==> r.value.transform == ViewTransform(scale, ox, oy)
  {
    if ladder.None? || |ladder.value.rungs| == 0 then None
    else
      var w := width.GetOr(DEFAULT_WIDTH);
      var h := height.GetOr(DEFAULT_HEIGHT);
      Some(Frame(ViewTransform(scale, ox, oy), DrawGrid(w, h) + DrawLadderRungs(ladder.value.rungs)))
  }

  lemma GridHasNoRail(width: nat, height: nat, pen: Pen)
    requires pen != GridPen
    ensures WithPen(DrawGrid(width, height), pen) == []
  {
    WithPenNone(DrawGrid(width, height), pen);
  }

  /** A rendered frame starts with the grid for the canvas size (800 x 600 by
      default) and draws exactly one power rail per rung, in rung order. */
  lemma RenderedFrame(ladder: LadderData, width: Option<nat>, height: Option<nat>, scale: real, ox: real, oy: real)
    requires |ladder.rungs| > 0
    ensures var f := Render(Some(ladder), width, height, scale, ox, oy);
      var w, h := width.GetOr(DEFAULT_WIDTH), height.GetOr(DEFAULT_HEIGHT);
      f.Some?
      && f.value.commands[..|DrawGrid(w, h)|] == DrawGrid(w, h)
      && |DrawGrid(w, h)| == (w / GRID_SIZE + 1) + (h / GRID_SIZE + 1)
      && var rails := WithPen(f.value.commands, RailPen);
         |rails| == |ladder.rungs| && forall i :: 0 <= i < |rails| ==> rails[i] == RailOf(i)
  {
    var w, h := width.GetOr(DEFAULT_WIDTH), height.GetOr(DEFAULT_HEIGHT);
    GridLines(w, h);
    GridHasNoRail(w, h, RailPen);
    OneRailPerRung(ladder.rungs);
    WithPenAppend(DrawGrid(w, h), DrawLadderRungs(ladder.rungs), RailPen);
    var cmds := DrawGrid(w, h) + DrawLadderRungs(ladder.rungs);
    assert cmds[..|DrawGrid(w, h)|] == DrawGrid(w, h);
  }
}
