/**
 Interactive move and resize: an operation is staged by an event, started and
 ended in a manage pass, and applies cumulative pointer deltas in between.
 */
module Drag {
  import opened Prelude
  import opened Desktop

  const MIN_SIZE: nat := 50

  datatype Kind = Move | Resize

  datatype Edges = Edges(left: bool, top: bool, right: bool, bottom: bool)

  datatype Op = Op(
    window: nat, kind: Kind, startX: int, startY: int,
    floatX: int, floatY: int, width: nat, height: nat, edges: Edges, seat: nat)

  datatype Seat = Seat(id: nat, pointerX: int, pointerY: int, over: Option<nat>)

  datatype Drags = Drags(windows: seq<Window>, seats: seq<Seat>, active: Option<Op>, pending: Option<Op>, ending: bool)

  /** An operation on `w` for `seat`, anchored at the pointer and the window's float box. */
  function Anchor(w: Window, seat: nat, x: int, y: int, kind: Kind, edges: Edges): Op {
    Op(w.id, kind, x, y, w.floatX, w.floatY, w.floatW, w.floatH, edges, seat)
  }

  const CORNER := Edges(false, false, true, true)
  const NO_EDGES := Edges(false, false, false, false)

  /** A pointer binding acts on the floating window under the first pointer that is over one. */
  function Press(d: Drags, move: bool): Drags {
    var s := Position(d.seats, (z: Seat) => z.over.Some?);
    if s.None? then d
    else
      var z := d.seats[s.value];
      var k := FindById(d.windows, z.over.value);
      if k.None? || !d.windows[k.value].floating then d
      else
        d.(pending := Some(Anchor(d.windows[k.value], z.id, z.pointerX, z.pointerY,
                                  if move then Move else Resize, if move then NO_EDGES else CORNER)))
  }

  /** A window asks to be dragged; `tile` is its tile, if it has one. */
  function Interactive(d: Drags, id: nat, seat: nat, kind: Kind, edges: Edges, tile: Option<Area>): Drags {
    var k := FindById(d.windows, id);
    if k.None? then d
    else
      var w := FloatAt(d.windows[k.value], tile);
      var s := Position(d.seats, (z: Seat) => z.id == seat);
      var (x, y) := if s.Some? then (d.seats[s.value].pointerX, d.seats[s.value].pointerY) else (0, 0);
      d.(windows := d.windows[k.value := w], pending := Some(Anchor(w, seat, x, y, kind, edges)))
  }

  /** One axis of a resize: where the window starts and how long it is. */
  function ResizeAxis(start: int, size: nat, moved: int, leading: bool): (int, nat) {
    var wanted := if leading then size - moved else size + moved;
    (if leading then start + moved else start, Max(wanted, MIN_SIZE))
  }

  /** The float box after the pointer has moved `(dx, dy)` in all; a move keeps the present size. */
  function DragBox(op: Op, width: nat, height: nat, dx: int, dy: int): Area {
    var ex, ey := dx - op.startX, dy - op.startY;
    match op.kind
    case Move => Area(op.floatX + ex, op.floatY + ey, width, height)
    case Resize =>
      var (x, w) := ResizeAxis(op.floatX, op.width, ex, op.edges.left);
      var (y, h) := ResizeAxis(op.floatY, op.height, ey, op.edges.top);
      Area(x, y, w, h)
  }

  function Placed(w: Window, box: Area): Window {
    w.(floatX := box.x, floatY := box.y, floatW := box.width, floatH := box.height)
  }

  function Dragged(w: Window, op: Op, dx: int, dy: int): Window {
    Placed(w, DragBox(op, w.floatW, w.floatH, dx, dy))
  }

  function DragWindows(ws: seq<Window>, op: Op, dx: int, dy: int): seq<Window> {
    var k := FindById(ws, op.window);
    if k.None? then ws else ws[k.value := Dragged(ws[k.value], op, dx, dy)]
  }

  function Delta(d: Drags, dx: int, dy: int): Drags {
    if d.active.None? then d else d.(windows := DragWindows(d.windows, d.active.value, dx, dy))
  }

  function End(d: Drags): Drags {
    if d.active.Some? || d.pending.Some? then d.(ending := true) else d
  }

  /** Change the seat with the id, if there is one. */
  function UpdateSeat(d: Drags, seat: nat, f: Seat -> Seat): Drags {
    var s := Position(d.seats, (z: Seat) => z.id == seat);
    if s.None? then d else d.(seats := d.seats[s.value := f(d.seats[s.value])])
  }

  function SeatAdded(d: Drags, seat: nat): Drags {
    d.(seats := d.seats + [Seat(seat, 0, 0, None)])
  }

  /** The pointer enters a window; one the window manager does not know is ignored. */
  function PointerIn(d: Drags, seat: nat, window: nat): Drags {
    if FindById(d.windows, window).None? then d else UpdateSeat(d, seat, (z: Seat) => z.(over := Some(window)))
  }

  function PointerOut(d: Drags, seat: nat): Drags { UpdateSeat(d, seat, (z: Seat) => z.(over := None)) }

  function PointerTo(d: Drags, seat: nat, x: int, y: int): Drags {
    UpdateSeat(d, seat, (z: Seat) => z.(pointerX := x, pointerY := y))
  }

  predicate DrivenBy(op: Option<Op>, seat: nat) { op.Some? && op.value.seat == seat }

  function SeatGone(d: Drags, seat: nat): Drags {
    d.(seats := Filter(d.seats, (z: Seat) => z.id != seat),
       ending := d.ending && !DrivenBy(d.active, seat),
       active := if DrivenBy(d.active, seat) then None else d.active,
       pending := if DrivenBy(d.pending, seat) then None else d.pending)
  }

  /** The operation under way once a staged one has been started. */
  function Started(d: Drags): Option<Op> { if d.pending.Some? then d.pending else d.active }

  function Pass(d: Drags): Drags {
    d.(pending := None, ending := false, active := if d.ending then None else Started(d))
  }

  /** Requests to the compositor: a seat starts or ends its operation. */
  datatype Request = StartOp(seat: nat) | EndOp(seat: nat)

  function PassRequests(d: Drags): seq<Request> {
    (if d.pending.Some? then [StartOp(d.pending.value.seat)] else [])
    + (if d.ending && Started(d).Some? then [EndOp(Started(d).value.seat)] else [])
  }

  /** The seats the compositor has an operation in progress on. A start is ignored when one is in
      progress, an end when none is. */
  function Serve(busy: set<nat>, q: Request): set<nat> {
    match q
    case StartOp(z) => busy + {z}
    case EndOp(z) => busy - {z}
  }

  function ServeAll(busy: set<nat>, qs: seq<Request>): set<nat> {
    if qs == [] then busy else Serve(ServeAll(busy, qs[..|qs| - 1]), qs[|qs| - 1])
  }

  // ----- the state as an object -----

  class PointerOps {
    var windows: seq<Window>
    var seats: seq<Seat>
    var pointerOp: Option<Op>
    var pendingOp: Option<Op>
    var opEndRequested: bool

    ghost function State(): Drags
      reads this
    {
      Drags(windows, seats, pointerOp, pendingOp, opEndRequested)
    }

    constructor (windows: seq<Window>, seats: seq<Seat>)
      ensures State() == Drags(windows, seats, None, None, false)
    {
      this.windows, this.seats := windows, seats;
      pointerOp, pendingOp, opEndRequested := None, None, false;
    }

    method StartPointerOp(move: bool)
      modifies this`pendingOp
      ensures State() == Press(old(State()), move)
    {
      var s := Position(seats, (z: Seat) => z.over.Some?);
      if s.None? { return; }
      var z := seats[s.value];
      var k := FindById(windows, z.over.value);
      if k.None? || !windows[k.value].floating { return; }
      pendingOp := Some(Anchor(windows[k.value], z.id, z.pointerX, z.pointerY,
                               if move then Move else Resize, if move then NO_EDGES else CORNER));
    }

    method StartInteractiveOp(id: nat, seat: nat, kind: Kind, edges: Edges, tile: Option<Area>)
      modifies this`windows, this`pendingOp
      ensures State() == Interactive(old(State()), id, seat, kind, edges, tile)
    {
      var k := FindById(windows, id);
      if k.None? { return; }
      var w := windows[k.value];
      if !w.floating {
        if tile.Some? {
          w := w.(floatX := tile.value.x, floatY := tile.value.y,
                  floatW := tile.value.width, floatH := tile.value.height);
        }
        w := w.(floating := true);
      }
      assert w == FloatAt(windows[k.value], tile);
      windows := windows[k.value := w];
      hide FloatAt;
      var s := Position(seats, (z: Seat) => z.id == seat);
      var x, y := 0, 0;
      if s.Some? { x, y := seats[s.value].pointerX, seats[s.value].pointerY; }
      pendingOp := Some(Anchor(w, seat, x, y, kind, edges));
    }

    method ApplyPointerDelta(dx: int, dy: int)
      modifies this`windows
      ensures State() == Delta(old(State()), dx, dy)
    {
      if pointerOp.None? { return; }
      var op := pointerOp.value;
      var k := FindById(windows, op.window);
      if k.None? { return; }
      var w := windows[k.value];
      match op.kind {
        case Move =>
          w := w.(floatX := op.floatX + (dx - op.startX), floatY := op.floatY + (dy - op.startY));
        case Resize =>
          var ex, ey := dx - op.startX, dy - op.startY;
          var x, y: int := op.floatX, op.floatY;
          var width, height: int := op.width, op.height;
          if op.edges.left { x, width := x + ex, width - ex; } else { width := width + ex; }
          if op.edges.top { y, height := y + ey, height - ey; } else { height := height + ey; }
          w := w.(floatX := x, floatY := y, floatW := Max(width, MIN_SIZE), floatH := Max(height, MIN_SIZE));
      }
      windows := windows[k.value := w];
    }

    method EndPointerOp()
      modifies this`opEndRequested
      ensures State() == End(old(State()))
    {
      if pointerOp.Some? || pendingOp.Some? { opEndRequested := true; }
    }

    method AddSeat(seat: nat)
      modifies this`seats
      ensures State() == SeatAdded(old(State()), seat)
    {
      seats := seats + [Seat(seat, 0, 0, None)];
    }

    method PointerEnter(seat: nat, window: nat)
      modifies this`seats
      ensures State() == PointerIn(old(State()), seat, window)
    {
      if FindById(windows, window).None? { return; }
      var s := Position(seats, (z: Seat) => z.id == seat);
      if s.Some? { seats := seats[s.value := seats[s.value].(over := Some(window))]; }
    }

    method PointerLeave(seat: nat)
      modifies this`seats
      ensures State() == PointerOut(old(State()), seat)
    {
      var s := Position(seats, (z: Seat) => z.id == seat);
      if s.Some? { seats := seats[s.value := seats[s.value].(over := None)]; }
    }

    method PointerPosition(seat: nat, x: int, y: int)
      modifies this`seats
      ensures State() == PointerTo(old(State()), seat, x, y)
    {
      var s := Position(seats, (z: Seat) => z.id == seat);
      if s.Some? { seats := seats[s.value := seats[s.value].(pointerX := x, pointerY := y)]; }
    }

    method RemoveSeat(seat: nat)
      modifies this
      ensures State() == SeatGone(old(State()), seat)
    {
      if pointerOp.Some? && pointerOp.value.seat == seat { pointerOp, opEndRequested := None, false; }
      if pendingOp.Some? && pendingOp.value.seat == seat { pendingOp := None; }
      seats := Filter(seats, (z: Seat) => z.id != seat);
    }

    method ProcessPointerOps() returns (requests: seq<Request>)
      modifies this`pointerOp, this`pendingOp, this`opEndRequested
      ensures State() == Pass(old(State())) && requests == PassRequests(old(State()))
    {
      requests := [];
      if pendingOp.Some? {
        requests := [StartOp(pendingOp.value.seat)];
        pointerOp, pendingOp := pendingOp, None;
      }
      if opEndRequested {
        opEndRequested := false;
        if pointerOp.Some? {
          requests := requests + [EndOp(pointerOp.value.seat)];
          pointerOp := None;
        }
      }
    }
  }

  // ----- deltas -----

  /** Only the last delta of a drag matters. */
  function DragAll(ws: seq<Window>, op: Op, moves: seq<(int, int)>): seq<Window> {
    if moves == [] then ws
    else DragWindows(DragAll(ws, op, moves[..|moves| - 1]), op, moves[|moves| - 1].0, moves[|moves| - 1].1)
  }

  lemma DragKeepsIds(ws: seq<Window>, op: Op, dx: int, dy: int)
    ensures var r := DragWindows(ws, op, dx, dy);
      FindById(r, op.window) == FindById(ws, op.window) && |r| == |ws|
  {
    var r, p := DragWindows(ws, op, dx, dy), (w: Window) => w.id == op.window;
    assert forall k :: 0 <= k < |ws| ==> r[k].id == ws[k].id;
    var a, b := Position(ws, p), Position(r, p);
    assert a.Some? ==> p(r[a.value]);
    assert b.Some? ==> p(ws[b.value]);
    PositionCongruent(ws, p, (w: Window) => w.id == op.window);
    PositionCongruent(r, p, (w: Window) => w.id == op.window);
  }

  lemma PlacedTwice(w: Window, a: Area, b: Area)
    ensures Placed(Placed(w, a), b) == Placed(w, b)
    ensures Placed(w, a).floatW == a.width && Placed(w, a).floatH == a.height
  {
  }

  lemma DraggedTwice(w: Window, op: Op, a: (int, int), b: (int, int))
    ensures Dragged(Dragged(w, op, a.0, a.1), op, b.0, b.1) == Dragged(w, op, b.0, b.1)
  {
    hide Placed;
    PlacedTwice(w, DragBox(op, w.floatW, w.floatH, a.0, a.1), DragBox(op, w.floatW, w.floatH, b.0, b.1));
  }

  lemma TwoDeltas(ws: seq<Window>, op: Op, a: (int, int), b: (int, int))
    ensures DragWindows(DragWindows(ws, op, a.0, a.1), op, b.0, b.1) == DragWindows(ws, op, b.0, b.1)
  {
    DragKeepsIds(ws, op, a.0, a.1);
    hide Dragged, FindById;
    var k := FindById(ws, op.window);
    if k.Some? {
      DraggedTwice(ws[k.value], op, a, b);
    }
  }

  lemma {:induction false} LastDeltaOnly(ws: seq<Window>, op: Op, moves: seq<(int, int)>)
    requires moves != []
    ensures DragAll(ws, op, moves) == DragWindows(ws, op, moves[|moves| - 1].0, moves[|moves| - 1].1)
  {
    var front := moves[..|moves| - 1];
    if front != [] {
      LastDeltaOnly(ws, op, front);
      TwoDeltas(ws, op, front[|front| - 1], moves[|moves| - 1]);
    } else {
      assert DragAll(ws, op, front) == ws;
    }
  }

  /** What a resize does along one axis, for a pointer `moved` from the anchor: a leading (left or top) edge follows the
      pointer and moves the start, any other resize leaves the start alone and moves the end. The opposite edge of
      a leading one, and the end otherwise, is where the anchor had it plus what was moved, exactly while
      the minimal size is not hit; then the length is the minimal size. */
  ghost predicate EdgeDragged(start: int, size: nat, start0: int, size0: nat, moved: int, leading: bool) {
    && size >= MIN_SIZE
    && start == (if leading then start0 + moved else start0)
    && (start + size == start0 + size0 + (if leading then 0 else moved)
        <==> size0 + (if leading then -moved else moved) >= MIN_SIZE)
    && (size0 + (if leading then -moved else moved) <= MIN_SIZE ==> size == MIN_SIZE)
  }

  /** Each axis of a resized window follows the pointer by its own edge; nothing but its box changes. */
  lemma OppositeEdgeFixed(w: Window, op: Op, dx: int, dy: int)
    requires op.kind.Resize?
    ensures var r := Dragged(w, op, dx, dy);
      && r == w.(floatX := r.floatX, floatY := r.floatY, floatW := r.floatW, floatH := r.floatH)
      && EdgeDragged(r.floatX, r.floatW, op.floatX, op.width, dx - op.startX, op.edges.left)
      && EdgeDragged(r.floatY, r.floatH, op.floatY, op.height, dy - op.startY, op.edges.top)
  {
  }

  /** A drag whose pointer is back at its anchor leaves the window in the box it was anchored with, unless that was
      below the minimal size. */
  lemma BackAtAnchor(w: Window, seat: nat, x: int, y: int, kind: Kind, edges: Edges)
    requires kind.Resize? ==> w.floatW >= MIN_SIZE && w.floatH >= MIN_SIZE
    ensures Dragged(w, Anchor(w, seat, x, y, kind, edges), x, y) == w
  {
  }

  /** The seat a pointer binding acts for: the first whose pointer is over a window. */
  ghost predicate PressedOn(d: Drags, z: nat) {
    z < |d.seats| && d.seats[z].over.Some? && forall j :: 0 <= j < z ==> d.seats[j].over.None?
  }

  /** Pressing a pointer binding over a floating window stages a move, or a resize by the bottom right corner, anchored
      at that pointer and at the window's box. Over a tiled or unknown window, or none, nothing changes. */
  lemma PressEffect(d: Drags, move: bool)
    ensures var r := Press(d, move);
      && r == d.(pending := r.pending)
      && (forall z: nat, k :: PressedOn(d, z) && FindById(d.windows, d.seats[z].over.value) == Some(k) ==>
            if !d.windows[k].floating then r == d
            else r.pending.Some? && AnchoredAt(r.pending.value, d.windows[k], d.seats[z].id,
                d.seats[z].pointerX, d.seats[z].pointerY, if move then Move else Resize,
                !move, !move, false, false))
      && (forall z: nat :: PressedOn(d, z) && FindById(d.windows, d.seats[z].over.value).None? ==> r == d)
      && ((forall z: nat :: !PressedOn(d, z)) ==> r == d)
  {
    var s := Position(d.seats, (z: Seat) => z.over.Some?);
    if s.Some? { assert PressedOn(d, s.value); }
    assert forall z: nat :: PressedOn(d, z) ==> s == Some(z);
  }

  /** The operation is on this window for this seat, anchored at the point and at the window's box. */
  ghost predicate AnchoredAt(op: Op, w: Window, seat: nat, x: int, y: int, kind: Kind,
      right: bool, bottom: bool, left: bool, top: bool)
  {
    && op.window == w.id && op.seat == seat && op.kind == kind
    && op.startX == x && op.startY == y
    && op.floatX == w.floatX && op.floatY == w.floatY && op.width == w.floatW && op.height == w.floatH
    && op.edges.right == right && op.edges.bottom == bottom && op.edges.left == left && op.edges.top == top
  }

  /** A window that asks to be dragged floats, in the place of its tile if it was tiled and had one, and an operation is
      staged for the asking seat, anchored at its pointer and at the box the window then has. */
  lemma InteractiveEffect(d: Drags, id: nat, seat: nat, kind: Kind, edges: Edges, tile: Option<Area>)
    ensures var r := Interactive(d, id, seat, kind, edges, tile);
      && r == d.(windows := r.windows, pending := r.pending)
      && (FindById(d.windows, id).None? ==> r == d)
      && (forall k :: FindById(d.windows, id) == Some(k) ==>
            && |r.windows| == |d.windows| && r.windows == d.windows[k := r.windows[k]]
            && var w, w2 := d.windows[k], r.windows[k];
            && w2 == w.(floating := true, floatX := w2.floatX, floatY := w2.floatY, floatW := w2.floatW,
                        floatH := w2.floatH)
            && (if w.floating || tile.None? then w2 == w.(floating := true)
                else w2.floatX == tile.value.x && w2.floatY == tile.value.y
                     && w2.floatW == tile.value.width && w2.floatH == tile.value.height)
            && r.pending.Some?
            && AnchoredAt(r.pending.value, w2, seat, r.pending.value.startX, r.pending.value.startY, kind,
                          edges.right, edges.bottom, edges.left, edges.top)
            && (forall z :: 0 <= z < |d.seats| && d.seats[z].id == seat
                            && (forall j :: 0 <= j < z ==> d.seats[j].id != seat) ==>
                  r.pending.value.startX == d.seats[z].pointerX && r.pending.value.startY == d.seats[z].pointerY)
            && ((forall z :: 0 <= z < |d.seats| ==> d.seats[z].id != seat) ==>
                  r.pending.value.startX == 0 && r.pending.value.startY == 0))
  {
    var s := Position(d.seats, (z: Seat) => z.id == seat);
    if s.Some? { assert d.seats[s.value].id == seat; }
  }

  /** A delta changes the dragged window's box and no other window; without an operation, or once its window is gone,
      nothing changes. */
  lemma DeltaEffect(d: Drags, dx: int, dy: int)
    ensures var r := Delta(d, dx, dy);
      && r == d.(windows := r.windows)
      && (d.active.None? || FindById(d.windows, d.active.value.window).None? ==> r == d)
      && (forall k :: d.active.Some? && FindById(d.windows, d.active.value.window) == Some(k) ==>
            r.windows == d.windows[k := Dragged(d.windows[k], d.active.value, dx, dy)])
  {
  }

  /** The first seat with the id becomes what `f` makes of it; without one nothing changes. */
  ghost predicate OnlySeat(d: Drags, r: Drags, seat: nat, f: Seat -> Seat) {
    && (forall z :: 0 <= z < |d.seats| && d.seats[z].id == seat && (forall j :: 0 <= j < z ==> d.seats[j].id != seat)
          ==> r == d.(seats := d.seats[z := f(d.seats[z])]))
    && ((forall z :: 0 <= z < |d.seats| ==> d.seats[z].id != seat) ==> r == d)
  }

  /** A seat's pointer reports its place, and the window it enters or leaves; a window that is not known is not
      entered. */
  lemma SeatReports(d: Drags, seat: nat, x: int, y: int, window: nat)
    ensures OnlySeat(d, PointerTo(d, seat, x, y), seat, (z: Seat) => z.(pointerX := x, pointerY := y))
    ensures OnlySeat(d, PointerOut(d, seat), seat, (z: Seat) => z.(over := None))
    ensures (exists k :: 0 <= k < |d.windows| && d.windows[k].id == window) ==>
              OnlySeat(d, PointerIn(d, seat, window), seat, (z: Seat) => z.(over := Some(window)))
    ensures (forall k :: 0 <= k < |d.windows| ==> d.windows[k].id != window) ==> PointerIn(d, seat, window) == d
  {
  }

  /** A seat that goes takes its operation along, active or staged, and the request to end it; other seats, their
      operations and the windows stay. */
  lemma SeatGoneEffect(d: Drags, seat: nat) returns (at: seq<nat>)
    ensures var r := SeatGone(d, seat);
      && KeptAt(d.seats, (z: Seat) => z.id != seat, r.seats, at) && r.windows == d.windows
      && (r.active == if d.active.Some? && d.active.value.seat == seat then None else d.active)
      && (r.pending == if d.pending.Some? && d.pending.value.seat == seat then None else d.pending)
      && (r.ending <==> d.ending && !(d.active.Some? && d.active.value.seat == seat))
  {
    var p := (z: Seat) => z.id != seat;
    at := FilterKeepsOrder(d.seats, p);
    FilterCongruent(d.seats, p, (z: Seat) => z.id != seat);
  }

  /** Releasing the pointer ends the operation in the next manage pass, even one that was only staged, and the
      compositor is told on that operation's seat; a pass alone ends nothing. */
  lemma ReleaseEnds(d: Drags)
    ensures var r := Pass(End(d));
      && r.active.None? && r.pending.None? && !r.ending && r.windows == d.windows && r.seats == d.seats
    ensures !d.ending ==> Pass(d).active == if d.pending.Some? then d.pending else d.active
    ensures d.pending.Some? ==> PassRequests(End(d)) == [StartOp(d.pending.value.seat), EndOp(d.pending.value.seat)]
    ensures d.pending.None? && d.active.Some? ==> PassRequests(End(d)) == [EndOp(d.active.value.seat)]
    ensures d.pending.None? && d.active.None? ==> PassRequests(End(d)) == []
  {
  }

  /** A move displaces the window by the delta exactly when the operation was anchored with the pointer at
      the origin: the anchor is subtracted although the delta already counts from it. */
  lemma MovesByDelta(w: Window, op: Op, dx: int, dy: int)
    requires op.kind.Move?
    ensures var r := Dragged(w, op, dx, dy);
      && (r.floatX == op.floatX + dx && r.floatY == op.floatY + dy <==> op.startX == 0 && op.startY == 0)
      && r.floatW == w.floatW && r.floatH == w.floatH
  {
  }

  // ----- starts and ends match -----

  /** `Elsewhere` is whatever other handlers make of the windows: opening, closing, tiling, clamping. */
  datatype Event =
    | Pressed(move: bool) | Asked(id: nat, seat: nat, kind: Kind, edges: Edges, tile: Option<Area>)
    | Moved(dx: int, dy: int) | Released | Manage
    | Arrived(seat: nat) | Gone(seat: nat)
    | Entered(seat: nat, window: nat) | Left(seat: nat) | PointerAt(seat: nat, x: int, y: int)
    | Elsewhere(windows: seq<Window>)

  function Next(d: Drags, e: Event): Drags {
    match e
    case Pressed(move) => Press(d, move)
    case Asked(id, seat, kind, edges, tile) => Interactive(d, id, seat, kind, edges, tile)
    case Moved(dx, dy) => Delta(d, dx, dy)
    case Released => End(d)
    case Manage => Pass(d)
    case Arrived(seat) => SeatAdded(d, seat)
    case Gone(seat) => SeatGone(d, seat)
    case Entered(seat, window) => PointerIn(d, seat, window)
    case Left(seat) => PointerOut(d, seat)
    case PointerAt(seat, x, y) => PointerTo(d, seat, x, y)
    case Elsewhere(windows) => d.(windows := windows)
  }

  /** What the compositor has in progress after the event; a seat that goes takes its operation along. */
  function NextBusy(d: Drags, busy: set<nat>, e: Event): set<nat> {
    match e
    case Manage => ServeAll(busy, PassRequests(d))
    case Gone(seat) => busy - {seat}
    case _ => busy
  }

  function After(d: Drags, es: seq<Event>): Drags {
    if es == [] then d else Next(After(d, es[..|es| - 1]), es[|es| - 1])
  }

  function BusyAfter(d: Drags, busy: set<nat>, es: seq<Event>): set<nat> {
    if es == [] then busy
    else NextBusy(After(d, es[..|es| - 1]), BusyAfter(d, busy, es[..|es| - 1]), es[|es| - 1])
  }

  /** The compositor has exactly the active operation in progress. */
  predicate Matched(d: Drags, busy: set<nat>) {
    busy == if d.active.Some? then {d.active.value.seat} else {}
  }

  /** A pass keeps both sides in step exactly when it does not start an operation for one seat
      over an active one of another. */
  lemma PassMatches(d: Drags, busy: set<nat>)
    requires Matched(d, busy)
    ensures Pass(d).pending.None? && !Pass(d).ending
    ensures Matched(Pass(d), ServeAll(busy, PassRequests(d)))
      <==> !(d.active.Some? && d.pending.Some? && d.pending.value.seat != d.active.value.seat)
  {
    Served(d, busy);
    var r := ServeAll(busy, PassRequests(d));
    if d.active.Some? && d.pending.Some? && d.pending.value.seat != d.active.value.seat {
      assert d.active.value.seat in r;
    }
  }

  lemma ServeOne(busy: set<nat>, a: Request)
    ensures ServeAll(busy, [a]) == Serve(busy, a)
  {
    assert [a][..0] == [];
  }

  lemma ServeTwo(busy: set<nat>, a: Request, b: Request)
    ensures ServeAll(busy, [a] + [b]) == Serve(Serve(busy, a), b)
  {
    ServeOne(busy, a);
    assert ([a] + [b])[..1] == [a];
  }

  lemma Served(d: Drags, busy: set<nat>)
    ensures ServeAll(busy, PassRequests(d)) ==
      (busy + (if d.pending.Some? then {d.pending.value.seat} else {}))
      - (if d.ending && Started(d).Some? then {Started(d).value.seat} else {})
  {
    if d.pending.Some? {
      var a, b := StartOp(d.pending.value.seat), EndOp(d.pending.value.seat);
      ServeOne(busy, a);
      ServeTwo(busy, a, b);
      hide ServeAll;
      if d.ending { assert PassRequests(d) == [a] + [b]; } else { assert PassRequests(d) == [a]; }
    } else if d.ending && d.active.Some? {
      var b := EndOp(d.active.value.seat);
      ServeOne(busy, b);
      hide ServeAll;
      assert PassRequests(d) == [b];
    }
  }

  /** Every operation and every pointer belongs to the one seat `z`. */
  predicate OneSeat(d: Drags, z: nat) {
    && (forall k :: 0 <= k < |d.seats| ==> d.seats[k].id == z)
    && (d.active.Some? ==> d.active.value.seat == z)
    && (d.pending.Some? ==> d.pending.value.seat == z)
  }

  lemma NextMatches(d: Drags, busy: set<nat>, e: Event, z: nat)
    requires OneSeat(d, z) && Matched(d, busy) && (e.Asked? || e.Arrived? ==> e.seat == z)
    ensures OneSeat(Next(d, e), z) && Matched(Next(d, e), NextBusy(d, busy, e))
  {
    match e
    case Manage => PassMatches(d, busy);
    case Gone(seat) =>
      if seat == z { assert DrivenBy(d.active, seat) <==> d.active.Some?; }
    case _ => {}
  }

  /** With no seat but `z` ever arriving or being asked for, whatever else happens, the compositor's operation
      in progress is the active one, and after each manage pass nothing is left pending. */
  lemma {:induction false} StartsMatchEnds(d: Drags, es: seq<Event>, z: nat)
    requires OneSeat(d, z) && d.active.None?
    requires forall k :: 0 <= k < |es| && (es[k].Asked? || es[k].Arrived?) ==> es[k].seat == z
    ensures OneSeat(After(d, es), z) && Matched(After(d, es), BusyAfter(d, {}, es))
    ensures es != [] && es[|es| - 1].Manage? ==> After(d, es).pending.None? && !After(d, es).ending
  {
    if es != [] {
      StartsMatchEnds(d, es[..|es| - 1], z);
      NextMatches(After(d, es[..|es| - 1]), BusyAfter(d, {}, es[..|es| - 1]), es[|es| - 1], z);
    }
  }

  // ----- several seats -----

  /** No event of `es` stages an operation for seat `a` or removes that seat. */
  predicate LeftAlone(d: Drags, es: seq<Event>, a: nat) {
    es == [] || (&& LeftAlone(d, es[..|es| - 1], a)
                 && es[|es| - 1] != Gone(a) && !DrivenBy(After(d, es).pending, a))
  }

  /** An operation in progress on a seat that is neither active nor staged any more is never ended, until its
      seat goes or has another operation staged. */
  lemma {:induction false} NeverEnded(d: Drags, busy: set<nat>, es: seq<Event>, a: nat)
    requires a in busy && !DrivenBy(d.active, a) && !DrivenBy(d.pending, a) && LeftAlone(d, es, a)
    ensures a in BusyAfter(d, busy, es) && !DrivenBy(After(d, es).active, a) && !DrivenBy(After(d, es).pending, a)
  {
    if es != [] {
      var front := es[..|es| - 1];
      NeverEnded(d, busy, front, a);
      StaysBusy(After(d, front), BusyAfter(d, busy, front), es[|es| - 1], a);
    }
  }

  lemma StaysBusy(d: Drags, busy: set<nat>, e: Event, a: nat)
    requires a in busy && !DrivenBy(d.active, a) && !DrivenBy(d.pending, a) && e != Gone(a)
    ensures a in NextBusy(d, busy, e) && !DrivenBy(Next(d, e).active, a)
  {
    Served(d, busy);
    hide ServeAll, PassRequests;
  }

  lemma AfterSnoc(d: Drags, busy: set<nat>, es: seq<Event>, e: Event)
    ensures After(d, es + [e]) == Next(After(d, es), e)
    ensures BusyAfter(d, busy, es + [e]) == NextBusy(After(d, es), BusyAfter(d, busy, es), e)
  {
    assert (es + [e])[..|es|] == es;
  }

  /** One floating window and the seats 0 and 1. */
  function TwoSeats(): Drags {
    Drags([NewWindow(1, 0).(floating := true)], [Seat(0, 0, 0, None), Seat(1, 0, 0, None)], None, None, false)
  }

  /** Two seats asking for the same window, one after the other: the first operation is still in progress on
      the compositor when only the second is active, and nothing is left to end it. */
  lemma OrphanedOperation()
    ensures Matched(TwoSeats(), {})
    ensures var es := [Asked(1, 0, Move, NO_EDGES, None), Manage, Asked(1, 1, Move, NO_EDGES, None), Manage];
      var d, busy := After(TwoSeats(), es), BusyAfter(TwoSeats(), {}, es);
      && !Matched(d, busy) && 0 in busy && d.active.Some? && d.active.value.seat == 1 && d.pending.None?
  {
    var d0 := TwoSeats();
    var a, b := Asked(1, 0, Move, NO_EDGES, None), Asked(1, 1, Move, NO_EDGES, None);
    AfterSnoc(d0, {}, [], a);
    AfterSnoc(d0, {}, [] + [a], Manage);
    AfterSnoc(d0, {}, [] + [a] + [Manage], b);
    AfterSnoc(d0, {}, [] + [a] + [Manage] + [b], Manage);
    assert [] + [a] + [Manage] + [b] + [Manage] == [a, Manage, b, Manage];
    var d1 := Next(d0, a);
    assert d1.active.None? && DrivenBy(d1.pending, 0) && !d1.ending && FindById(d1.windows, 1) == Some(0);
    Served(d1, {});
    var d2 := Pass(d1);
    var d3 := Next(d2, b);
    assert DrivenBy(d3.active, 0) && DrivenBy(d3.pending, 1) && !d3.ending;
    Served(d3, {0});
    hide ServeAll, PassRequests, After, BusyAfter, Interactive;
  }

  /** A drag that starts away from the origin: dragged five pixels right and down, the window jumps five
      pixels left and up. */
  lemma DragJumps()
    ensures var es := [PointerAt(0, 10, 10), Entered(0, 1), Pressed(true), Manage, Moved(5, 5)];
      var d0, d := TwoSeats(), After(TwoSeats(), es);
      && |d0.windows| == |d.windows| == 1
      && d0.windows[0].floatX == d0.windows[0].floatY == 0 && d.windows[0].floatX == d.windows[0].floatY == -5
  {
    var d0 := TwoSeats();
    var es: seq<Event> := [];
    AfterSnoc(d0, {}, es, PointerAt(0, 10, 10));
    es := es + [PointerAt(0, 10, 10)];
    AfterSnoc(d0, {}, es, Entered(0, 1));
    es := es + [Entered(0, 1)];
    AfterSnoc(d0, {}, es, Pressed(true));
    es := es + [Pressed(true)];
    AfterSnoc(d0, {}, es, Manage);
    es := es + [Manage];
    AfterSnoc(d0, {}, es, Moved(5, 5));
    var d1 := PointerTo(d0, 0, 10, 10);
    assert d1.seats[0] == Seat(0, 10, 10, None);
    var d2 := PointerIn(d1, 0, 1);
    assert d2.seats[0] == Seat(0, 10, 10, Some(1)) && d2.windows == d0.windows;
    var d3 := Press(d2, true);
    assert d3.pending == Some(Anchor(d0.windows[0], 0, 10, 10, Move, NO_EDGES));
    var d4 := Pass(d3);
    assert d4.active == d3.pending && d4.windows == d0.windows;
    hide After, Press, PointerIn, PointerTo, Pass;
    es := es + [Moved(5, 5)];
    assert es == [PointerAt(0, 10, 10), Entered(0, 1), Pressed(true), Manage, Moved(5, 5)];
  }
}
