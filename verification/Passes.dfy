/**
 The manage and render passes: what they do to the windows, and which requests
 they send to the compositor, in order. `Compositor` is the little of the
 server's state the requests act on.
 */
module Passes {
  import opened Prelude
  import opened Desktop
  import opened Transitions
  import opened Tiling

  datatype Request =
    | Hide(id: nat) | Show(id: nat) | PlaceTop(id: nat) | SetPosition(id: nat, x: int, y: int)
    | GetNode(id: nat) | DestroyNode(id: nat) | DestroyWindow(id: nat)
    | CloseWindow(id: nat)
    | Fullscreen(id: nat, output: nat) | ExitFullscreen(id: nat)
    | InformFullscreen(id: nat) | InformNotFullscreen(id: nat)
    | SetCapabilities(id: nat) | SetDecoration(id: nat, ssd: bool) | SetTiled(id: nat, tiled: bool)
    | SetBounds(id: nat, width: nat, height: nat) | Propose(id: nat, width: nat, height: nat)
    | FocusWindow(id: nat) | ClearFocus

  /** What a window has been told last, and where its node is. */
  datatype Surface = Surface(
    position: Option<(int, int)>, size: Option<(nat, nat)>, bounds: Option<(nat, nat)>,
    output: Option<nat>, fullscreen: Option<bool>, tiled: Option<bool>, ssd: Option<bool>,
    capable: bool, closing: bool)

  const UNTOLD := Surface(None, None, None, None, None, None, None, false, false)

  /** `order` is the render list from bottom to top; `protocolError` records a repeated `get_node`;
      `focus` is the window with keyboard focus. */
  datatype Compositor = Compositor(
    nodes: set<nat>, order: seq<nat>, shown: set<nat>, protocolError: bool,
    focus: Option<nat>, surfaces: map<nat, Surface>)

  function SurfaceOf(v: Compositor, id: nat): Surface {
    if id in v.surfaces then v.surfaces[id] else UNTOLD
  }

  /** What a window knows once the request has reached it. */
  function Answer(x: Surface, q: Request): Surface {
    match q
    case SetPosition(_, px, py) => x.(position := Some((px, py)))
    case Propose(_, width, height) => x.(size := Some((width, height)))
    case SetBounds(_, width, height) => x.(bounds := Some((width, height)))
    case Fullscreen(_, output) => x.(output := Some(output))
    case ExitFullscreen(_) => x.(output := None)
    case InformFullscreen(_) => x.(fullscreen := Some(true))
    case InformNotFullscreen(_) => x.(fullscreen := Some(false))
    case SetTiled(_, tiled) => x.(tiled := Some(tiled))
    case SetDecoration(_, ssd) => x.(ssd := Some(ssd))
    case SetCapabilities(_) => x.(capable := true)
    case CloseWindow(_) => x.(closing := true)
    case DestroyWindow(_) => UNTOLD
    case _ => x
  }

  function Serve(v: Compositor, q: Request): Compositor {
    match q
    case Hide(id) => v.(shown := v.shown - {id})
    case Show(id) => v.(shown := v.shown + {id})
    case PlaceTop(id) => v.(order := Without(v.order, id) + [id])
    case GetNode(id) =>
      if id in v.nodes then v.(protocolError := true)
      else v.(nodes := v.nodes + {id}, order := v.order + [id])
    case DestroyNode(id) => v.(nodes := v.nodes - {id}, order := Without(v.order, id))
    case DestroyWindow(id) => v.(surfaces := v.surfaces - {id})
    case FocusWindow(id) => v.(focus := Some(id))
    case ClearFocus => v.(focus := None)
    case _ => v.(surfaces := v.surfaces[q.id := Answer(SurfaceOf(v, q.id), q)])
  }

  function ServeAll(v: Compositor, qs: seq<Request>): Compositor {
    if qs == [] then v else Serve(ServeAll(v, qs[..|qs| - 1]), qs[|qs| - 1])
  }

  lemma {:induction false} ServeAppend(v: Compositor, a: seq<Request>, b: seq<Request>)
    ensures ServeAll(v, a + b) == ServeAll(ServeAll(v, a), b)
  {
    if b == [] {
      assert a + b == a;
    } else {
      assert (a + b)[..|a + b| - 1] == a + b[..|b| - 1];
      ServeAppend(v, a, b[..|b| - 1]);
    }
  }

  // ----- requests produced window by window -----

  /** Concatenation of `f` over the windows, or the tiles, in order. */
  function Gather<T>(ws: seq<T>, f: T -> seq<Request>): seq<Request> {
    if ws == [] then [] else Gather(ws[..|ws| - 1], f) + f(ws[|ws| - 1])
  }

  lemma {:induction false} GatherEmpty(ws: seq<Window>, f: Window -> seq<Request>)
    ensures Gather(ws, f) == [] <==> forall k :: 0 <= k < |ws| ==> f(ws[k]) == []
  {
    if ws != [] {
      GatherEmpty(ws[..|ws| - 1], f);
    }
  }

  // ----- manage pass -----

  predicate Untagged(s: Wm, w: Window) {
    s.TagOwner(w.tag).None?
  }

  /** The compositor has already left fullscreen when the owning output went away. */
  predicate LostOutput(s: Wm, w: Window) {
    w.fullscreenApplied && Untagged(s, w) && s.outputs != []
  }

  function SyncFullscreenState(s: Wm, w: Window): Window {
    var w1 := if LostOutput(s, w) then w.(fullscreen := false, fullscreenApplied := false) else w;
    if w1.fullscreen == w1.fullscreenApplied then w1
    else if !w1.fullscreen then w1.(fullscreenApplied := false)
    else if s.WindowOutput(w).Some? && s.WindowOutput(w).value < |s.outputs| then w1.(fullscreenApplied := true)
    else w1
  }

  function SyncFullscreenRequests(s: Wm, w: Window): seq<Request> {
    var w1 := if LostOutput(s, w) then w.(fullscreen := false, fullscreenApplied := false) else w;
    if w1.fullscreen == w1.fullscreenApplied then []
    else if !w1.fullscreen then [ExitFullscreen(w.id), InformNotFullscreen(w.id)]
    else if s.WindowOutput(w).Some? && s.WindowOutput(w).value < |s.outputs|
    then [Fullscreen(w.id, s.outputs[s.WindowOutput(w).value].uid), InformFullscreen(w.id)]
    else []
  }

  function SyncWindow(s: Wm, c: Config, w: Window): Window {
    SyncFullscreenState(s, w).(capsSet := true, ssdApplied := Some(c.useSsd))
  }

  function SyncRequests(s: Wm, c: Config, w: Window): seq<Request> {
    (if LostOutput(s, w) then [InformNotFullscreen(w.id)] else [])
    + (if w.capsSet then [] else [SetCapabilities(w.id)])
    + (if w.ssdApplied == Some(c.useSsd) then [] else [SetDecoration(w.id, c.useSsd)])
    + SyncFullscreenRequests(s, w)
  }

  function IsTiled(w: Window): bool { !w.floating && !w.fullscreen }

  function TiledWindow(w: Window): Window { w.(tiledApplied := Some(IsTiled(w))) }

  function TiledRequests(w: Window): seq<Request> {
    if w.tiledApplied == Some(IsTiled(w)) then [] else [SetTiled(w.id, IsTiled(w))]
  }

  /** The size asked of a tiled window; a fullscreen one is only freed of its bounds. */
  function TileRequests(s: Wm, t: Tile): seq<Request> {
    var k := s.FindWindow(t.0);
    if t.1.width == 0 || t.1.height == 0 || k.None? then []
    else if s.windows[k.value].fullscreen then [SetBounds(t.0, 0, 0)]
    else [SetBounds(t.0, t.1.width, t.1.height), Propose(t.0, t.1.width, t.1.height)]
  }

  /** A side between the window's own minimum and maximum, where 0 means no preference. */
  function HintedSide(side: nat, min: nat, max: nat): nat {
    var wanted := if min > 0 then Max(side, min) else side;
    if max > 0 then Min(wanted, max) else wanted
  }

  function FloatRequests(w: Window): seq<Request> {
    if w.floating && w.floatW > 0 && w.floatH > 0
    then [Propose(w.id, HintedSide(w.floatW, w.minW, w.maxW), HintedSide(w.floatH, w.minH, w.maxH))] else []
  }

  function TileSizes(s: Wm, c: Config): seq<Request> {
    Gather(AllTiles(s, c), t => TileRequests(s, t))
  }

  function SizeRequests(s: Wm, c: Config): seq<Request> {
    TileSizes(s, c) + Gather(s.windows, FloatRequests)
  }

  function RefocusAll(s: Wm): Wm {
    RefocusUpTo(s, |s.outputs|)
  }

  function Synced(s: Wm, c: Config): Wm {
    s.(windows := Map(s.windows, w => SyncWindow(s, c, w)))
  }

  function Informed(s: Wm): Wm {
    s.(windows := Map(s.windows, TiledWindow))
  }

  function ManageState(s: Wm, c: Config): Wm {
    Informed(Synced(RefocusAll(s), c))
  }

  /** Where keyboard focus goes: the focused window of the active output, if it exists. */
  function FocusTarget(s: Wm): Option<nat>
    requires s.focused.Some? ==> s.focused.value < |s.outputs|
  {
    var o := s.ActiveOutput();
    if o.None? then None
    else
      var f := s.outputs[o.value].focusedWindow;
      if f.Some? && s.FindWindow(f.value).Some? then f else None
  }

  function FocusRequest(s: Wm): Request
    requires s.focused.Some? ==> s.focused.value < |s.outputs|
  {
    if FocusTarget(s).Some? then FocusWindow(FocusTarget(s).value) else ClearFocus
  }

  function CloseRequests(s: Wm, close: seq<nat>): seq<Request> {
    if close == [] then []
    else CloseRequests(s, close[..|close| - 1])
         + (if s.FindWindow(close[|close| - 1]).Some? then [CloseWindow(close[|close| - 1])] else [])
  }

  /** The requests sent only when something changed since they were last sent. */
  function ChangeRequests(s: Wm, c: Config): seq<Request> {
    Gather(s.windows, w => SyncRequests(s, c, w)) + Gather(Synced(s, c).windows, TiledRequests)
  }

  function ManageRequests(s: Wm, c: Config, close: seq<nat>): seq<Request>
    requires s.focused.Some? ==> s.focused.value < |s.outputs|
  {
    var r := RefocusAll(s);
    RefocusAllFrame(s, |s.outputs|);
    Gather(r.windows, (w: Window) => [Hide(w.id)]) + CloseRequests(r, close)
    + Gather(r.windows, w => SyncRequests(r, c, w)) + [FocusRequest(Synced(r, c))]
    + SizeRequests(Synced(r, c), c) + Gather(Synced(r, c).windows, TiledRequests)
  }

  lemma {:induction false} RefocusAllFrame(s: Wm, k: nat)
    requires k <= |s.outputs|
    ensures var r := RefocusUpTo(s, k);
      && r.windows == s.windows && r.tags == s.tags && r.focused == s.focused && r.nextId == s.nextId
      && r.resizeMode == s.resizeMode && |r.outputs| == |s.outputs|
    ensures forall i :: 0 <= i < |s.outputs| ==>
              RefocusUpTo(s, k).outputs[i] == s.outputs[i].(focusedWindow := RefocusUpTo(s, k).outputs[i].focusedWindow)
    ensures forall i :: k <= i < |s.outputs| ==> RefocusUpTo(s, k).outputs[i] == s.outputs[i]
  {
    if k > 0 {
      RefocusAllFrame(s, k - 1);
    }
  }

  // ----- render pass -----

  datatype Placement = Hidden | Full | At(geom: Area)

  function FloatBox(w: Window): Area { Area(w.floatX, w.floatY, w.floatW, w.floatH) }

  function PlacementOf(s: Wm, c: Config, w: Window): Placement {
    if w.minimized || !s.IsVisible(w) then Hidden
    else if w.fullscreen then Full
    else
      var g := GeometryOf(s, c, w.id);
      if g.Some? then At(g.value) else At(FloatBox(w))
  }

  predicate InGroup(s: Wm, c: Config, w: Window, group: nat) {
    var hidden := PlacementOf(s, c, w).Hidden?;
    if group == 0 then hidden else !hidden && w.floating == (group == 2)
  }

  /** Windows in placement order: hidden, then tiled, then floating, each in state order. */
  function PlacementOrder(s: Wm, c: Config): seq<Window> {
    Filter(s.windows, w => InGroup(s, c, w, 0)) + Filter(s.windows, w => InGroup(s, c, w, 1))
    + Filter(s.windows, w => InGroup(s, c, w, 2))
  }

  function Placements(s: Wm, c: Config): seq<(nat, Placement)> {
    Map(PlacementOrder(s, c), (w: Window) => (w.id, PlacementOf(s, c, w)))
  }

  function ReleaseRequests(s: Wm): seq<Request> {
    Gather(s.windows, (w: Window) => if !ActiveSomewhere(s, w.tag) && w.node then [DestroyNode(w.id)] else [])
  }

  function WithNodes(s: Wm): Wm {
    s.(windows := Map(s.windows, (w: Window) => if s.IsVisible(w) then w.(node := true) else w))
  }

  function GetNodeRequests(s: Wm): seq<Request> {
    Gather(s.windows, (w: Window) => if !w.node && s.IsVisible(w) then [GetNode(w.id)] else [])
  }

  function PlaceWindow(s: Wm, c: Config, w: Window): seq<Request> {
    match PlacementOf(s, c, w)
    case Hidden => [Hide(w.id)]
    case Full => (if w.node then [SetPosition(w.id, 0, 0), PlaceTop(w.id)] else []) + [Show(w.id)]
    case At(g) => (if w.node then [SetPosition(w.id, g.x, g.y), PlaceTop(w.id)] else []) + [Show(w.id)]
  }

  function PlaceRequests(s: Wm, c: Config): seq<Request> {
    Gather(PlacementOrder(s, c), w => PlaceWindow(s, c, w))
  }

  function RenderState(s: Wm): Wm {
    ReleaseHiddenNodes(WithNodes(ReleaseHiddenNodes(s)))
  }

  function RenderRequests(s: Wm, c: Config): seq<Request> {
    var s1 := ReleaseHiddenNodes(s);
    var s2 := WithNodes(s1);
    ReleaseRequests(s) + GetNodeRequests(s1) + ReleaseRequests(s2) + PlaceRequests(RenderState(s), c)
  }
}
