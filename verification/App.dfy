/**
 The application object: it owns the shared state and turns every event and
 every pass of the compositor into updates of that state and requests sent back.
 */
module App {
  import opened Prelude
  import opened Desktop
  import opened Transitions
  import opened Tiling
  import opened Passes
  import PassProofs
  import PlacementProofs
  import CommandProofs
  import EffectProofs
  import opened Invariant
  import opened Events
  import Refinement
  import Runs
  import opened StateClass

  lemma GatherStep<T>(ws: seq<T>, k: nat, f: T -> seq<Request>)
    requires k < |ws|
    ensures Gather(ws[..k + 1], f) == Gather(ws[..k], f) + f(ws[k])
  {
    assert ws[..k + 1][..k] == ws[..k];
  }

  lemma GatherStart<T>(ws: seq<T>, f: T -> seq<Request>)
    ensures Gather(ws[..0], f) == [] && ws[..|ws|] == ws
  {
  }

  lemma NextKeeps(s: Wm, e: Event, c: Config)
    requires Inv(s)
    ensures Inv(Next(s, e, c))
  {
    hide *;
    Refinement.NextRefines(s, e, c);
  }

  lemma ManageFacts(s: Wm, close: seq<nat>, c: Config)
    requires Inv(s)
    ensures Inv(Next(s, ManagePass(close), c)) && WellFormed(s)
    ensures Next(s, ManagePass(close), c) == Informed(Synced(RefocusAll(s), c))
    ensures var r := Synced(RefocusAll(s), c); r.focused.Some? ==> r.focused.value < |r.outputs|
  {
    NextKeeps(s, ManagePass(close), c);
    RefocusAllFrame(s, |s.outputs|);
  }

  /** The sync requests for the first `k` windows. */
  ghost function SyncSoFar(s: Wm, c: Config, k: nat): seq<Request>
    requires k <= |s.windows|
  {
    Gather(s.windows[..k], w => SyncRequests(s, c, w))
  }

  lemma SyncOneMore(s: Wm, c: Config, k: nat)
    requires k < |s.windows|
    ensures SyncSoFar(s, c, k + 1) == SyncSoFar(s, c, k) + SyncRequests(s, c, s.windows[k])
  {
    assert s.windows[..k + 1][..k] == s.windows[..k];
    hide SyncRequests;
  }

  lemma SyncedWindows(s: Wm, c: Config)
    ensures var r := Synced(s, c);
      && |r.windows| == |s.windows| && r == s.(windows := r.windows)
      && forall j :: 0 <= j < |s.windows| ==> r.windows[j] == SyncWindow(s, c, s.windows[j])
    ensures SyncSoFar(s, c, 0) == []
    ensures SyncSoFar(s, c, |s.windows|) == Gather(s.windows, w => SyncRequests(s, c, w))
  {
    assert s.windows[..|s.windows|] == s.windows;
    hide SyncRequests, SyncWindow;
  }

  lemma InteractedFacts(s: Wm, id: nat, c: Config)
    requires Inv(s)
    ensures WellFormed(s) && Inv(Next(s, Event.Interacted(id), c))
    ensures Next(s, Event.Interacted(id), c)
         == Events.FocusWindowOnOutput(UpdateWindow(s, id, (w: Window) => w.(minimized := false)), id)
  {
    NextKeeps(s, Event.Interacted(id), c);
    hide Events.FocusWindowOnOutput, UpdateWindow;
  }

  lemma FocusAskedFacts(s: Wm, app: string, called: Option<string>, c: Config)
    requires Inv(s)
    ensures WellFormed(s) && Inv(Next(s, Event.FocusWindowAsked(app, called), c))
    ensures Next(s, Event.FocusWindowAsked(app, called), c) == OnFocusWindow(s, app, called)
  {
    NextKeeps(s, Event.FocusWindowAsked(app, called), c);
    hide OnFocusWindow;
  }

  lemma CloseFacts(s: Wm, id: nat, c: Config)
    requires Inv(s)
    ensures WellFormed(s) && Inv(OnWindowClosed(s, id)) && Next(s, Event.WindowClosed(id), c) == OnWindowClosed(s, id)
    ensures var k := s.FindWindow(id);
      Runs.Requests(s, Event.WindowClosed(id), c) ==
        if k.None? then [] else (if s.windows[k.value].node then [DestroyNode(id)] else []) + [DestroyWindow(id)]
  {
    NextKeeps(s, Event.WindowClosed(id), c);
    hide OnWindowClosed, Inv;
  }

  /** The get requests for the first `k` windows. */
  ghost function GetSoFar(s: Wm, k: nat): seq<Request>
    requires k <= |s.windows|
  {
    Gather(s.windows[..k], (w: Window) => if !w.node && s.IsVisible(w) then [GetNode(w.id)] else [])
  }

  lemma GetOne(s: Wm, k: nat)
    requires k < |s.windows|
    ensures var w := s.windows[k];
      GetSoFar(s, k + 1) == GetSoFar(s, k) + if !w.node && s.IsVisible(w) then [GetNode(w.id)] else []
  {
    assert s.windows[..k + 1][..k] == s.windows[..k];
    hide s.IsVisible;
  }

  lemma NodedWindows(s: Wm)
    ensures var r := WithNodes(s);
      && |r.windows| == |s.windows| && r == s.(windows := r.windows)
      && forall j :: 0 <= j < |s.windows| ==>
           r.windows[j] == if s.IsVisible(s.windows[j]) then s.windows[j].(node := true) else s.windows[j]
    ensures GetSoFar(s, 0) == [] && GetSoFar(s, |s.windows|) == GetNodeRequests(s)
  {
    assert s.windows[..|s.windows|] == s.windows;
    hide s.IsVisible;
  }

  class App {
    const state: State
    const config: Config
    var pendingClose: seq<nat>

    function Model(): Wm
      reads state
    {
      state.Model()
    }

    ghost predicate Valid()
      reads state
    {
      Inv(state.Model())
    }

    constructor (config: Config, masterFraction: real)
      requires 0.1 <= masterFraction <= 0.9
      ensures Valid() && fresh(state) && pendingClose == [] && this.config == config
      ensures Model() == InitWm(masterFraction)
    {
      var st := new State(masterFraction);
      state, this.config, pendingClose := st, config, [];
      new;
      InitInv(masterFraction);
    }

    // ----- manage pass -----

    method RefocusOutputs()
      modifies state`outputs
      ensures Model() == RefocusAll(old(Model()))
    {
      ghost var s := Model();
      PassProofs.RefocusUpToStep(s, 0);
      hide Refocus, RefocusUpTo;
      for i := 0 to |state.outputs|
        invariant |state.outputs| == |s.outputs| && Model() == RefocusUpTo(s, i)
      {
        state.RefocusOutput(i);
        PassProofs.RefocusUpToStep(s, i + 1);
      }
    }

    method HideWindows() returns (requests: seq<Request>)
      ensures requests == Gather(state.windows, (w: Window) => [Hide(w.id)])
    {
      ghost var hiding := (w: Window) => [Hide(w.id)];
      GatherStart(state.windows, hiding);
      hide Gather;
      requests := [];
      for k := 0 to |state.windows|
        invariant requests == Gather(state.windows[..k], hiding)
      {
        requests := requests + [Hide(state.windows[k].id)];
        GatherStep(state.windows, k, hiding);
      }
    }

    method CloseWindows(close: seq<nat>) returns (requests: seq<Request>)
      ensures requests == CloseRequests(Model(), close)
    {
      requests := [];
      for k := 0 to |close|
        invariant requests == CloseRequests(Model(), close[..k])
      {
        assert close[..k + 1][..k] == close[..k];
        if Model().FindWindow(close[k]).Some? { requests := requests + [CloseWindow(close[k])]; }
      }
      assert close[..|close|] == close;
    }

    /** Bring one window's fullscreen state up to date. */
    method ApplyFullscreen(s: Wm, w: Window, target: Option<nat>) returns (r: Window, requests: seq<Request>)
      requires target == s.WindowOutput(w)
      ensures r == SyncFullscreenState(s, w) && requests == SyncFullscreenRequests(s, w)
    {
      r, requests := w, [];
      if LostOutput(s, w) {
        r := r.(fullscreen := false, fullscreenApplied := false);
      } else if w.fullscreen && !w.fullscreenApplied {
        if target.Some? && target.value < |s.outputs| {
          requests := [Fullscreen(w.id, s.outputs[target.value].uid), InformFullscreen(w.id)];
          r := r.(fullscreenApplied := true);
        }
      } else if !w.fullscreen && w.fullscreenApplied {
        requests := [ExitFullscreen(w.id), InformNotFullscreen(w.id)];
        r := r.(fullscreenApplied := false);
      }
    }

    /** Bring one window's decoration and fullscreen state up to date. */
    method SyncOne(s: Wm, w: Window, target: Option<nat>, untagged: bool) returns (r: Window, requests: seq<Request>)
      requires target == s.WindowOutput(w) && untagged == Untagged(s, w)
      ensures r == SyncWindow(s, config, w) && requests == SyncRequests(s, config, w)
    {
      hide SyncFullscreenState, SyncFullscreenRequests;
      requests := [];
      if w.fullscreenApplied && untagged && s.outputs != [] { requests := requests + [InformNotFullscreen(w.id)]; }
      if !w.capsSet { requests := requests + [SetCapabilities(w.id)]; }
      if w.ssdApplied != Some(config.useSsd) { requests := requests + [SetDecoration(w.id, config.useSsd)]; }
      var synced, more := ApplyFullscreen(s, w, target);
      requests := requests + more;
      r := synced.(capsSet := true, ssdApplied := Some(config.useSsd));
    }

    method SyncWindows() returns (requests: seq<Request>)
      modifies state`windows
      ensures Model() == Synced(old(Model()), config)
      ensures requests == Gather(old(state.windows), w => SyncRequests(old(Model()), config, w))
    {
      var s := Model();
      hide SyncSoFar, Gather, SyncRequests, SyncWindow, Synced, Untagged, s.WindowOutput, s.TagOwner;
      var targets := Map(state.windows, (w: Window) => (s.WindowOutput(w), Untagged(s, w)));
      SyncedWindows(s, config);
      ghost var r := Synced(s, config);
      requests := [];
      for k := 0 to |state.windows|
        modifies state`windows
        invariant |state.windows| == |s.windows| == |r.windows|
        invariant forall j :: 0 <= j < k ==> state.windows[j] == r.windows[j]
        invariant forall j :: k <= j < |s.windows| ==> state.windows[j] == s.windows[j]
        invariant requests == SyncSoFar(s, config, k)
      {
        var w, more := SyncOne(s, state.windows[k], targets[k].0, targets[k].1);
        SyncOneMore(s, config, k);
        state.windows := state.windows[k := w];
        requests := requests + more;
      }
    }

    method RouteFocus() returns (request: Request)
      requires Model().focused.Some? ==> Model().focused.value < |Model().outputs|
      ensures request == FocusRequest(Model())
    {
      var o := Model().ActiveOutput();
      request := ClearFocus;
      if o.Some? {
        var f := state.outputs[o.value].focusedWindow;
        if f.Some? && Model().FindWindow(f.value).Some? { request := FocusWindow(f.value); }
      }
    }

    method InformOne(w: Window) returns (r: Window, requests: seq<Request>)
      ensures r == TiledWindow(w) && requests == TiledRequests(w)
    {
      var tiled := !w.floating && !w.fullscreen;
      r, requests := w, [];
      if w.tiledApplied != Some(tiled) {
        requests := [SetTiled(w.id, tiled)];
        r := w.(tiledApplied := Some(tiled));
      }
    }

    method InformTiled() returns (requests: seq<Request>)
      modifies state`windows
      ensures Model() == Informed(old(Model()))
      ensures requests == Gather(old(state.windows), TiledRequests)
    {
      ghost var before := state.windows;
      GatherStart(before, TiledRequests);
      hide Gather, TiledWindow, TiledRequests;
      requests := [];
      for k := 0 to |state.windows|
        invariant |state.windows| == |before|
        invariant forall j :: 0 <= j < k ==> state.windows[j] == TiledWindow(before[j])
        invariant forall j :: k <= j < |before| ==> state.windows[j] == before[j]
        invariant requests == Gather(before[..k], TiledRequests)
      {
        var w, more := InformOne(state.windows[k]);
        state.windows := state.windows[k := w];
        requests := requests + more;
        GatherStep(before, k, TiledRequests);
      }
    }

    /** Ask tiled windows for the size of their tile. */
    method ProposeTiles(tiles: seq<Tile>) returns (requests: seq<Request>)
      requires tiles == AllTiles(Model(), config)
      ensures requests == TileSizes(Model(), config)
    {
      var s := Model();
      ghost var propose := t => TileRequests(s, t);
      GatherStart(tiles, propose);
      assert TileSizes(s, config) == Gather(tiles, propose);
      hide Gather, AllTiles, TileSizes;
      requests := [];
      for k := 0 to |tiles|
        invariant requests == Gather(tiles[..k], propose)
      {
        GatherStep(tiles, k, propose);
        var (id, a) := tiles[k];
        if a.width == 0 || a.height == 0 { continue; }
        var found := s.FindWindow(id);
        if found.None? { continue; }
        if state.windows[found.value].fullscreen {
          requests := requests + [SetBounds(id, 0, 0)];
          continue;
        }
        requests := requests + [SetBounds(id, a.width, a.height), Propose(id, a.width, a.height)];
      }
    }

    /** Ask floating windows for the size of their box, within their own limits. */
    method ProposeFloats() returns (requests: seq<Request>)
      ensures requests == Gather(state.windows, FloatRequests)
    {
      GatherStart(state.windows, FloatRequests);
      hide Gather;
      requests := [];
      for k := 0 to |state.windows|
        invariant requests == Gather(state.windows[..k], FloatRequests)
      {
        GatherStep(state.windows, k, FloatRequests);
        var w := state.windows[k];
        if w.floating && w.floatW > 0 && w.floatH > 0 {
          requests := requests + [Propose(w.id, HintedSide(w.floatW, w.minW, w.maxW),
                                          HintedSide(w.floatH, w.minH, w.maxH))];
        }
      }
    }

    method OnManageStart() returns (requests: seq<Request>)
      requires Valid()
      modifies state`outputs, state`windows, this`pendingClose
      ensures Valid() && pendingClose == []
      ensures Model() == Next(old(Model()), ManagePass(old(pendingClose)), config)
      ensures requests == ManageRequests(old(Model()), config, old(pendingClose))
    {
      ghost var s := Model();
      ManageFacts(s, pendingClose, config);
      hide Next, Inv, PassProofs.FocusInRange, WellFormed, Informed, RefocusUpTo, Gather, CloseRequests, FocusRequest,
          SyncRequests, SyncWindow, TiledRequests, TileSizes, FloatRequests, AllTiles;
      RefocusOutputs();
      var hidden := HideWindows();
      var close := pendingClose;
      pendingClose := [];
      var closed := CloseWindows(close);
      var synced := SyncWindows();
      var focus := RouteFocus();
      var tiles := ComputeAll(Model(), config);
      var sized := ProposeTiles(tiles);
      var floats := ProposeFloats();
      var tiled := InformTiled();
      requests := hidden + closed + synced + [focus] + (sized + floats) + tiled;
    }

    // ----- render pass -----

    method EnsureNode(w: Window) returns (r: Window, requests: seq<Request>)
      ensures r == w.(node := true) && requests == if w.node then [] else [GetNode(w.id)]
    {
      r, requests := w, [];
      if !w.node { r, requests := w.(node := true), [GetNode(w.id)]; }
    }

    /** Ask for a node for every visible window that has none. */
    method GetNodes() returns (requests: seq<Request>)
      modifies state`windows
      ensures Model() == WithNodes(old(Model()))
      ensures requests == GetNodeRequests(old(Model()))
    {
      var s := Model();
      hide GetNodeRequests, GetSoFar, s.IsVisible, WithNodes;
      var visible := Map(state.windows, (w: Window) => s.IsVisible(w));
      ghost var r := WithNodes(s);
      NodedWindows(s);
      requests := [];
      for k := 0 to |state.windows|
        modifies state`windows
        invariant |state.windows| == |s.windows| == |r.windows|
        invariant forall j :: 0 <= j < k ==> state.windows[j] == r.windows[j]
        invariant forall j :: k <= j < |s.windows| ==> state.windows[j] == s.windows[j]
        invariant requests == GetSoFar(s, k)
      {
        var w := state.windows[k];
        GetOne(s, k);
        if visible[k] {
          var w2, more := EnsureNode(w);
          state.windows := state.windows[k := w2];
          requests := requests + more;
        }
      }
    }

    /** Hide a window, or position, raise and show it. */
    method PlaceOne(s: Wm, w: Window, placement: Placement) returns (requests: seq<Request>)
      requires placement == PlacementOf(s, config, w)
      ensures requests == PlaceWindow(s, config, w)
    {
      hide PlacementOf;
      if placement.Hidden? { return [Hide(w.id)]; }
      requests := [];
      if w.node {
        var (x, y) := if placement.Full? then (0, 0) else (placement.geom.x, placement.geom.y);
        requests := [SetPosition(w.id, x, y), PlaceTop(w.id)];
      }
      requests := requests + [Show(w.id)];
    }

    /** Replay the placements onto the compositor. */
    method PlaceAll() returns (requests: seq<Request>)
      requires DistinctIds(Model())
      ensures requests == PlaceRequests(Model(), config)
    {
      var s := Model();
      var order := PlacementProofs.ComputePlacements(s, config);
      ghost var ws, place := PlacementOrder(s, config), w => PlaceWindow(s, config, w);
      GatherStart(ws, place);
      hide Gather, PlaceWindow, PlacementOf, PlacementOrder;
      requests := [];
      for k := 0 to |order|
        invariant requests == Gather(ws[..k], place)
      {
        var (id, placement) := order[k];
        FoundByPlacement(s, config, k);
        var found := s.FindWindow(id);
        if found.Some? {
          var more := PlaceOne(s, state.windows[found.value], placement);
          requests := requests + more;
        }
        GatherStep(ws, k, place);
      }
    }

    method OnRenderStart() returns (requests: seq<Request>)
      requires Valid()
      modifies state`windows
      ensures Valid()
      ensures Model() == Next(old(Model()), RenderPass, config)
      ensures requests == RenderRequests(old(Model()), config)
    {
      ghost var s := Model();
      NextKeeps(s, RenderPass, config);
      assert Next(s, RenderPass, config) == RenderState(s);
      assert DistinctIds(RenderState(s));
      hide Next, Inv, DistinctIds, Transitions.ReleaseHiddenNodes, WithNodes, ReleaseRequests, GetNodeRequests,
          PlaceRequests;
      var released := state.ReleaseHiddenNodes();
      var got := GetNodes();
      var again := state.ReleaseHiddenNodes();
      var placed := PlaceAll();
      requests := released + got + again + placed;
    }

    // ----- outputs -----

    method OutputAdded(uid: nat)
      requires Valid()
      requires Model().FindOutput(uid).None?
      modifies state
      ensures Valid() && Model() == Next(old(Model()), Event.OutputAdded(uid), config)
    {
      NextKeeps(Model(), Event.OutputAdded(uid), config);
      assert state.TagsFit();
      hide Inv, WellFormed, OnOutputAdded;
      PlugOutput(uid);
    }

    method PlugOutput(uid: nat)
      requires state.TagsFit()
      modifies state
      ensures Model() == OnOutputAdded(old(Model()), uid)
    {
      state.outputs := state.outputs + [NewOutput(uid)];
      var i := |state.outputs| - 1;
      hide AssignInitialTag;
      state.AssignInitialTag(i);
      if state.focusedOutput.None? { state.focusedOutput := Some(i); }
    }

    method OutputMoved(uid: nat, x: int, y: int)
      requires Valid()
      modifies state
      ensures Valid() && Model() == Next(old(Model()), Event.OutputMoved(uid, x, y), config)
    {
      NextKeeps(Model(), Event.OutputMoved(uid, x, y), config);
      var i := Model().FindOutput(uid);
      if i.Some? {
        state.outputs := state.outputs[i.value := state.outputs[i.value].(x := x, y := y)];
        state.RepairOutputs();
      }
    }

    method OutputResized(uid: nat, width: nat, height: nat)
      requires Valid()
      modifies state
      ensures Valid() && Model() == Next(old(Model()), Event.OutputResized(uid, width, height), config)
    {
      NextKeeps(Model(), Event.OutputResized(uid, width, height), config);
      var i := Model().FindOutput(uid);
      if i.Some? {
        state.outputs := state.outputs[i.value := state.outputs[i.value].(width := width, height := height)];
        state.RepairOutputs();
      }
    }

    method UsableAreaChanged(uid: nat, x: int, y: int, width: nat, height: nat)
      requires Valid()
      modifies state
      ensures Valid() && Model() == Next(old(Model()), UsableArea(uid, x, y, width, height), config)
    {
      NextKeeps(Model(), UsableArea(uid, x, y, width, height), config);
      var i := Model().FindOutput(uid);
      if i.Some? {
        var o := state.outputs[i.value];
        state.outputs := state.outputs[i.value := o.(usableX := x, usableY := y, usableW := width, usableH := height)];
        state.RepairOutputs();
      }
    }

    method OutputNamed(uid: nat, name: string)
      requires Valid()
      modifies state`outputs
      ensures Valid() && Model() == Next(old(Model()), Event.OutputNamed(uid, name), config)
    {
      NextKeeps(Model(), Event.OutputNamed(uid, name), config);
      var i := Model().FindOutput(uid);
      if i.Some? { state.outputs := state.outputs[i.value := state.outputs[i.value].(name := Some(name))]; }
    }

    method OutputRemoved(uid: nat)
      requires Valid()
      modifies state
      ensures Valid() && Model() == Next(old(Model()), Event.OutputRemoved(uid), config)
    {
      NextKeeps(Model(), Event.OutputRemoved(uid), config);
      var i := Model().FindOutput(uid);
      if i.Some? { state.RemoveOutput(i.value); }
    }

    // ----- windows -----

    method WindowAdded()
      requires Valid()
      modifies state
      ensures Valid() && Model() == Next(old(Model()), Event.WindowAdded, config)
    {
      NextKeeps(Model(), Event.WindowAdded, config);
      var active := Model().ActiveOutput();
      var i := if active.Some? then active.value else 0;
      var tag := if i < |state.outputs| then state.outputs[i].activeTag else 0;
      var id := state.nextWindowId;
      state.windows := state.windows + [NewWindow(id, tag)];
      state.nextWindowId := id + 1;
      if i < |state.outputs| {
        state.outputs := state.outputs[i := state.outputs[i].(focusedWindow := Some(id))];
      }
    }

    method WindowClosed(id: nat) returns (requests: seq<Request>)
      requires Valid()
      modifies state`windows
      ensures Valid() && Model() == Next(old(Model()), Event.WindowClosed(id), config)
      ensures forall k :: 0 <= k < |old(state.windows)| && old(state.windows)[k].id == id ==>
                state.windows == old(state.windows)[..k] + old(state.windows)[k + 1..]
      ensures requests == Runs.Requests(old(Model()), Event.WindowClosed(id), config)
    {
      ghost var s := Model();
      CloseFacts(s, id, config);
      ghost var at := EffectProofs.CloseEffect(s, id);
      hide Next, Inv, WellFormed, Filter, Runs.Requests;
      requests := [];
      var k := Model().FindWindow(id);
      if k.None? {
        FilterAll(state.windows, (w: Window) => w.id != id);
        return;
      }
      if state.windows[k.value].node { requests := [DestroyNode(id)]; }
      requests := requests + [DestroyWindow(id)];
      state.windows := Filter(state.windows, (w: Window) => w.id != id);
    }

    method WindowTitled(id: nat, title: Option<string>)
      requires Valid()
      modifies state`windows
      ensures Valid() && Model() == Next(old(Model()), Event.WindowTitled(id, title), config)
    {
      NextKeeps(Model(), Event.WindowTitled(id, title), config);
      var k := Model().FindWindow(id);
      if k.Some? { state.windows := state.windows[k.value := state.windows[k.value].(title := title)]; }
    }

    method SizeHinted(id: nat, minW: nat, minH: nat, maxW: nat, maxH: nat)
      requires Valid()
      modifies state`windows
      ensures Valid() && Model() == Next(old(Model()), Event.SizeHinted(id, minW, minH, maxW, maxH), config)
    {
      NextKeeps(Model(), Event.SizeHinted(id, minW, minH, maxW, maxH), config);
      var k := Model().FindWindow(id);
      if k.Some? {
        var w := state.windows[k.value];
        state.windows := state.windows[k.value := w.(minW := minW, minH := minH, maxW := maxW, maxH := maxH)];
      }
    }

    method FullscreenAsked(id: nat, on: bool)
      requires Valid()
      modifies state`windows
      ensures Valid() && Model() == Next(old(Model()), Event.FullscreenAsked(id, on), config)
    {
      NextKeeps(Model(), Event.FullscreenAsked(id, on), config);
      var k := Model().FindWindow(id);
      if k.Some? { state.windows := state.windows[k.value := state.windows[k.value].(fullscreen := on)]; }
    }

    method MinimizeAsked(id: nat)
      requires Valid()
      modifies state`windows
      ensures Valid() && Model() == Next(old(Model()), Event.MinimizeAsked(id), config)
    {
      NextKeeps(Model(), Event.MinimizeAsked(id), config);
      var k := Model().FindWindow(id);
      if k.Some? { state.windows := state.windows[k.value := state.windows[k.value].(minimized := true)]; }
    }

    method AppIdSet(id: nat, appId: Option<string>, floats: bool)
      requires Valid()
      modifies state`windows
      ensures Valid() && Model() == Next(old(Model()), Event.AppIdSet(id, appId, floats), config)
    {
      NextKeeps(Model(), Event.AppIdSet(id, appId, floats), config);
      var k := Model().FindWindow(id);
      if k.None? { return; }
      var w := state.windows[k.value];
      if floats && !w.floating {
        var o := Model().WindowOutput(w);
        if o.Some? && o.value < |state.outputs| {
          var a := OutputArea(state.outputs[o.value]);
          var fw, fh := FitSide(w.floatW, a.width, w.minW, w.maxW), FitSide(w.floatH, a.height, w.minH, w.maxH);
          var (x, y) := PlaceOver(fw, fh, a, a);
          w := w.(floatW := fw, floatH := fh, floatX := x, floatY := y);
        }
        w := w.(floating := true);
      }
      state.windows := state.windows[k.value := w.(appId := appId)];
    }

    // ----- commands and key bindings -----

    method FocusTagAsked(tag: nat, output: Option<string>)
      requires Valid()
      modifies state
      ensures Valid() && Model() == Next(old(Model()), Event.FocusTagAsked(tag, output), config)
    {
      NextKeeps(Model(), Event.FocusTagAsked(tag, output), config);
      var o := if output.Some? then Model().FindOutputByName(output.value) else Model().ActiveOutput();
      if o.Some? && tag < |state.tags| && o.value < |state.outputs| { state.FocusTag(o.value, tag); }
    }

    method SendToTagAsked(tag: nat)
      requires Valid()
      modifies state
      ensures Valid() && Model() == Next(old(Model()), Event.SendToTagAsked(tag), config)
    {
      NextKeeps(Model(), Event.SendToTagAsked(tag), config);
      var o := Model().ActiveOutput();
      if o.Some? { state.SendFocusedToTag(o.value, tag); }
    }

    method FocusOutputAsked(name: string)
      requires Valid()
      modifies state`focusedOutput
      ensures Valid() && Model() == Next(old(Model()), Event.FocusOutputAsked(name), config)
    {
      NextKeeps(Model(), Event.FocusOutputAsked(name), config);
      var o := Model().FindOutputByName(name);
      if o.Some? { state.focusedOutput := o; }
    }

    method FocusWindowAsked(app: string, called: Option<string>)
      requires Valid()
      modifies state
      ensures Valid() && Model() == Next(old(Model()), Event.FocusWindowAsked(app, called), config)
    {
      FocusAskedFacts(Model(), app, called, config);
      hide Next, Inv, WellFormed, Transitions.SwitchActiveTag;
      var k := Position(state.windows, (w: Window) => w.appId == Some(app) && (called.None? || w.title == called));
      if k.None? { return; }
      var w := state.windows[k.value];
      var o := Model().TagOwner(w.tag);
      if o.Some? && o.value < |state.outputs| {
        state.focusedOutput := o;
        state.SwitchActiveTag(o.value, w.tag);
        state.outputs := state.outputs[o.value := state.outputs[o.value].(focusedWindow := Some(w.id))];
      }
    }

    method CycleWindow(forward: bool)
      requires Valid()
      modifies state`outputs
      ensures Valid() && Model() == Next(old(Model()), Event.CycleWindow(forward), config)
    {
      NextKeeps(Model(), Event.CycleWindow(forward), config);
      var s := Model();
      var o := s.ActiveOutput();
      if o.None? { return; }
      var ids := Map(Filter(state.windows, (w: Window) => s.ShownBy(o.value, w)), (w: Window) => w.id);
      if ids != [] {
        var focused := state.outputs[o.value].focusedWindow;
        var at := Position(ids, (id: nat) => focused == Some(id));
        var next := ids[Rotate(if at.Some? then at.value else 0, |ids|, forward)];
        state.outputs := state.outputs[o.value := state.outputs[o.value].(focusedWindow := Some(next))];
      }
    }

    method CycleOutput(forward: bool)
      requires Valid()
      modifies state`focusedOutput
      ensures Valid() && Model() == Next(old(Model()), Event.CycleOutput(forward), config)
    {
      NextKeeps(Model(), Event.CycleOutput(forward), config);
      var n := |state.outputs|;
      if n > 1 {
        var current := 0;
        if state.focusedOutput.Some? { current := state.focusedOutput.value; }
        state.focusedOutput := Some(Rotate(current, n, forward));
      }
    }

    method ToggleFullscreen()
      requires Valid()
      modifies state`windows
      ensures Valid() && Model() == Next(old(Model()), Event.ToggleFullscreen, config)
    {
      NextKeeps(Model(), Event.ToggleFullscreen, config);
      var active := ActiveWindow(Model());
      if active.None? { return; }
      var k := Model().FindWindow(active.value);
      if k.Some? {
        var w := state.windows[k.value];
        state.windows := state.windows[k.value := w.(fullscreen := !w.fullscreen)];
      }
    }

    method ToggleFloat()
      requires Valid()
      modifies state`windows
      ensures Valid() && Model() == Next(old(Model()), Event.ToggleFloat, config)
    {
      NextKeeps(Model(), Event.ToggleFloat, config);
      var active := ActiveWindow(Model());
      if active.None? { return; }
      var tile := GeometryOf(Model(), config, active.value);
      var k := Model().FindWindow(active.value);
      if k.None? { return; }
      var w := state.windows[k.value];
      if w.floating {
        w := w.(floating := false);
      } else {
        if tile.Some? {
          w := w.(floatX := tile.value.x, floatY := tile.value.y,
                  floatW := tile.value.width, floatH := tile.value.height);
        }
        w := w.(floating := true);
      }
      state.windows := state.windows[k.value := w];
    }

    method ToggleResizeMode()
      requires Valid()
      modifies state`resizeMode
      ensures Valid() && Model() == Next(old(Model()), Event.ToggleResizeMode, config)
    {
      NextKeeps(Model(), Event.ToggleResizeMode, config);
      state.resizeMode := !state.resizeMode;
    }

    method LeaveResizeMode()
      requires Valid()
      modifies state`resizeMode
      ensures Valid() && Model() == Next(old(Model()), Event.LeaveResizeMode, config)
    {
      NextKeeps(Model(), Event.LeaveResizeMode, config);
      state.resizeMode := false;
    }

    method ResizeStep(right: bool)
      requires Valid()
      modifies state`tags, state`windows
      ensures Valid() && Model() == Next(old(Model()), Event.ResizeStep(right), config)
    {
      NextKeeps(Model(), Event.ResizeStep(right), config);
      var o := Model().ActiveOutput();
      if state.resizeMode && o.Some? {
        var tag := state.outputs[o.value].activeTag;
        var fraction := state.tags[tag].masterFraction + if right then config.resizeStep else -config.resizeStep;
        state.tags := state.tags[tag := state.tags[tag].(masterFraction := ClampFraction(fraction))];
        state.ClearFullscreenOnTag(tag);
      }
    }

    /** Queue the focused window for closing in the next manage pass. */
    method CloseFocused()
      requires Valid()
      modifies this`pendingClose
      ensures var active := ActiveWindow(Model());
        pendingClose == old(pendingClose) + if active.Some? then [active.value] else []
    {
      var active := ActiveWindow(Model());
      if active.Some? { pendingClose := pendingClose + [active.value]; }
    }

    // ----- pointer -----

    method FocusWindowOnOutput(id: nat)
      modifies state
      ensures Model() == Events.FocusWindowOnOutput(old(Model()), id)
    {
      var k := Model().FindWindow(id);
      if k.None? { return; }
      var tag := state.windows[k.value].tag;
      var o := Model().TagOwner(tag);
      if o.None? || o.value >= |state.outputs| { return; }
      var i := o.value;
      if state.focusedOutput == o && state.outputs[i].activeTag == tag && state.outputs[i].focusedWindow == Some(id) {
        return;
      }
      state.focusedOutput := o;
      state.outputs := state.outputs[i := state.outputs[i].(focusedWindow := Some(id))];
      state.SwitchActiveTag(i, tag);
    }

    method PointerEntered(id: nat)
      requires Valid()
      modifies state
      ensures Valid() && Model() == Next(old(Model()), Event.PointerEntered(id), config)
    {
      ghost var s := Model();
      NextKeeps(s, Event.PointerEntered(id), config);
      assert Next(s, Event.PointerEntered(id), config)
          == if config.focusFollowsMouse then Events.FocusWindowOnOutput(s, id) else s;
      hide Next, Inv, Events.FocusWindowOnOutput;
      if config.focusFollowsMouse { FocusWindowOnOutput(id); }
    }

    method Interacted(id: nat)
      requires Valid()
      modifies state
      ensures Valid() && Model() == Next(old(Model()), Event.Interacted(id), config)
      ensures var s := old(Model());
        forall k :: 0 <= k < |s.windows| && s.windows[k].id == id ==>
          CommandProofs.WindowFocused(s.SetWindow(k, s.windows[k].(minimized := false)), Model(), k)
    {
      InteractedFacts(Model(), id, config);
      EffectProofs.PointerEffect(Model(), config, id);
      hide Next, Inv, WellFormed, Events.FocusWindowOnOutput;
      var k := Model().FindWindow(id);
      if k.Some? { state.windows := state.windows[k.value := state.windows[k.value].(minimized := false)]; }
      FocusWindowOnOutput(id);
    }

    method PointerMoved(x: int, y: int)
      requires Valid()
      modifies state`focusedOutput
      ensures Valid() && Model() == Next(old(Model()), Event.PointerMoved(x, y), config)
    {
      NextKeeps(Model(), Event.PointerMoved(x, y), config);
      if config.focusFollowsMouse {
        var target := Position(state.outputs, (o: Output) => o.x <= x < o.x + o.width && o.y <= y < o.y + o.height);
        if target.Some? && state.focusedOutput != target { state.focusedOutput := target; }
      }
    }
  }

  /** The window a placement was made for is the one its id finds. */
  lemma FoundByPlacement(s: Wm, c: Config, k: nat)
    requires DistinctIds(s) && k < |PlacementOrder(s, c)|
    ensures var w, found := PlacementOrder(s, c)[k], s.FindWindow(PlacementOrder(s, c)[k].id);
      found.Some? && s.windows[found.value] == w
  {
    var w := PlacementOrder(s, c)[k];
    assert w in s.windows;
  }
}
