/**
 The window manager records what it has told each window so as to tell it only
 once. Over any run those records are right, and after the passes every window
 has been told, and put, exactly what and where the state says.
 */
module ToldProofs {
  import opened Prelude
  import opened Desktop
  import opened Transitions
  import opened Tiling
  import opened Passes
  import PassProofs
  import PlacementProofs
  import CommandProofs
  import opened Invariant
  import opened Events
  import Refinement
  import opened Runs
  import opened SurfaceProofs

  /** The records of window `w` say what it was told. */
  predicate RecordsRight(w: Window, x: Surface) {
    && w.capsSet == x.capable && w.ssdApplied == x.ssd && w.tiledApplied == x.tiled
    && (w.fullscreenApplied <==> x.fullscreen == Some(true))
  }

  /** All records are right, and an id not handed out yet has been told nothing. */
  ghost predicate RecordsAgree(s: Wm, v: Compositor) {
    && (forall k :: 0 <= k < |s.windows| ==> RecordsRight(s.windows[k], SurfaceOf(v, s.windows[k].id)))
    && (forall id :: id >= s.nextId ==> SurfaceOf(v, id) == UNTOLD)
  }

  // ----- the manage pass -----

  lemma RecordsFollow(s: Wm, r: Wm, c: Config, close: seq<nat>, w: Window, x: Surface, y: Surface)
    requires r.tags == s.tags && r.focused == s.focused && |r.outputs| == |s.outputs|
    requires RecordsRight(w, x) && ManageTold(s, c, close, w, x, y)
    ensures RecordsRight(TiledWindow(SyncWindow(r, c, w)), y)
  {
    TellingsOf(s, c, close, w, x, y);
    NewRecords(s, r, c, w);
    hide ManageTold, SyncWindow, TiledWindow, Lost, FullscreenTold;
    FullscreenFollows(s, r, w, x, y);
  }

  lemma TellingsOf(s: Wm, c: Config, close: seq<nat>, w: Window, x: Surface, y: Surface)
    requires ManageTold(s, c, close, w, x, y)
    ensures y.capable == (x.capable || !w.capsSet)
    ensures y.ssd == if w.ssdApplied == Some(c.useSsd) then x.ssd else Some(c.useSsd)
    ensures var tiled := Some(!w.floating && !(w.fullscreen && !Lost(s, w)));
      y.tiled == if w.tiledApplied == tiled then x.tiled else tiled
    ensures FullscreenTold(s, w, x, y)
  {
    hide AllTiles, SizeTold, Lost, FullscreenTold;
  }

  lemma NewRecords(s: Wm, r: Wm, c: Config, w: Window)
    requires r.tags == s.tags && |r.outputs| == |s.outputs|
    ensures var m := TiledWindow(SyncWindow(r, c, w));
      && m.capsSet && m.ssdApplied == Some(c.useSsd)
      && m.tiledApplied == Some(!w.floating && !(w.fullscreen && !Lost(s, w)))
      && m.fullscreenApplied == SyncFullscreenState(r, w).fullscreenApplied
  {
  }

  lemma FullscreenFollows(s: Wm, r: Wm, w: Window, x: Surface, y: Surface)
    requires r.tags == s.tags && r.focused == s.focused && |r.outputs| == |s.outputs|
    requires (w.fullscreenApplied <==> x.fullscreen == Some(true)) && FullscreenTold(s, w, x, y)
    ensures SyncFullscreenState(r, w).fullscreenApplied <==> y.fullscreen == Some(true)
  {
    ManagedIs(s, w);
    assert r.WindowOutput(w) == s.WindowOutput(w);
    hide ManagedBy, s.WindowOutput;
  }

  /** A window the state does not have hears nothing of a manage pass. */
  lemma StrangerHearsNothing(s: Wm, c: Config, close: seq<nat>, v: Compositor, id: nat)
    requires s.focused.Some? ==> s.focused.value < |s.outputs|
    requires forall k :: 0 <= k < |s.windows| ==> s.windows[k].id != id
    ensures SurfaceOf(ServeAll(v, ManageRequests(s, c, close)), id) == SurfaceOf(v, id)
  {
    var x, r := SurfaceOf(v, id), RefocusAll(s);
    var t := Synced(r, c);
    hide *;
    RefocusFrame(s);
    SyncKeepsIds(r, c);
    AroundFocus(s, c, close);
    var q := FocusRequest(t);
    ServedTells(v, ManageRequests(s, c, close), id);
    ToldAppend(x, BeforeFocus(s, c, close) + [q], AfterFocus(t, c), id);
    ToldAppend(x, BeforeFocus(s, c, close), [q], id);
    NothingBefore(s, c, close, x, id);
    FocusIsFocus(t);
    FocusTellsNothing(q, x, id);
    NothingAfter(t, c, x, id);
  }

  lemma NothingBefore(s: Wm, c: Config, close: seq<nat>, x: Surface, id: nat)
    requires forall k :: 0 <= k < |s.windows| ==> s.windows[k].id != id
    ensures Told(x, BeforeFocus(s, c, close), id) == x
  {
    var r := RefocusAll(s);
    var hides, closes := Gather(r.windows, (w: Window) => [Hide(w.id)]), CloseRequests(r, close);
    var syncs, f := Gather(r.windows, w => SyncRequests(r, c, w)), w => SyncRequests(r, c, w);
    assert BeforeFocus(s, c, close) == hides + closes + syncs && syncs == Gather(r.windows, f);
    hide *;
    RefocusFrame(s);
    forall j | 0 <= j < |r.windows| ensures Silent(f(r.windows[j]), id) { SyncSilent(r, c, r.windows[j], id); }
    HidesTellNothing(r.windows, x, id);
    ClosesTellNothing(r, close, x, id);
    GatheredTellsNothing(r.windows, f, x, id);
    ToldAppend(x, hides, closes, id);
    ToldAppend(x, hides + closes, syncs, id);
  }

  lemma SyncSilent(s: Wm, c: Config, w: Window, id: nat)
    requires w.id != id
    ensures Silent(SyncRequests(s, c, w), id)
  {
    hide s.TagOwner, s.WindowOutput;
  }

  lemma {:induction false} ClosesTellNothing(s: Wm, close: seq<nat>, x: Surface, id: nat)
    requires forall k :: 0 <= k < |s.windows| ==> s.windows[k].id != id
    ensures Told(x, CloseRequests(s, close), id) == x
  {
    assert Told(x, [], id) == x;
    if close != [] {
      var front, last := close[..|close| - 1], close[|close| - 1];
      ClosesTellNothing(s, front, x, id);
      var more := if s.FindWindow(last).Some? then [CloseWindow(last)] else [];
      ToldAppend(x, CloseRequests(s, front), more, id);
      ToldOne(x, CloseWindow(last), id);
      hide Told;
    }
  }

  lemma NothingAfter(t: Wm, c: Config, x: Surface, id: nat)
    requires forall k :: 0 <= k < |t.windows| ==> t.windows[k].id != id
    ensures Told(x, AfterFocus(t, c), id) == x
  {
    var sizes, floats := TileSizes(t, c), Gather(t.windows, FloatRequests);
    var tiles := Gather(t.windows, TiledRequests);
    assert AfterFocus(t, c) == (sizes + floats) + tiles;
    hide *;
    NoSizes(t, c, x, id);
    forall j | 0 <= j < |t.windows|
      ensures Silent(FloatRequests(t.windows[j]), id) && Silent(TiledRequests(t.windows[j]), id)
    {
      OwnSizeOnly(t.windows[j], id);
    }
    GatheredTellsNothing(t.windows, FloatRequests, x, id);
    GatheredTellsNothing(t.windows, TiledRequests, x, id);
    ToldAppend(x, sizes, floats, id);
    ToldAppend(x, sizes + floats, tiles, id);
  }

  lemma NoSizes(t: Wm, c: Config, x: Surface, id: nat)
    requires forall k :: 0 <= k < |t.windows| ==> t.windows[k].id != id
    ensures Told(x, TileSizes(t, c), id) == x
  {
    var f := q => TileRequests(t, q);
    assert TileSizes(t, c) == Gather(AllTiles(t, c), f);
    hide AllTiles, Told, Gather;
    forall q ensures Silent(f(q), id) { }
    hide Silent, TileRequests;
    GatheredTellsNothing(AllTiles(t, c), f, x, id);
  }

  lemma ManageKeepsRecords(s: Wm, c: Config, close: seq<nat>, v: Compositor)
    requires WellFormed(s) && RecordsAgree(s, v)
    ensures RecordsAgree(ManageState(s, c), ServeAll(v, ManageRequests(s, c, close)))
  {
    var m, u, r := ManageState(s, c), ServeAll(v, ManageRequests(s, c, close)), RefocusAll(s);
    ManagedWindows(s, c);
    hide ManageState, ManageRequests, ServeAll, RefocusAll, RefocusUpTo, SurfaceOf, RecordsRight, SyncWindow;
    RefocusFrame(s);
    forall k | 0 <= k < |s.windows| ensures RecordsRight(m.windows[k], SurfaceOf(u, m.windows[k].id)) {
      ManageServed(s, c, close, v, k);
      RecordsFollow(s, r, c, close, s.windows[k], SurfaceOf(v, s.windows[k].id), SurfaceOf(u, s.windows[k].id));
    }
    forall id | id >= s.nextId ensures SurfaceOf(u, id) == UNTOLD {
      StrangerHearsNothing(s, c, close, v, id);
    }
  }

  lemma ManagedWindows(s: Wm, c: Config)
    ensures var m, r := ManageState(s, c), RefocusAll(s);
      && |m.windows| == |s.windows| && m.nextId == s.nextId
      && m == s.(windows := m.windows, outputs := r.outputs)
      && forall k :: 0 <= k < |s.windows| ==>
           m.windows[k] == TiledWindow(SyncWindow(r, c, s.windows[k])) && m.windows[k].id == s.windows[k].id
  {
    RefocusAllFrame(s, |s.outputs|);
    hide RefocusAll, RefocusUpTo;
    var r := RefocusAll(s);
    forall k | 0 <= k < |s.windows|
      ensures ManageState(s, c).windows[k] == TiledWindow(SyncWindow(r, c, s.windows[k]))
          && ManageState(s, c).windows[k].id == s.windows[k].id
    {
      SyncedWindow(s, r, c, s.windows[k]);
    }
    hide SyncWindow, TiledWindow;
  }

  // ----- the render pass -----

  lemma StrangerNotPlaced(s: Wm, c: Config, v: Compositor, id: nat)
    requires forall k :: 0 <= k < |s.windows| ==> s.windows[k].id != id
    ensures SurfaceOf(ServeAll(v, RenderRequests(s, c)), id) == SurfaceOf(v, id)
  {
    var x, r := SurfaceOf(v, id), RenderState(s);
    var s1 := ReleaseHiddenNodes(s);
    var f, ws := w => PlaceWindow(r, c, w), PlacementOrder(r, c);
    PassProofs.RenderStateNodes(s);
    forall j | 0 <= j < |ws| ensures ws[j].id != id { assert ws[j] in r.windows; }
    hide *;
    ServedTells(v, RenderRequests(s, c), id);
    RenderParts(s, c, x, id);
    ReleasesTellNothing(s, x, id);
    GetsTellNothing(s1, x, id);
    ReleasesTellNothing(WithNodes(s1), x, id);
    PlaceRequestsAre(r, c);
    forall j | 0 <= j < |ws| ensures Silent(f(ws[j]), id) { PlaceSilent(r, c, ws[j], id); }
    GatheredTellsNothing(ws, f, x, id);
  }

  lemma RenderKeepsRecords(s: Wm, c: Config, v: Compositor)
    requires WellFormed(s) && RecordsAgree(s, v)
    ensures RecordsAgree(RenderState(s), ServeAll(v, RenderRequests(s, c)))
  {
    var r, u := RenderState(s), ServeAll(v, RenderRequests(s, c));
    PassProofs.RenderStateNodes(s);
    hide RenderState, RenderRequests, ServeAll, SurfaceOf, PositionTold, ActiveSomewhere;
    forall k | 0 <= k < |s.windows| ensures RecordsRight(r.windows[k], SurfaceOf(u, r.windows[k].id)) {
      RenderServed(s, c, v, k);
    }
    forall id | id >= s.nextId ensures SurfaceOf(u, id) == UNTOLD {
      StrangerNotPlaced(s, c, v, id);
    }
  }

  // ----- every event, and runs -----

  lemma CloseKeepsRecords(s: Wm, id: nat, v: Compositor, u: Compositor)
    requires RecordsAgree(s, v) && (u.surfaces == v.surfaces - {id} || u.surfaces == v.surfaces)
    ensures RecordsAgree(OnWindowClosed(s, id), u)
  {
    var r := OnWindowClosed(s, id);
    forall other | other != id || u.surfaces == v.surfaces ensures SurfaceOf(u, other) == SurfaceOf(v, other) { }
    forall j | 0 <= j < |r.windows| ensures RecordsRight(r.windows[j], SurfaceOf(u, r.windows[j].id)) {
      assert r.windows[j] in s.windows && r.windows[j].id != id;
    }
    assert SurfaceOf(v, id) == UNTOLD ==> SurfaceOf(u, id) == UNTOLD;
    hide RecordsRight, SurfaceOf;
  }

  lemma AddKeepsRecords(s: Wm, v: Compositor)
    requires RecordsAgree(s, v)
    ensures RecordsAgree(OnWindowAdded(s), v)
  {
    var r, n := OnWindowAdded(s), |s.windows|;
    assert r.windows[..n] == s.windows && r.windows[n].id == s.nextId;
    forall j | 0 <= j < |r.windows| ensures RecordsRight(r.windows[j], SurfaceOf(v, r.windows[j].id)) {
      if j < n { assert r.windows[j] == s.windows[j]; }
    }
    hide SurfaceOf;
  }

  lemma QuietKeepsRecords(s: Wm, r: Wm, v: Compositor)
    requires RecordsAgree(s, v) && SameRecords(s, r)
    ensures RecordsAgree(r, v)
  {
    hide SurfaceOf;
  }

  lemma AddedRecords(s: Wm, c: Config, v: Compositor)
    requires Inv(s) && RecordsAgree(s, v)
    ensures RecordsAgree(Next(s, WindowAdded, c), ServeAll(v, Requests(s, WindowAdded, c)))
  {
    hide OnWindowAdded, RecordsAgree, ServeAll;
    assert Next(s, WindowAdded, c) == OnWindowAdded(s) && Requests(s, WindowAdded, c) == [];
    hide *;
    ServedNothing(v);
    AddKeepsRecords(s, v);
  }

  lemma ClosedRecords(s: Wm, id: nat, c: Config, v: Compositor)
    requires Inv(s) && PassProofs.NodesAgree(s, v) && RecordsAgree(s, v)
    ensures RecordsAgree(Next(s, WindowClosed(id), c), ServeAll(v, Requests(s, WindowClosed(id), c)))
  {
    hide OnWindowClosed, RecordsAgree, ServeAll, PassProofs.NodesAgree, Requests;
    assert Next(s, WindowClosed(id), c) == OnWindowClosed(s, id);
    hide *;
    CloseServed(s, id, c, v);
    CloseKeepsRecords(s, id, v, ServeAll(v, Requests(s, WindowClosed(id), c)));
  }

  lemma RenderedRecords(s: Wm, c: Config, v: Compositor)
    requires Inv(s) && RecordsAgree(s, v)
    ensures RecordsAgree(Next(s, RenderPass, c), ServeAll(v, Requests(s, RenderPass, c)))
  {
    hide RenderState, RenderRequests, RecordsAgree, ServeAll;
    assert Next(s, RenderPass, c) == RenderState(s) && Requests(s, RenderPass, c) == RenderRequests(s, c);
    hide *;
    RenderKeepsRecords(s, c, v);
  }

  lemma ManagedRecords(s: Wm, close: seq<nat>, c: Config, v: Compositor)
    requires Inv(s) && RecordsAgree(s, v)
    ensures RecordsAgree(Next(s, ManagePass(close), c), ServeAll(v, Requests(s, ManagePass(close), c)))
  {
    hide ManageState, ManageRequests, RecordsAgree, ServeAll;
    assert Next(s, ManagePass(close), c) == ManageState(s, c);
    assert Requests(s, ManagePass(close), c) == ManageRequests(s, c, close);
    hide *;
    ManageKeepsRecords(s, c, close, v);
  }

  lemma UntoldRecords(s: Wm, e: Event, c: Config, v: Compositor)
    requires Inv(s) && RecordsAgree(s, v) && Quiet(e)
    ensures RecordsAgree(Next(s, e, c), ServeAll(v, Requests(s, e, c)))
  {
    Refinement.InvIsWellFormed(s);
    hide *;
    QuietRecords(s, e, c);
    ServedNothing(v);
    QuietKeepsRecords(s, Next(s, e, c), v);
  }

  /** Every event keeps the records right. */
  lemma NextRecords(s: Wm, e: Event, c: Config, v: Compositor)
    requires Inv(s) && PassProofs.NodesAgree(s, v) && RecordsAgree(s, v)
    ensures RecordsAgree(Next(s, e, c), ServeAll(v, Requests(s, e, c)))
  {
    Refinement.InvIsWellFormed(s);
    hide *;
    match e
    case WindowAdded => AddedRecords(s, c, v);
    case WindowClosed(id) => ClosedRecords(s, id, c, v);
    case RenderPass => RenderedRecords(s, c, v);
    case ManagePass(close) => ManagedRecords(s, close, c, v);
    case _ =>
      IsQuiet(e);
      UntoldRecords(s, e, c, v);
  }

  lemma IsQuiet(e: Event)
    requires !e.WindowAdded? && !e.WindowClosed? && !e.RenderPass? && !e.ManagePass?
    ensures Quiet(e)
  {
  }

  lemma ServedNothing(v: Compositor)
    ensures ServeAll(v, []) == v
  {
  }

  /** Over any run the window manager's records of what it has told each window are right. */
  lemma {:induction false} RecordsOverRuns(s: Wm, es: seq<Event>, c: Config, v: Compositor)
    requires Inv(s) && PassProofs.NodesAgree(s, v) && !v.protocolError && RecordsAgree(s, v)
    ensures RecordsAgree(Run(s, es, c), Served(s, es, c, v))
    decreases |es|
  {
    Refinement.InvIsWellFormed(s);
    hide Next, Inv, PassProofs.NodesAgree, ServeAll, Requests, WellFormed, RecordsAgree;
    if es != [] {
      Refinement.NextRefines(s, es[0], c);
      NextNodes(s, es[0], c, v);
      NextRecords(s, es[0], c, v);
      RecordsOverRuns(Next(s, es[0], c), es[1..], c, ServeAll(v, Requests(s, es[0], c)));
    }
  }

  /** A compositor the window manager has just connected to. */
  function NewCompositor(): Compositor {
    Compositor({}, [], {}, false, None, map[])
  }

  /** Over any run from the start client and server agree on the nodes, no protocol error occurs, and the records
      are right. */
  lemma RunsFromTheStart(es: seq<Event>, c: Config, masterFraction: real)
    requires 0.1 <= masterFraction <= 0.9
    ensures Inv(InitWm(masterFraction))
    ensures var s, v := Run(InitWm(masterFraction), es, c), Served(InitWm(masterFraction), es, c, NewCompositor());
      PassProofs.NodesAgree(s, v) && !v.protocolError && RecordsAgree(s, v)
  {
    InitInv(masterFraction);
    var s, v := InitWm(masterFraction), NewCompositor();
    assert PassProofs.NodesAgree(s, v) && RecordsAgree(s, v) && !v.protocolError;
    hide *;
    NodesOverRuns(s, es, c, v);
    RecordsOverRuns(s, es, c, v);
  }

  // ----- what the two passes achieve -----

  /** In a state with an output, reached by any run, a manage pass leaves every window knowing what the state
      says of it: its capabilities, its decoration mode, and whether it is tiled and fullscreen; and the
      windows asked to close have been. */
  lemma ManageTellsAll(s: Wm, c: Config, close: seq<nat>, v: Compositor, k: nat)
    requires Inv(s) && RecordsAgree(s, v) && s.outputs != [] && k < |s.windows|
    ensures |ManageState(s, c).windows| == |s.windows|
    ensures var w := ManageState(s, c).windows[k];
      var y := SurfaceOf(ServeAll(v, ManageRequests(s, c, close)), w.id);
      && y.capable && y.ssd == Some(c.useSsd) && y.tiled == Some(!w.floating && !w.fullscreen)
      && (y.fullscreen == Some(true) <==> w.fullscreen)
      && (w.id in close ==> y.closing)
  {
    var r := RefocusAll(s);
    Refinement.InvIsWellFormed(s);
    FocusInRangeHere(s);
    ManagedWindows(s, c);
    assert DistinctIds(s);
    hide Inv, WellFormed, RefocusAll, ManageState, ManageRequests, ServeAll, RecordsAgree, PassProofs.FocusInRange,
        SurfaceOf, SyncFullscreenState;
    ManageKeepsRecords(s, c, close, v);
    PassProofs.FullscreenApplied(s, c, k);
    ManageServed(s, c, close, v, k);
    RecordOf(ManageState(s, c), ServeAll(v, ManageRequests(s, c, close)), k);
    hide SizeTold, SyncTold;
  }

  lemma FocusInRangeHere(s: Wm)
    requires Inv(s)
    ensures PassProofs.FocusInRange(s)
  {
  }

  lemma RecordOf(s: Wm, v: Compositor, k: nat)
    requires RecordsAgree(s, v) && k < |s.windows|
    ensures RecordsRight(s.windows[k], SurfaceOf(v, s.windows[k].id))
  {
    hide RecordsRight, SurfaceOf;
  }

  /** A window is on screen exactly when it is visible and not minimized. A fullscreen one is at the origin; a
      floating one is where its box is, and was asked for its size; a tiled one is where its tile is, and was
      asked for the tile's size, unless that is empty. */
  ghost predicate InPlace(s: Wm, c: Config, w: Window, v: Compositor) {
    var y := SurfaceOf(v, w.id);
    if w.minimized || !s.IsVisible(w) then w.id !in v.shown
    else
      && w.id in v.shown
      && if w.fullscreen then y.position == Some((0, 0))
         else if w.floating then
           && y.position == Some((w.floatX, w.floatY))
           && (w.floatW > 0 && w.floatH > 0 ==>
                 y.size == Some((HintedSide(w.floatW, w.minW, w.maxW), HintedSide(w.floatH, w.minH, w.maxH))))
         else exists a ::
           && (w.id, a) in AllTiles(s, c) && y.position == Some((a.x, a.y))
           && (NonEmpty(a) ==> y.size == y.bounds == Some((a.width, a.height)))
  }

  /** Whatever the compositor did before, a manage and a render pass put every window in its place. */
  lemma PassesPlaceAll(s: Wm, c: Config, close: seq<nat>, v: Compositor, k: nat)
    requires WellFormed(s) && k < |s.windows|
    ensures var m := ManageState(s, c);
      var r, u := RenderState(m), ServeAll(ServeAll(v, ManageRequests(s, c, close)), RenderRequests(m, c));
      |r.windows| == |s.windows| && InPlace(r, c, r.windows[k], u)
  {
    var m, w := ManageState(s, c), s.windows[k];
    var v1 := ServeAll(v, ManageRequests(s, c, close));
    assert DistinctIds(s) && (s.focused.Some? ==> s.focused.value < |s.outputs|);
    hide *;
    ManagedAs(s, c);
    ManageServed(s, c, close, v, k);
    RenderedAs(m);
    RenderServed(m, c, v1, k);
    PlacementProofs.RenderStacksAndShows(m, c, v1);
    PassProofs.RenderStateNodes(m);
    SameLayout(s, m, c);
    SameLayout(m, RenderState(m), c);
    InPlaceByParts(s, m, RenderState(m), c, close, k, SurfaceOf(v, w.id), SurfaceOf(v1, w.id),
                   ServeAll(v1, RenderRequests(m, c)));
  }

  /** What a manage pass makes of the windows, as far as their place is concerned. */
  lemma ManagedAs(s: Wm, c: Config)
    ensures var m := ManageState(s, c);
      && SameLayoutInputs(s, m) && (DistinctIds(s) ==> DistinctIds(m)) && |m.windows| == |s.windows|
      && forall k :: 0 <= k < |s.windows| ==> ManagedTo(s, s.windows[k], m.windows[k])
  {
    var r, m := RefocusAll(s), ManageState(s, c);
    ManagedWindows(s, c);
    RefocusAllFrame(s, |s.outputs|);
    hide RefocusAll, RefocusUpTo, ManageState;
    forall k | 0 <= k < |s.windows| ensures ManagedTo(s, s.windows[k], m.windows[k]) {
      SyncedWindow(s, r, c, s.windows[k]);
    }
    hide SyncWindow, TiledWindow, Lost;
  }

  predicate ManagedTo(s: Wm, w: Window, m: Window) {
    m == w.(fullscreen := w.fullscreen && !Lost(s, w), fullscreenApplied := m.fullscreenApplied, capsSet := m.capsSet,
            ssdApplied := m.ssdApplied, tiledApplied := m.tiledApplied)
  }

  lemma InPlaceByParts(s: Wm, m: Wm, r: Wm, c: Config, close: seq<nat>, k: nat, x: Surface, y: Surface, u: Compositor)
    requires k < |s.windows| == |m.windows| == |r.windows| && ManagedTo(s, s.windows[k], m.windows[k])
    requires ManageTold(s, c, close, s.windows[k], x, y)
    requires r.windows[k] == m.windows[k].(node := r.windows[k].node) && SameLayoutInputs(m, r)
    requires AllTiles(m, c) == AllTiles(s, c) == AllTiles(r, c)
    requires SurfaceOf(u, r.windows[k].id) == y.(position := SurfaceOf(u, r.windows[k].id).position)
    requires PositionTold(m, c, r.windows[k], y.position, SurfaceOf(u, r.windows[k].id).position)
    requires r.windows[k].id in u.shown <==> r.IsVisible(r.windows[k]) && !r.windows[k].minimized
    requires DistinctIds(r)
    ensures InPlace(r, c, r.windows[k], u)
  {
    var w, now := r.windows[k], s.windows[k].(fullscreen := s.windows[k].fullscreen && !Lost(s, s.windows[k]));
    SameSight(m, r, w);
    SizeOfManaged(s, c, close, s.windows[k], x, y);
    SizeToldAgain(AllTiles(s, c), now, w, x, x.(size := y.size, bounds := y.bounds));
    if w.floating { FloatersHaveNoTile(r, c, k); }
    hide AllTiles, ManageTold, Lost, SurfaceOf, SameLayoutInputs, HintedSide, DistinctIds;
    PlacedAndSized(r, c, w, u, m, x, y);
  }

  lemma SizeOfManaged(s: Wm, c: Config, close: seq<nat>, w: Window, x: Surface, y: Surface)
    requires ManageTold(s, c, close, w, x, y)
    ensures SizeTold(AllTiles(s, c), w.(fullscreen := w.fullscreen && !Lost(s, w)), x,
                     x.(size := y.size, bounds := y.bounds))
  {
    hide AllTiles, SizeTold, SyncTold, Lost;
  }

  lemma FloatersHaveNoTile(r: Wm, c: Config, k: nat)
    requires DistinctIds(r) && k < |r.windows| && r.windows[k].floating
    ensures forall a :: (r.windows[k].id, a) !in AllTiles(r, c)
  {
    ListsEachVisibleWindowOnce(r, c);
    var tiles := AllTiles(r, c);
    hide AllTiles;
    assert forall p :: 0 <= p < |tiles| ==> tiles[p].0 != r.windows[k].id;
  }

  /** A window that was told its size and then its position is in place. */
  lemma PlacedAndSized(r: Wm, c: Config, w: Window, u: Compositor, m: Wm, x: Surface, y: Surface)
    requires SizeTold(AllTiles(r, c), w, x, x.(size := y.size, bounds := y.bounds))
    requires AllTiles(m, c) == AllTiles(r, c) && m.IsVisible(w) == r.IsVisible(w)
    requires SurfaceOf(u, w.id) == y.(position := SurfaceOf(u, w.id).position)
    requires PositionTold(m, c, w, y.position, SurfaceOf(u, w.id).position)
    requires w.id in u.shown <==> r.IsVisible(w) && !w.minimized
    requires w.floating ==> forall a :: (w.id, a) !in AllTiles(r, c)
    ensures InPlace(r, c, w, u)
  {
    hide AllTiles, SurfaceOf, HintedSide;
  }

  lemma SizeToldAgain(tiles: seq<Tile>, a: Window, b: Window, x: Surface, y: Surface)
    requires SizeTold(tiles, a, x, y)
    requires b == a.(fullscreenApplied := b.fullscreenApplied, capsSet := b.capsSet, ssdApplied := b.ssdApplied,
                     tiledApplied := b.tiledApplied, node := b.node)
    ensures SizeTold(tiles, b, x, y)
  {
    hide HintedSide;
  }
}
