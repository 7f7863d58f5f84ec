/** Whole runs: what holds after any sequence of events, whatever their order. */
module Runs {
  import opened Prelude
  import opened Desktop
  import opened Transitions
  import NormalizeProofs
  import opened Tiling
  import opened Passes
  import opened PassProofs
  import opened Invariant
  import opened Events
  import opened Identity
  import opened Refinement

  /** The state after a sequence of events. */
  ghost function Run(s: Wm, es: seq<Event>, c: Config): (r: Wm)
    requires Inv(s)
    ensures Inv(r)
    decreases |es|
  {
    if es == [] then s
    else
      NextRefines(s, es[0], c);
      Run(Next(s, es[0], c), es[1..], c)
  }

  /** Every reachable state: indices in range, focus exactly when there is an output,
      each output owning the tag it shows or tagless on a full table, and hence no
      window shown by two outputs. */
  lemma ReachableStates(es: seq<Event>, c: Config, masterFraction: real)
    requires 0.1 <= masterFraction <= 0.9
    ensures Inv(InitWm(masterFraction))
    ensures var s := Run(InitWm(masterFraction), es, c);
      && |s.tags| == NUM_TAGS
      && (forall t :: 0 <= t < |s.tags| && s.tags[t].output.Some? ==> s.tags[t].output.value < |s.outputs|)
      && (forall i :: 0 <= i < |s.outputs| ==> s.outputs[i].activeTag < NUM_TAGS && NormalizeProofs.ActiveOk(s, i))
      && (forall k :: 0 <= k < |s.windows| ==> s.windows[k].tag < NUM_TAGS)
      && (s.focused.None? <==> s.outputs == [])
      && (forall i, j, k :: 0 <= i < j < |s.outputs| && 0 <= k < |s.windows| ==>
            !(s.ShownBy(i, s.windows[k]) && s.ShownBy(j, s.windows[k])))
  {
    InitInv(masterFraction);
    var s := Run(InitWm(masterFraction), es, c);
    assert Inv(s);
    hide Run;
  }

  /** One event changes a tag's owner only by claiming a free tag, or by handing the tags
      of an unplugged output to the first remaining one (to nobody if none remains). */
  lemma OwnerStep(s: Wm, e: Event, c: Config, t: nat)
    requires Inv(s) && t < NUM_TAGS
    ensures var d, d2 := DeskOf(s), DeskOf(Next(s, e, c));
      && |d.owner| == |d2.owner| == NUM_TAGS
      && (d2.owner[t] == d.owner[t]
          || (d.owner[t].None? && d2.owner[t].Some? && d2.owner[t].value in d2.order)
          || (e.OutputRemoved? && d.owner[t] == Some(e.uid) && d2.owner[t] == First(d2.order)))
      && (d2.focus == d.focus || (d2.focus.Some? && d2.focus.value in d2.order)
          || (e.OutputRemoved? && d.focus == Some(e.uid) && d2.focus == First(d2.order)))
      && (e.OutputRemoved? && d.focus != Some(e.uid) ==> d2.focus == d.focus)
  {
    NextRefines(s, e, c);
    DeskDescribes(s);
    DeskDescribes(Next(s, e, c));
    InvIsWellFormed(s);
    InvIsWellFormed(Next(s, e, c));
    hide Next, Inv, DeskOf, Position, PositionFrom, Filter;
    OwnerMoved(s, e, c, t);
  }

  lemma OwnerMoved(s: Wm, e: Event, c: Config, t: nat)
    requires WellFormed(s) && t < NUM_TAGS
    requires var d, d2 := DeskOf(s), Moved(DeskOf(s), MoveOf(s, e, c)); |d.owner| == NUM_TAGS
    ensures var d, d2 := DeskOf(s), Moved(DeskOf(s), MoveOf(s, e, c));
      && |d2.owner| == NUM_TAGS
      && (d2.owner[t] == d.owner[t]
          || (d.owner[t].None? && d2.owner[t].Some? && d2.owner[t].value in d2.order)
          || (e.OutputRemoved? && d.owner[t] == Some(e.uid) && d2.owner[t] == First(d2.order)))
      && (d2.focus == d.focus || (d2.focus.Some? && d2.focus.value in d2.order)
          || (e.OutputRemoved? && d.focus == Some(e.uid) && d2.focus == First(d2.order)))
      && (e.OutputRemoved? && d.focus != Some(e.uid) ==> d2.focus == d.focus)
  {
    var d, m := DeskOf(s), MoveOf(s, e, c);
    DeskDescribes(s);
    MoveTargets(s, e, c);
    hide DeskOf, MoveOf, Without;
    if m.Plug? {
      assert m.uid in d.order + [m.uid];
    }
  }

  /** A claim names a free tag and a plugged output; a focus names a plugged output. */
  lemma MoveTargets(s: Wm, e: Event, c: Config)
    requires WellFormed(s)
    ensures var d, m := DeskOf(s), MoveOf(s, e, c);
      && (m.Claim? ==> m.uid in d.order && m.tag < |d.owner| && d.owner[m.tag].None?)
      && (m.Focus? ==> m.uid in d.order)
      && (m.Unplug? ==> e == OutputRemoved(m.uid))
      && (e.OutputRemoved? ==> m.Unplug? || m.Stay?)
  {
    DeskDescribes(s);
    forall o: Option<nat> | UidOf(s, o).Some? ensures UidOf(s, o).value in DeskOf(s).order {
      assert DeskOf(s).order[o.value] == UidOf(s, o).value;
    }
    hide DeskOf, Position, PositionFrom, SendTarget, OnCycleOutput, OnPointerMoved;
  }

  /** A tag stays with its output over any run in which that output is not unplugged. */
  lemma {:induction false} TagKeepsOwner(s: Wm, es: seq<Event>, c: Config, t: nat, uid: nat)
    requires Inv(s) && t < NUM_TAGS && |DeskOf(s).owner| == NUM_TAGS && DeskOf(s).owner[t] == Some(uid)
    requires OutputRemoved(uid) !in es
    ensures |DeskOf(Run(s, es, c)).owner| == NUM_TAGS && DeskOf(Run(s, es, c)).owner[t] == Some(uid)
    decreases |es|
  {
    InvIsWellFormed(s);
    hide Next, Inv, DeskOf, WellFormed;
    if es != [] {
      OwnerStep(s, es[0], c, t);
      NextRefines(s, es[0], c);
      assert es[0] in es && forall e :: e in es[1..] ==> e in es;
      TagKeepsOwner(Next(s, es[0], c), es[1..], c, t, uid);
    }
  }

  // ----- render nodes over runs -----

  /** The requests an event sends that matter for render nodes. */
  function Requests(s: Wm, e: Event, c: Config): seq<Request>
    requires WellFormed(s)
  {
    match e
    case WindowClosed(id) =>
      var k := s.FindWindow(id);
      if k.None? then []
      else (if s.windows[k.value].node then [DestroyNode(id)] else []) + [DestroyWindow(id)]
    case ManagePass(close) => ManageRequests(s, c, close)
    case RenderPass => RenderRequests(s, c)
    case _ => []
  }

  ghost predicate SameNodes(s: Wm, r: Wm) {
    && |r.windows| == |s.windows|
    && forall k :: 0 <= k < |s.windows| ==> r.windows[k].id == s.windows[k].id && r.windows[k].node == s.windows[k].node
  }

  /** Same windows with the same render nodes, and the same records of what each has been told. */
  ghost predicate SameRecords(s: Wm, r: Wm) {
    && |r.windows| == |s.windows| && r.nextId == s.nextId
    && forall k :: 0 <= k < |s.windows| ==>
         var w, w2 := s.windows[k], r.windows[k];
         && w2.id == w.id && w2.node == w.node && w2.capsSet == w.capsSet && w2.ssdApplied == w.ssdApplied
         && w2.tiledApplied == w.tiledApplied && w2.fullscreenApplied == w.fullscreenApplied
  }

  lemma OutputEventNodes(s: Wm, e: Event, c: Config)
    requires Inv(s)
    requires e.OutputAdded? || e.OutputMoved? || e.OutputResized? || e.OutputNamed? || e.UsableArea? || e.OutputRemoved?
    ensures SameRecords(s, Next(s, e, c))
  {
    SelfNodes(s);
    hide Repair, SameRecords, OnOutputAdded, RemoveOutput;
    var i := s.FindOutput(e.uid);
    match e
    case OutputAdded(uid) => if i.None? { AddedNodes(s, uid); }
    case OutputMoved(_, x, y) =>
      if i.Some? { RepairNodes(s, s.SetOutput(i.value, s.outputs[i.value].(x := x, y := y))); }
    case OutputResized(_, width, height) =>
      if i.Some? { RepairNodes(s, s.SetOutput(i.value, s.outputs[i.value].(width := width, height := height))); }
    case UsableArea(_, x, y, width, height) =>
      if i.Some? {
        var o := s.outputs[i.value].(usableX := x, usableY := y, usableW := width, usableH := height);
        RepairNodes(s, s.SetOutput(i.value, o));
      }
    case OutputRemoved(_) => if i.Some? { RemovedNodes(s, i.value); }
    case OutputNamed(_, name) =>
      if i.Some? { SameWindowsNodes(s, s.SetOutput(i.value, s.outputs[i.value].(name := Some(name)))); }
  }

  lemma SameWindowsNodes(s: Wm, r: Wm)
    requires r.windows == s.windows && r.nextId == s.nextId
    ensures SameRecords(s, r)
  {
  }

  lemma RepairNodes(s: Wm, m: Wm)
    requires m.windows == s.windows && m.nextId == s.nextId
    ensures SameRecords(s, Repair(m))
  {
    NormalizeProofs.NormalizedWindows(m);
    hide Normalize, ClampRectToArea, OutputArea;
  }

  lemma AddedNodes(s: Wm, uid: nat)
    requires Inv(s)
    ensures SameRecords(s, OnOutputAdded(s, uid))
  {
    AddedIsNormalized(s, uid);
    AttachedFields(s, uid);
    NormalizeProofs.NormalizedWindows(Attached(s, uid));
    hide Normalize, OnOutputAdded, Attached, Inv;
  }

  lemma RemovedNodes(s: Wm, i: nat)
    requires i < |s.outputs|
    ensures SameRecords(s, RemoveOutput(s, i))
  {
    var m := Detach(s, i);
    assert m.windows == s.windows;
    hide Repair, Detach;
    RepairNodes(s, m);
  }

  lemma UpdateWindowNodes(s: Wm, id: nat, f: Window -> Window)
    requires forall w :: f(w).id == w.id && f(w).node == w.node && f(w).capsSet == w.capsSet
                         && f(w).ssdApplied == w.ssdApplied && f(w).tiledApplied == w.tiledApplied
                         && f(w).fullscreenApplied == w.fullscreenApplied
    ensures SameRecords(s, UpdateWindow(s, id, f))
  {
  }

  lemma WindowEventNodes(s: Wm, e: Event, c: Config)
    requires WellFormed(s)
    requires e.WindowTitled? || e.SizeHinted? || e.FullscreenAsked? || e.MinimizeAsked? || e.AppIdSet?
    ensures SameRecords(s, Next(s, e, c))
  {
    hide UpdateWindow, OnAppId, SameRecords;
    match e
    case WindowTitled(id, title) => UpdateWindowNodes(s, id, (w: Window) => w.(title := title));
    case SizeHinted(id, minW, minH, maxW, maxH) =>
      UpdateWindowNodes(s, id, (w: Window) => w.(minW := minW, minH := minH, maxW := maxW, maxH := maxH));
    case FullscreenAsked(id, on) => UpdateWindowNodes(s, id, (w: Window) => w.(fullscreen := on));
    case MinimizeAsked(id) => UpdateWindowNodes(s, id, (w: Window) => w.(minimized := true));
    case AppIdSet(id, appId, floats) => AppIdNodes(s, id, appId, floats);
  }

  lemma AppIdNodes(s: Wm, id: nat, appId: Option<string>, floats: bool)
    ensures SameRecords(s, OnAppId(s, id, appId, floats))
  {
    var f := (w: Window) => (if floats && !w.floating then FloatForApp(s, w) else w).(appId := appId);
    forall w ensures f(w).id == w.id && f(w).node == w.node && f(w).capsSet == w.capsSet
        && f(w).ssdApplied == w.ssdApplied && f(w).tiledApplied == w.tiledApplied
        && f(w).fullscreenApplied == w.fullscreenApplied
    {
      FloatForAppFrame(s, w);
      hide FloatForApp;
    }
    assert OnAppId(s, id, appId, floats) == UpdateWindow(s, id, f);
    hide *;
    UpdateWindowNodes(s, id, f);
  }

  lemma FloatForAppFrame(s: Wm, w: Window)
    ensures var r := FloatForApp(s, w);
      r == w.(floating := true, floatX := r.floatX, floatY := r.floatY, floatW := r.floatW, floatH := r.floatH)
  {
    hide FitSide, PlaceOver, OutputArea;
  }

  lemma ToggleNodes(s: Wm, e: Event, c: Config)
    requires WellFormed(s) && (e.ToggleFullscreen? || e.ToggleFloat?)
    ensures SameRecords(s, Next(s, e, c))
  {
    hide UpdateWindow, GeometryOf, SameRecords, WellFormed, FloatFromTile;
    SelfNodes(s);
    var a := ActiveWindow(s);
    if a.Some? {
      var id := a.value;
      FullscreenNodes(s, id);
      FloatNodes(s, id, GeometryOf(s, c, id));
    }
  }

  lemma FullscreenNodes(s: Wm, id: nat)
    ensures SameRecords(s, UpdateWindow(s, id, (w: Window) => w.(fullscreen := !w.fullscreen)))
  {
    UpdateWindowNodes(s, id, (w: Window) => w.(fullscreen := !w.fullscreen));
    hide UpdateWindow, SameRecords;
  }

  lemma FloatNodes(s: Wm, id: nat, g: Option<Area>)
    ensures SameRecords(s, UpdateWindow(s, id, (w: Window) => FloatFromTile(g, w)))
  {
    hide UpdateWindow, SameRecords;
    UpdateWindowNodes(s, id, (w: Window) => FloatFromTile(g, w));
  }

  lemma ModeEventNodes(s: Wm, e: Event, c: Config)
    requires WellFormed(s) && (e.ToggleResizeMode? || e.LeaveResizeMode? || e.ResizeStep?)
    ensures SameRecords(s, Next(s, e, c))
  {
  }

  lemma RefocusWindows(s: Wm, i: nat)
    requires i < |s.outputs|
    ensures Refocus(s, i).windows == s.windows && Refocus(s, i).nextId == s.nextId
  {
  }

  lemma SelfNodes(s: Wm)
    ensures SameRecords(s, s)
  {
  }

  lemma ActivateNodes(s: Wm, m: Wm, i: nat, tag: nat)
    requires i < |m.outputs| && m.windows == s.windows && m.nextId == s.nextId
    ensures SameRecords(s, ActivateTag(m, i, tag)) && SameRecords(s, SwitchActiveTag(m, i, tag))
  {
    hide Refocus;
    var m1 := m.SetActive(i, tag);
    RefocusWindows(m1, i);
    RefocusWindows(ClearFullscreen(m1, m.outputs[i].activeTag), i);
  }

  lemma RetagNodes(s: Wm, m: Wm, k: nat, tag: nat, i: nat)
    requires m.windows == s.windows && m.nextId == s.nextId && k < |s.windows| && i < |m.outputs|
    ensures SameRecords(s, Refocus(m.SetWindow(k, m.windows[k].(tag := tag)), i))
  {
    hide Refocus;
    RefocusWindows(m.SetWindow(k, m.windows[k].(tag := tag)), i);
  }

  lemma FocusTagNodes(s: Wm, e: Event, c: Config)
    requires WellFormed(s) && (e.FocusTagAsked? || e.SendToTagAsked?)
    ensures SameRecords(s, Next(s, e, c))
  {
    hide ActivateTag, Refocus, SendTarget, SameRecords;
    SelfNodes(s);
    match e
    case FocusTagAsked(tag, output) =>
      var o := if output.Some? then s.FindOutputByName(output.value) else s.ActiveOutput();
      if o.Some? && tag < |s.tags| {
        var owner := s.tags[tag].output;
        if owner.None? {
          ActivateNodes(s, s.SetOwner(tag, Some(o.value)), o.value, tag);
        } else if owner == o {
          ActivateNodes(s, s, o.value, tag);
        } else {
          ActivateNodes(s, s.(focused := owner), owner.value, tag);
        }
      }
    case SendToTagAsked(tag) =>
      var o := s.ActiveOutput();
      if o.Some? && tag < |s.tags| && SendTarget(s, o.value, tag).Some? {
        var k := SendTarget(s, o.value, tag).value;
        var m := if s.tags[tag].output.None? then s.SetOwner(tag, Some(o.value)) else s;
        RetagNodes(s, m, k, tag, o.value);
      }
  }

  lemma PointerFocusNodes(s: Wm, id: nat)
    requires WellFormed(s)
    ensures SameRecords(s, FocusWindowOnOutput(s, id))
  {
    hide SwitchActiveTag;
    var k := s.FindWindow(id);
    if k.Some? && s.TagOwner(s.windows[k.value].tag).Some? {
      var tag := s.windows[k.value].tag;
      var o := s.TagOwner(tag);
      ActivateNodes(s, s.(focused := o).SetFocusedWindow(o.value, Some(id)), o.value, tag);
    }
  }

  lemma FocusWindowNodes(s: Wm, e: Event, c: Config)
    requires WellFormed(s) && (e.FocusWindowAsked? || e.PointerEntered? || e.Interacted?)
    ensures SameRecords(s, Next(s, e, c))
  {
    SelfNodes(s);
    hide OnFocusWindow, FocusWindowOnOutput, UpdateWindow, SameRecords, WellFormed;
    match e
    case FocusWindowAsked(app, called) => FocusAskedNodes(s, app, called);
    case PointerEntered(id) => PointerFocusNodes(s, id);
    case Interacted(id) => InteractedNodes(s, id);
  }

  lemma FocusAskedNodes(s: Wm, app: string, called: Option<string>)
    requires WellFormed(s)
    ensures SameRecords(s, OnFocusWindow(s, app, called))
  {
    hide SwitchActiveTag;
    var k := Position(s.windows, (w: Window) => w.appId == Some(app) && (called.None? || w.title == called));
    if k.Some? && s.TagOwner(s.windows[k.value].tag).Some? {
      var o := s.TagOwner(s.windows[k.value].tag);
      ActivateNodes(s, s.(focused := o), o.value, s.windows[k.value].tag);
    }
  }

  lemma InteractedNodes(s: Wm, id: nat)
    requires WellFormed(s)
    ensures SameRecords(s, FocusWindowOnOutput(UpdateWindow(s, id, (w: Window) => w.(minimized := false)), id))
  {
    var f := (w: Window) => w.(minimized := false);
    UpdateWindowNodes(s, id, f);
    UpdateWindowSkeleton(s, id, f);
    hide FocusWindowOnOutput, UpdateWindow, WellFormed, SameSkeleton;
    SkeletonKeeps(s, UpdateWindow(s, id, f));
    PointerFocusNodes(UpdateWindow(s, id, f), id);
  }

  lemma FocusOutputNodes(s: Wm, e: Event, c: Config)
    requires WellFormed(s) && (e.FocusOutputAsked? || e.CycleWindow? || e.CycleOutput? || e.PointerMoved?)
    ensures SameRecords(s, Next(s, e, c))
  {
  }

  lemma ManageNodes(s: Wm, c: Config)
    ensures SameNodes(s, ManageState(s, c))
  {
    var r := RefocusAll(s);
    RefocusAllFrame(s, |s.outputs|);
    hide RefocusAll;
    var m := ManageState(s, c);
    forall k | 0 <= k < |s.windows|
        ensures m.windows[k].id == s.windows[k].id && m.windows[k].node == s.windows[k].node {
      assert ManageState(s, c).windows[k] == TiledWindow(SyncWindow(r, c, s.windows[k]));
    }
  }

  /** Nothing about nodes is asked, and nothing is shown. */
  ghost predicate NoNodeRequests(qs: seq<Request>) {
    forall k :: 0 <= k < |qs| ==> !qs[k].GetNode? && !qs[k].DestroyNode? && !qs[k].Show?
  }

  lemma {:induction false} ServeKeepsNodes(v: Compositor, qs: seq<Request>)
    requires NoNodeRequests(qs)
    ensures ServeAll(v, qs).nodes == v.nodes && ServeAll(v, qs).protocolError == v.protocolError
    ensures ServeAll(v, qs).shown <= v.shown
  {
    if qs != [] {
      ServeKeepsNodes(v, qs[..|qs| - 1]);
    }
  }

  lemma {:induction false} GatherNoNodes<T>(ws: seq<T>, f: T -> seq<Request>)
    requires forall k :: 0 <= k < |ws| ==> NoNodeRequests(f(ws[k]))
    ensures NoNodeRequests(Gather(ws, f))
  {
    if ws != [] {
      GatherNoNodes(ws[..|ws| - 1], f);
      assert NoNodeRequests(f(ws[|ws| - 1]));
    }
  }

  lemma {:induction false} CloseNoNodes(s: Wm, close: seq<nat>)
    ensures NoNodeRequests(CloseRequests(s, close))
  {
    if close != [] {
      CloseNoNodes(s, close[..|close| - 1]);
    }
  }

  lemma SyncNoNodes(s: Wm, c: Config, w: Window)
    ensures NoNodeRequests(SyncRequests(s, c, w))
  {
  }

  lemma ConcatNoNodes(a: seq<Request>, b: seq<Request>)
    requires NoNodeRequests(a) && NoNodeRequests(b)
    ensures NoNodeRequests(a + b)
  {
  }

  lemma ManageNoNodes(s: Wm, c: Config, close: seq<nat>)
    requires s.focused.Some? ==> s.focused.value < |s.outputs|
    ensures NoNodeRequests(ManageRequests(s, c, close))
  {
    var r := RefocusAll(s);
    RefocusAllFrame(s, |s.outputs|);
    hide RefocusAll, RefocusUpTo, Gather, CloseRequests, FocusTarget, SyncRequests, SizeRequests, TiledRequests,
        Synced, NoNodeRequests;
    var hides := Gather(r.windows, (w: Window) => [Hide(w.id)]);
    var syncs, tiles := Gather(r.windows, w => SyncRequests(r, c, w)), Gather(Synced(r, c).windows, TiledRequests);
    var closes, focus := CloseRequests(r, close), [FocusRequest(Synced(r, c))];
    var sizes := SizeRequests(Synced(r, c), c);
    assert ManageRequests(s, c, close) == hides + closes + syncs + focus + sizes + tiles;
    HidesNoNodes(r.windows);
    CloseNoNodes(r, close);
    SyncsNoNodes(r, c, r.windows);
    TilesNoNodes(Synced(r, c).windows);
    OneNoNodes(Synced(r, c));
    SizesNoNodes(Synced(r, c), c);
    hide *;
    ConcatNoNodes(hides, closes);
    ConcatNoNodes(hides + closes, syncs);
    ConcatNoNodes(hides + closes + syncs, focus);
    ConcatNoNodes(hides + closes + syncs + focus, sizes);
    ConcatNoNodes(hides + closes + syncs + focus + sizes, tiles);
  }

  lemma SizesNoNodes(s: Wm, c: Config)
    ensures NoNodeRequests(SizeRequests(s, c))
  {
    hide AllTiles, Position;
    GatherNoNodes(AllTiles(s, c), t => TileRequests(s, t));
    GatherNoNodes(s.windows, FloatRequests);
    ConcatNoNodes(Gather(AllTiles(s, c), t => TileRequests(s, t)), Gather(s.windows, FloatRequests));
  }

  lemma {:induction false} HidesServed(ws: seq<Window>, f: Window -> seq<Request>, v: Compositor)
    requires forall k :: 0 <= k < |ws| ==> f(ws[k]) == [Hide(ws[k].id)]
    ensures forall k :: 0 <= k < |ws| ==> ws[k].id !in ServeAll(v, Gather(ws, f)).shown
  {
    if ws != [] {
      var front, last := ws[..|ws| - 1], ws[|ws| - 1];
      HidesServed(front, f, v);
      ServeAppend(v, Gather(front, f), f(last));
      ServeOne(ServeAll(v, Gather(front, f)), Hide(last.id));
      forall k | 0 <= k < |ws| - 1 ensures ws[k].id !in ServeAll(v, Gather(front, f)).shown {
        assert front[k] == ws[k];
      }
    }
  }

  /** From the start of a manage pass on no window is on screen until the render pass shows it. */
  lemma ManageHidesAll(s: Wm, c: Config, close: seq<nat>, v: Compositor)
    requires s.focused.Some? ==> s.focused.value < |s.outputs|
    ensures forall k :: 0 <= k < |s.windows| ==> s.windows[k].id !in ServeAll(v, ManageRequests(s, c, close)).shown
  {
    RefocusAllFrame(s, |s.outputs|);
    var hides := Gather(s.windows, (w: Window) => [Hide(w.id)]);
    ManageStartsHiding(s, c, close);
    ManageNoNodes(s, c, close);
    HidesServed(s.windows, (w: Window) => [Hide(w.id)], v);
    hide *;
    var rest := ManageRequests(s, c, close)[|hides|..];
    assert ManageRequests(s, c, close) == hides + rest;
    ServeAppend(v, hides, rest);
    RestNoNodes(ManageRequests(s, c, close), |hides|);
    ServeKeepsNodes(ServeAll(v, hides), rest);
  }

  lemma RestNoNodes(qs: seq<Request>, n: nat)
    requires NoNodeRequests(qs) && n <= |qs|
    ensures NoNodeRequests(qs[n..])
  {
  }

  lemma ManageStartsHiding(s: Wm, c: Config, close: seq<nat>)
    requires s.focused.Some? ==> s.focused.value < |s.outputs|
    ensures Gather(s.windows, (w: Window) => [Hide(w.id)]) <= ManageRequests(s, c, close)
  {
    RefocusAllFrame(s, |s.outputs|);
    hide RefocusAll, RefocusUpTo, CloseRequests, FocusTarget, SyncRequests, SizeRequests, TiledRequests, Synced;
  }

  lemma HidesNoNodes(ws: seq<Window>)
    ensures NoNodeRequests(Gather(ws, (w: Window) => [Hide(w.id)]))
  {
    GatherNoNodes(ws, (w: Window) => [Hide(w.id)]);
  }

  lemma SyncsNoNodes(s: Wm, c: Config, ws: seq<Window>)
    ensures NoNodeRequests(Gather(ws, w => SyncRequests(s, c, w)))
  {
    forall w ensures NoNodeRequests(SyncRequests(s, c, w)) { SyncNoNodes(s, c, w); }
    hide SyncRequests, NoNodeRequests;
    GatherNoNodes(ws, w => SyncRequests(s, c, w));
  }

  lemma TilesNoNodes(ws: seq<Window>)
    ensures NoNodeRequests(Gather(ws, TiledRequests))
  {
    GatherNoNodes(ws, TiledRequests);
  }

  lemma OneNoNodes(s: Wm)
    requires s.focused.Some? ==> s.focused.value < |s.outputs|
    ensures NoNodeRequests([FocusRequest(s)])
  {
  }

  /** Every event keeps client and server agreed on the nodes, without a protocol error. */
  lemma NextNodes(s: Wm, e: Event, c: Config, v: Compositor)
    requires Inv(s) && NodesAgree(s, v) && !v.protocolError
    ensures NodesAgree(Next(s, e, c), ServeAll(v, Requests(s, e, c))) && !ServeAll(v, Requests(s, e, c)).protocolError
  {
    InvIsWellFormed(s);
    hide *;
    match e
    case WindowAdded => WindowAddedNodes(s, c, v);
    case WindowClosed(id) => WindowClosedNodes(s, id, c, v);
    case RenderPass => RenderPassNodes(s, c, v);
    case ManagePass(close) => ManagePassNodes(s, c, close, v);
    case _ => QuietNodes(s, e, c, v);
  }

  lemma RenderPassNodes(s: Wm, c: Config, v: Compositor)
    requires WellFormed(s) && NodesAgree(s, v) && !v.protocolError
    ensures NodesAgree(Next(s, RenderPass, c), ServeAll(v, Requests(s, RenderPass, c)))
    ensures !ServeAll(v, Requests(s, RenderPass, c)).protocolError
  {
    hide RenderState, RenderRequests, ServeAll, NodesAgree;
    assert DistinctIds(s) && Next(s, RenderPass, c) == RenderState(s) &&
        Requests(s, RenderPass, c) == RenderRequests(s, c);
    hide *;
    RenderPassLegal(s, c, v);
  }

  lemma ManagePassNodes(s: Wm, c: Config, close: seq<nat>, v: Compositor)
    requires WellFormed(s) && NodesAgree(s, v) && !v.protocolError
    ensures NodesAgree(Next(s, ManagePass(close), c), ServeAll(v, Requests(s, ManagePass(close), c)))
    ensures !ServeAll(v, Requests(s, ManagePass(close), c)).protocolError
  {
    hide ManageState, ManageRequests, ServeAll, NodesAgree;
    var qs := ManageRequests(s, c, close);
    assert Next(s, ManagePass(close), c) == ManageState(s, c) && Requests(s, ManagePass(close), c) == qs;
    hide *;
    ManageNoNodes(s, c, close);
    ServeKeepsNodes(v, qs);
    ManageNodes(s, c);
    SameNodesStillAgree(s, ManageState(s, c), v, ServeAll(v, qs));
  }

  predicate Quiet(e: Event) {
    !e.WindowAdded? && !e.WindowClosed? && !e.RenderPass? && !e.ManagePass?
  }

  /** Every other event leaves nodes and records alone and sends nothing. */
  lemma QuietRecords(s: Wm, e: Event, c: Config)
    requires Inv(s) && Quiet(e)
    ensures SameRecords(s, Next(s, e, c)) && Requests(s, e, c) == []
  {
    InvIsWellFormed(s);
    assert Requests(s, e, c) == [];
    assert !e.WindowAdded? && !e.WindowClosed? && !e.RenderPass? && !e.ManagePass?;
    hide *;
    if e.OutputAdded? || e.OutputMoved? || e.OutputResized? || e.OutputNamed? || e.UsableArea? || e.OutputRemoved? {
      OutputEventNodes(s, e, c);
    } else if e.FocusTagAsked? || e.SendToTagAsked? {
      FocusTagNodes(s, e, c);
    } else if e.FocusWindowAsked? || e.PointerEntered? || e.Interacted? {
      FocusWindowNodes(s, e, c);
    } else if e.FocusOutputAsked? || e.CycleWindow? || e.CycleOutput? || e.PointerMoved? {
      FocusOutputNodes(s, e, c);
    } else if e.ToggleResizeMode? || e.LeaveResizeMode? || e.ResizeStep? {
      ModeEventNodes(s, e, c);
    } else if e.ToggleFullscreen? || e.ToggleFloat? {
      ToggleNodes(s, e, c);
    } else {
      WindowEventNodes(s, e, c);
    }
  }

  lemma QuietNodes(s: Wm, e: Event, c: Config, v: Compositor)
    requires Inv(s) && NodesAgree(s, v) && Quiet(e)
    ensures NodesAgree(Next(s, e, c), ServeAll(v, Requests(s, e, c))) && ServeAll(v, Requests(s, e, c)) == v
  {
    assert ServeAll(v, []) == v;
    InvIsWellFormed(s);
    hide Next, Inv, NodesAgree, ServeAll, Requests, WellFormed;
    QuietRecords(s, e, c);
    SameNodesStillAgree(s, Next(s, e, c), v, v);
  }

  lemma SameNodesStillAgree(s: Wm, r: Wm, v: Compositor, u: Compositor)
    requires NodesAgree(s, v) && SameNodes(s, r) && u.nodes == v.nodes
    ensures NodesAgree(r, u)
  {
    forall id | id in u.nodes ensures exists k :: 0 <= k < |r.windows| && r.windows[k].id == id {
      var k :| 0 <= k < |s.windows| && s.windows[k].id == id;
      assert r.windows[k].id == id;
    }
  }

  lemma WindowAddedNodes(s: Wm, c: Config, v: Compositor)
    requires Inv(s) && NodesAgree(s, v)
    ensures NodesAgree(Next(s, WindowAdded, c), ServeAll(v, Requests(s, WindowAdded, c)))
    ensures ServeAll(v, Requests(s, WindowAdded, c)) == v
  {
    var r := OnWindowAdded(s);
    assert r.windows[..|s.windows|] == s.windows && |r.windows| == |s.windows| + 1;
    assert forall k :: 0 <= k < |s.windows| ==> r.windows[k] == s.windows[k];
    forall id | id in v.nodes ensures exists k :: 0 <= k < |r.windows| && r.windows[k].id == id {
      var k :| 0 <= k < |s.windows| && s.windows[k].id == id;
      assert r.windows[k].id == id;
    }
    assert s.nextId !in v.nodes;
  }

  lemma WindowClosedNodes(s: Wm, id: nat, c: Config, v: Compositor)
    requires Inv(s) && NodesAgree(s, v)
    ensures NodesAgree(Next(s, WindowClosed(id), c), ServeAll(v, Requests(s, WindowClosed(id), c)))
    ensures ServeAll(v, Requests(s, WindowClosed(id), c)).protocolError == v.protocolError
  {
    assert Next(s, WindowClosed(id), c) == OnWindowClosed(s, id) && WellFormed(s);
    hide ServeAll, Requests, Next, Inv, OnWindowClosed, WellFormed, NodesAgree;
    CloseServed(s, id, c, v);
    ClosedAgree(s, id, v, ServeAll(v, Requests(s, WindowClosed(id), c)));
  }

  lemma ClosedAgree(s: Wm, id: nat, v: Compositor, u: Compositor)
    requires NodesAgree(s, v) && u.nodes == v.nodes - {id}
    ensures NodesAgree(OnWindowClosed(s, id), u)
  {
    var r := OnWindowClosed(s, id);
    forall j | 0 <= j < |r.windows| ensures r.windows[j].node <==> r.windows[j].id in u.nodes {
      assert r.windows[j] in s.windows;
    }
    forall x | x in u.nodes ensures exists j :: 0 <= j < |r.windows| && r.windows[j].id == x {
      var j :| 0 <= j < |s.windows| && s.windows[j].id == x;
      assert s.windows[j] in r.windows;
    }
  }

  lemma DestroyServed(v: Compositor, id: nat, node: bool)
    ensures ServeAll(v, (if node then [DestroyNode(id)] else []) + [DestroyWindow(id)])
         == v.(nodes := if node then v.nodes - {id} else v.nodes,
               order := if node then Without(v.order, id) else v.order, surfaces := v.surfaces - {id})
  {
    var before := if node then [DestroyNode(id)] else [];
    ServeOne(v, DestroyNode(id));
    ServeAppend(v, before, [DestroyWindow(id)]);
    ServeOne(ServeAll(v, before), DestroyWindow(id));
    hide Without;
    assert ServeAll(v, []) == v;
  }

  /** Closing destroys the window and, if it has one, its node; nothing else changes on the server. An unknown
      window sends nothing. */
  lemma CloseServed(s: Wm, id: nat, c: Config, v: Compositor)
    requires WellFormed(s) && NodesAgree(s, v)
    ensures var u := ServeAll(v, Requests(s, WindowClosed(id), c));
      && u.nodes == v.nodes - {id} && u.protocolError == v.protocolError
      && u == v.(nodes := u.nodes, order := u.order, surfaces := u.surfaces)
      && u.surfaces == if s.FindWindow(id).Some? then v.surfaces - {id} else v.surfaces
  {
    var k := s.FindWindow(id);
    if k.Some? {
      var node := s.windows[k.value].node;
      assert Requests(s, WindowClosed(id), c) == (if node then [DestroyNode(id)] else []) + [DestroyWindow(id)];
      assert node <==> id in v.nodes;
      hide Requests, ServeAll, NodesAgree, WellFormed, Without;
      DestroyServed(v, id, node);
    } else {
      assert Requests(s, WindowClosed(id), c) == [] && id !in v.nodes;
      assert ServeAll(v, []) == v;
    }
  }

  /** The compositor after a run. */
  ghost function Served(s: Wm, es: seq<Event>, c: Config, v: Compositor): Compositor
    requires Inv(s)
    decreases |es|
  {
    if es == [] then v
    else
      NextRefines(s, es[0], c);
      Served(Next(s, es[0], c), es[1..], c, ServeAll(v, Requests(s, es[0], c)))
  }

  /** Over any run of tag switches, closes and passes no window's node is requested
      while the server still holds one. */
  lemma {:induction false} NodesOverRuns(s: Wm, es: seq<Event>, c: Config, v: Compositor)
    requires Inv(s) && NodesAgree(s, v) && !v.protocolError
    ensures NodesAgree(Run(s, es, c), Served(s, es, c, v)) && !Served(s, es, c, v).protocolError
    decreases |es|
  {
    InvIsWellFormed(s);
    hide Next, Inv, NodesAgree, ServeAll, Requests, WellFormed;
    if es != [] {
      NextRefines(s, es[0], c);
      NextNodes(s, es[0], c, v);
      NodesOverRuns(Next(s, es[0], c), es[1..], c, ServeAll(v, Requests(s, es[0], c)));
    }
  }
}
