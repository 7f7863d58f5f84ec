/** What the requests of a pass leave the compositor with: the focus, and what each window was told. */
module SurfaceProofs {
  import opened Prelude
  import opened Desktop
  import opened Transitions
  import opened NormalizeProofs
  import opened Tiling
  import opened Passes
  import PassProofs
  import PlacementProofs
  import CommandProofs

  // ----- one window among many requests -----

  predicate Concerns(q: Request, id: nat) { !q.ClearFocus? && q.id == id }

  /** What a window that knew `x` knows after the requests. */
  function Told(x: Surface, qs: seq<Request>, id: nat): Surface {
    if qs == [] then x
    else
      var y, q := Told(x, qs[..|qs| - 1], id), qs[|qs| - 1];
      if Concerns(q, id) then Answer(y, q) else y
  }

  lemma ServeTells(v: Compositor, q: Request, id: nat)
    ensures SurfaceOf(Serve(v, q), id) == if Concerns(q, id) then Answer(SurfaceOf(v, id), q) else SurfaceOf(v, id)
  {
  }

  /** The requests tell each window just what the ones about it say, in order. */
  lemma {:induction false} ServedTells(v: Compositor, qs: seq<Request>, id: nat)
    ensures SurfaceOf(ServeAll(v, qs), id) == Told(SurfaceOf(v, id), qs, id)
  {
    if qs != [] {
      ServedTells(v, qs[..|qs| - 1], id);
      ServeTells(ServeAll(v, qs[..|qs| - 1]), qs[|qs| - 1], id);
      hide Serve, SurfaceOf, Answer;
    }
  }

  lemma {:induction false} ToldAppend(x: Surface, a: seq<Request>, b: seq<Request>, id: nat)
    ensures Told(x, a + b, id) == Told(Told(x, a, id), b, id)
  {
    if b == [] {
      assert a + b == a;
    } else {
      assert (a + b)[..|a + b| - 1] == a + b[..|b| - 1];
      ToldAppend(x, a, b[..|b| - 1], id);
      hide Answer;
    }
  }

  lemma ToldOne(x: Surface, q: Request, id: nat)
    ensures Told(x, [], id) == x
    ensures Told(x, [q], id) == if Concerns(q, id) then Answer(x, q) else x
  {
    assert [q][..0] == [];
    assert Told(x, [], id) == x;
    hide Answer;
  }

  lemma ToldTwo(x: Surface, q1: Request, q2: Request, id: nat)
    requires Concerns(q1, id) && Concerns(q2, id)
    ensures Told(x, [q1, q2], id) == Answer(Answer(x, q1), q2)
  {
    assert [q1, q2] == [q1] + [q2];
    ToldAppend(x, [q1], [q2], id);
    ToldOne(x, q1, id);
    ToldOne(Told(x, [q1], id), q2, id);
    hide Answer, Told;
  }

  /** No request says anything to window `id`. */
  ghost predicate Silent(qs: seq<Request>, id: nat) {
    forall k :: 0 <= k < |qs| && Concerns(qs[k], id) ==> forall x :: Answer(x, qs[k]) == x
  }

  lemma {:induction false} SilenceTellsNothing(x: Surface, qs: seq<Request>, id: nat)
    requires Silent(qs, id)
    ensures Told(x, qs, id) == x
  {
    if qs != [] {
      SilenceTellsNothing(x, qs[..|qs| - 1], id);
      hide Answer;
    }
  }

  /** When only the requests for element `k` speak to the window, only they matter. */
  lemma {:induction false} GatheredTells<T>(ws: seq<T>, f: T -> seq<Request>, k: nat, x: Surface, id: nat)
    requires k < |ws| && forall j :: 0 <= j < |ws| && j != k ==> Silent(f(ws[j]), id)
    ensures Told(x, Gather(ws, f), id) == Told(x, f(ws[k]), id)
  {
    hide Told, Silent;
    var front, last := ws[..|ws| - 1], ws[|ws| - 1];
    ToldAppend(x, Gather(front, f), f(last), id);
    if k == |ws| - 1 {
      GatheredTellsNothing(front, f, x, id);
    } else {
      GatheredTells(front, f, k, x, id);
      SilenceTellsNothing(Told(x, Gather(front, f), id), f(last), id);
    }
  }

  lemma {:induction false} GatheredTellsNothing<T>(ws: seq<T>, f: T -> seq<Request>, x: Surface, id: nat)
    requires forall j :: 0 <= j < |ws| ==> Silent(f(ws[j]), id)
    ensures Told(x, Gather(ws, f), id) == x
  {
    hide Silent;
    if ws == [] {
      assert Told(x, [], id) == x;
    } else {
      hide Told;
      var front, last := ws[..|ws| - 1], ws[|ws| - 1];
      ToldAppend(x, Gather(front, f), f(last), id);
      GatheredTellsNothing(front, f, x, id);
      SilenceTellsNothing(x, f(last), id);
    }
  }

  // ----- keyboard focus -----

  ghost predicate KeepFocus(qs: seq<Request>) {
    forall k :: 0 <= k < |qs| ==> !qs[k].FocusWindow? && !qs[k].ClearFocus?
  }

  lemma {:induction false} FocusKept(v: Compositor, qs: seq<Request>)
    requires KeepFocus(qs)
    ensures ServeAll(v, qs).focus == v.focus
  {
    if qs != [] {
      FocusKept(v, qs[..|qs| - 1]);
    }
  }

  lemma {:induction false} GatheredKeepsFocus<T>(ws: seq<T>, f: T -> seq<Request>)
    requires forall k :: 0 <= k < |ws| ==> KeepFocus(f(ws[k]))
    ensures KeepFocus(Gather(ws, f))
  {
    if ws != [] {
      GatheredKeepsFocus(ws[..|ws| - 1], f);
      assert KeepFocus(f(ws[|ws| - 1]));
    }
  }

  lemma {:induction false} ClosesKeepFocus(s: Wm, close: seq<nat>)
    ensures KeepFocus(CloseRequests(s, close))
  {
    if close != [] {
      ClosesKeepFocus(s, close[..|close| - 1]);
    }
  }

  lemma ConcatKeepsFocus(a: seq<Request>, b: seq<Request>)
    requires KeepFocus(a) && KeepFocus(b)
    ensures KeepFocus(a + b)
  {
  }

  lemma HidesKeepFocus(ws: seq<Window>)
    ensures KeepFocus(Gather(ws, (w: Window) => [Hide(w.id)]))
  {
    GatheredKeepsFocus(ws, (w: Window) => [Hide(w.id)]);
  }

  lemma SyncsKeepFocus(s: Wm, c: Config, ws: seq<Window>)
    ensures KeepFocus(Gather(ws, w => SyncRequests(s, c, w)))
  {
    forall w ensures KeepFocus(SyncRequests(s, c, w)) { }
    hide SyncRequests, KeepFocus;
    GatheredKeepsFocus(ws, w => SyncRequests(s, c, w));
  }

  lemma SizesKeepFocus(s: Wm, c: Config)
    ensures KeepFocus(SizeRequests(s, c))
  {
    hide AllTiles, Position;
    GatheredKeepsFocus(AllTiles(s, c), t => TileRequests(s, t));
    GatheredKeepsFocus(s.windows, FloatRequests);
    ConcatKeepsFocus(TileSizes(s, c), Gather(s.windows, FloatRequests));
  }

  lemma TilesKeepFocus(ws: seq<Window>)
    ensures KeepFocus(Gather(ws, TiledRequests))
  {
    GatheredKeepsFocus(ws, TiledRequests);
  }

  /** The parts of a manage pass: what comes before and after the request for keyboard focus. */
  ghost function BeforeFocus(s: Wm, c: Config, close: seq<nat>): seq<Request> {
    var r := RefocusAll(s);
    Gather(r.windows, (w: Window) => [Hide(w.id)]) + CloseRequests(r, close)
    + Gather(r.windows, w => SyncRequests(r, c, w))
  }

  ghost function AfterFocus(t: Wm, c: Config): seq<Request> {
    SizeRequests(t, c) + Gather(t.windows, TiledRequests)
  }

  lemma AroundFocus(s: Wm, c: Config, close: seq<nat>)
    requires s.focused.Some? ==> s.focused.value < |s.outputs|
    ensures var t := Synced(RefocusAll(s), c);
      && (t.focused.Some? ==> t.focused.value < |t.outputs|)
      && ManageRequests(s, c, close) == BeforeFocus(s, c, close) + [FocusRequest(t)] + AfterFocus(t, c)
      && KeepFocus(BeforeFocus(s, c, close)) && KeepFocus(AfterFocus(t, c))
  {
    var r := RefocusAll(s);
    RefocusAllFrame(s, |s.outputs|);
    var t := Synced(r, c);
    hide RefocusAll, RefocusUpTo, Gather, CloseRequests, FocusTarget, SyncRequests, SizeRequests, TiledRequests,
        Synced, KeepFocus;
    HidesKeepFocus(r.windows);
    ClosesKeepFocus(r, close);
    SyncsKeepFocus(r, c, r.windows);
    SizesKeepFocus(t, c);
    TilesKeepFocus(t.windows);
    ConcatKeepsFocus(Gather(r.windows, (w: Window) => [Hide(w.id)]), CloseRequests(r, close));
    ConcatKeepsFocus(Gather(r.windows, (w: Window) => [Hide(w.id)]) + CloseRequests(r, close),
                     Gather(r.windows, w => SyncRequests(r, c, w)));
    ConcatKeepsFocus(SizeRequests(t, c), Gather(t.windows, TiledRequests));
  }

  /** The focus the state asks for: on the active output the window focused before, if still shown, or else
      the first shown; none exactly when that output shows nothing, or there is no output. */
  ghost predicate FocusFits(s: Wm, f: Option<nat>) {
    var i := if s.focused.Some? then s.focused.value else 0;
    if i >= |s.outputs| then f == None
    else
      && (FocusShown(s, i) ==> f == s.outputs[i].focusedWindow)
      && (forall k :: 0 <= k < |s.windows| && FirstShownIs(s, i, k) && !FocusShown(s, i) ==> f == Some(s.windows[k].id))
      && (f == None <==> forall k :: 0 <= k < |s.windows| ==> !s.ShownBy(i, s.windows[k]))
  }

  /** A manage pass leaves keyboard focus where the state asks for it, whatever had it before. */
  lemma FocusServed(s: Wm, c: Config, close: seq<nat>, v: Compositor)
    requires DistinctIds(s) && (s.focused.Some? ==> s.focused.value < |s.outputs|)
    ensures FocusFits(s, ServeAll(v, ManageRequests(s, c, close)).focus)
  {
    hide *;
    AroundFocus(s, c, close);
    var t := Synced(RefocusAll(s), c);
    var before, q, after := BeforeFocus(s, c, close), FocusRequest(t), AfterFocus(t, c);
    RequestFocuses(t, ServeAll(v, before));
    ServeAppend(v, before + [q], after);
    ServeAppend(v, before, [q]);
    PassProofs.ServeOne(ServeAll(v, before), q);
    FocusKept(ServeAll(v, before + [q]), after);
    TargetFits(s, c);
  }

  lemma RequestFocuses(t: Wm, v: Compositor)
    requires t.focused.Some? ==> t.focused.value < |t.outputs|
    ensures Serve(v, FocusRequest(t)).focus == FocusTarget(t)
  {
    hide FocusTarget;
  }

  lemma TargetFits(s: Wm, c: Config)
    requires DistinctIds(s) && (s.focused.Some? ==> s.focused.value < |s.outputs|)
    ensures var t := Synced(RefocusAll(s), c);
      (t.focused.Some? ==> t.focused.value < |t.outputs|) && FocusFits(s, FocusTarget(t))
  {
    RefocusAllFrame(s, |s.outputs|);
    var r := RefocusAll(s);
    var t := Synced(r, c);
    assert s.ActiveOutput().Some? <==> s.outputs != [];
    assert s.outputs == [] ==> FocusTarget(r) == None;
    hide *;
    SyncKeepsIds(r, c);
    SameTarget(r, t);
    if s.outputs != [] {
      ActiveIs(s);
      PassProofs.MinimizedFocusExactly(s);
      CandidateFits(s, FocusTarget(r));
    } else {
      NoFocusFits(s);
    }
  }

  lemma ActiveIs(s: Wm)
    requires s.outputs != []
    ensures s.ActiveOutput() == Some(if s.focused.Some? then s.focused.value else 0)
  {
  }

  lemma NoFocusFits(s: Wm)
    requires s.outputs == [] && s.focused.None?
    ensures FocusFits(s, None)
  {
  }

  lemma CandidateFits(s: Wm, f: Option<nat>)
    requires DistinctIds(s) && s.ActiveOutput().Some? && s.ActiveOutput().value < |s.outputs| && s.outputs != []
    requires var k := PassProofs.FocusCandidate(s, s.ActiveOutput().value);
      f == if k.Some? then Some(s.windows[k.value].id) else None
    ensures FocusFits(s, f)
  {
    var i := s.ActiveOutput().value;
    ActiveIs(s);
    var p := (w: Window) => s.ShownBy(i, w);
    PositionCongruent(s.windows, p, (w: Window) => s.ShownBy(i, w));
    KeepsFocusIs(s, i);
    assert KeepsFocus(s, i) ==> s.ShownBy(i, s.windows[s.FindWindow(s.outputs[i].focusedWindow.value).value]);
    assert forall k :: 0 <= k < |s.windows| ==> p(s.windows[k]) == s.ShownBy(i, s.windows[k]);
    hide s.ShownBy, FocusShown, DistinctIds;
  }

  lemma SyncKeepsIds(s: Wm, c: Config)
    ensures var t := Synced(s, c);
      && t == s.(windows := t.windows) && |t.windows| == |s.windows|
      && forall k :: 0 <= k < |s.windows| ==> t.windows[k].id == s.windows[k].id
  {
  }

  lemma SameTarget(r: Wm, t: Wm)
    requires t == r.(windows := t.windows) && |t.windows| == |r.windows|
    requires forall k :: 0 <= k < |r.windows| ==> t.windows[k].id == r.windows[k].id
    requires r.focused.Some? ==> r.focused.value < |r.outputs|
    ensures FocusTarget(t) == FocusTarget(r)
  {
    var o := r.ActiveOutput();
    if o.Some? && r.outputs[o.value].focusedWindow.Some? {
      CommandProofs.SameFound(r, t, r.outputs[o.value].focusedWindow.value);
    }
  }

  // ----- decoration, capabilities and fullscreen -----

  /** The output it was fullscreen on is gone, and the compositor has left fullscreen by itself. */
  predicate Lost(s: Wm, w: Window) {
    w.fullscreenApplied && s.TagOwner(w.tag).None? && s.outputs != []
  }

  /** A window is told whether it is fullscreen when that changes, and put on the output it is managed
      against; a request that no output can meet waits. */
  ghost predicate FullscreenTold(s: Wm, w: Window, x: Surface, y: Surface) {
    if Lost(s, w) then y.fullscreen == Some(false) && y.output == x.output
    else if w.fullscreen == w.fullscreenApplied then y.fullscreen == x.fullscreen && y.output == x.output
    else if !w.fullscreen then y.fullscreen == Some(false) && y.output == None
    else
      && (forall i: nat :: ManagedBy(s, w, i) ==>
            y.fullscreen == Some(true) && y.output == Some(s.outputs[i].uid))
      && ((forall i: nat :: !ManagedBy(s, w, i)) ==>
            y.fullscreen == x.fullscreen && y.output == x.output)
  }

  /** Capabilities and decoration mode are told once, and again when the mode changes. */
  ghost predicate SyncTold(s: Wm, c: Config, w: Window, x: Surface, y: Surface) {
    && y.capable == (x.capable || !w.capsSet)
    && y.ssd == (if w.ssdApplied == Some(c.useSsd) then x.ssd else Some(c.useSsd))
    && FullscreenTold(s, w, x, y)
  }

  lemma ManagedIs(s: Wm, w: Window)
    ensures var o := s.WindowOutput(w);
      if o.Some? && o.value < |s.outputs|
      then ManagedBy(s, w, o.value) && forall i: nat :: ManagedBy(s, w, i) ==> i == o.value
      else forall i: nat :: !ManagedBy(s, w, i)
  {
  }

  lemma FullscreenTells(s: Wm, w: Window, x: Surface)
    ensures var x1 := if LostOutput(s, w) then x.(fullscreen := Some(false)) else x;
      var y := Told(x1, SyncFullscreenRequests(s, w), w.id);
      y == x.(fullscreen := y.fullscreen, output := y.output) && FullscreenTold(s, w, x, y)
  {
    var x1 := if LostOutput(s, w) then x.(fullscreen := Some(false)) else x;
    var o := s.WindowOutput(w);
    ManagedIs(s, w);
    var uid := if o.Some? && o.value < |s.outputs| then s.outputs[o.value].uid else 0;
    ToldTwo(x1, ExitFullscreen(w.id), InformNotFullscreen(w.id), w.id);
    ToldTwo(x1, Fullscreen(w.id, uid), InformFullscreen(w.id), w.id);
    ToldOne(x1, ClearFocus, w.id);
    hide Told, ManagedBy;
  }

  lemma HeadTells(lost: bool, capsSet: bool, applied: Option<bool>, useSsd: bool, id: nat, x: Surface)
    ensures var a := if lost then [InformNotFullscreen(id)] else [];
      var b := if capsSet then [] else [SetCapabilities(id)];
      var d := if applied == Some(useSsd) then [] else [SetDecoration(id, useSsd)];
      Told(x, a + b + d, id)
      == x.(fullscreen := if lost then Some(false) else x.fullscreen, capable := x.capable || !capsSet,
            ssd := if applied == Some(useSsd) then x.ssd else Some(useSsd))
  {
    var a := if lost then [InformNotFullscreen(id)] else [];
    var b := if capsSet then [] else [SetCapabilities(id)];
    var d := if applied == Some(useSsd) then [] else [SetDecoration(id, useSsd)];
    hide Told;
    ToldOne(x, InformNotFullscreen(id), id);
    var x1 := Told(x, a, id);
    ToldOne(x1, SetCapabilities(id), id);
    var x2 := Told(x1, b, id);
    ToldOne(x2, SetDecoration(id, useSsd), id);
    ToldAppend(x, a, b, id);
    ToldAppend(x, a + b, d, id);
  }

  lemma SyncTells(s: Wm, c: Config, w: Window, x: Surface)
    ensures var y := Told(x, SyncRequests(s, c, w), w.id);
      && y == x.(capable := y.capable, ssd := y.ssd, fullscreen := y.fullscreen, output := y.output)
      && SyncTold(s, c, w, x, y)
  {
    var a := if LostOutput(s, w) then [InformNotFullscreen(w.id)] else [];
    var b := if w.capsSet then [] else [SetCapabilities(w.id)];
    var d := if w.ssdApplied == Some(c.useSsd) then [] else [SetDecoration(w.id, c.useSsd)];
    var base := x.(capable := x.capable || !w.capsSet,
                   ssd := if w.ssdApplied == Some(c.useSsd) then x.ssd else Some(c.useSsd));
    SyncParts(s, c, w, a + b + d);
    hide *;
    HeadTells(LostOutput(s, w), w.capsSet, w.ssdApplied, c.useSsd, w.id, x);
    FullscreenTells(s, w, base);
    ToldAppend(x, a + b + d, SyncFullscreenRequests(s, w), w.id);
    FullscreenFirst(s, c, w, x, base, Told(x, SyncRequests(s, c, w), w.id));
  }

  lemma SyncParts(s: Wm, c: Config, w: Window, head: seq<Request>)
    requires head == (if LostOutput(s, w) then [InformNotFullscreen(w.id)] else [])
                     + (if w.capsSet then [] else [SetCapabilities(w.id)])
                     + (if w.ssdApplied == Some(c.useSsd) then [] else [SetDecoration(w.id, c.useSsd)])
    ensures SyncRequests(s, c, w) == head + SyncFullscreenRequests(s, w)
  {
  }

  lemma FullscreenFirst(s: Wm, c: Config, w: Window, x: Surface, base: Surface, y: Surface)
    requires base == x.(capable := x.capable || !w.capsSet,
                        ssd := if w.ssdApplied == Some(c.useSsd) then x.ssd else Some(c.useSsd))
    requires y == base.(fullscreen := y.fullscreen, output := y.output) && FullscreenTold(s, w, base, y)
    ensures SyncTold(s, c, w, x, y)
  {
    hide ManagedBy;
  }

  lemma SyncsTell(s: Wm, c: Config, k: nat, x: Surface)
    requires DistinctIds(s) && k < |s.windows|
    ensures var y := Told(x, Gather(s.windows, w => SyncRequests(s, c, w)), s.windows[k].id);
      && y == x.(capable := y.capable, ssd := y.ssd, fullscreen := y.fullscreen, output := y.output)
      && SyncTold(s, c, s.windows[k], x, y)
  {
    var f, id := w => SyncRequests(s, c, w), s.windows[k].id;
    forall j | 0 <= j < |s.windows| && j != k ensures Silent(f(s.windows[j]), id) { }
    hide *;
    GatheredTells(s.windows, f, k, x, id);
    SyncTells(s, c, s.windows[k], x);
  }

  // ----- closing and tiled state -----

  lemma ClosesSnoc(s: Wm, close: seq<nat>)
    requires close != []
    ensures var front, last := close[..|close| - 1], close[|close| - 1];
      CloseRequests(s, close) == CloseRequests(s, front) + if s.FindWindow(last).Some? then [CloseWindow(last)] else []
    ensures forall id :: id in close <==> id in close[..|close| - 1] || id == close[|close| - 1]
  {
    assert close == close[..|close| - 1] + [close[|close| - 1]];
  }

  lemma {:induction false} ClosesTell(s: Wm, close: seq<nat>, k: nat, x: Surface)
    requires k < |s.windows|
    ensures Told(x, CloseRequests(s, close), s.windows[k].id) == x.(closing := x.closing || s.windows[k].id in close)
  {
    var id := s.windows[k].id;
    assert close == [] ==> Told(x, CloseRequests(s, close), id) == x;
    hide *;
    if close != [] {
      var front, last := close[..|close| - 1], close[|close| - 1];
      ClosesTell(s, front, k, x);
      ClosesSnoc(s, close);
      var more := if s.FindWindow(last).Some? then [CloseWindow(last)] else [];
      ToldAppend(x, CloseRequests(s, front), more, id);
      OneCloseTells(Told(x, CloseRequests(s, front), id), last, id);
    }
  }

  lemma OneCloseTells(x: Surface, last: nat, id: nat)
    ensures Told(x, [], id) == x
    ensures Told(x, [CloseWindow(last)], id) == x.(closing := x.closing || id == last)
  {
    ToldOne(x, CloseWindow(last), id);
    hide Told;
  }

  lemma TiledTells(w: Window, x: Surface)
    ensures var tiled := Some(!w.floating && !w.fullscreen);
      Told(x, TiledRequests(w), w.id) == x.(tiled := if w.tiledApplied == tiled then x.tiled else tiled)
  {
    ToldOne(x, SetTiled(w.id, IsTiled(w)), w.id);
    hide Told;
  }

  /** A window hears whether it is tiled when that changes. */
  lemma TiledsTell(t: Wm, k: nat, x: Surface)
    requires DistinctIds(t) && k < |t.windows|
    ensures var w := t.windows[k];
      var tiled := Some(!w.floating && !w.fullscreen);
      Told(x, Gather(t.windows, TiledRequests), w.id)
      == x.(tiled := if w.tiledApplied == tiled then x.tiled else tiled)
  {
    var w := t.windows[k];
    assert forall j :: 0 <= j < |t.windows| && j != k ==> t.windows[j].id != w.id;
    hide *;
    forall j | 0 <= j < |t.windows| && j != k ensures Silent(TiledRequests(t.windows[j]), w.id) {
      OwnSizeOnly(t.windows[j], w.id);
    }
    TiledTells(w, x);
    GatheredTells(t.windows, TiledRequests, k, x, w.id);
  }

  // ----- sizes -----

  /** What a tiled window knows once it has been asked for the size of tile `a`: a fullscreen one is only freed
      of its bounds, and an empty tile asks for nothing. */
  function Sized(w: Window, a: Area, x: Surface): Surface {
    if !NonEmpty(a) then x
    else if w.fullscreen then x.(bounds := Some((0, 0)))
    else x.(size := Some((a.width, a.height)), bounds := Some((a.width, a.height)))
  }

  /** The size a floating window is asked for, if it floats with a size. */
  function BoxSized(w: Window, x: Surface): Surface {
    if w.floating && w.floatW > 0 && w.floatH > 0
    then x.(size := Some((HintedSide(w.floatW, w.minW, w.maxW), HintedSide(w.floatH, w.minH, w.maxH))))
    else x
  }

  /** A window with a tile is asked for that size; a floating one for the size of its box, between its own
      limits; any other for none. */
  ghost predicate SizeTold(tiles: seq<Tile>, w: Window, x: Surface, y: Surface) {
    && (forall a :: (w.id, a) in tiles ==> y == Sized(w, a, x))
    && ((forall a :: (w.id, a) !in tiles) ==> y == BoxSized(w, x))
  }

  /** A hinted side lies between the limits, the maximum having the last word, and is only moved by them. */
  lemma HintedSideIs(side: nat, min: nat, max: nat)
    ensures var r := HintedSide(side, min, max);
      && (max > 0 ==> r <= max) && (max == 0 || min <= max ==> min <= r)
      && (r > side ==> r <= min) && (r < side ==> max > 0 && r == max)
  {
  }

  lemma TileTells(t: Wm, q: Tile, k: nat, x: Surface)
    requires DistinctIds(t) && k < |t.windows| && q.0 == t.windows[k].id
    ensures Told(x, TileRequests(t, q), q.0) == Sized(t.windows[k], q.1, x)
  {
    ToldOne(x, SetBounds(q.0, 0, 0), q.0);
    ToldTwo(x, SetBounds(q.0, q.1.width, q.1.height), Propose(q.0, q.1.width, q.1.height), q.0);
    hide Told;
  }

  lemma TilesTell(t: Wm, tiles: seq<Tile>, k: nat, x: Surface)
    requires DistinctIds(t) && k < |t.windows| && IdsDistinct(tiles)
    ensures var w := t.windows[k];
      var y := Told(x, Gather(tiles, q => TileRequests(t, q)), w.id);
      && (forall p :: 0 <= p < |tiles| && tiles[p].0 == w.id ==> y == Sized(w, tiles[p].1, x))
      && ((forall p :: 0 <= p < |tiles| ==> tiles[p].0 != w.id) ==> y == x)
  {
    var w, f := t.windows[k], q => TileRequests(t, q);
    forall p | 0 <= p < |tiles| && tiles[p].0 != w.id ensures Silent(f(tiles[p]), w.id) { }
    hide Silent, Told, Gather, TileRequests, Sized;
    if p :| 0 <= p < |tiles| && tiles[p].0 == w.id {
      TileTells(t, tiles[p], k, x);
      GatheredTells(tiles, f, p, x, w.id);
    } else {
      GatheredTellsNothing(tiles, f, x, w.id);
    }
  }

  lemma FloatTells(w: Window, x: Surface)
    ensures Told(x, FloatRequests(w), w.id) == BoxSized(w, x)
  {
    hide HintedSide;
    ToldOne(x, Propose(w.id, HintedSide(w.floatW, w.minW, w.maxW), HintedSide(w.floatH, w.minH, w.maxH)), w.id);
    hide Told;
  }

  /** What a window is told of its size and its tiled state concerns no other. */
  lemma OwnSizeOnly(w: Window, id: nat)
    requires w.id != id
    ensures Silent(FloatRequests(w), id) && Silent(TiledRequests(w), id)
  {
  }

  lemma FloatsTell(t: Wm, k: nat, x: Surface)
    requires DistinctIds(t) && k < |t.windows|
    ensures Told(x, Gather(t.windows, FloatRequests), t.windows[k].id) == BoxSized(t.windows[k], x)
  {
    var w := t.windows[k];
    assert forall j :: 0 <= j < |t.windows| && j != k ==> t.windows[j].id != w.id;
    hide *;
    forall j | 0 <= j < |t.windows| && j != k ensures Silent(FloatRequests(t.windows[j]), w.id) {
      OwnSizeOnly(t.windows[j], w.id);
    }
    FloatTells(w, x);
    GatheredTells(t.windows, FloatRequests, k, x, w.id);
  }

  lemma SizesTell(t: Wm, c: Config, k: nat, x: Surface)
    requires DistinctIds(t) && k < |t.windows|
    ensures SizeTold(AllTiles(t, c), t.windows[k], x, Told(x, SizeRequests(t, c), t.windows[k].id))
  {
    var tiles, id := AllTiles(t, c), t.windows[k].id;
    ListsEachVisibleWindowOnce(t, c);
    hide AllTiles, Told, Gather, TileRequests, FloatRequests, Sized, BoxSized;
    TilesTell(t, tiles, k, x);
    ToldAppend(x, TileSizes(t, c), Gather(t.windows, FloatRequests), id);
    FloatsTell(t, k, Told(x, TileSizes(t, c), id));
    assert forall a :: (id, a) in tiles ==> exists p :: 0 <= p < |tiles| && tiles[p].0 == id && tiles[p].1 == a;
    assert forall p :: 0 <= p < |tiles| && tiles[p].0 == id ==> (id, tiles[p].1) in tiles;
  }

  // ----- a whole manage pass -----

  /** What window `w` knows after a manage pass, beside what it knew before. */
  ghost predicate ManageTold(s: Wm, c: Config, close: seq<nat>, w: Window, x: Surface, y: Surface) {
    var now := w.(fullscreen := w.fullscreen && !Lost(s, w));
    var tiled := Some(!now.floating && !now.fullscreen);
    && y.position == x.position
    && y.closing == (x.closing || w.id in close)
    && SyncTold(s, c, w, x, y)
    && SizeTold(AllTiles(s, c), now, x, x.(size := y.size, bounds := y.bounds))
    && y.tiled == if w.tiledApplied == tiled then x.tiled else tiled
  }

  lemma {:induction false} HidesTellNothing(ws: seq<Window>, x: Surface, id: nat)
    ensures Told(x, Gather(ws, (w: Window) => [Hide(w.id)]), id) == x
  {
    var f := (w: Window) => [Hide(w.id)];
    forall j | 0 <= j < |ws| ensures Silent(f(ws[j]), id) { }
    hide *;
    GatheredTellsNothing(ws, f, x, id);
  }

  lemma FocusTellsNothing(q: Request, x: Surface, id: nat)
    requires q.FocusWindow? || q.ClearFocus?
    ensures Told(x, [q], id) == x
  {
    ToldOne(x, q, id);
    hide Told;
  }

  /** A synced window differs only in what was sent, and in a fullscreen flag that was lost. */
  predicate SyncedTo(s: Wm, w: Window, t: Window) {
    t == w.(fullscreen := w.fullscreen && !Lost(s, w), fullscreenApplied := t.fullscreenApplied,
            capsSet := true, ssdApplied := t.ssdApplied)
  }

  ghost predicate SyncedAs(s: Wm, t: Wm) {
    && t == s.(windows := t.windows, outputs := t.outputs) && SameLayoutInputs(s, t)
    && |t.windows| == |s.windows|
    && forall k :: 0 <= k < |s.windows| ==> SyncedTo(s, s.windows[k], t.windows[k])
  }

  lemma SyncedWindows(s: Wm, c: Config)
    ensures SyncedAs(s, Synced(RefocusAll(s), c))
  {
    var r := RefocusAll(s);
    RefocusAllFrame(s, |s.outputs|);
    hide RefocusAll, RefocusUpTo;
    var t := Synced(r, c);
    forall k | 0 <= k < |s.windows| ensures SyncedTo(s, s.windows[k], t.windows[k]) {
      SyncedWindow(s, r, c, s.windows[k]);
      assert t.windows[k] == SyncWindow(r, c, s.windows[k]);
      hide SyncWindow, SyncedTo;
    }
    hide Synced, Lost;
  }

  lemma SyncedWindow(s: Wm, r: Wm, c: Config, w: Window)
    requires r.tags == s.tags && |r.outputs| == |s.outputs|
    ensures SyncedTo(s, w, SyncWindow(r, c, w))
  {
    var f, lost := SyncFullscreenState(r, w), LostOutput(r, w);
    assert f == w.(fullscreen := w.fullscreen && !lost, fullscreenApplied := f.fullscreenApplied);
    assert lost == Lost(s, w);
    hide SyncFullscreenState, LostOutput, Lost;
  }

  lemma SyncToldSame(s: Wm, r: Wm, c: Config, w: Window, x: Surface, y: Surface)
    requires r.tags == s.tags && r.focused == s.focused && |r.outputs| == |s.outputs|
    requires forall i :: 0 <= i < |s.outputs| ==> r.outputs[i].uid == s.outputs[i].uid
    requires SyncTold(r, c, w, x, y)
    ensures SyncTold(s, c, w, x, y)
  {
    assert forall i: nat :: ManagedBy(s, w, i) <==> ManagedBy(r, w, i);
    hide ManagedBy;
  }

  lemma RefocusFrame(s: Wm)
    ensures var r := RefocusAll(s);
      && r.tags == s.tags && r.focused == s.focused && |r.outputs| == |s.outputs| && r.windows == s.windows
      && forall i :: 0 <= i < |s.outputs| ==> r.outputs[i].uid == s.outputs[i].uid
  {
    RefocusAllFrame(s, |s.outputs|);
    hide RefocusUpTo;
  }

  /** After a manage pass every window has been told what it was to be told, and nothing else. */
  lemma ManageServed(s: Wm, c: Config, close: seq<nat>, v: Compositor, k: nat)
    requires DistinctIds(s) && (s.focused.Some? ==> s.focused.value < |s.outputs|) && k < |s.windows|
    ensures var w := s.windows[k];
      ManageTold(s, c, close, w, SurfaceOf(v, w.id), SurfaceOf(ServeAll(v, ManageRequests(s, c, close)), w.id))
  {
    hide *;
    ServedTells(v, ManageRequests(s, c, close), s.windows[k].id);
    ManageTells(s, c, close, k, SurfaceOf(v, s.windows[k].id));
  }

  lemma ManageTells(s: Wm, c: Config, close: seq<nat>, k: nat, x: Surface)
    requires DistinctIds(s) && (s.focused.Some? ==> s.focused.value < |s.outputs|) && k < |s.windows|
    ensures ManageTold(s, c, close, s.windows[k], x, Told(x, ManageRequests(s, c, close), s.windows[k].id))
  {
    hide *;
    var t, id := Synced(RefocusAll(s), c), s.windows[k].id;
    AroundFocus(s, c, close);
    var before, q := BeforeFocus(s, c, close), FocusRequest(t);
    ToldAppend(x, before + [q], AfterFocus(t, c), id);
    ToldAppend(x, before, [q], id);
    FocusIsFocus(t);
    FocusTellsNothing(q, Told(x, before, id), id);
    BeforeTells(s, c, close, k, x);
    SyncedWindows(s, c);
    AfterTells(s, t, c, k, Told(x, before, id));
    ToldTogether(s, c, close, s.windows[k], x, Told(x, before, id), Told(x, ManageRequests(s, c, close), id));
  }

  lemma FocusIsFocus(t: Wm)
    requires t.focused.Some? ==> t.focused.value < |t.outputs|
    ensures FocusRequest(t).FocusWindow? || FocusRequest(t).ClearFocus?
  {
  }

  lemma BeforeTells(s: Wm, c: Config, close: seq<nat>, k: nat, x: Surface)
    requires DistinctIds(s) && k < |s.windows|
    ensures var w := s.windows[k];
      var y := Told(x, BeforeFocus(s, c, close), w.id);
      && y == x.(capable := y.capable, ssd := y.ssd, fullscreen := y.fullscreen, output := y.output,
                 closing := x.closing || w.id in close)
      && SyncTold(s, c, w, x, y)
  {
    var r, w := RefocusAll(s), s.windows[k];
    var hides, closes := Gather(r.windows, (w: Window) => [Hide(w.id)]), CloseRequests(r, close);
    var syncs := Gather(r.windows, w => SyncRequests(r, c, w));
    assert BeforeFocus(s, c, close) == hides + closes + syncs;
    RefocusFrame(s);
    assert DistinctIds(r);
    hide *;
    HidesTellNothing(r.windows, x, w.id);
    ClosesTell(r, close, k, x);
    var x1 := x.(closing := x.closing || w.id in close);
    SyncsTell(r, c, k, x1);
    ToldAppend(x, hides, closes, w.id);
    ToldAppend(x, hides + closes, syncs, w.id);
    SyncToldSame(s, r, c, w, x1, Told(x1, syncs, w.id));
    ClosingAside(s, c, w, x, x1, Told(x1, syncs, w.id));
  }

  lemma ClosingAside(s: Wm, c: Config, w: Window, x: Surface, x1: Surface, y: Surface)
    requires x1 == x.(closing := x1.closing) && SyncTold(s, c, w, x1, y)
    ensures SyncTold(s, c, w, x, y)
  {
  }

  lemma AfterTells(s: Wm, t: Wm, c: Config, k: nat, x: Surface)
    requires DistinctIds(s) && SyncedAs(s, t) && k < |s.windows|
    ensures var w := s.windows[k].(fullscreen := s.windows[k].fullscreen && !Lost(s, s.windows[k]));
      var y := Told(x, AfterFocus(t, c), w.id);
      var tiled := Some(!w.floating && !w.fullscreen);
      && SizeTold(AllTiles(s, c), w, x, y.(tiled := x.tiled))
      && y.tiled == if w.tiledApplied == tiled then x.tiled else tiled
  {
    var id, w2 := s.windows[k].id, t.windows[k];
    assert DistinctIds(t) && w2.id == id;
    SameLayout(s, t, c);
    hide AllTiles, Told, Gather, SizeRequests, SizeTold, Lost;
    SizesTell(t, c, k, x);
    ToldAppend(x, SizeRequests(t, c), Gather(t.windows, TiledRequests), id);
    TiledsTell(t, k, Told(x, SizeRequests(t, c), id));
    var y := Told(x, AfterFocus(t, c), id);
    SizeToldSame(AllTiles(s, c), w2, s.windows[k].(fullscreen := w2.fullscreen), x, Told(x, SizeRequests(t, c), id));
    TiledKept(AllTiles(s, c), w2, x, Told(x, SizeRequests(t, c), id));
  }

  lemma SizeToldSame(tiles: seq<Tile>, a: Window, b: Window, x: Surface, y: Surface)
    requires SizeTold(tiles, a, x, y)
    requires a == b.(fullscreenApplied := a.fullscreenApplied, capsSet := a.capsSet, ssdApplied := a.ssdApplied)
    ensures SizeTold(tiles, b, x, y)
  {
    hide HintedSide;
  }

  lemma TiledKept(tiles: seq<Tile>, w: Window, x: Surface, y: Surface)
    requires SizeTold(tiles, w, x, y)
    ensures y == x.(size := y.size, bounds := y.bounds)
  {
    if a :| (w.id, a) in tiles {
      assert y == Sized(w, a, x);
    }
    hide HintedSide;
  }

  lemma ToldTogether(s: Wm, c: Config, close: seq<nat>, w: Window, x: Surface, m: Surface, y: Surface)
    requires m == x.(capable := m.capable, ssd := m.ssd, fullscreen := m.fullscreen, output := m.output,
                     closing := x.closing || w.id in close)
    requires SyncTold(s, c, w, x, m)
    requires var now := w.(fullscreen := w.fullscreen && !Lost(s, w));
      var tiled := Some(!now.floating && !now.fullscreen);
      && SizeTold(AllTiles(s, c), now, m, y.(tiled := m.tiled))
      && y.tiled == if now.tiledApplied == tiled then m.tiled else tiled
    ensures ManageTold(s, c, close, w, x, y)
  {
    hide AllTiles, Lost, ManagedBy;
    var now := w.(fullscreen := w.fullscreen && !Lost(s, w));
    TiledKept(AllTiles(s, c), now, m, y.(tiled := m.tiled));
    SizeElsewhere(AllTiles(s, c), now, m, y.(tiled := m.tiled), x);
    hide SizeTold;
  }

  /** Sizes are told whatever else the window knows. */
  lemma SizeElsewhere(tiles: seq<Tile>, w: Window, x: Surface, y: Surface, x2: Surface)
    requires SizeTold(tiles, w, x, y) && x2.size == x.size && x2.bounds == x.bounds
    ensures SizeTold(tiles, w, x2, x2.(size := y.size, bounds := y.bounds))
  {
    hide HintedSide;
  }

  // ----- a whole render pass -----

  /** Where a window is put: a fullscreen one at the origin, a floating one where its box is, a tiled one where
      its tile is. A hidden one is left where it was. */
  ghost predicate PositionTold(s: Wm, c: Config, w: Window, before: Option<(int, int)>, after: Option<(int, int)>) {
    if w.minimized || !s.IsVisible(w) then after == before
    else if w.fullscreen then after == Some((0, 0))
    else if w.floating then after == Some((w.floatX, w.floatY))
    else
      && (exists a :: (w.id, a) in AllTiles(s, c))
      && forall a :: (w.id, a) in AllTiles(s, c) ==> after == Some((a.x, a.y))
  }

  function PutAt(s: Wm, c: Config, w: Window, before: Option<(int, int)>): Option<(int, int)> {
    if !w.node then before
    else match PlacementOf(s, c, w)
      case Hidden => before
      case Full => Some((0, 0))
      case At(g) => Some((g.x, g.y))
  }

  lemma PlaceTells(s: Wm, c: Config, w: Window, x: Surface)
    ensures Told(x, PlaceWindow(s, c, w), w.id) == x.(position := PutAt(s, c, w, x.position))
  {
    var p, id := PlacementOf(s, c, w), w.id;
    ToldOne(x, Hide(id), id);
    ToldOne(x, Show(id), id);
    if w.node && !p.Hidden? {
      var at := if p.Full? then SetPosition(id, 0, 0) else SetPosition(id, p.geom.x, p.geom.y);
      ToldTwo(x, at, PlaceTop(id), id);
      ToldAppend(x, [at, PlaceTop(id)], [Show(id)], id);
      ToldOne(Answer(x, at), Show(id), id);
      hide Told, PlacementOf;
    }
    assert [] + [Show(id)] == [Show(id)];
    hide Told, PlacementOf;
  }

  lemma PlacesTell(r: Wm, c: Config, k: nat, x: Surface)
    requires DistinctIds(r) && k < |r.windows|
    ensures var w := r.windows[k];
      Told(x, PlaceRequests(r, c), w.id) == Told(x, PlaceWindow(r, c, w), w.id)
  {
    var w, ws, f := r.windows[k], PlacementOrder(r, c), w => PlaceWindow(r, c, w);
    PlacementProofs.PlacementOrderDiffers(r, c);
    var at :| 0 <= at < |ws| && ws[at] == w;
    assert forall j :: 0 <= j < |ws| && j != at ==> ws[j].id != w.id;
    hide *;
    forall j | 0 <= j < |ws| && j != at ensures Silent(f(ws[j]), w.id) { PlaceSilent(r, c, ws[j], w.id); }
    GatheredTells(ws, f, at, x, w.id);
    PlaceRequestsAre(r, c);
  }

  lemma PlaceRequestsAre(r: Wm, c: Config)
    ensures PlaceRequests(r, c) == Gather(PlacementOrder(r, c), w => PlaceWindow(r, c, w))
  {
    hide PlacementOrder, PlaceWindow, Gather;
  }

  lemma PlaceSilent(s: Wm, c: Config, w: Window, id: nat)
    requires w.id != id
    ensures Silent(PlaceWindow(s, c, w), id)
  {
    hide PlacementOf;
  }

  lemma ReleasesTellNothing(s: Wm, x: Surface, id: nat)
    ensures Told(x, ReleaseRequests(s), id) == x
  {
    var f := (w: Window) => if !ActiveSomewhere(s, w.tag) && w.node then [DestroyNode(w.id)] else [];
    forall j | 0 <= j < |s.windows| ensures Silent(f(s.windows[j]), id) { }
    hide Silent, Told, ActiveSomewhere;
    GatheredTellsNothing(s.windows, f, x, id);
  }

  lemma GetsTellNothing(s: Wm, x: Surface, id: nat)
    ensures Told(x, GetNodeRequests(s), id) == x
  {
    var f := (w: Window) => if !w.node && s.IsVisible(w) then [GetNode(w.id)] else [];
    forall j | 0 <= j < |s.windows| ensures Silent(f(s.windows[j]), id) { }
    hide Silent, Told;
    GatheredTellsNothing(s.windows, f, x, id);
  }

  lemma PlacedRight(s: Wm, r: Wm, c: Config, k: nat, before: Option<(int, int)>)
    requires DistinctIds(r) && k < |r.windows| && SameLayoutInputs(s, r)
    requires r.IsVisible(r.windows[k]) ==> r.windows[k].node
    ensures PositionTold(s, c, r.windows[k], before, PutAt(r, c, r.windows[k], before))
  {
    var w, tiles := r.windows[k], AllTiles(s, c);
    SameLayout(s, r, c);
    SameSight(s, r, w);
    hide AllTiles, SameLayoutInputs;
    PlacementProofs.HiddenMeans(r, c, w);
    if r.IsVisible(w) && !w.minimized && !w.fullscreen {
      ListsEachVisibleWindowOnce(r, c);
      PlacementProofs.TileOrFloatBox(r, c, k);
      hide PlacementOf;
      if !w.floating {
        var p :| 0 <= p < |tiles| && tiles[p].0 == w.id && PlacementOf(r, c, w) == At(tiles[p].1);
        assert (w.id, tiles[p].1) in tiles;
        forall a | (w.id, a) in tiles ensures a == tiles[p].1 {
          var q :| 0 <= q < |tiles| && tiles[q] == (w.id, a);
          assert q == p;
        }
      }
    }
  }

  lemma SameSight(s: Wm, r: Wm, w: Window)
    requires SameLayoutInputs(s, r)
    ensures r.IsVisible(w) == s.IsVisible(w)
  {
  }

  lemma RenderedAs(s: Wm)
    ensures var r := RenderState(s); SameLayoutInputs(s, r) && (DistinctIds(s) ==> DistinctIds(r))
    ensures var r := RenderState(s);
      forall k :: 0 <= k < |r.windows| && r.IsVisible(r.windows[k]) ==> r.windows[k].node
  {
    PassProofs.RenderStateNodes(s);
    hide RenderState, ActiveSomewhere;
  }

  /** After a render pass every window is where it should be, wherever it was before, and has been told
      nothing else; keyboard focus stays. */
  lemma RenderServed(s: Wm, c: Config, v: Compositor, k: nat)
    requires DistinctIds(s) && k < |s.windows|
    ensures var r, u := RenderState(s), ServeAll(v, RenderRequests(s, c));
      && |r.windows| == |s.windows|
      && var w := r.windows[k];
      var x, y := SurfaceOf(v, w.id), SurfaceOf(u, w.id);
      y == x.(position := y.position) && PositionTold(s, c, w, x.position, y.position)
  {
    var r := RenderState(s);
    PassProofs.RenderStateNodes(s);
    var s1 := ReleaseHiddenNodes(s);
    var s2 := WithNodes(s1);
    var id := r.windows[k].id;
    var x := SurfaceOf(v, id);
    hide *;
    RenderedAs(s);
    ServedTells(v, RenderRequests(s, c), id);
    RenderParts(s, c, x, id);
    ReleasesTellNothing(s, x, id);
    GetsTellNothing(s1, x, id);
    ReleasesTellNothing(s2, x, id);
    PlacesTell(r, c, k, x);
    PlaceTells(r, c, r.windows[k], x);
    PlacedRight(s, r, c, k, x.position);
  }

  lemma RenderParts(s: Wm, c: Config, x: Surface, id: nat)
    ensures var s1 := ReleaseHiddenNodes(s);
      Told(x, RenderRequests(s, c), id)
      == Told(Told(Told(Told(x, ReleaseRequests(s), id), GetNodeRequests(s1), id),
              ReleaseRequests(WithNodes(s1)), id), PlaceRequests(RenderState(s), c), id)
  {
    var s1 := ReleaseHiddenNodes(s);
    var a, b, d, e := ReleaseRequests(s), GetNodeRequests(s1), ReleaseRequests(WithNodes(s1)),
                      PlaceRequests(RenderState(s), c);
    assert RenderRequests(s, c) == a + b + d + e;
    hide *;
    ToldAppend(x, a, b, id);
    ToldAppend(x, a + b, d, id);
    ToldAppend(x, a + b + d, e, id);
  }

  /** A render pass leaves keyboard focus alone. */
  lemma RenderKeepsFocus(s: Wm, c: Config, v: Compositor)
    ensures ServeAll(v, RenderRequests(s, c)).focus == v.focus
  {
    var s1 := ReleaseHiddenNodes(s);
    var s2 := WithNodes(s1);
    var a, b, d, e := ReleaseRequests(s), GetNodeRequests(s1), ReleaseRequests(s2), PlaceRequests(RenderState(s), c);
    assert RenderRequests(s, c) == a + b + d + e;
    hide *;
    ReleasesKeepFocus(s);
    GetsKeepFocus(s1);
    ReleasesKeepFocus(s2);
    PlacesKeepFocus(RenderState(s), c);
    ConcatKeepsFocus(a, b);
    ConcatKeepsFocus(a + b, d);
    ConcatKeepsFocus(a + b + d, e);
    FocusKept(v, RenderRequests(s, c));
  }

  lemma ReleasesKeepFocus(s: Wm)
    ensures KeepFocus(ReleaseRequests(s))
  {
    hide ActiveSomewhere;
    GatheredKeepsFocus(s.windows,
        (w: Window) => if !ActiveSomewhere(s, w.tag) && w.node then [DestroyNode(w.id)] else []);
  }

  lemma GetsKeepFocus(s: Wm)
    ensures KeepFocus(GetNodeRequests(s))
  {
    GatheredKeepsFocus(s.windows, (w: Window) => if !w.node && s.IsVisible(w) then [GetNode(w.id)] else []);
  }

  lemma PlacesKeepFocus(s: Wm, c: Config)
    ensures KeepFocus(PlaceRequests(s, c))
  {
    hide PlacementOrder, PlacementOf;
    GatheredKeepsFocus(PlacementOrder(s, c), w => PlaceWindow(s, c, w));
  }
}
