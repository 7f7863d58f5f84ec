/** What a manage pass and a render pass guarantee, from any state they may start in. */
module PassProofs {
  import opened Prelude
  import opened Desktop
  import opened Transitions
  import opened NormalizeProofs
  import opened Tiling
  import opened Passes

  // ----- focus -----

  lemma RefocusUpToStep(s: Wm, k: nat)
    requires k <= |s.outputs|
    ensures RefocusUpTo(s, 0) == s
    ensures k > 0 ==> RefocusUpTo(s, k) == Refocus(RefocusUpTo(s, k - 1), k - 1)
  {
    hide Refocus;
  }

  ghost predicate SettledUpTo(s: Wm, r: Wm, k: nat) {
    && |r.outputs| == |s.outputs| && k <= |s.outputs|
    && (forall i :: 0 <= i < k ==> FocusSettled(r, i))
    && (forall i :: 0 <= i < |s.outputs| && KeepsFocus(s, i) ==>
          KeepsFocus(r, i) && r.outputs[i].focusedWindow == s.outputs[i].focusedWindow)
  }

  lemma {:induction false} RefocusAllSettles(s: Wm, k: nat)
    requires k <= |s.outputs|
    ensures SettledUpTo(s, RefocusUpTo(s, k), k)
  {
    hide *;
    RefocusUpToStep(s, k);
    if k == 0 {
      NothingRefocused(s);
    } else {
      RefocusAllSettles(s, k - 1);
      OneMoreRefocused(s, RefocusUpTo(s, k - 1), k);
    }
  }

  lemma NothingRefocused(s: Wm)
    ensures SettledUpTo(s, s, 0)
  {
  }

  lemma KeptIsFixed(s: Wm, i: nat)
    requires i < |s.outputs|
    ensures KeepsFocus(s, i) ==> Refocus(s, i) == s
  {
  }

  lemma OneMoreRefocused(s: Wm, m: Wm, k: nat)
    requires k > 0 && SettledUpTo(s, m, k - 1) && k <= |s.outputs|
    ensures SettledUpTo(s, Refocus(m, k - 1), k)
  {
    hide Refocus, FocusSettled, KeepsFocus;
    RefocusSettles(m, k - 1);
    KeptIsFixed(m, k - 1);
    var r := Refocus(m, k - 1);
    forall i | 0 <= i < |s.outputs| && i != k - 1
      ensures FocusSettled(m, i) ==> FocusSettled(r, i)
      ensures KeepsFocus(m, i) ==> KeepsFocus(r, i)
    {
      OthersUnaffected(m, r, k - 1, i);
    }
  }

  /** Even with dangling window ids or windows sent elsewhere, each output ends up
      focusing a live window it shows, or nothing exactly when it shows nothing,
      and a focus that was still valid is kept. */
  lemma PassFocusSound(s: Wm)
    ensures var r := RefocusAll(s);
      && |r.outputs| == |s.outputs|
      && (forall i :: 0 <= i < |r.outputs| ==> FocusSound(r, i))
      && (forall i :: 0 <= i < |r.outputs| && KeepsFocus(s, i) ==>
          r.outputs[i].focusedWindow == s.outputs[i].focusedWindow)
  {
    RefocusAllSettles(s, |s.outputs|);
    forall i | 0 <= i < |s.outputs| ensures FocusSound(RefocusAll(s), i) {
      SettledIsSound(RefocusAll(s), i);
    }
  }

  /** The request for keyboard focus names a window the active output shows, and clears focus exactly when that
      output shows none, or there is no output. */
  lemma SeatFocusVisible(s: Wm)
    requires s.focused.Some? ==> s.focused.value < |s.outputs|
    ensures var r := RefocusAll(s);
      && (r.focused.Some? ==> r.focused.value < |r.outputs|)
      && (FocusRequest(r).FocusWindow? ==>
            r.outputs != [] && exists k :: 0 <= k < |r.windows| && r.windows[k].id == FocusRequest(r).id
                                           && r.ShownBy(r.ActiveOutput().value, r.windows[k]))
      && (FocusRequest(r) == ClearFocus <==>
            forall k :: 0 <= k < |r.windows| && r.outputs != [] ==>
              !r.ShownBy(r.ActiveOutput().value, r.windows[k]))
      && (FocusRequest(r) == ClearFocus || FocusRequest(r).FocusWindow?)
  {
    var r := RefocusAll(s);
    RefocusAllFrame(s, |s.outputs|);
    PassFocusSound(s);
    if r.outputs != [] {
      assert FocusSound(r, r.ActiveOutput().value);
    }
  }

  /** The window keyboard focus goes to: the one focused before the pass if its output still shows it,
      else the first one the output shows. */
  function FocusCandidate(s: Wm, i: nat): Option<nat>
    requires i < |s.outputs|
  {
    if KeepsFocus(s, i) then s.FindWindow(s.outputs[i].focusedWindow.value)
    else Position(s.windows, (w: Window) => s.ShownBy(i, w))
  }

  /** Minimizing plays no part in focus: a minimized window holds keyboard focus after a pass exactly when
      the candidate of the active output is minimized. */
  lemma MinimizedFocusExactly(s: Wm)
    requires DistinctIds(s) && s.ActiveOutput().Some? && s.ActiveOutput().value < |s.outputs|
    ensures var r, k := RefocusAll(s), FocusCandidate(s, s.ActiveOutput().value);
      && r.windows == s.windows && (r.focused.Some? ==> r.focused.value < |r.outputs|)
      && FocusTarget(r) == (if k.Some? then Some(s.windows[k.value].id) else None)
      && FocusRequest(r) == (if k.Some? then FocusWindow(s.windows[k.value].id) else ClearFocus)
      && ((FocusTarget(r).Some? && r.windows[r.FindWindow(FocusTarget(r).value).value].minimized)
          <==> (k.Some? && s.windows[k.value].minimized))
  {
    var i, r := s.ActiveOutput().value, RefocusAll(s);
    RefocusAllFrame(s, |s.outputs|);
    FocusAfterPass(s, |s.outputs|, i);
    hide RefocusAll;
    var k := FocusCandidate(s, i);
    if k.Some? {
      assert r.FindWindow(s.windows[k.value].id) == Some(k.value);
    }
  }

  /** The refocus loop sets each output's focus to its candidate. */
  lemma {:induction false} FocusAfterPass(s: Wm, n: nat, i: nat)
    requires i < n <= |s.outputs| && DistinctIds(s)
    ensures var k := FocusCandidate(s, i);
      RefocusUpTo(s, n).outputs[i].focusedWindow == if k.Some? then Some(s.windows[k.value].id) else None
  {
    hide *;
    RefocusUpToStep(s, n);
    RefocusAllFrame(s, n - 1);
    if i < n - 1 {
      FocusAfterPass(s, n - 1, i);
      RefocusesOne(RefocusUpTo(s, n - 1), n - 1, i);
    } else {
      CandidateFocused(s, RefocusUpTo(s, n - 1), i);
    }
  }

  lemma RefocusesOne(m: Wm, j: nat, i: nat)
    requires j < |m.outputs| && i < |m.outputs| && i != j
    ensures Refocus(m, j).outputs[i] == m.outputs[i]
  {
  }

  lemma CandidateFocused(s: Wm, m: Wm, i: nat)
    requires i < |s.outputs| == |m.outputs| && m.windows == s.windows && m.tags == s.tags &&
        m.outputs[i] == s.outputs[i]
    ensures var k := FocusCandidate(s, i);
      Refocus(m, i).outputs[i].focusedWindow == if k.Some? then Some(s.windows[k.value].id) else None
  {
    PositionCongruent(s.windows, (w: Window) => s.ShownBy(i, w), (w: Window) => m.ShownBy(i, w));
    assert KeepsFocus(m, i) == KeepsFocus(s, i);
  }

  // ----- the manage pass settles -----

  ghost predicate FocusInRange(s: Wm) {
    && (s.focused.Some? ==> s.focused.value < |s.outputs|)
    && (forall t :: 0 <= t < |s.tags| && s.tags[t].output.Some? ==> s.tags[t].output.value < |s.outputs|)
  }

  /** After a pass with an output present, every fullscreen flag has been applied. */
  lemma FullscreenApplied(s: Wm, c: Config, k: nat)
    requires FocusInRange(s) && s.outputs != [] && k < |s.windows|
    ensures |ManageState(s, c).windows| == |s.windows|
    ensures ManageState(s, c).windows[k].fullscreen == ManageState(s, c).windows[k].fullscreenApplied
  {
    var r := RefocusAll(s);
    RefocusAllFrame(s, |s.outputs|);
    SyncAppliesFullscreen(r, s.windows[k]);
    assert ManageState(s, c).windows[k] == TiledWindow(SyncWindow(r, c, s.windows[k]));
    hide RefocusAll, SyncFullscreenState;
  }

  lemma SyncAppliesFullscreen(r: Wm, w: Window)
    requires FocusInRange(r) && r.outputs != []
    ensures var w1 := SyncFullscreenState(r, w); w1.fullscreen == w1.fullscreenApplied && w1.tag == w.tag
    ensures SyncFullscreenState(r, w).fullscreen == (w.fullscreen && !LostOutput(r, w))
  {
    assert r.WindowOutput(w).Some? && r.WindowOutput(w).value < |r.outputs|;
  }

  /** A window asks for fullscreen but no output owns its tag. */
  predicate Unsettled(s: Wm, w: Window) {
    Untagged(s, w) && w.fullscreen && !w.fullscreenApplied
  }

  predicate Quiet(s: Wm, c: Config, w: Window) {
    SyncRequests(s, c, w) == [] && TiledRequests(SyncWindow(s, c, w)) == []
  }

  lemma NoChangesWhenQuiet(s: Wm, c: Config)
    ensures ChangeRequests(s, c) == [] <==> forall k :: 0 <= k < |s.windows| ==> Quiet(s, c, s.windows[k])
  {
    var t := Synced(s, c);
    GatherEmpty(s.windows, w => SyncRequests(s, c, w));
    GatherEmpty(t.windows, TiledRequests);
    assert forall k :: 0 <= k < |s.windows| ==> t.windows[k] == SyncWindow(s, c, s.windows[k]);
    hide SyncRequests, TiledRequests, SyncWindow;
  }

  /** A second pass over the result sends no fullscreen, capability, decoration or
      tiled request exactly when no window asks for fullscreen on an unowned tag. */
  lemma ManageSettles(s: Wm, c: Config)
    requires FocusInRange(s) && s.outputs != []
    ensures ChangeRequests(RefocusAll(ManageState(s, c)), c) == []
            <==> forall k :: 0 <= k < |s.windows| ==> !Unsettled(s, s.windows[k])
  {
    var r1 := RefocusAll(s);
    var m := ManageState(s, c);
    var r2 := RefocusAll(m);
    RefocusAllFrame(s, |s.outputs|);
    RefocusAllFrame(m, |m.outputs|);
    NoChangesWhenQuiet(r2, c);
    forall k | 0 <= k < |s.windows| ensures Quiet(r2, c, r2.windows[k]) <==> !Unsettled(s, s.windows[k]) {
      assert r2.windows[k] == TiledWindow(SyncWindow(r1, c, s.windows[k]));
      SecondPassOnWindow(s, r1, r2, c, s.windows[k]);
    }
    assert |r2.windows| == |s.windows|;
    hide *;
  }

  lemma SecondPassOnWindow(s: Wm, r1: Wm, r2: Wm, c: Config, w: Window)
    requires FocusInRange(s) && s.outputs != []
    requires r1.tags == s.tags && r1.focused == s.focused && |r1.outputs| == |s.outputs|
    requires r2.tags == s.tags && r2.focused == s.focused && |r2.outputs| == |s.outputs|
    ensures var w1 := TiledWindow(SyncWindow(r1, c, w));
      Quiet(r2, c, w1) <==> !Unsettled(s, w)
  {
    var w1 := TiledWindow(SyncWindow(r1, c, w));
    SyncAppliesFullscreen(r1, w);
    assert w1.fullscreen == w1.fullscreenApplied && w1.tag == w.tag && w1.capsSet && w1.ssdApplied == Some(c.useSsd);
    assert w1.fullscreen == (w.fullscreen && !LostOutput(r1, w));
    assert IsTiled(w1) == w1.tiledApplied.value;
    assert LostOutput(r2, w1) <==> Unsettled(s, w);
    QuietUnlessLost(r2, c, w1);
    hide *;
  }

  /** A window that is up to date is left alone unless its output was lost. */
  lemma QuietUnlessLost(s: Wm, c: Config, w: Window)
    requires w.fullscreen == w.fullscreenApplied && w.capsSet && w.ssdApplied == Some(c.useSsd)
    requires w.tiledApplied == Some(IsTiled(w))
    ensures Quiet(s, c, w) <==> !LostOutput(s, w)
  {
    if !LostOutput(s, w) {
      assert SyncWindow(s, c, w) == w;
    }
  }

  // ----- render nodes -----

  /** The client's and the server's idea of which windows have a node agree. */
  ghost predicate NodesAgree(s: Wm, v: Compositor) {
    && (forall k :: 0 <= k < |s.windows| ==> (s.windows[k].node <==> s.windows[k].id in v.nodes))
    && (forall id :: id in v.nodes ==> exists k :: 0 <= k < |s.windows| && s.windows[k].id == id)
  }

  /** Some window with this id is picked. */
  ghost predicate Picked(ws: seq<Window>, pick: Window -> bool, id: nat) {
    exists k :: 0 <= k < |ws| && ws[k].id == id && pick(ws[k])
  }

  lemma PickedLast(ws: seq<Window>, pick: Window -> bool, id: nat)
    requires ws != []
    ensures Picked(ws, pick, id) <==> Picked(ws[..|ws| - 1], pick, id) || (ws[|ws| - 1].id == id && pick(ws[|ws| - 1]))
  {
    if Picked(ws[..|ws| - 1], pick, id) {
      var k :| 0 <= k < |ws| - 1 && ws[..|ws| - 1][k].id == id && pick(ws[..|ws| - 1][k]);
      assert ws[k].id == id && pick(ws[k]);
    }
  }

  /** Destroying the nodes of the picked windows removes exactly those. */
  lemma {:induction false} ReleaseServed(ws: seq<Window>, f: Window -> seq<Request>, drop: Window -> bool,
      v: Compositor)
    requires forall k :: 0 <= k < |ws| ==> f(ws[k]) == if drop(ws[k]) then [DestroyNode(ws[k].id)] else []
    ensures var u := ServeAll(v, Gather(ws, f));
      && u.protocolError == v.protocolError && u.shown == v.shown
      && (forall id :: id in u.nodes <==> id in v.nodes && !Picked(ws, drop, id))
  {
    if ws != [] {
      var front, last := ws[..|ws| - 1], ws[|ws| - 1];
      ReleaseServed(front, f, drop, v);
      ServeAppend(v, Gather(front, f), f(last));
      ServeOne(ServeAll(v, Gather(front, f)), DestroyNode(last.id));
      forall id ensures Picked(ws, drop, id) <==> Picked(front, drop, id) || (last.id == id && drop(last)) {
        PickedLast(ws, drop, id);
      }
      hide Picked;
    }
  }

  lemma ServeOne(v: Compositor, q: Request)
    ensures ServeAll(v, [q]) == Serve(v, q)
  {
    assert [q][..0] == [];
    assert ServeAll(v, []) == v;
  }

  /** Asking for the nodes of the picked windows adds exactly those, without error. */
  lemma {:induction false} GetServed(ws: seq<Window>, f: Window -> seq<Request>, make: Window -> bool, v: Compositor)
    requires forall i, j :: 0 <= i < j < |ws| ==> ws[i].id != ws[j].id
    requires forall k :: 0 <= k < |ws| ==> f(ws[k]) == if make(ws[k]) then [GetNode(ws[k].id)] else []
    requires forall k :: 0 <= k < |ws| && make(ws[k]) ==> ws[k].id !in v.nodes
    ensures var u := ServeAll(v, Gather(ws, f));
      && u.protocolError == v.protocolError && u.shown == v.shown
      && (forall id :: id in u.nodes <==> id in v.nodes || Picked(ws, make, id))
  {
    if ws != [] {
      var front, last := ws[..|ws| - 1], ws[|ws| - 1];
      GetServed(front, f, make, v);
      ServeAppend(v, Gather(front, f), f(last));
      assert !Picked(front, make, last.id);
      ServeOne(ServeAll(v, Gather(front, f)), GetNode(last.id));
      forall id ensures Picked(ws, make, id) <==> Picked(front, make, id) || (last.id == id && make(last)) {
        PickedLast(ws, make, id);
      }
      hide Picked;
    }
  }

  /** Requests that only place and show windows leave the nodes alone. */
  lemma {:induction false} PlacingKeepsNodes(ws: seq<Window>, s: Wm, c: Config, v: Compositor)
    ensures var u := ServeAll(v, Gather(ws, w => PlaceWindow(s, c, w)));
      u.protocolError == v.protocolError && u.nodes == v.nodes
  {
    var f := w => PlaceWindow(s, c, w);
    if ws != [] {
      var front, last := ws[..|ws| - 1], ws[|ws| - 1];
      PlacingKeepsNodes(front, s, c, v);
      ServeAppend(v, Gather(front, f), f(last));
      PlaceServed(s, c, last, ServeAll(v, Gather(front, f)));
    }
  }

  /** What one window's placement does to the compositor. */
  lemma PlaceServed(s: Wm, c: Config, w: Window, v: Compositor)
    ensures var u := ServeAll(v, PlaceWindow(s, c, w));
      var hidden := PlacementOf(s, c, w).Hidden?;
      && u.protocolError == v.protocolError && u.nodes == v.nodes
      && u.shown == (if hidden then v.shown - {w.id} else v.shown + {w.id})
      && u.order == (if !hidden && w.node then Without(v.order, w.id) + [w.id] else v.order)
  {
    var p := PlacementOf(s, c, w);
    if p.Hidden? {
      ServeOne(v, Hide(w.id));
    } else {
      var at := if p.Full? then SetPosition(w.id, 0, 0) else SetPosition(w.id, p.geom.x, p.geom.y);
      var v1 := Serve(v, at);
      var v2 := Serve(v1, PlaceTop(w.id));
      ServeOne(v, at);
      ServeOne(v1, PlaceTop(w.id));
      ServeAppend(v, [at], [PlaceTop(w.id)]);
      assert [at, PlaceTop(w.id)] == [at] + [PlaceTop(w.id)];
      var before := if w.node then v2 else v;
      assert ServeAll(v, if w.node then [at, PlaceTop(w.id)] else []) == before;
      ServeAppend(v, if w.node then [at, PlaceTop(w.id)] else [], [Show(w.id)]);
      ServeOne(before, Show(w.id));
    }
  }

  /** A render pass never repeats `get_node`; afterwards every visible window has a
      node, every node belongs to a window whose tag is active on some output, and
      client and server still agree. */
  lemma RenderPassLegal(s: Wm, c: Config, v: Compositor)
    requires NodesAgree(s, v) && !v.protocolError && DistinctIds(s)
    ensures !ServeAll(v, RenderRequests(s, c)).protocolError &&
        NodesAgree(RenderState(s), ServeAll(v, RenderRequests(s, c)))
    ensures |RenderState(s).windows| == |s.windows|
    ensures forall k :: 0 <= k < |s.windows| ==>
              RenderState(s).windows[k] == s.windows[k].(node := s.IsVisible(s.windows[k])
                                             || (s.windows[k].node && ActiveSomewhere(s, s.windows[k].tag)))
  {
    RenderStateNodes(s);
    var s1 := ReleaseHiddenNodes(s);
    var s2 := WithNodes(s1);
    var r := RenderState(s);
    ReleaseStep(s, v);
    var v1 := ServeAll(v, ReleaseRequests(s));
    GetNodeStep(s1, v1);
    var v2 := ServeAll(v1, GetNodeRequests(s1));
    ReleaseStep(s2, v2);
    var v3 := ServeAll(v2, ReleaseRequests(s2));
    PlacingKeepsNodes(PlacementOrder(r, c), r, c, v3);
    RenderServed(s, c, v);
    assert r == ReleaseHiddenNodes(s2);
    SameNodesAgree(r, v3, ServeAll(v3, PlaceRequests(r, c)));
    hide *;
  }

  lemma SameNodesAgree(s: Wm, v: Compositor, u: Compositor)
    requires NodesAgree(s, v) && u.nodes == v.nodes
    ensures NodesAgree(s, u)
  {
  }

  lemma RenderServed(s: Wm, c: Config, v: Compositor)
    ensures var s1 := ReleaseHiddenNodes(s);
      var s2 := WithNodes(s1);
      ServeAll(v, RenderRequests(s, c))
      == ServeAll(ServeAll(ServeAll(ServeAll(v, ReleaseRequests(s)), GetNodeRequests(s1)), ReleaseRequests(s2)),
          PlaceRequests(RenderState(s), c))
  {
    var s1 := ReleaseHiddenNodes(s);
    var s2 := WithNodes(s1);
    var a, b, d, e := ReleaseRequests(s), GetNodeRequests(s1), ReleaseRequests(s2), PlaceRequests(RenderState(s), c);
    assert RenderRequests(s, c) == a + b + d + e;
    hide *;
    ServeAppend(v, a, b);
    ServeAppend(v, a + b, d);
    ServeAppend(v, a + b + d, e);
  }

  /** A render pass changes nothing but the node flags. */
  lemma RenderStateNodes(s: Wm)
    ensures |RenderState(s).windows| == |s.windows|
    ensures forall k :: 0 <= k < |s.windows| ==>
              RenderState(s).windows[k] == s.windows[k].(node := s.IsVisible(s.windows[k])
                                             || (s.windows[k].node && ActiveSomewhere(s, s.windows[k].tag)))
    ensures RenderState(s) == s.(windows := RenderState(s).windows)
  {
    forall k | 0 <= k < |s.windows|
      ensures RenderState(s).windows[k] == s.windows[k].(node := s.IsVisible(s.windows[k])
                                             || (s.windows[k].node && ActiveSomewhere(s, s.windows[k].tag)))
    {
      RenderStateNode(s, k);
    }
  }

  lemma RenderStateNode(s: Wm, k: nat)
    requires k < |s.windows|
    ensures |RenderState(s).windows| == |s.windows|
    ensures RenderState(s).windows[k] == s.windows[k].(node := s.IsVisible(s.windows[k])
                                             || (s.windows[k].node && ActiveSomewhere(s, s.windows[k].tag)))
  {
    var s1 := ReleaseHiddenNodes(s);
    var s2 := WithNodes(s1);
    var w := s.windows[k];
    NodeReleased(s, k);
    NodeTaken(s1, k);
    NodeReleased(s2, k);
    assert s1.IsVisible(s1.windows[k]) == s.IsVisible(w);
    assert s.IsVisible(w) ==> ActiveSomewhere(s, w.tag);
    hide ReleaseHiddenNodes, WithNodes, ActiveSomewhere;
  }

  lemma NodeReleased(s: Wm, k: nat)
    requires k < |s.windows|
    ensures var r, w := ReleaseHiddenNodes(s), s.windows[k];
      && r == s.(windows := r.windows) && |r.windows| == |s.windows|
      && r.windows[k] == w.(node := w.node && ActiveSomewhere(s, w.tag))
      && ActiveSomewhere(r, w.tag) == ActiveSomewhere(s, w.tag)
  {
  }

  lemma NodeTaken(s: Wm, k: nat)
    requires k < |s.windows|
    ensures var r, w := WithNodes(s), s.windows[k];
      && r == s.(windows := r.windows) && |r.windows| == |s.windows|
      && r.windows[k] == w.(node := w.node || s.IsVisible(w))
      && ActiveSomewhere(r, w.tag) == ActiveSomewhere(s, w.tag)
  {
  }

  lemma PickedExactly(s: Wm, pick: Window -> bool, k: nat)
    requires DistinctIds(s) && k < |s.windows|
    ensures Picked(s.windows, pick, s.windows[k].id) <==> pick(s.windows[k])
  {
  }

  lemma ReleaseStep(s: Wm, v: Compositor)
    requires NodesAgree(s, v) && DistinctIds(s)
    ensures var u := ServeAll(v, ReleaseRequests(s));
      NodesAgree(ReleaseHiddenNodes(s), u) && u.protocolError == v.protocolError && u.shown == v.shown
    ensures DistinctIds(ReleaseHiddenNodes(s))
  {
    var drop := (w: Window) => !ActiveSomewhere(s, w.tag) && w.node;
    var f := (w: Window) => if !ActiveSomewhere(s, w.tag) && w.node then [DestroyNode(w.id)] else [];
    ReleaseServed(s.windows, f, drop, v);
    assert ReleaseRequests(s) == Gather(s.windows, f);
    var r := ReleaseHiddenNodes(s);
    forall k | 0 <= k < |s.windows|
      ensures Picked(s.windows, drop, s.windows[k].id) <==> drop(s.windows[k])
      ensures r.windows[k].id == s.windows[k].id && (r.windows[k].node <==> s.windows[k].node && !drop(s.windows[k]))
    {
      PickedExactly(s, drop, k);
    }
    hide ReleaseRequests, ServeAll, ReleaseHiddenNodes, ActiveSomewhere, Picked;
  }

  lemma GetNodeStep(s: Wm, v: Compositor)
    requires NodesAgree(s, v) && DistinctIds(s)
    ensures var u := ServeAll(v, GetNodeRequests(s));
      NodesAgree(WithNodes(s), u) && u.protocolError == v.protocolError && u.shown == v.shown
    ensures DistinctIds(WithNodes(s))
  {
    var make := (w: Window) => !w.node && s.IsVisible(w);
    var f := (w: Window) => if !w.node && s.IsVisible(w) then [GetNode(w.id)] else [];
    GetServed(s.windows, f, make, v);
    assert GetNodeRequests(s) == Gather(s.windows, f);
    var r := WithNodes(s);
    forall k | 0 <= k < |s.windows|
      ensures Picked(s.windows, make, s.windows[k].id) <==> make(s.windows[k])
      ensures r.windows[k].id == s.windows[k].id && (r.windows[k].node <==> s.windows[k].node || make(s.windows[k]))
    {
      PickedExactly(s, make, k);
    }
    hide GetNodeRequests, ServeAll, WithNodes, Picked;
  }
}
