/** Placement and stacking order: what is drawn, where, and over what. */
module PlacementProofs {
  import opened Prelude
  import opened Desktop
  import opened Transitions
  import opened Tiling
  import opened Passes
  import opened PassProofs

  /** The loop that sorts windows into hidden, tiled and floating. */
  method ComputePlacements(s: Wm, c: Config) returns (r: seq<(nat, Placement)>)
    ensures r == Placements(s, c)
  {
    hide Filter, Position, PlacementOf, PlacementOrder, Group, AllTiles;
    var tiles := ComputeAll(s, c);
    GroupsStart(s, c);
    var hidden, tiled, floats := [], [], [];
    for k := 0 to |s.windows|
      invariant hidden == Placed(s, c, Group(s, c, k, 0))
      invariant tiled == Placed(s, c, Group(s, c, k, 1))
      invariant floats == Placed(s, c, Group(s, c, k, 2))
    {
      var w := s.windows[k];
      var p := Decide(s, c, tiles, w);
      GroupGrows(s, c, k);
      if p.Hidden? {
        hidden := hidden + [(w.id, p)];
      } else if w.floating {
        floats := floats + [(w.id, p)];
      } else {
        tiled := tiled + [(w.id, p)];
      }
    }
    GroupsComplete(s, c);
    r := hidden + tiled + floats;
  }

  method Decide(s: Wm, c: Config, tiles: seq<Tile>, w: Window) returns (p: Placement)
    requires tiles == AllTiles(s, c)
    ensures p == PlacementOf(s, c, w)
  {
    var cell := Position(tiles, (x: Tile) => x.0 == w.id);
    if w.minimized || !s.IsVisible(w) {
      p := Hidden;
    } else if w.fullscreen {
      p := Full;
    } else if cell.Some? {
      p := At(tiles[cell.value].1);
    } else {
      p := At(FloatBox(w));
    }
    PositionCongruent(tiles, (x: Tile) => x.0 == w.id, (t: Tile) => t.0 == w.id);
  }

  /** Members of a group among the first `k` windows. */
  function Group(s: Wm, c: Config, k: nat, group: nat): seq<Window>
    requires k <= |s.windows|
  {
    Filter(s.windows[..k], w => InGroup(s, c, w, group))
  }

  lemma GroupsStart(s: Wm, c: Config)
    ensures Group(s, c, 0, 0) == Group(s, c, 0, 1) == Group(s, c, 0, 2) == []
  {
  }

  lemma GroupGrows(s: Wm, c: Config, k: nat)
    requires k < |s.windows|
    ensures forall group :: 0 <= group < 3 ==>
              Placed(s, c, Group(s, c, k + 1, group))
              == Placed(s, c, Group(s, c, k, group))
                 + (if InGroup(s, c, s.windows[k], group)
                    then [(s.windows[k].id, PlacementOf(s, c, s.windows[k]))] else [])
  {
    assert s.windows[..k + 1][..k] == s.windows[..k];
  }

  lemma GroupsComplete(s: Wm, c: Config)
    ensures Placements(s, c)
            == Placed(s, c, Group(s, c, |s.windows|, 0)) + Placed(s, c, Group(s, c, |s.windows|, 1))
               + Placed(s, c, Group(s, c, |s.windows|, 2))
  {
    assert s.windows[..|s.windows|] == s.windows;
  }

  function Placed(s: Wm, c: Config, ws: seq<Window>): seq<(nat, Placement)> {
    Map(ws, (w: Window) => (w.id, PlacementOf(s, c, w)))
  }

  /** Every window is placed exactly once: hidden ones first, then tiled, then
      floating, and each group keeps the state's order. */
  lemma PlacementOrderPartitions(s: Wm, c: Config) returns (hidden: seq<nat>, tiled: seq<nat>, floats: seq<nat>)
    ensures multiset(PlacementOrder(s, c)) == multiset(s.windows)
    ensures |PlacementOrder(s, c)| == |hidden| + |tiled| + |floats|
    ensures KeptAt(s.windows, w => PlacementOf(s, c, w).Hidden?, PlacementOrder(s, c)[..|hidden|], hidden)
    ensures KeptAt(s.windows, w => !PlacementOf(s, c, w).Hidden? && !w.floating,
                   PlacementOrder(s, c)[|hidden|..|hidden| + |tiled|], tiled)
    ensures KeptAt(s.windows, w => !PlacementOf(s, c, w).Hidden? && w.floating,
                   PlacementOrder(s, c)[|hidden| + |tiled|..], floats)
  {
    var a, b, d := Filter(s.windows, w => InGroup(s, c, w, 0)), Filter(s.windows, w => InGroup(s, c, w, 1)),
                   Filter(s.windows, w => InGroup(s, c, w, 2));
    var h, t, f := w => PlacementOf(s, c, w).Hidden?, w => !PlacementOf(s, c, w).Hidden? && !w.floating,
                   w => !PlacementOf(s, c, w).Hidden? && w.floating;
    FilterCongruent(s.windows, w => InGroup(s, c, w, 0), h);
    FilterCongruent(s.windows, w => InGroup(s, c, w, 1), t);
    FilterCongruent(s.windows, w => InGroup(s, c, w, 2), f);
    hidden := FilterKeepsOrder(s.windows, h);
    tiled := FilterKeepsOrder(s.windows, t);
    floats := FilterKeepsOrder(s.windows, f);
    GroupsPartition(s.windows, h, t, f);
    assert PlacementOrder(s, c) == a + b + d;
    Slices(a, b, d);
    hide *;
  }

  lemma Slices<T>(a: seq<T>, b: seq<T>, d: seq<T>)
    ensures (a + b + d)[..|a|] == a && (a + b + d)[|a|..|a| + |b|] == b && (a + b + d)[|a| + |b|..] == d
    ensures multiset(a + b + d) == multiset(a) + multiset(b) + multiset(d)
  {
  }

  lemma GroupsPartition(ws: seq<Window>, h: Window -> bool, t: Window -> bool, f: Window -> bool)
    requires forall k :: 0 <= k < |ws| ==>
        t(ws[k]) == (!h(ws[k]) && !ws[k].floating) && f(ws[k]) == (!h(ws[k]) && ws[k].floating)
    ensures multiset(Filter(ws, h)) + multiset(Filter(ws, t)) + multiset(Filter(ws, f)) == multiset(ws)
  {
    var visible, floats, tiles := (w: Window) => !h(w), (w: Window) => w.floating, (w: Window) => !w.floating;
    var shown := Filter(ws, visible);
    FilterSplits(ws, h, visible);
    FilterSplits(shown, floats, tiles);
    FilterTwice(ws, visible, floats, f);
    FilterTwice(ws, visible, tiles, t);
    SumOfThree(multiset(Filter(ws, h)), multiset(Filter(ws, t)), multiset(Filter(ws, f)), multiset(shown),
        multiset(ws));
    hide *;
  }

  lemma SumOfThree<T>(a: multiset<T>, b: multiset<T>, d: multiset<T>, rest: multiset<T>, all: multiset<T>)
    requires a + rest == all && d + b == rest
    ensures a + b + d == all
  {
  }

  /** A shown tiled window always gets its tile, never the float box; a shown floating
      window gets its float box, never a tile. */
  lemma TileOrFloatBox(s: Wm, c: Config, j: nat)
    requires DistinctIds(s) && j < |s.windows|
    requires s.IsVisible(s.windows[j]) && !s.windows[j].minimized && !s.windows[j].fullscreen
    ensures var w := s.windows[j];
      if w.floating then PlacementOf(s, c, w) == At(FloatBox(w))
      else exists p :: 0 <= p < |AllTiles(s, c)| && AllTiles(s, c)[p].0 == w.id
                       && PlacementOf(s, c, w) == At(AllTiles(s, c)[p].1)
  {
    ListsEachVisibleWindowOnce(s, c);
    var w := s.windows[j];
    var k := Position(AllTiles(s, c), (t: Tile) => t.0 == w.id);
    assert k.Some? ==> AllTiles(s, c)[k.value].0 == w.id;
  }

  // ----- the render list -----

  predicate OnTop(s: Wm, c: Config, w: Window) {
    !PlacementOf(s, c, w).Hidden? && w.node
  }

  /** Ids of the windows of `ws` that are raised, in order. */
  function Raised(s: Wm, c: Config, ws: seq<Window>): seq<nat> {
    Map(Filter(ws, w => OnTop(s, c, w)), (w: Window) => w.id)
  }

  function Below(order: seq<nat>, top: seq<nat>): seq<nat> {
    Filter(order, id => id !in top)
  }

  ghost predicate IdsDiffer(ws: seq<Window>) {
    forall i, j :: 0 <= i < j < |ws| ==> ws[i].id != ws[j].id
  }

  lemma RaiseOne(order: seq<nat>, top: seq<nat>, id: nat)
    requires id !in top
    ensures Without(Below(order, top) + top, id) + [id] == Below(order, top + [id]) + (top + [id])
  {
    var other: nat -> bool := y => y != id;
    FilterAppend(Below(order, top), top, other);
    FilterAll(top, other);
    BelowMore(order, top, id, other);
    WithoutIs(Below(order, top) + top, id, other);
    hide Filter, Below;
  }

  lemma BelowIs(order: seq<nat>, top: seq<nat>, p: nat -> bool)
    requires forall k :: 0 <= k < |order| ==> p(order[k]) == (order[k] !in top)
    ensures Below(order, top) == Filter(order, p)
  {
    FilterCongruent(order, p, id => id !in top);
  }

  lemma BelowMore(order: seq<nat>, top: seq<nat>, id: nat, q: nat -> bool)
    requires forall y :: q(y) == (y != id)
    ensures Filter(Below(order, top), q) == Below(order, top + [id])
  {
    var p, both := (y: nat) => y !in top, (y: nat) => y !in top && y != id;
    BelowIs(order, top, p);
    FilterTwice(order, p, q, both);
    BelowIs(order, top + [id], both);
  }

  /** Placing windows one after another leaves the raised ones on top, in that order. */
  lemma {:induction false} PlacingStacks(ws: seq<Window>, s: Wm, c: Config, v: Compositor)
    requires IdsDiffer(ws)
    ensures var u := ServeAll(v, Gather(ws, w => PlaceWindow(s, c, w)));
      u.order == Below(v.order, Raised(s, c, ws)) + Raised(s, c, ws)
  {
    var f := w => PlaceWindow(s, c, w);
    if ws == [] {
      FilterAll(v.order, id => id !in Raised(s, c, ws));
    } else {
      var front, last := ws[..|ws| - 1], ws[|ws| - 1];
      PlacingStacks(front, s, c, v);
      ServeAppend(v, Gather(front, f), f(last));
      PlaceServed(s, c, last, ServeAll(v, Gather(front, f)));
      RaisedLast(s, c, ws);
      var top := Raised(s, c, front);
      if OnTop(s, c, last) {
        RaiseOne(v.order, top, last.id);
      }
      assert Gather(ws, f) == Gather(front, f) + f(last);
      hide *;
    }
  }

  lemma RaisedLast(s: Wm, c: Config, ws: seq<Window>)
    requires ws != [] && IdsDiffer(ws)
    ensures var front, last := ws[..|ws| - 1], ws[|ws| - 1];
      Raised(s, c, ws) == Raised(s, c, front) + (if OnTop(s, c, last) then [last.id] else [])
      && last.id !in Raised(s, c, front)
  {
    var kept := Filter(ws[..|ws| - 1], w => OnTop(s, c, w));
    forall k | 0 <= k < |kept| ensures kept[k].id != ws[|ws| - 1].id {
      assert kept[k] in ws[..|ws| - 1];
    }
  }

  /** Each placed window is shown unless hidden. */
  ghost predicate ShownRight(ws: seq<Window>, s: Wm, c: Config, shown: set<nat>) {
    forall k :: 0 <= k < |ws| ==> (ws[k].id in shown <==> !PlacementOf(s, c, ws[k]).Hidden?)
  }

  lemma {:induction false} PlacingShows(ws: seq<Window>, s: Wm, c: Config, v: Compositor)
    requires IdsDiffer(ws)
    ensures ShownRight(ws, s, c, ServeAll(v, Gather(ws, w => PlaceWindow(s, c, w))).shown)
  {
    var f := w => PlaceWindow(s, c, w);
    if ws != [] {
      var front, last := ws[..|ws| - 1], ws[|ws| - 1];
      assert Gather(ws, f) == Gather(front, f) + f(last);
      assert IdsDiffer(front);
      hide *;
      PlacingShows(front, s, c, v);
      ServeAppend(v, Gather(front, f), f(last));
      PlaceServed(s, c, last, ServeAll(v, Gather(front, f)));
      OneMoreShown(ws, s, c, ServeAll(v, Gather(front, f)).shown);
    }
  }

  lemma OneMoreShown(ws: seq<Window>, s: Wm, c: Config, shown: set<nat>)
    requires ws != [] && IdsDiffer(ws) && ShownRight(ws[..|ws| - 1], s, c, shown)
    ensures var last := ws[|ws| - 1];
      ShownRight(ws, s, c, if PlacementOf(s, c, last).Hidden? then shown - {last.id} else shown + {last.id})
  {
    hide PlacementOf;
    assert forall k :: 0 <= k < |ws| - 1 ==> ws[..|ws| - 1][k] == ws[k];
  }

  lemma PlacementOrderDiffers(s: Wm, c: Config)
    requires DistinctIds(s)
    ensures IdsDiffer(PlacementOrder(s, c))
    ensures forall j :: 0 <= j < |s.windows| ==> s.windows[j] in PlacementOrder(s, c)
  {
    var p0, p1, p2 := w => InGroup(s, c, w, 0), w => InGroup(s, c, w, 1), w => InGroup(s, c, w, 2);
    var a, b, d := Filter(s.windows, p0), Filter(s.windows, p1), Filter(s.windows, p2);
    FilteredIdsDistinct(s.windows, p0);
    FilteredIdsDistinct(s.windows, p1);
    FilteredIdsDistinct(s.windows, p2);
    assert PlacementOrder(s, c) == a + b + d;
    forall x | x in s.windows ensures x in a || x in b || x in d {
      assert p0(x) || p1(x) || p2(x);
    }
    forall k | 0 <= k < |a| ensures InGroup(s, c, a[k], 0) && a[k] in s.windows { assert p0(a[k]); }
    forall k | 0 <= k < |b| ensures InGroup(s, c, b[k], 1) && b[k] in s.windows { assert p1(b[k]); }
    forall k | 0 <= k < |d| ensures InGroup(s, c, d[k], 2) && d[k] in s.windows { assert p2(d[k]); }
    GroupsDiffer(s, c, a, b, d);
    hide *;
  }

  lemma GroupsDiffer(s: Wm, c: Config, a: seq<Window>, b: seq<Window>, d: seq<Window>)
    requires DistinctIds(s) && IdsDiffer(a) && IdsDiffer(b) && IdsDiffer(d)
    requires forall k :: 0 <= k < |a| ==> InGroup(s, c, a[k], 0) && a[k] in s.windows
    requires forall k :: 0 <= k < |b| ==> InGroup(s, c, b[k], 1) && b[k] in s.windows
    requires forall k :: 0 <= k < |d| ==> InGroup(s, c, d[k], 2) && d[k] in s.windows
    ensures IdsDiffer(a + b + d)
  {
    forall x: Window, y: Window | x in s.windows && y in s.windows && x.id == y.id ensures x == y { }
    hide PlacementOf, DistinctIds;
  }

  /** Ids of the windows drawn, in the order they are stacked. */
  function Drawn(s: Wm, c: Config): seq<nat> {
    Map(Filter(PlacementOrder(s, c), w => !PlacementOf(s, c, w).Hidden?), (w: Window) => w.id)
  }

  /** After a render pass the shown windows are exactly the visible, unminimised
      ones, and they are the top of the render list: tiled below floating, each
      group in state order, whatever the compositor's list was before. */
  lemma RenderStacksAndShows(s: Wm, c: Config, v: Compositor)
    requires DistinctIds(s)
    ensures var r, u := RenderState(s), ServeAll(v, RenderRequests(s, c));
      && |Drawn(r, c)| <= |u.order| && u.order[|u.order| - |Drawn(r, c)|..] == Drawn(r, c)
      && (forall j :: 0 <= j < |r.windows| ==>
            (r.windows[j].id in u.shown <==> r.IsVisible(r.windows[j]) && !r.windows[j].minimized))
  {
    hide *;
    RenderServed(s, c, v);
    var v3 := ServeAll(ServeAll(ServeAll(v, ReleaseRequests(s)), GetNodeRequests(ReleaseHiddenNodes(s))),
                       ReleaseRequests(WithNodes(ReleaseHiddenNodes(s))));
    RenderKeepsIds(s);
    AllShownHaveNodes(s, c);
    PlacementStacksAndShows(RenderState(s), c, v3);
  }

  lemma RenderKeepsIds(s: Wm)
    requires DistinctIds(s)
    ensures DistinctIds(RenderState(s))
  {
    RenderStateNodes(s);
    hide RenderState;
  }

  lemma PlacementStacksAndShows(r: Wm, c: Config, v: Compositor)
    requires DistinctIds(r)
    requires forall k :: 0 <= k < |PlacementOrder(r, c)| ==>
               OnTop(r, c, PlacementOrder(r, c)[k]) == !PlacementOf(r, c, PlacementOrder(r, c)[k]).Hidden?
    ensures var u := ServeAll(v, PlaceRequests(r, c));
      && |Drawn(r, c)| <= |u.order| && u.order[|u.order| - |Drawn(r, c)|..] == Drawn(r, c)
      && (forall j :: 0 <= j < |r.windows| ==>
            (r.windows[j].id in u.shown <==> r.IsVisible(r.windows[j]) && !r.windows[j].minimized))
  {
    var ws := PlacementOrder(r, c);
    hide PlacementOrder, PlaceWindow, ServeAll, Below, PlacementOf;
    PlacementOrderDiffers(r, c);
    PlacingStacks(ws, r, c, v);
    PlacingShows(ws, r, c, v);
    FilterCongruent(ws, w => OnTop(r, c, w), w => !PlacementOf(r, c, w).Hidden?);
    assert Raised(r, c, ws) == Drawn(r, c);
    var u := ServeAll(v, PlaceRequests(r, c));
    assert u.order == Below(v.order, Raised(r, c, ws)) + Raised(r, c, ws);
    forall j | 0 <= j < |r.windows|
      ensures r.windows[j].id in u.shown <==> r.IsVisible(r.windows[j]) && !r.windows[j].minimized
    {
      assert r.windows[j] in ws;
      HiddenMeans(r, c, r.windows[j]);
    }
    hide *;
  }

  lemma HiddenMeans(s: Wm, c: Config, w: Window)
    ensures PlacementOf(s, c, w).Hidden? <==> w.minimized || !s.IsVisible(w)
  {
  }

  lemma AllShownHaveNodes(s: Wm, c: Config)
    ensures var r := RenderState(s);
      forall k :: 0 <= k < |PlacementOrder(r, c)| ==>
        OnTop(r, c, PlacementOrder(r, c)[k]) == !PlacementOf(r, c, PlacementOrder(r, c)[k]).Hidden?
  {
    var r := RenderState(s);
    RenderStateNodes(s);
    hide RenderState, PlacementOf;
    forall k | 0 <= k < |PlacementOrder(r, c)|
      ensures OnTop(r, c, PlacementOrder(r, c)[k]) == !PlacementOf(r, c, PlacementOrder(r, c)[k]).Hidden?
    {
      var w := PlacementOrder(r, c)[k];
      assert w in r.windows;
      var j :| 0 <= j < |r.windows| && r.windows[j] == w;
      assert r.IsVisible(w) == s.IsVisible(s.windows[j]);
      HiddenMeans(r, c, w);
    }
  }
}
