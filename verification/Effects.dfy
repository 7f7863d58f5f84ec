/** What each protocol event changes, by value, and that it changes nothing else. */
module EffectProofs {
  import opened Prelude
  import opened Desktop
  import opened Transitions
  import NormalizeProofs
  import FloatingProofs
  import PassProofs
  import Passes
  import Refinement
  import Tiling
  import opened Invariant
  import opened Events
  import opened CommandProofs

  // ----- windows -----

  /** Closing takes out the window with the id and leaves every other one as it was, in the old order;
      an unknown id changes nothing. */
  lemma CloseEffect(s: Wm, id: nat) returns (at: seq<nat>)
    ensures var r := OnWindowClosed(s, id);
      && r == s.(windows := r.windows)
      && KeptAt(s.windows, (w: Window) => w.id != id, r.windows, at)
      && (forall k :: 0 <= k < |s.windows| && s.windows[k].id == id && Tiling.DistinctIds(s) ==>
            r.windows == s.windows[..k] + s.windows[k + 1..])
      && ((forall k :: 0 <= k < |s.windows| ==> s.windows[k].id != id) ==> r == s)
  {
    var p := (w: Window) => w.id != id;
    at := FilterKeepsOrder(s.windows, p);
    FilterCongruent(s.windows, p, (w: Window) => w.id != id);
    forall k | 0 <= k < |s.windows| && s.windows[k].id == id && Tiling.DistinctIds(s)
      ensures Filter(s.windows, p) == s.windows[..k] + s.windows[k + 1..]
    {
      FilterCuts(s.windows, p, k);
    }
    if forall k :: 0 <= k < |s.windows| ==> p(s.windows[k]) {
      FilterAll(s.windows, p);
    }
  }

  /** The window with the id becomes what `f` makes of it, and nothing else changes. */
  ghost predicate OnlyWindow(s: Wm, r: Wm, id: nat, f: Window -> Window) {
    && (forall k :: 0 <= k < |s.windows| && s.windows[k].id == id ==>
          r == s.(windows := s.windows[k := f(s.windows[k])]))
    && ((forall k :: 0 <= k < |s.windows| ==> s.windows[k].id != id) ==> r == s)
  }

  lemma UpdateEffect(s: Wm, id: nat, f: Window -> Window)
    requires Tiling.DistinctIds(s)
    ensures OnlyWindow(s, UpdateWindow(s, id, f), id, f)
  {
  }

  /** A window's own reports and requests change one thing about that window alone. */
  lemma WindowReports(s: Wm, c: Tiling.Config, id: nat)
    requires WellFormed(s)
    ensures forall title :: OnlyWindow(s, Next(s, WindowTitled(id, title), c), id, (w: Window) => w.(title := title))
    ensures forall on :: OnlyWindow(s, Next(s, FullscreenAsked(id, on), c), id, (w: Window) => w.(fullscreen := on))
    ensures OnlyWindow(s, Next(s, MinimizeAsked(id), c), id, (w: Window) => w.(minimized := true))
  {
  }

  lemma SizeHintStored(s: Wm, c: Tiling.Config, id: nat)
    requires WellFormed(s)
    ensures forall minW: nat, minH: nat, maxW: nat, maxH: nat ::
              OnlyWindow(s, Next(s, SizeHinted(id, minW, minH, maxW, maxH), c), id,
                         (w: Window) => w.(minW := minW, minH := minH, maxW := maxW, maxH := maxH))
  {
  }

  // ----- outputs -----

  /** With every active tag in order, normalizing is refocusing. */
  lemma {:induction false} NormalizeRefocuses(s: Wm, k: nat)
    requires k <= |s.outputs|
    requires forall i :: 0 <= i < |s.outputs| ==> NormalizeProofs.ActiveOk(s, i)
    ensures NormalizeUpTo(s, k) == RefocusUpTo(s, k)
  {
    hide *;
    NormalizeProofs.UpToStep(s, k);
    PassProofs.RefocusUpToStep(s, k);
    if k > 0 {
      NormalizeRefocuses(s, k - 1);
      var m := RefocusUpTo(s, k - 1);
      Passes.RefocusAllFrame(s, k - 1);
      NormalizeProofs.SameOk(s, m, k - 1);
      NothingReassigned(m, k - 1);
    }
  }

  lemma NothingReassigned(s: Wm, i: nat)
    requires i < |s.outputs| && NormalizeProofs.ActiveOk(s, i)
    ensures NormalizeOne(s, i) == Refocus(s, i)
  {
    assert Owns(s, i, s.outputs[i].activeTag) || (BestTag(s, i).None? && s.FreeTag().None?);
    hide Refocus;
  }

  /** `r` is `m` after a repair that found every active tag in order: focus falls on a shown window and stays
      where it was on one, floating windows are pulled inside, and nothing else changes. */
  ghost predicate Settled(m: Wm, r: Wm) {
    && |r.outputs| == |m.outputs| && |r.windows| == |m.windows|
    && r == m.(outputs := r.outputs, windows := r.windows)
    && (forall i :: 0 <= i < |m.outputs| ==>
          && r.outputs[i] == m.outputs[i].(focusedWindow := r.outputs[i].focusedWindow)
          && NormalizeProofs.FocusSound(r, i)
          && (KeepsFocus(m, i) ==> r.outputs[i] == m.outputs[i]))
    && (forall k :: 0 <= k < |m.windows| ==> FloatingProofs.Repaired(m, r, k))
  }

  /** `r` is `m` but for a focus that falls on a shown window, and stays where it was on one. */
  ghost predicate FocusSettles(m: Wm, r: Wm) {
    && |r.outputs| == |m.outputs| && r == m.(outputs := r.outputs)
    && forall i :: 0 <= i < |m.outputs| ==>
         && r.outputs[i] == m.outputs[i].(focusedWindow := r.outputs[i].focusedWindow)
         && NormalizeProofs.FocusSound(r, i)
         && (KeepsFocus(m, i) ==> r.outputs[i] == m.outputs[i])
  }

  lemma OrderlySettles(s: Wm)
    requires s.outputs != [] && s.focused.Some? && s.focused.value < |s.outputs|
    requires forall i :: 0 <= i < |s.outputs| ==> NormalizeProofs.ActiveOk(s, i)
    ensures FocusSettles(s, Normalize(s))
  {
    var n := Normalize(s);
    assert n == NormalizeUpTo(s, |s.outputs|);
    hide *;
    NormalizeRefocuses(s, |s.outputs|);
    PassProofs.PassFocusSound(s);
    Passes.RefocusAllFrame(s, |s.outputs|);
    assert Passes.RefocusAll(s) == n by { RefocusAllIs(s); }
    SettlesByParts(s, n);
  }

  lemma RefocusAllIs(s: Wm)
    ensures Passes.RefocusAll(s) == RefocusUpTo(s, |s.outputs|)
  {
    hide RefocusUpTo;
  }

  lemma SettlesByParts(s: Wm, n: Wm)
    requires |n.outputs| == |s.outputs| && n == s.(outputs := n.outputs)
    requires forall i :: 0 <= i < |s.outputs| ==>
               && n.outputs[i] == s.outputs[i].(focusedWindow := n.outputs[i].focusedWindow)
               && NormalizeProofs.FocusSound(n, i)
               && (KeepsFocus(s, i) ==> n.outputs[i].focusedWindow == s.outputs[i].focusedWindow)
    ensures FocusSettles(s, n)
  {
    hide KeepsFocus, NormalizeProofs.FocusSound;
  }

  lemma RepairSettles(s: Wm)
    requires s.outputs != [] && s.focused.Some? && s.focused.value < |s.outputs|
    requires forall i :: 0 <= i < |s.outputs| ==> NormalizeProofs.ActiveOk(s, i)
    ensures Settled(s, Repair(s))
  {
    assert Repair(s) == ClampFloating(Normalize(s));
    hide *;
    OrderlySettles(s);
    NormalizedThenClamped(s, Normalize(s), Repair(s));
  }

  lemma NormalizedThenClamped(s: Wm, n: Wm, r: Wm)
    requires FocusSettles(s, n) && r == ClampFloating(n)
    ensures Settled(s, r)
  {
    hide ClampFloating, KeepsFocus;
    FloatingProofs.ClampIsFrame(n);
    forall k | 0 <= k < |n.windows| ensures FloatingProofs.Repaired(s, r, k) {
      FloatingProofs.ClampRepairs(n, k);
    }
    forall i | 0 <= i < |s.outputs| ensures NormalizeProofs.FocusSound(r, i) {
      assert NormalizeProofs.FocusSound(n, i);
      hide FloatingProofs.Repaired;
    }
  }

  /** The output with the uid reports what `f` makes of it, after which the desk is settled; an unknown
      uid changes nothing. */
  ghost predicate OnlyOutput(s: Wm, r: Wm, uid: nat, f: Output -> Output) {
    && (forall i :: 0 <= i < |s.outputs| && s.outputs[i].uid == uid ==>
          Settled(s.(outputs := s.outputs[i := f(s.outputs[i])]), r))
    && ((forall i :: 0 <= i < |s.outputs| ==> s.outputs[i].uid != uid) ==> r == s)
  }

  lemma GeometryEffect(s: Wm, i: nat, o: Output)
    requires Inv(s) && i < |s.outputs| && o.activeTag == s.outputs[i].activeTag
    ensures Settled(s.SetOutput(i, o), Repair(s.SetOutput(i, o)))
  {
    var m := s.SetOutput(i, o);
    forall j | 0 <= j < |m.outputs| ensures NormalizeProofs.ActiveOk(m, j) {
      assert NormalizeProofs.ActiveOk(s, j);
    }
    hide *;
    RepairSettles(m);
  }

  /** An output's reports of its place and size are stored and the desk settled around them. */
  lemma OutputReports(s: Wm, c: Tiling.Config, uid: nat, x: int, y: int, w: nat, h: nat)
    requires Inv(s)
    ensures OnlyOutput(s, Next(s, OutputMoved(uid, x, y), c), uid, (o: Output) => o.(x := x, y := y))
    ensures OnlyOutput(s, Next(s, OutputResized(uid, w, h), c), uid, (o: Output) => o.(width := w, height := h))
    ensures OnlyOutput(s, Next(s, UsableArea(uid, x, y, w, h), c), uid,
                       (o: Output) => o.(usableX := x, usableY := y, usableW := w, usableH := h))
  {
    hide Repair, Settled;
    forall i | 0 <= i < |s.outputs| && s.outputs[i].uid == uid
      ensures s.FindOutput(uid) == Some(i)
      ensures var o := s.outputs[i].(x := x, y := y); Settled(s.SetOutput(i, o), Repair(s.SetOutput(i, o)))
      ensures var o := s.outputs[i].(width := w, height := h); Settled(s.SetOutput(i, o), Repair(s.SetOutput(i, o)))
      ensures var o := s.outputs[i].(usableX := x, usableY := y, usableW := w, usableH := h);
        Settled(s.SetOutput(i, o), Repair(s.SetOutput(i, o)))
    {
      GeometryEffect(s, i, s.outputs[i].(x := x, y := y));
      GeometryEffect(s, i, s.outputs[i].(width := w, height := h));
      GeometryEffect(s, i, s.outputs[i].(usableX := x, usableY := y, usableW := w, usableH := h));
    }
    hide Inv;
  }

  /** A name is stored on the output with the uid, and nothing else changes. */
  lemma OutputNamedEffect(s: Wm, c: Tiling.Config, uid: nat, name: string)
    requires WellFormed(s)
    ensures var r := Next(s, OutputNamed(uid, name), c);
      && (forall i :: 0 <= i < |s.outputs| && s.outputs[i].uid == uid ==>
            r == s.(outputs := s.outputs[i := s.outputs[i].(name := Some(name))]))
      && ((forall i :: 0 <= i < |s.outputs| ==> s.outputs[i].uid != uid) ==> r == s)
  {
  }

  // ----- which output a command acts on -----

  /** Output `i` is the first one with the name, or the focused one if no name is given. */
  ghost predicate Chosen(s: Wm, name: Option<string>, i: nat) {
    && i < |s.outputs|
    && (name.None? ==> s.focused == Some(i))
    && (name.Some? ==> s.outputs[i].name == name && forall j :: 0 <= j < i ==> s.outputs[j].name != name)
  }

  lemma ChosenIs(s: Wm, name: Option<string>)
    requires Inv(s)
    ensures var o := if name.Some? then s.FindOutputByName(name.value) else s.ActiveOutput();
      if o.Some? then Chosen(s, name, o.value) && forall i: nat :: Chosen(s, name, i) ==> i == o.value
      else forall i: nat :: !Chosen(s, name, i)
  {
    if name.Some? {
      var p := (o: Output) => o.name == Some(name.value);
      var i := Position(s.outputs, p);
      PositionCongruent(s.outputs, p, (o: Output) => o.name == Some(name.value));
      assert i == s.FindOutputByName(name.value);
      assert i.Some? ==> p(s.outputs[i.value]) && forall j :: 0 <= j < i.value ==> !p(s.outputs[j]);
    }
  }

  /** Asking for a tag shows it through the chosen output, as `FocusTagEffect` tells; without such an output, or
      for a tag that does not exist, nothing changes. */
  lemma FocusTagChooses(s: Wm, c: Tiling.Config, tag: nat, name: Option<string>)
    requires Inv(s)
    ensures var r := Next(s, FocusTagAsked(tag, name), c);
      && (forall i: nat :: Chosen(s, name, i) && tag < NUM_TAGS ==> TagFocused(s, r, i, tag))
      && ((forall i: nat :: !Chosen(s, name, i)) || tag >= NUM_TAGS ==> r == s)
  {
    var o := if name.Some? then s.FindOutputByName(name.value) else s.ActiveOutput();
    hide *;
    FocusTagNext(s, c, tag, name, o);
    ChosenIs(s, name);
    if o.Some? && tag < NUM_TAGS {
      FocusTagEffect(s, o.value, tag);
    }
  }

  lemma FocusTagNext(s: Wm, c: Tiling.Config, tag: nat, name: Option<string>, o: Option<nat>)
    requires Inv(s) && o == if name.Some? then s.FindOutputByName(name.value) else s.ActiveOutput()
    ensures WellFormed(s) && |s.tags| == NUM_TAGS && (o.Some? ==> o.value < |s.outputs|)
    ensures forall t :: 0 <= t < |s.tags| && s.tags[t].output.Some? ==> s.tags[t].output.value < |s.outputs|
    ensures forall i: nat :: Chosen(s, name, i) ==> i < |s.outputs|
    ensures Next(s, FocusTagAsked(tag, name), c) == if o.None? then s else FocusTag(s, o.value, tag)
    ensures o.Some? && tag >= NUM_TAGS ==> FocusTag(s, o.value, tag) == s
  {
    hide ActivateTag;
  }

  /** Focusing an output by name moves focus to the first one so named, and changes nothing else. */
  lemma FocusOutputEffect(s: Wm, c: Tiling.Config, name: string)
    requires Inv(s)
    ensures var r := Next(s, FocusOutputAsked(name), c);
      && (forall i: nat :: Chosen(s, Some(name), i) ==> r == s.(focused := Some(i)))
      && ((forall i: nat :: !Chosen(s, Some(name), i)) ==> r == s)
  {
    ChosenIs(s, Some(name));
    hide Chosen;
  }

  // ----- the pointer -----

  predicate Over(o: Output, x: int, y: int) {
    && o.x <= x && x < o.x + o.width
    && o.y <= y && y < o.y + o.height
  }

  /** With focus following the mouse, an output the pointer is over becomes the focused one, the first if
      they overlap; otherwise nothing changes. */
  lemma PointerMovedEffect(s: Wm, c: Tiling.Config, x: int, y: int)
    requires WellFormed(s)
    ensures var r := Next(s, PointerMoved(x, y), c);
      && (forall i :: 0 <= i < |s.outputs| && Over(s.outputs[i], x, y)
                      && (forall j :: 0 <= j < i ==> !Over(s.outputs[j], x, y)) ==>
            r == if c.focusFollowsMouse then s.(focused := Some(i)) else s)
      && ((forall i :: 0 <= i < |s.outputs| ==> !Over(s.outputs[i], x, y)) ==> r == s)
  {
    var p := (o: Output) => o.x <= x < o.x + o.width && o.y <= y < o.y + o.height;
    var k := Position(s.outputs, p);
    PositionCongruent(s.outputs, p, (o: Output) => o.x <= x < o.x + o.width && o.y <= y < o.y + o.height);
    assert forall j :: 0 <= j < |s.outputs| ==> p(s.outputs[j]) == Over(s.outputs[j], x, y);
    hide Position, WellFormed;
  }

  /** A pointer that enters a window focuses it only with focus following the mouse; one that clicks it always
      does, and restores it if it was minimized. */
  lemma PointerEffect(s: Wm, c: Tiling.Config, id: nat)
    requires Inv(s)
    ensures var e, r := Next(s, PointerEntered(id), c), Next(s, Interacted(id), c);
      && (forall k :: 0 <= k < |s.windows| && s.windows[k].id == id ==>
            && (if c.focusFollowsMouse then WindowFocused(s, e, k) else e == s)
            && WindowFocused(s.(windows := s.windows[k := s.windows[k].(minimized := false)]), r, k))
      && ((forall k :: 0 <= k < |s.windows| ==> s.windows[k].id != id) ==> e == s && r == s)
  {
    var m := UpdateWindow(s, id, (w: Window) => w.(minimized := false));
    assert Next(s, Interacted(id), c) == FocusWindowOnOutput(m, id);
    assert Next(s, PointerEntered(id), c) == if c.focusFollowsMouse then FocusWindowOnOutput(s, id) else s;
    hide Next;
    UpdateEffect(s, id, (w: Window) => w.(minimized := false));
    hide *;
    PointerFocusEffect(s, id);
    Restored(s, m, id);
    PointerFocusEffect(m, id);
  }

  lemma Restored(s: Wm, m: Wm, id: nat)
    requires OnlyWindow(s, m, id, (w: Window) => w.(minimized := false)) && Inv(s)
    ensures Inv(m)
    ensures forall k :: 0 <= k < |s.windows| && s.windows[k].id == id ==>
              && m == s.(windows := s.windows[k := s.windows[k].(minimized := false)])
              && |m.windows| == |s.windows| && m.windows[k].id == id
    ensures (forall k :: 0 <= k < |s.windows| ==> s.windows[k].id != id) ==> m == s
  {
    assert m.outputs == s.outputs && m.tags == s.tags;
    forall i | 0 <= i < |m.outputs| ensures NormalizeProofs.ActiveOk(m, i) {
      assert NormalizeProofs.ActiveOk(s, i);
    }
    hide NormalizeProofs.ActiveOk;
  }

  // ----- resize mode -----

  /** A step moves the master fraction of the tag the focused output shows by one step, within its limits, and
      takes the windows of that tag out of fullscreen; outside resize mode it does nothing. */
  lemma ResizeStepEffect(s: Wm, c: Tiling.Config, right: bool)
    requires Inv(s)
    ensures var r := Next(s, ResizeStep(right), c);
      if !s.resizeMode || s.outputs == [] then r == s
      else
        var t := s.outputs[s.focused.value].activeTag;
        && r == s.(windows := r.windows, tags := r.tags) && OnlyUnfullscreened(s, r, t) && |r.tags| == |s.tags|
        && (forall u :: 0 <= u < |s.tags| && u != t ==> r.tags[u] == s.tags[u])
        && r.tags[t] == s.tags[t].(masterFraction := r.tags[t].masterFraction)
        && var wanted := if right then s.tags[t].masterFraction + c.resizeStep
                         else s.tags[t].masterFraction - c.resizeStep;
           && 0.1 <= r.tags[t].masterFraction <= 0.9
           && (0.1 <= wanted <= 0.9 ==> r.tags[t].masterFraction == wanted)
           && (wanted < 0.1 ==> r.tags[t].masterFraction == 0.1)
           && (wanted > 0.9 ==> r.tags[t].masterFraction == 0.9)
  {
  }

  /** Resize mode is left by toggling it again or by leaving it, and then steps do nothing. */
  lemma ResizeModeLeft(s: Wm, c: Tiling.Config, right: bool)
    requires Inv(s)
    ensures var on, off := Next(s, ToggleResizeMode, c), Next(s, LeaveResizeMode, c);
      && on.resizeMode == !s.resizeMode && WellFormed(on) && Next(on, ToggleResizeMode, c) == s
      && off == (if s.resizeMode then on else s) && WellFormed(off) && Next(off, ResizeStep(right), c) == off
  {
    hide ClearFullscreen;
  }

  // ----- floating -----

  /** An app id is stored on its window; the first one that is configured to float also floats the window,
      fitted into the output it is managed against. */
  lemma AppIdEffect(s: Wm, c: Tiling.Config, id: nat, app: Option<string>, floats: bool)
    requires WellFormed(s)
    ensures var r := Next(s, AppIdSet(id, app, floats), c);
      && (forall k :: 0 <= k < |s.windows| && s.windows[k].id == id ==>
            var w := s.windows[k];
            && |r.windows| == |s.windows|
            && r == s.(windows := s.windows[k := r.windows[k]]) && r.windows[k].appId == app
            && (if floats && !w.floating then FloatedFor(s, w, r.windows[k].(appId := w.appId))
                else r.windows[k] == w.(appId := app)))
      && ((forall k :: 0 <= k < |s.windows| ==> s.windows[k].id != id) ==> r == s)
  {
    hide FloatForApp;
    forall k | 0 <= k < |s.windows| ensures FloatedFor(s, s.windows[k], FloatForApp(s, s.windows[k])) {
      FloatedCentred(s, s.windows[k]);
    }
    hide WellFormed, FloatedFor;
  }

  /** `r` is `w` floated: fitted into the output it is managed against, or just where it is without one. */
  ghost predicate FloatedFor(s: Wm, w: Window, r: Window) {
    && r == w.(floating := true, floatX := r.floatX, floatY := r.floatY, floatW := r.floatW, floatH := r.floatH)
    && (forall i: nat :: ManagedBy(s, w, i) ==> FittedInto(w, r, OutputArea(s.outputs[i])))
    && ((forall i: nat :: !ManagedBy(s, w, i)) ==> r == w.(floating := true))
  }

  /** The id of the window the focused output focuses, which key bindings act on. */
  ghost predicate Bound(s: Wm, id: nat) {
    && s.focused.Some? && s.focused.value < |s.outputs|
    && s.outputs[s.focused.value].focusedWindow == Some(id)
  }

  lemma BoundIs(s: Wm)
    requires Inv(s)
    ensures if ActiveWindow(s).Some? then forall id: nat :: Bound(s, id) <==> id == ActiveWindow(s).value
            else forall id: nat :: !Bound(s, id)
  {
  }

  /** The fullscreen binding flips the flag of the focused window alone. */
  lemma ToggleFullscreenEffect(s: Wm, c: Tiling.Config)
    requires Inv(s)
    ensures var r := Next(s, ToggleFullscreen, c);
      && (forall id: nat :: Bound(s, id) ==> OnlyWindow(s, r, id, (w: Window) => w.(fullscreen := !w.fullscreen)))
      && ((forall id: nat :: !Bound(s, id)) ==> r == s)
  {
    BoundIs(s);
    if ActiveWindow(s).Some? {
      assert Bound(s, ActiveWindow(s).value);
      UpdateEffect(s, ActiveWindow(s).value, (w: Window) => w.(fullscreen := !w.fullscreen));
    }
    hide Bound, Inv;
  }

  /** Floating a window that has a tile puts its box where the tile was; the box is kept when it is tiled again. */
  ghost predicate FloatFlipped(s: Wm, c: Tiling.Config, w: Window, r: Window) {
    && r.floating == !w.floating
    && r == w.(floating := r.floating, floatX := r.floatX, floatY := r.floatY, floatW := r.floatW, floatH := r.floatH)
    && (if !w.floating && s.IsVisible(w)
        then (w.id, Passes.FloatBox(r)) in Tiling.AllTiles(s, c)
        else Passes.FloatBox(r) == Passes.FloatBox(w))
  }

  /** The float binding flips the focused window between its tile and its box, and changes no other. */
  lemma ToggleFloatEffect(s: Wm, c: Tiling.Config)
    requires Inv(s)
    ensures var r := Next(s, ToggleFloat, c);
      && (forall k :: 0 <= k < |s.windows| && Bound(s, s.windows[k].id) ==>
            && |r.windows| == |s.windows| && r == s.(windows := s.windows[k := r.windows[k]])
            && FloatFlipped(s, c, s.windows[k], r.windows[k]))
      && ((forall k :: 0 <= k < |s.windows| ==> !Bound(s, s.windows[k].id)) ==> r == s)
  {
    var active := if s.outputs == [] then None else s.outputs[s.focused.value].focusedWindow;
    ToggleFloatNext(s, c, active);
    forall k | 0 <= k < |s.windows| && active == Some(s.windows[k].id)
      ensures FloatFlipped(s, c, s.windows[k],
                  FloatFromTile(Tiling.GeometryOf(s, c, s.windows[k].id), s.windows[k]))
    {
      FlippedInPlace(s, c, k);
    }
    hide Next, Inv, WellFormed, FloatFlipped, FloatFromTile, Tiling.GeometryOf;
  }

  lemma ToggleFloatNext(s: Wm, c: Tiling.Config, active: Option<nat>)
    requires Inv(s) && active == if s.outputs == [] then None else s.outputs[s.focused.value].focusedWindow
    ensures WellFormed(s) && forall id: nat :: Bound(s, id) <==> active == Some(id)
    ensures var r := Next(s, ToggleFloat, c);
      && (active.None? ==> r == s)
      && (active.Some? ==> OnlyWindow(s, r, active.value,
            (w: Window) => FloatFromTile(Tiling.GeometryOf(s, c, active.value), w)))
  {
    hide FloatFromTile, Tiling.GeometryOf;
    assert active == ActiveWindow(s);
    if active.Some? {
      var g := Tiling.GeometryOf(s, c, active.value);
      UpdateEffect(s, active.value, (w: Window) => FloatFromTile(g, w));
    }
  }

  lemma FlippedInPlace(s: Wm, c: Tiling.Config, k: nat)
    requires Tiling.DistinctIds(s) && k < |s.windows|
    ensures FloatFlipped(s, c, s.windows[k], FloatFromTile(Tiling.GeometryOf(s, c, s.windows[k].id), s.windows[k]))
  {
    var w, tiles := s.windows[k], Tiling.AllTiles(s, c);
    Tiling.ListsEachVisibleWindowOnce(s, c);
    hide Tiling.AllTiles;
    var at := Position(tiles, (t: Tiling.Tile) => t.0 == w.id);
    assert at.Some? ==> tiles[at.value].0 == w.id && tiles[at.value] == (w.id, tiles[at.value].1);
    assert Tiling.GeometryOf(s, c, w.id) == if at.Some? then Some(tiles[at.value].1) else None;
  }

  // ----- sending -----

  /** Sending acts on the focused output, as `SendMovesOne` tells; without outputs, or for a tag that does
      not exist, nothing changes. */
  lemma SendChooses(s: Wm, c: Tiling.Config, tag: nat)
    requires Inv(s)
    ensures Next(s, SendToTagAsked(tag), c)
         == if s.outputs == [] || tag >= NUM_TAGS then s else SendFocusedToTag(s, s.focused.value, tag)
  {
  }

  // ----- outputs come and go -----

  /** `r` has output `uid` appended, bare but for its tag: the lowest free one, or none. Focus moves to it only
      if nothing was focused; the other outputs and all windows stay as they were, but that focus settles. */
  ghost predicate Plugged(s: Wm, r: Wm, uid: nat) {
    var n := |s.outputs|;
    && |r.outputs| == n + 1 && |r.tags| == |s.tags|
    && r == s.(outputs := r.outputs, tags := r.tags, focused := if s.focused.Some? then s.focused else Some(n))
    && (forall i :: 0 <= i < n ==>
          && r.outputs[i] == s.outputs[i].(focusedWindow := r.outputs[i].focusedWindow)
          && (KeepsFocus(s, i) ==> r.outputs[i] == s.outputs[i]))
    && (forall i :: 0 <= i <= n ==> NormalizeProofs.FocusSound(r, i))
    && var o := r.outputs[n];
       && o.uid == uid && o.name.None? && o.x == o.y == o.width == o.height == 0
       && o.usableX == o.usableY == o.usableW == o.usableH == 0
       && (forall t :: 0 <= t < |s.tags| ==>
             r.tags[t] == if LowestFree(s, t) then s.tags[t].(output := Some(n)) else s.tags[t])
       && (forall t :: 0 <= t < |s.tags| && LowestFree(s, t) ==> o.activeTag == t)
       && ((forall t :: 0 <= t < |s.tags| ==> !LowestFree(s, t)) ==> o.activeTag == 0)
  }

  predicate LowestFree(s: Wm, t: nat)
    requires t < |s.tags|
  {
    s.tags[t].output.None? && forall u :: 0 <= u < t ==> s.tags[u].output.Some?
  }

  /** Plugging in an output adds it and nothing else; one that is known already changes nothing. */
  lemma PlugEffect(s: Wm, c: Tiling.Config, uid: nat)
    requires Inv(s)
    ensures var r := Next(s, Event.OutputAdded(uid), c);
      if exists i :: 0 <= i < |s.outputs| && s.outputs[i].uid == uid then r == s else Plugged(s, r, uid)
  {
    if s.FindOutput(uid).None? {
      var m := Refinement.Attached(s, uid);
      Refinement.AddedIsNormalized(s, uid);
      assert Next(s, Event.OutputAdded(uid), c) == Normalize(m);
      Attachment(s, m, uid);
      Refinement.AttachedFields(s, uid);
      hide *;
      Refinement.AttachedKeeps(s, m, uid);
      AttachedSettles(s, m, uid);
    }
  }

  /** The new output before anything is refocused. */
  ghost predicate AttachedBare(s: Wm, m: Wm, uid: nat) {
    && Refinement.AttachedTo(s, m, uid)
    && m == s.(outputs := m.outputs, tags := m.tags, focused := m.focused)
    && m.outputs[|s.outputs|] == NewOutput(uid).(activeTag := m.outputs[|s.outputs|].activeTag)
  }

  lemma Attachment(s: Wm, m: Wm, uid: nat)
    requires m == Refinement.Attached(s, uid)
    ensures AttachedBare(s, m, uid)
  {
    Refinement.AttachedFields(s, uid);
  }

  lemma AttachedSettles(s: Wm, m: Wm, uid: nat)
    requires Inv(s) && Inv(m) && AttachedBare(s, m, uid)
    ensures Plugged(s, Normalize(m), uid)
  {
    assert m.outputs != [] && m.focused.Some? && m.focused.value < |m.outputs|;
    hide Normalize, NormalizeProofs.ActiveOk;
    OrderlySettles(m);
    forall i | 0 <= i < |s.outputs| && KeepsFocus(s, i) ensures KeepsFocus(m, i) {
      AttachedKeepsFocus(s, m, uid, i);
    }
    hide *;
    PluggedByParts(s, m, Normalize(m), uid);
  }

  lemma PluggedByParts(s: Wm, m: Wm, r: Wm, uid: nat)
    requires Inv(s) && AttachedBare(s, m, uid) && FocusSettles(m, r)
    requires forall i :: 0 <= i < |s.outputs| && KeepsFocus(s, i) ==> KeepsFocus(m, i)
    ensures Plugged(s, r, uid)
  {
    LowestFreeIs(s);
    assert |s.outputs| < |r.outputs| && r.tags == m.tags && r.focused == m.focused;
    assert s.focused.Some? ==> s.focused.value < |s.outputs|;
    assert s.focused.None? ==> |s.outputs| == 0;
    hide KeepsFocus, NormalizeProofs.FocusSound, LowestFree, Inv;
  }

  lemma LowestFreeIs(s: Wm)
    ensures forall t :: 0 <= t < |s.tags| ==> (LowestFree(s, t) <==> s.FreeTag() == Some(t))
  {
  }

  lemma AttachedKeepsFocus(s: Wm, m: Wm, uid: nat, i: nat)
    requires Inv(s) && AttachedBare(s, m, uid) && i < |s.outputs| && KeepsFocus(s, i)
    ensures KeepsFocus(m, i)
  {
  }

  /** `r` has output `i` taken out. The others keep everything but perhaps focus, which settles, and a tag that
      was not their own; windows keep everything but the place of a floating box. */
  ghost predicate Unplugged(s: Wm, r: Wm, i: nat)
    requires i < |s.outputs|
  {
    && |r.outputs| == |s.outputs| - 1 && |r.tags| == |s.tags| && |r.windows| == |s.windows|
    && r == s.(outputs := r.outputs, tags := r.tags, windows := r.windows, focused := r.focused)
    && (forall j :: 0 <= j < |r.outputs| ==>
          var o := s.outputs[if j < i then j else j + 1];
          && r.outputs[j] == o.(activeTag := r.outputs[j].activeTag, focusedWindow := r.outputs[j].focusedWindow)
          && NormalizeProofs.FocusSound(r, j))
    && (forall t :: 0 <= t < |s.tags| ==> r.tags[t] == s.tags[t].(output := r.tags[t].output))
    && (forall k :: 0 <= k < |s.windows| ==>
          r.windows[k] == s.windows[k].(floatX := r.windows[k].floatX, floatY := r.windows[k].floatY)
          && (!s.windows[k].floating ==> r.windows[k] == s.windows[k]))
  }

  /** Unplugging an output takes it out; an unknown one changes nothing. */
  lemma UnplugEffect(s: Wm, c: Tiling.Config, uid: nat)
    requires Inv(s)
    ensures var r := Next(s, Event.OutputRemoved(uid), c);
      && (forall i :: 0 <= i < |s.outputs| && s.outputs[i].uid == uid ==> Unplugged(s, r, i))
      && ((forall i :: 0 <= i < |s.outputs| ==> s.outputs[i].uid != uid) ==> r == s)
  {
    var i := s.FindOutput(uid);
    if i.Some? {
      var m := Detach(s, i.value);
      assert Next(s, Event.OutputRemoved(uid), c) == ClampFloating(Normalize(m));
      DetachedFrame(s, i.value);
      assert m.outputs == [] ==> Normalize(m) == m.(focused := None);
      hide Normalize, Detach, ClampFloating, Inv;
      if m.outputs != [] { NormalizeProofs.NormalizeEstablishes(m); }
      hide *;
      FloatingProofs.ClampIsFrame(Normalize(m));
      UnpluggedByParts(s, i.value, m, Normalize(m), ClampFloating(Normalize(m)));
      UidsDiffer(s, i.value);
    }
  }

  lemma UidsDiffer(s: Wm, i: nat)
    requires Inv(s) && i < |s.outputs|
    ensures forall j :: 0 <= j < |s.outputs| && s.outputs[j].uid == s.outputs[i].uid ==> j == i
  {
  }

  lemma DetachedFrame(s: Wm, i: nat)
    requires i < |s.outputs|
    ensures var m := Detach(s, i);
      && Refinement.Detached(s, m, i)
      && m == s.(outputs := m.outputs, tags := m.tags, focused := m.focused)
      && (forall t :: 0 <= t < |s.tags| ==> m.tags[t] == s.tags[t].(output := m.tags[t].output))
  {
  }

  lemma UnpluggedByParts(s: Wm, i: nat, m: Wm, n: Wm, r: Wm)
    requires i < |s.outputs| && Refinement.Detached(s, m, i)
    requires m == s.(outputs := m.outputs, tags := m.tags, focused := m.focused)
    requires forall t :: 0 <= t < |s.tags| ==> m.tags[t] == s.tags[t].(output := m.tags[t].output)
    requires if m.outputs == [] then n == m.(focused := None) else NormalizeProofs.NormalizedFrom(m, n)
    requires r == n.(windows := r.windows) && |r.windows| == |n.windows|
    requires forall k :: 0 <= k < |n.windows| ==>
               r.windows[k] == n.windows[k].(floatX := r.windows[k].floatX, floatY := r.windows[k].floatY)
               && (!n.windows[k].floating ==> r.windows[k] == n.windows[k])
    ensures Unplugged(s, r, i)
  {
    hide NormalizeProofs.ActiveOk, NormalizeProofs.ActiveChosen, NormalizeProofs.ClaimedFairly;
    forall j | 0 <= j < |r.outputs| ensures NormalizeProofs.FocusSound(r, j) {
      assert NormalizeProofs.FocusSound(n, j);
    }
    hide NormalizeProofs.FocusSound;
  }
}
