/** What commands and key bindings achieve, what they leave alone, and which undo each other. */
module CommandProofs {
  import opened Prelude
  import opened Desktop
  import opened Transitions
  import opened NormalizeProofs
  import Tiling
  import opened Invariant
  import opened Events

  // ----- showing a tag -----

  /** `r` has the windows of `s`, less the fullscreen flag of those on `tag`. */
  ghost predicate OnlyUnfullscreened(s: Wm, r: Wm, tag: nat) {
    && |r.windows| == |s.windows|
    && forall k :: 0 <= k < |s.windows| ==>
         r.windows[k] == if s.windows[k].tag == tag then s.windows[k].(fullscreen := false) else s.windows[k]
  }

  /** Output `i` of `r` focuses `f`, its focus so far, if it shows that, and otherwise the first window it shows,
      or none. */
  ghost predicate FocusFollows(f: Option<nat>, r: Wm, i: nat)
    requires i < |r.outputs|
  {
    var f2 := r.outputs[i].focusedWindow;
    var stays := exists k :: 0 <= k < |r.windows| && r.ShownBy(i, r.windows[k]) && f == Some(r.windows[k].id);
    && (stays ==> f2 == f)
    && (forall k :: 0 <= k < |r.windows| && FirstShownIs(r, i, k) && !stays ==> f2 == Some(r.windows[k].id))
    && ((forall k :: 0 <= k < |r.windows| ==> !r.ShownBy(i, r.windows[k])) ==> f2 == None)
  }

  lemma RefocusFollows(m: Wm, i: nat)
    requires i < |m.outputs|
    ensures Tiling.DistinctIds(m) ==> FocusFollows(m.outputs[i].focusedWindow, Refocus(m, i), i)
  {
    if Tiling.DistinctIds(m) {
      RefocusIs(m, i);
      RefocusSettles(m, i);
      var r := Refocus(m, i);
      assert r.windows == m.windows && r.tags == m.tags && r.outputs[i].activeTag == m.outputs[i].activeTag;
      hide Refocus, FocusSettled;
      forall k | 0 <= k < |m.windows|
        ensures r.ShownBy(i, m.windows[k]) == m.ShownBy(i, m.windows[k])
      {
      }
    }
  }

  /** Output `i` of `r` shows `tag` and its focus fits; the other outputs are those of `s`. */
  ghost predicate NowShows(s: Wm, r: Wm, i: nat, tag: nat)
    requires i < |s.outputs|
  {
    && |r.outputs| == |s.outputs|
    && r.outputs[i] == s.outputs[i].(activeTag := tag, focusedWindow := r.outputs[i].focusedWindow)
    && FocusSettled(r, i) && (Tiling.DistinctIds(r) ==> FocusFollows(s.outputs[i].focusedWindow, r, i))
    && forall j :: 0 <= j < |s.outputs| && j != i ==> r.outputs[j] == s.outputs[j]
  }

  /** Activating a tag takes fullscreen from the tag left behind, even when that is the same tag. */
  lemma ActivateEffect(s: Wm, i: nat, tag: nat)
    requires i < |s.outputs|
    ensures var r := ActivateTag(s, i, tag);
      && NowShows(s, r, i, tag) && OnlyUnfullscreened(s, r, s.outputs[i].activeTag)
      && r == s.(outputs := r.outputs, windows := r.windows)
  {
    var m := ClearFullscreen(s.SetActive(i, tag), s.outputs[i].activeTag);
    RefocusSettles(m, i);
    RefocusFollows(m, i);
    hide FocusSettled, KeepsFocus, FirstShown, FocusFollows;
  }

  /** Switching to a tag, as pointer focus does, takes it only when the tag changes. */
  lemma SwitchEffect(s: Wm, i: nat, tag: nat)
    requires i < |s.outputs|
    ensures var r := SwitchActiveTag(s, i, tag);
      && NowShows(s, r, i, tag) && r == s.(outputs := r.outputs, windows := r.windows)
      && (if s.outputs[i].activeTag == tag then r.windows == s.windows
          else OnlyUnfullscreened(s, r, s.outputs[i].activeTag))
  {
    var left := s.outputs[i].activeTag;
    var m := if left != tag then ClearFullscreen(s.SetActive(i, tag), left) else s.SetActive(i, tag);
    RefocusSettles(m, i);
    RefocusFollows(m, i);
    hide FocusSettled, KeepsFocus, FirstShown, FocusFollows;
  }

  /** The tag is shown on its owner: the asking output `i` if it was free. Focus moves only to another owner,
      and no other tag changes hands. */
  ghost predicate TagFocused(s: Wm, r: Wm, i: nat, tag: nat)
    requires i < |s.outputs| && tag < |s.tags|
    requires s.tags[tag].output.Some? ==> s.tags[tag].output.value < |s.outputs|
  {
    var o := if s.tags[tag].output.Some? then s.tags[tag].output.value else i;
    && r.tags == s.tags[tag := s.tags[tag].(output := Some(o))]
    && NowShows(s, r, o, tag) && OnlyUnfullscreened(s, r, s.outputs[o].activeTag)
    && r.focused == (if o == i then s.focused else Some(o))
    && r == s.(outputs := r.outputs, windows := r.windows, tags := r.tags, focused := r.focused)
  }

  lemma FocusTagEffect(s: Wm, i: nat, tag: nat)
    requires WellFormed(s) && i < |s.outputs| && tag < |s.tags|
    ensures TagFocused(s, FocusTag(s, i, tag), i, tag)
  {
    var o := if s.tags[tag].output.Some? then s.tags[tag].output.value else i;
    var m := if s.tags[tag].output.None? then s.SetOwner(tag, Some(i))
             else if o == i then s
             else s.(focused := Some(o));
    assert FocusTag(s, i, tag) == ActivateTag(m, o, tag);
    assert s.tags[tag].output == Some(o) ==> s.tags[tag := s.tags[tag].(output := Some(o))] == s.tags;
    assert o < |s.outputs|;
    hide ActivateTag, FocusTag, FocusSettled, FocusFollows, WellFormed, Tiling.DistinctIds, NowShows,
        OnlyUnfullscreened;
    ActivateEffect(m, o, tag);
    ShowsTheSame(s, m, ActivateTag(m, o, tag), o, tag);
  }

  lemma ShowsTheSame(s: Wm, m: Wm, r: Wm, o: nat, tag: nat)
    requires o < |s.outputs| && m.outputs == s.outputs && m.windows == s.windows
    ensures NowShows(m, r, o, tag) ==> NowShows(s, r, o, tag)
    ensures OnlyUnfullscreened(m, r, m.outputs[o].activeTag) ==> OnlyUnfullscreened(s, r, s.outputs[o].activeTag)
  {
    hide FocusSettled, FocusFollows, Tiling.DistinctIds;
  }

  // ----- sending a window -----

  /** Sending moves exactly the focused window, and only if it is there and elsewhere; its new tag goes to the
      sending output if it was free, the sending output's focus settles, and nothing else changes. */
  lemma SendMovesOne(s: Wm, i: nat, tag: nat)
    requires WellFormed(s) && i < |s.outputs| && tag < |s.tags|
    ensures var r, k := SendFocusedToTag(s, i, tag), SendTarget(s, i, tag);
      && (k.Some? <==> exists j :: 0 <= j < |s.windows| && s.windows[j].tag != tag
                                   && Some(s.windows[j].id) == s.outputs[i].focusedWindow)
      && (k.None? ==> r == s)
      && (k.Some? ==>
            && |r.outputs| == |s.outputs|
            && r == s.(windows := s.windows[k.value := s.windows[k.value].(tag := tag)],
                       tags := s.tags[tag := s.tags[tag].(output :=
                           if s.tags[tag].output.None? then Some(i) else s.tags[tag].output)],
                       outputs := s.outputs[i := s.outputs[i].(focusedWindow := r.outputs[i].focusedWindow)])
            && FocusSettled(r, i) && FocusFollows(s.outputs[i].focusedWindow, r, i))
  {
    hide KeepsFocus, FirstShown;
    var f, k := s.outputs[i].focusedWindow, SendTarget(s, i, tag);
    if f.Some? && s.FindWindow(f.value).Some? {
      var j := s.FindWindow(f.value).value;
      assert forall h :: 0 <= h < |s.windows| && Some(s.windows[h].id) == f ==> h == j;
    }
    if k.Some? {
      var m := (if s.tags[tag].output.None? then s.SetOwner(tag, Some(i)) else s)
        .SetWindow(k.value, s.windows[k.value].(tag := tag));
      assert m.tags == s.tags[tag := s.tags[tag].(output :=
          if s.tags[tag].output.None? then Some(i) else s.tags[tag].output)];
      assert SendFocusedToTag(s, i, tag) == Refocus(m, i);
      hide SendFocusedToTag, SendTarget, Refocus, FocusSettled;
      assert m.outputs[i] == s.outputs[i] && Tiling.DistinctIds(m);
      hide FocusFollows;
      RefocusSettles(m, i);
      RefocusFollows(m, i);
      RefocusIsFocus(m, i);
    }
  }

  lemma RefocusIsFocus(s: Wm, i: nat)
    requires i < |s.outputs|
    ensures var r := Refocus(s, i);
      r == s.(outputs := s.outputs[i := s.outputs[i].(focusedWindow := r.outputs[i].focusedWindow)])
  {
    assert s.outputs[i := s.outputs[i]] == s.outputs;
  }

  // ----- focusing a window -----

  predicate Matches(w: Window, app: string, called: Option<string>) {
    w.appId == Some(app) && (called.Some? ==> w.title == called)
  }

  /** Window `k` is the first one with the app id, and the title if one is given. */
  ghost predicate FirstMatch(s: Wm, app: string, called: Option<string>, k: nat)
    requires k < |s.windows|
  {
    Matches(s.windows[k], app, called) && forall j :: 0 <= j < k ==> !Matches(s.windows[j], app, called)
  }

  /** Window `k` is focused on the output that owns its tag, which shows that tag and is focused itself;
      the windows of a tag left behind lose fullscreen, and nothing else changes. On an unowned tag
      nothing changes at all. */
  ghost predicate WindowFocused(s: Wm, r: Wm, k: nat)
    requires k < |s.windows|
  {
    var w := s.windows[k];
    match s.TagOwner(w.tag)
    case None => r == s
    case Some(o) =>
      && o < |s.outputs| && k < |r.windows|
      && r == s.(focused := Some(o), windows := r.windows,
                 outputs := s.outputs[o := s.outputs[o].(activeTag := w.tag, focusedWindow := Some(w.id))])
      && (if s.outputs[o].activeTag == w.tag then r.windows == s.windows
          else OnlyUnfullscreened(s, r, s.outputs[o].activeTag))
      && r.IsVisible(r.windows[k])
  }

  /** A request for a window focuses the first match; without one nothing changes. */
  lemma FocusWindowEffect(s: Wm, app: string, called: Option<string>)
    requires Inv(s)
    ensures var r := OnFocusWindow(s, app, called);
      && (forall k :: 0 <= k < |s.windows| && FirstMatch(s, app, called, k) ==> WindowFocused(s, r, k))
      && ((forall k :: 0 <= k < |s.windows| ==> !Matches(s.windows[k], app, called)) ==> r == s)
  {
    var k := Position(s.windows, (w: Window) => w.appId == Some(app) && (called.None? || w.title == called));
    MatchFound(s, app, called, k);
    if k.None? || s.TagOwner(s.windows[k.value].tag).None? {
      assert OnFocusWindow(s, app, called) == s;
    } else {
      var o, w := s.TagOwner(s.windows[k.value].tag).value, s.windows[k.value];
      var m := s.(focused := Some(o));
      assert OnFocusWindow(s, app, called) == SwitchActiveTag(m, o, w.tag).SetFocusedWindow(o, Some(w.id));
      hide *;
      AskedSwitches(s, m, k.value, o);
    }
  }

  lemma MatchFound(s: Wm, app: string, called: Option<string>, k: Option<nat>)
    requires k == Position(s.windows, (w: Window) => w.appId == Some(app) && (called.None? || w.title == called))
    ensures k.Some? ==> k.value < |s.windows| && FirstMatch(s, app, called, k.value)
    ensures k.None? ==> forall j :: 0 <= j < |s.windows| ==> !Matches(s.windows[j], app, called)
    ensures forall j :: 0 <= j < |s.windows| && FirstMatch(s, app, called, j) ==> k == Some(j)
  {
    var p := (w: Window) => w.appId == Some(app) && (called.None? || w.title == called);
    PositionCongruent(s.windows, p, (w: Window) => w.appId == Some(app) && (called.None? || w.title == called));
    assert forall j :: 0 <= j < |s.windows| ==> p(s.windows[j]) == Matches(s.windows[j], app, called);
    hide Matches, Position;
  }

  lemma AskedSwitches(s: Wm, m: Wm, k: nat, o: nat)
    requires Inv(s) && k < |s.windows| && s.TagOwner(s.windows[k].tag) == Some(o) && m == s.(focused := Some(o))
    ensures o < |s.outputs| == |SwitchActiveTag(m, o, s.windows[k].tag).outputs|
    ensures WindowFocused(s, SwitchActiveTag(m, o, s.windows[k].tag).SetFocusedWindow(o, Some(s.windows[k].id)), k)
  {
    SwitchEffect(m, o, s.windows[k].tag);
    hide SwitchActiveTag, FocusSettled, FocusFollows;
    FocusedByHand(s, m, SwitchActiveTag(m, o, s.windows[k].tag), k, o);
  }

  /** After a switch to its tag, focusing the window is all that is left to do. */
  lemma FocusedByHand(s: Wm, m: Wm, n: Wm, k: nat, o: nat)
    requires k < |s.windows| && o < |s.outputs| && s.TagOwner(s.windows[k].tag) == Some(o)
    requires m == s.(focused := Some(o), outputs := m.outputs) && |m.outputs| == |s.outputs|
    requires forall j :: 0 <= j < |s.outputs| && j != o ==> m.outputs[j] == s.outputs[j]
    requires m.outputs[o] == s.outputs[o].(focusedWindow := m.outputs[o].focusedWindow)
    requires NowShows(m, n, o, s.windows[k].tag) && n == m.(outputs := n.outputs, windows := n.windows)
    requires if m.outputs[o].activeTag == s.windows[k].tag then n.windows == m.windows
             else OnlyUnfullscreened(m, n, m.outputs[o].activeTag)
    ensures WindowFocused(s, n.SetFocusedWindow(o, Some(s.windows[k].id)), k)
  {
    hide FocusSettled, FocusFollows;
    var w := s.windows[k];
    var r := n.SetFocusedWindow(o, Some(w.id));
    assert r.outputs == s.outputs[o := s.outputs[o].(activeTag := w.tag, focusedWindow := Some(w.id))];
  }

  /** The pointer focuses the window with the id; without one nothing changes. */
  lemma PointerFocusEffect(s: Wm, id: nat)
    requires Inv(s)
    ensures var r := FocusWindowOnOutput(s, id);
      && (forall k :: 0 <= k < |s.windows| && s.windows[k].id == id ==> WindowFocused(s, r, k))
      && ((forall k :: 0 <= k < |s.windows| ==> s.windows[k].id != id) ==> r == s)
  {
    var k := s.FindWindow(id);
    assert forall j :: 0 <= j < |s.windows| && s.windows[j].id == id ==> k == Some(j);
    assert k.None? ==> FocusWindowOnOutput(s, id) == s;
    hide *;
    if k.Some? {
      PointerFocuses(s, k.value);
    }
  }

  lemma PointerFocuses(s: Wm, k: nat)
    requires Inv(s) && k < |s.windows| && s.FindWindow(s.windows[k].id) == Some(k)
    ensures WindowFocused(s, FocusWindowOnOutput(s, s.windows[k].id), k)
  {
    hide SwitchActiveTag, FocusSettled;
    var id, tag := s.windows[k].id, s.windows[k].tag;
    if s.TagOwner(tag).Some? {
      var o := s.TagOwner(tag).value;
      if s.focused == Some(o) && s.outputs[o].activeTag == tag && s.outputs[o].focusedWindow == Some(id) {
        assert s.outputs[o := s.outputs[o].(activeTag := tag, focusedWindow := Some(id))] == s.outputs;
      } else {
        var m := s.(focused := Some(o)).SetFocusedWindow(o, Some(id));
        var r := SwitchActiveTag(m, o, tag);
        assert FocusWindowOnOutput(s, id) == r && WellFormed(m);
        hide *;
        PointerSwitches(s, m, r, k, o);
      }
    }
  }

  lemma PointerSwitches(s: Wm, m: Wm, r: Wm, k: nat, o: nat)
    requires Inv(s) && WellFormed(m) && k < |s.windows| && o < |s.outputs| && s.TagOwner(s.windows[k].tag) == Some(o)
    requires m == s.(focused := Some(o)).SetFocusedWindow(o, Some(s.windows[k].id))
    requires r == SwitchActiveTag(m, o, s.windows[k].tag)
    ensures WindowFocused(s, r, k)
  {
    hide SwitchActiveTag, FocusSettled, FocusFollows, WellFormed, Inv;
    SwitchEffect(m, o, s.windows[k].tag);
    KeepsTheWindow(m, o, s.windows[k].tag, k);
    FocusedByHand(s, m, r, k, o);
    assert r.outputs[o := r.outputs[o]] == r.outputs;
    hide WindowFocused;
  }

  /** Pointer focus is settled after one event: the same event again changes nothing. */
  lemma PointerFocusSettles(s: Wm, id: nat)
    requires Inv(s)
    ensures var r := FocusWindowOnOutput(s, id); FocusWindowOnOutput(r, id) == r
  {
    hide SwitchActiveTag, FocusSettled;
    var k := s.FindWindow(id);
    var r := FocusWindowOnOutput(s, id);
    if k.Some? && s.TagOwner(s.windows[k.value].tag).Some? && r != s {
      var o, tag := s.TagOwner(s.windows[k.value].tag).value, s.windows[k.value].tag;
      var m := s.(focused := Some(o)).SetFocusedWindow(o, Some(id));
      assert r == SwitchActiveTag(m, o, tag) && WellFormed(m);
      hide FocusWindowOnOutput, Inv, WellFormed;
      SwitchEffect(m, o, tag);
      KeepsTheWindow(m, o, tag, k.value);
      SameFound(s, r, id);
      AlreadyFocused(r, k.value, o);
    }
  }

  lemma AlreadyFocused(r: Wm, k: nat, o: nat)
    requires k < |r.windows| && r.FindWindow(r.windows[k].id) == Some(k) && o < |r.outputs|
    requires r.TagOwner(r.windows[k].tag) == Some(o) == r.focused
    requires r.outputs[o].activeTag == r.windows[k].tag && r.outputs[o].focusedWindow == Some(r.windows[k].id)
    ensures FocusWindowOnOutput(r, r.windows[k].id) == r
  {
  }

  /** Switching to the tag of the focused window keeps that window focused. */
  lemma KeepsTheWindow(m: Wm, o: nat, tag: nat, k: nat)
    requires WellFormed(m) && o < |m.outputs| && k < |m.windows| && m.windows[k].tag == tag
    requires m.TagOwner(tag) == Some(o) && m.outputs[o].focusedWindow == Some(m.windows[k].id)
    ensures SwitchActiveTag(m, o, tag).outputs[o].focusedWindow == Some(m.windows[k].id)
  {
    var left := m.outputs[o].activeTag;
    var n := if left != tag then ClearFullscreen(m.SetActive(o, tag), left) else m.SetActive(o, tag);
    SameFound(m, n, m.windows[k].id);
    assert m.FindWindow(m.windows[k].id) == Some(k);
    assert n.ShownBy(o, n.windows[k]);
    hide FirstShown;
  }

  lemma SameFound(s: Wm, r: Wm, id: nat)
    requires |r.windows| == |s.windows| && forall k :: 0 <= k < |s.windows| ==> r.windows[k].id == s.windows[k].id
    ensures r.FindWindow(id) == s.FindWindow(id)
  {
    var p := (w: Window) => w.id == id;
    var a, b := Position(s.windows, p), Position(r.windows, p);
    assert a.Some? ==> p(r.windows[a.value]);
    assert b.Some? ==> p(s.windows[b.value]);
    PositionCongruent(s.windows, p, (w: Window) => w.id == id);
    PositionCongruent(r.windows, p, (w: Window) => w.id == id);
  }

  // ----- new and floated windows -----

  /** A window as it comes: tiled, 400 by 300 once floated, and nothing said or done about it yet. */
  predicate Untouched(w: Window) {
    && !w.floating && !w.fullscreen && !w.minimized && w.appId.None? && w.title.None?
    && w.floatX == w.floatY == 0 && w.floatW == 400 && w.floatH == 300
    && w.minW == w.minH == w.maxW == w.maxH == 0
    && !w.node && !w.capsSet && !w.fullscreenApplied && w.ssdApplied.None? && w.tiledApplied.None?
  }

  /** A new window has an id no other window has or had, is on the tag the active output shows and focused
      there, and is shown exactly when that output owns the tag; nothing else changes. */
  lemma NewWindowPlaced(s: Wm)
    requires Inv(s)
    ensures var r, n := OnWindowAdded(s), |s.windows|;
      && |r.windows| == n + 1 && r.windows[..n] == s.windows && r.windows[n].id == s.nextId < r.nextId
      && (forall k :: 0 <= k < n ==> s.windows[k].id != r.windows[n].id)
      && Untouched(r.windows[n]) && |r.outputs| == |s.outputs|
      && r == s.(windows := r.windows, nextId := r.nextId, outputs := r.outputs)
      && (s.outputs == [] ==> r.windows[n].tag == 0)
      && (s.outputs != [] ==>
            var i := s.focused.value;
            && r.windows[n].tag == s.outputs[i].activeTag
            && r.outputs == s.outputs[i := s.outputs[i].(focusedWindow := Some(r.windows[n].id))]
            && (r.ShownBy(i, r.windows[n]) <==> Owns(s, i, s.outputs[i].activeTag)))
  {
  }

  /** Where a floated length starts: centred up to rounding if it fits, else at the start of the room. */
  predicate Centred(at: int, len: nat, start: int, room: nat) {
    if len <= room then
      start <= at && at + len <= start + room && -1 <= (at - start) - (start + room - at - len) <= 1
    else at == start
  }

  /** The floated window `r` has its fitted size and is centred on each axis of `a`, if that has an area. */
  ghost predicate FittedInto(w: Window, r: Window, a: Area) {
    && r.floatW == FitSide(w.floatW, a.width, w.minW, w.maxW)
    && r.floatH == FitSide(w.floatH, a.height, w.minH, w.maxH)
    && if a.width > 0 && a.height > 0
       then Centred(r.floatX, r.floatW, a.x, a.width) && Centred(r.floatY, r.floatH, a.y, a.height)
       else r.floatX == a.x && r.floatY == a.y
  }

  /** A window floated for its app is fitted into the area of the output it is managed against. Without
      an output it is only floated. */
  lemma FloatedCentred(s: Wm, w: Window)
    ensures var r := FloatForApp(s, w);
      && r == w.(floating := true, floatX := r.floatX, floatY := r.floatY, floatW := r.floatW, floatH := r.floatH)
      && (forall i: nat :: ManagedBy(s, w, i) ==> FittedInto(w, r, OutputArea(s.outputs[i])))
      && ((forall i: nat :: !ManagedBy(s, w, i)) ==> r == w.(floating := true))
  {
    var o, r := s.WindowOutput(w), FloatForApp(s, w);
    if o.Some? && o.value < |s.outputs| {
      assert ManagedBy(s, w, o.value);
      var a := OutputArea(s.outputs[o.value]);
      var fw, fh := FitSide(w.floatW, a.width, w.minW, w.maxW), FitSide(w.floatH, a.height, w.minH, w.maxH);
      var (x, y) := PlaceOver(fw, fh, a, a);
      assert r == w.(floating := true, floatW := fw, floatH := fh, floatX := x, floatY := y);
      hide FitSide, OutputArea, FloatForApp, ManagedBy, PlaceOver;
      PlacedCentred(a, fw, fh);
    } else {
      assert r == w.(floating := true);
      hide FitSide, OutputArea, FloatForApp;
    }
    assert forall i: nat :: ManagedBy(s, w, i) ==> o == Some(i);
    hide ManagedBy;
  }

  lemma PlacedCentred(a: Area, w: nat, h: nat)
    ensures var (x, y) := PlaceOver(w, h, a, a);
      if a.width > 0 && a.height > 0 then Centred(x, w, a.x, a.width) && Centred(y, h, a.y, a.height)
      else x == a.x && y == a.y
  {
    CentredAxis(a.x, a.width, w);
    CentredAxis(a.y, a.height, h);
    hide Centred, Clamp;
  }

  lemma CentredAxis(start: int, room: nat, size: nat)
    ensures Centred(Clamp(start + room / 2 - size / 2, start, start + (room - Min(size, room))), size, start, room)
  {
  }

  // ----- rings -----

  /** Reducing a number that wraps at most once. */
  lemma WrapOnce(x: nat, n: nat)
    requires 0 < n && x < 2 * n
    ensures x % n == if x < n then x else x - n
  {
    var q := x / n;
    assert x == q * n + x % n;
    if q == 0 {
      assert q * n == 0;
    } else if q >= 2 {
      Tiling.MulMonotone(2, q, n);
    }
  }

  lemma RotateIs(i: nat, n: nat)
    requires i < n
    ensures Rotate(i, n, true) == if i + 1 < n then i + 1 else 0
    ensures Rotate(i, n, false) == if i > 0 then i - 1 else n - 1
  {
    WrapOnce(i + 1, n);
    WrapOnce(i + n - 1, n);
  }

  /** One step back undoes one step forward, and the other way round. */
  lemma RotateBack(i: nat, n: nat, forward: bool)
    requires i < n
    ensures Rotate(i, n, forward) < n && Rotate(Rotate(i, n, forward), n, !forward) == i
  {
    hide Rotate;
    RotateIs(i, n);
    RotateIs(Rotate(i, n, forward), n);
  }

  /** Cycling focus around the outputs one way and back is the identity. */
  lemma CycleOutputUndone(s: Wm, forward: bool)
    requires Inv(s)
    ensures OnCycleOutput(OnCycleOutput(s, forward), !forward) == s
  {
    if |s.outputs| > 1 {
      RotateBack(s.focused.value, |s.outputs|, forward);
    }
  }

  /** Steps forward around a ring of `n`. */
  function RotateMany(i: nat, n: nat, steps: nat): nat
    requires n > 0
  {
    if steps == 0 then i else Rotate(RotateMany(i, n, steps - 1), n, true)
  }

  lemma {:induction false} Wrapped(i: nat, n: nat, steps: nat)
    requires i < n && steps <= n
    ensures RotateMany(i, n, steps) == if i + steps < n then i + steps else i + steps - n
  {
    if steps > 0 {
      Wrapped(i, n, steps - 1);
      RotateIs(RotateMany(i, n, steps - 1), n);
      hide Rotate;
    }
  }

  /** Cycling forward comes to every place of the ring within one round, which ends where it began. */
  lemma RotateReaches(i: nat, n: nat, j: nat) returns (steps: nat)
    requires i < n && j < n
    ensures steps < n && RotateMany(i, n, steps) == j && RotateMany(i, n, n) == i
  {
    steps := if j >= i then j - i else j + n - i;
    Wrapped(i, n, steps);
    Wrapped(i, n, n);
    hide RotateMany;
  }

  /** The windows output `i` shows, by id: the ring that window focus cycles through. */
  function Ring(s: Wm, i: nat): seq<nat>
    requires i < |s.outputs|
  {
    Map(Filter(s.windows, (w: Window) => s.ShownBy(i, w)), (w: Window) => w.id)
  }

  /** With the focused window at place `at` of the ring, cycling takes the next place. */
  lemma CycleStep(s: Wm, i: nat, forward: bool, at: nat)
    requires WellFormed(s) && s.ActiveOutput() == Some(i) && at < |Ring(s, i)|
    requires s.outputs[i].focusedWindow == Some(Ring(s, i)[at])
    ensures Rotate(at, |Ring(s, i)|, forward) < |Ring(s, i)|
    ensures OnCycleWindow(s, forward) == s.SetFocusedWindow(i, Some(Ring(s, i)[Rotate(at, |Ring(s, i)|, forward)]))
  {
    var ids, f := Ring(s, i), s.outputs[i].focusedWindow;
    Tiling.FilteredIdsDistinct(s.windows, (w: Window) => s.ShownBy(i, w));
    RotateIs(at, |ids|);
    var place := Position(ids, (id: nat) => f == Some(id));
    assert place == Some(at);
    hide Rotate, Filter, Position;
  }

  lemma SameRing(s: Wm, i: nat, f: Option<nat>)
    requires i < |s.outputs|
    ensures Ring(s.SetFocusedWindow(i, f), i) == Ring(s, i)
  {
    var r := s.SetFocusedWindow(i, f);
    FilterCongruent(s.windows, (w: Window) => s.ShownBy(i, w), (w: Window) => r.ShownBy(i, w));
  }

  lemma CycleBack(s: Wm, i: nat, forward: bool, at: nat)
    requires WellFormed(s) && s.ActiveOutput() == Some(i) && i < |s.outputs| && at < |Ring(s, i)|
    requires s.outputs[i].focusedWindow == Some(Ring(s, i)[at])
    ensures WellFormed(OnCycleWindow(s, forward)) && OnCycleWindow(OnCycleWindow(s, forward), !forward) == s
  {
    hide *;
    var ids := Ring(s, i);
    CycleStep(s, i, forward, at);
    var next := Rotate(at, |ids|, forward);
    RotateBack(at, |ids|, forward);
    var f := Some(ids[next]);
    SameRing(s, i, f);
    FocusKeepsShape(s, i, f);
    FocusSetTwice(s, i, f);
    CycleStep(s.SetFocusedWindow(i, f), i, !forward, next);
  }

  lemma FocusSetTwice(s: Wm, i: nat, f: Option<nat>)
    requires i < |s.outputs|
    ensures var r := s.SetFocusedWindow(i, f);
      && |r.outputs| == |s.outputs| && r.outputs[i].focusedWindow == f
      && r.SetFocusedWindow(i, s.outputs[i].focusedWindow) == s
  {
    assert s.outputs[i := s.outputs[i].(focusedWindow := f)][i := s.outputs[i]] == s.outputs;
  }

  /** Cycling window focus one way and back is the identity when the focused window is shown. */
  lemma CycleWindowUndone(s: Wm, forward: bool)
    requires Inv(s) && s.outputs != []
    requires var f := s.outputs[s.focused.value].focusedWindow; f.Some? && f.value in Ring(s, s.focused.value)
    ensures WellFormed(OnCycleWindow(s, forward)) && OnCycleWindow(OnCycleWindow(s, forward), !forward) == s
  {
    var i := s.focused.value;
    hide OnCycleWindow, Ring;
    var at :| 0 <= at < |Ring(s, i)| && Ring(s, i)[at] == s.outputs[i].focusedWindow.value;
    CycleBack(s, i, forward, at);
  }

  lemma FocusKeepsShape(s: Wm, i: nat, f: Option<nat>)
    requires WellFormed(s) && i < |s.outputs|
    ensures WellFormed(s.SetFocusedWindow(i, f)) && s.SetFocusedWindow(i, f).ActiveOutput() == s.ActiveOutput()
  {
  }

  // ----- cycling reaches everything -----

  /** The place in the ring cycling starts from: that of the focused window, or the first. */
  function StartPlace(s: Wm, i: nat): (at: nat)
    requires i < |s.outputs| && Ring(s, i) != []
    ensures at < |Ring(s, i)|
    ensures s.outputs[i].focusedWindow.Some? && s.outputs[i].focusedWindow.value in Ring(s, i)
            ==> s.outputs[i].focusedWindow == Some(Ring(s, i)[at])
  {
    var f := s.outputs[i].focusedWindow;
    var place := Position(Ring(s, i), (id: nat) => f == Some(id));
    assert f.Some? && f.value in Ring(s, i) ==> exists k :: 0 <= k < |Ring(s, i)| && Ring(s, i)[k] == f.value;
    if place.Some? then place.value else 0
  }

  lemma FirstCycle(s: Wm, i: nat, forward: bool)
    requires WellFormed(s) && s.ActiveOutput() == Some(i) && Ring(s, i) != []
    ensures Rotate(StartPlace(s, i), |Ring(s, i)|, forward) < |Ring(s, i)|
    ensures OnCycleWindow(s, forward)
         == s.SetFocusedWindow(i, Some(Ring(s, i)[Rotate(StartPlace(s, i), |Ring(s, i)|, forward)]))
  {
    RotateIs(StartPlace(s, i), |Ring(s, i)|);
    hide Rotate, Filter, Position;
  }

  /** With nothing shown to cycle through nothing changes. From a focus that is not shown, cycling back goes to
      the last shown window, and cycling forward to the second, unless there is only one. */
  lemma CycleFromNowhere(s: Wm)
    requires Inv(s) && s.outputs != []
    ensures var i := s.focused.value;
      var ring, f := Ring(s, i), s.outputs[i].focusedWindow;
      && (ring == [] ==> OnCycleWindow(s, true) == s == OnCycleWindow(s, false))
      && (ring != [] && !(f.Some? && f.value in ring) ==>
            && OnCycleWindow(s, true) == s.SetFocusedWindow(i, Some(ring[if |ring| > 1 then 1 else 0]))
            && OnCycleWindow(s, false) == s.SetFocusedWindow(i, Some(ring[|ring| - 1])))
  {
    var i := s.focused.value;
    assert WellFormed(s) && s.ActiveOutput() == Some(i);
    hide *;
    if Ring(s, i) == [] {
      NothingToCycle(s, i, true);
      NothingToCycle(s, i, false);
    } else {
      FirstCycle(s, i, true);
      FirstCycle(s, i, false);
      RotateIs(StartPlace(s, i), |Ring(s, i)|);
      if !(s.outputs[i].focusedWindow.Some? && s.outputs[i].focusedWindow.value in Ring(s, i)) {
        StartsAtFirst(s, i);
      }
    }
  }

  lemma NothingToCycle(s: Wm, i: nat, forward: bool)
    requires WellFormed(s) && s.ActiveOutput() == Some(i) && Ring(s, i) == []
    ensures OnCycleWindow(s, forward) == s
  {
    hide Filter;
  }

  lemma StartsAtFirst(s: Wm, i: nat)
    requires i < |s.outputs| && Ring(s, i) != []
    requires !(s.outputs[i].focusedWindow.Some? && s.outputs[i].focusedWindow.value in Ring(s, i))
    ensures StartPlace(s, i) == 0
  {
  }

  /** The state after cycling window focus forward `steps` times. */
  ghost function CycleMany(s: Wm, steps: nat): (r: Wm)
    requires WellFormed(s)
    ensures WellFormed(r)
  {
    if steps == 0 then s
    else
      var m := CycleMany(s, steps - 1);
      CycleKeepsShape(m);
      OnCycleWindow(m, true)
  }

  lemma CycleKeepsShape(s: Wm)
    requires WellFormed(s)
    ensures WellFormed(OnCycleWindow(s, true))
  {
    hide Rotate;
  }

  lemma {:induction false} CycleManyIs(s: Wm, i: nat, steps: nat)
    requires WellFormed(s) && s.ActiveOutput() == Some(i) && Ring(s, i) != [] && steps > 0
    ensures var place := RotateMany(StartPlace(s, i), |Ring(s, i)|, steps);
      place < |Ring(s, i)| && CycleMany(s, steps) == s.SetFocusedWindow(i, Some(Ring(s, i)[place]))
  {
    if steps == 1 {
      FirstCycle(s, i, true);
      assert RotateMany(StartPlace(s, i), |Ring(s, i)|, 0) == StartPlace(s, i) && CycleMany(s, 0) == s;
      hide Rotate, OnCycleWindow, WellFormed, Ring;
    } else {
      CycleManyIs(s, i, steps - 1);
      hide Rotate, OnCycleWindow, WellFormed, Ring, StartPlace;
      var n, before := |Ring(s, i)|, RotateMany(StartPlace(s, i), |Ring(s, i)|, steps - 1);
      var f := Some(Ring(s, i)[before]);
      FocusKeepsShape(s, i, f);
      SameRing(s, i, f);
      FocusSetTwice(s, i, f);
      CycleStep(s.SetFocusedWindow(i, f), i, true, before);
      FocusSetOver(s, i, f, Some(Ring(s, i)[Rotate(before, n, true)]));
    }
  }

  lemma FocusSetOver(s: Wm, i: nat, f: Option<nat>, g: Option<nat>)
    requires i < |s.outputs|
    ensures |s.SetFocusedWindow(i, f).outputs| == |s.outputs|
    ensures s.SetFocusedWindow(i, f).SetFocusedWindow(i, g) == s.SetFocusedWindow(i, g)
  {
    var o := s.outputs[i];
    assert s.outputs[i := o.(focusedWindow := f)][i := o.(focusedWindow := g)] ==
        s.outputs[i := o.(focusedWindow := g)];
  }

  /** Cycling forward comes to every window the active output shows: within one round, and one step short
      of it when a shown window was focused to begin with. */
  lemma CycleWindowReaches(s: Wm, id: nat) returns (steps: nat)
    requires Inv(s) && s.outputs != [] && id in Ring(s, s.focused.value)
    ensures var i := s.focused.value;
      && steps <= |Ring(s, i)| && |CycleMany(s, steps).outputs| == |s.outputs|
      && CycleMany(s, steps).outputs[i].focusedWindow == Some(id)
      && (s.outputs[i].focusedWindow.Some? && s.outputs[i].focusedWindow.value in Ring(s, i) ==> steps < |Ring(s, i)|)
  {
    var i := s.focused.value;
    var n, at := |Ring(s, i)|, StartPlace(s, i);
    var j :| 0 <= j < n && Ring(s, i)[j] == id;
    steps := RotateReaches(at, n, j);
    assert RotateMany(at, n, 0) == at && CycleMany(s, 0) == s;
    if steps == 0 && s.outputs[i].focusedWindow != Some(id) { steps := n; }
    if steps > 0 { CycleManyIs(s, i, steps); }
    hide OnCycleWindow, RotateMany, CycleMany, Ring, StartPlace;
  }

  function CycleOutputs(s: Wm, steps: nat): Wm {
    if steps == 0 then s else OnCycleOutput(CycleOutputs(s, steps - 1), true)
  }

  lemma {:induction false} CycleOutputsIs(s: Wm, steps: nat)
    requires Inv(s) && |s.outputs| > 1
    ensures var place := RotateMany(s.focused.value, |s.outputs|, steps);
      place < |s.outputs| && CycleOutputs(s, steps) == s.(focused := Some(place))
  {
    if steps > 0 {
      CycleOutputsIs(s, steps - 1);
      RotateIs(RotateMany(s.focused.value, |s.outputs|, steps - 1), |s.outputs|);
      hide Rotate;
    }
  }

  /** Cycling forward comes to every output, shown windows or not, in less than one round. */
  lemma CycleOutputReaches(s: Wm, j: nat) returns (steps: nat)
    requires Inv(s) && j < |s.outputs|
    ensures steps < |s.outputs| && CycleOutputs(s, steps) == s.(focused := Some(j))
  {
    steps := RotateReaches(s.focused.value, |s.outputs|, j);
    if |s.outputs| > 1 { CycleOutputsIs(s, steps); }
  }
}
