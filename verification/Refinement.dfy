/**
 Every event keeps the run invariant, and seen by output identity it is exactly
 one move of the desk. Runs follow.
 */
module Refinement {
  import opened Prelude
  import opened Desktop
  import opened Transitions
  import opened NormalizeProofs
  import opened Tiling
  import Passes
  import opened Invariant
  import opened Events
  import opened Identity

  ghost predicate Refines(s: Wm, e: Event, c: Config)
    requires WellFormed(s)
  {
    Inv(Next(s, e, c)) && DeskOf(Next(s, e, c)) == Moved(DeskOf(s), MoveOf(s, e, c))
  }

  // ----- an output is plugged in -----

  /** The state just after a new output has been given its first tag. */
  function Attached(s: Wm, uid: nat): Wm {
    var m := s.(outputs := s.outputs + [NewOutput(uid)]);
    var free := m.FreeTag();
    FixFocus(if free.Some? then m.SetOwner(free.value, Some(|s.outputs|)).SetActive(|s.outputs|, free.value) else m)
  }

  /** `Attached`, field by field. */
  ghost predicate AttachedTo(s: Wm, r: Wm, uid: nat) {
    var n, free := |s.outputs|, s.FreeTag();
    && |r.outputs| == n + 1 && (forall i :: 0 <= i < n ==> r.outputs[i] == s.outputs[i])
    && r.outputs[n].uid == uid && r.outputs[n].activeTag == (if free.Some? then free.value else 0)
    && |r.tags| == |s.tags|
    && (forall t :: 0 <= t < |s.tags| ==>
          r.tags[t] == if free == Some(t) then s.tags[t].(output := Some(n)) else s.tags[t])
    && r.windows == s.windows && r.nextId == s.nextId
    && r.focused == (if s.focused.Some? && s.focused.value <= n then s.focused else Some(0))
  }

  lemma AttachedFields(s: Wm, uid: nat)
    ensures AttachedTo(s, Attached(s, uid), uid)
  {
    var m := s.(outputs := s.outputs + [NewOutput(uid)]);
    assert m.FreeTag() == s.FreeTag();
  }

  lemma AttachedKeeps(s: Wm, r: Wm, uid: nat)
    requires Inv(s) && s.FindOutput(uid).None? && AttachedTo(s, r, uid)
    ensures Inv(r)
  {
    forall i | 0 <= i < |r.outputs| ensures ActiveOk(r, i) {
      AttachedActive(s, r, uid, i);
    }
    hide ActiveOk;
  }

  lemma AttachedActive(s: Wm, r: Wm, uid: nat, i: nat)
    requires Inv(s) && AttachedTo(s, r, uid) && i <= |s.outputs|
    ensures ActiveOk(r, i)
  {
    if i < |s.outputs| {
      assert ActiveOk(s, i);
    }
  }

  lemma AttachedDesk(s: Wm, r: Wm, uid: nat)
    requires Inv(s) && AttachedTo(s, r, uid)
    ensures DeskOf(r) == Moved(DeskOf(s), Plug(uid))
  {
    var d, d2 := DeskOf(s), DeskOf(r);
    InvIsWellFormed(s);
    DeskDescribes(s);
    DeskDescribes(r);
    hide DeskOf, Inv;
    SameFreeTag(s, d);
    PluggedDesk(s, r, uid, d, d2);
  }

  lemma PlugMove(d: Desk, uid: nat, free: Option<nat>)
    requires Position(d.owner, (o: Option<nat>) => o.None?) == free
    ensures var e := Moved(d, Plug(uid));
      && e.order == d.order + [uid]
      && e.owner == (if free.Some? then d.owner[free.value := Some(uid)] else d.owner)
      && e.focus == if d.focus.Some? then d.focus else Some(uid)
  {
    hide Position;
  }

  lemma PluggedDesk(s: Wm, r: Wm, uid: nat, d: Desk, d2: Desk)
    requires WellFormed(s) && (s.focused.None? <==> s.outputs == []) && AttachedTo(s, r, uid)
    requires Describes(s, d) && Describes(r, d2)
    requires Position(d.owner, (o: Option<nat>) => o.None?) == s.FreeTag()
    ensures d2 == Moved(d, Plug(uid))
  {
    hide Position, PositionFrom;
    var free := s.FreeTag();
    var e := Moved(d, Plug(uid));
    PlugMove(d, uid, free);
    hide Moved;
    assert d2.order == e.order;
    forall t | 0 <= t < |s.tags| ensures d2.owner[t] == e.owner[t] { }
    assert d2.owner == e.owner;
    assert d2.focus == e.focus;
  }

  lemma InvIsWellFormed(s: Wm)
    requires Inv(s)
    ensures WellFormed(s) && (s.focused.None? <==> s.outputs == [])
  {
  }

  lemma SameFreeTag(s: Wm, d: Desk)
    requires WellFormed(s) && Describes(s, d)
    ensures Position(d.owner, (o: Option<nat>) => o.None?) == s.FreeTag()
  {
    var a, b := Position(d.owner, (o: Option<nat>) => o.None?), s.FreeTag();
    assert forall t :: 0 <= t < |s.tags| ==> (d.owner[t].None? <==> s.tags[t].output.None?);
    assert a.Some? ==> d.owner[a.value].None?;
    assert b.Some? ==> s.tags[b.value].output.None?;
  }

  lemma AddedIsNormalized(s: Wm, uid: nat)
    requires Inv(s)
    ensures OnOutputAdded(s, uid) == Normalize(Attached(s, uid))
  {
    var m := s.(outputs := s.outputs + [NewOutput(uid)]);
    var free := m.FreeTag();
    var m1 := if free.Some? then m.SetOwner(free.value, Some(|s.outputs|)).SetActive(|s.outputs|, free.value) else m;
    assert forall t :: 0 <= t < |m.tags| ==> m.tags[t].output != Some(|s.outputs|);
    assert AssignInitialTag(m, |s.outputs|) == Normalize(m1);
    assert FixFocus(FixFocus(m1)) == FixFocus(m1);
    assert Normalize(m1) == Normalize(FixFocus(m1));
    NormalizeUpToEffect(FixFocus(m1), |m1.outputs|);
    hide NormalizeUpTo;
  }

  lemma OutputAddedRefines(s: Wm, e: Event, c: Config)
    requires Inv(s) && e.OutputAdded?
    ensures Refines(s, e, c)
  {
    if s.FindOutput(e.uid).None? {
      var m := Attached(s, e.uid);
      AddedIsNormalized(s, e.uid);
      assert Next(s, e, c) == Normalize(m) && MoveOf(s, e, c) == Plug(e.uid);
      hide Normalize, Attached, Inv, DeskOf;
      AttachedFields(s, e.uid);
      AttachedKeeps(s, m, e.uid);
      AttachedDesk(s, m, e.uid);
      NormalizeSkeleton(m);
      SkeletonKeeps(m, Normalize(m));
    }
    hide *;
  }

  // ----- an output is unplugged -----

  lemma DetachWellFormed(s: Wm, i: nat)
    requires Inv(s) && i < |s.outputs|
    ensures WellFormed(Detach(s, i))
    ensures Detach(s, i).focused.None? <==> Detach(s, i).outputs == []
  {
  }

  lemma DetachDesk(s: Wm, i: nat)
    requires Inv(s) && i < |s.outputs|
    ensures DeskOf(Detach(s, i)) == Moved(DeskOf(s), Unplug(s.outputs[i].uid))
  {
    hide *;
    var r := Detach(s, i);
    DeskDescribes(s);
    DeskDescribes(r);
    InvIsWellFormed(s);
    DetachFields(s, i);
    DetachedDesk(s, r, i, DeskOf(s), DeskOf(r));
  }

  lemma DetachedDesk(s: Wm, r: Wm, i: nat, d: Desk, d2: Desk)
    requires WellFormed(s) && i < |s.outputs| && Describes(s, d) && Describes(r, d2) && Detached(s, r, i)
    ensures d2 == Moved(d, Unplug(s.outputs[i].uid))
  {
    var order := d.order[..i] + d.order[i + 1..];
    assert Distinct(d.order);
    WithoutCuts(d.order, i);
    hide Without;
    assert d2.order == order;
    OwnerInherited(s, r, i, order, s.focused);
    forall t | 0 <= t < |s.tags| ensures d2.owner[t] == Inherit(d.owner[t], s.outputs[i].uid, order) {
      OwnerInherited(s, r, i, order, s.tags[t].output);
    }
    hide WellFormed, RemapOwner, UidOf, Inherit;
    UnpluggedDesk(d, s.outputs[i].uid, order, d2);
  }

  lemma UnpluggedDesk(d: Desk, uid: nat, order: seq<nat>, d2: Desk)
    requires order == Without(d.order, uid) && d2.order == order && |d2.owner| == |d.owner|
    requires forall t :: 0 <= t < |d.owner| ==> d2.owner[t] == Inherit(d.owner[t], uid, order)
    requires d2.focus == Inherit(d.focus, uid, order)
    ensures d2 == Moved(d, Unplug(uid))
  {
    assert d2.owner == Moved(d, Unplug(uid)).owner;
  }

  /** `r` is `s` with output `i` taken out. */
  ghost predicate Detached(s: Wm, r: Wm, i: nat)
    requires i < |s.outputs|
  {
    && |r.outputs| == |s.outputs| - 1 && |r.tags| == |s.tags|
    && (forall j :: 0 <= j < |r.outputs| ==> r.outputs[j] == s.outputs[if j < i then j else j + 1])
    && (forall t :: 0 <= t < |s.tags| ==> r.tags[t].output == RemapOwner(s.tags[t].output, i, |r.outputs|))
    && (WellFormed(s) ==> r.focused == RemapOwner(s.focused, i, |r.outputs|))
  }

  lemma DetachFields(s: Wm, i: nat)
    requires i < |s.outputs|
    ensures Detached(s, Detach(s, i), i)
  {
  }

  lemma OwnerInherited(s: Wm, r: Wm, i: nat, order: seq<nat>, o: Option<nat>)
    requires i < |s.outputs| && Detached(s, r, i) && DistinctUids(s) && (o.Some? ==> o.value < |s.outputs|)
    requires |order| == |r.outputs| && forall j :: 0 <= j < |order| ==> order[j] == r.outputs[j].uid
    ensures UidOf(r, RemapOwner(o, i, |r.outputs|)) == Inherit(UidOf(s, o), s.outputs[i].uid, order)
  {
  }

  /** After a removal no free tag is handed out: if one is free, no survivor lacks a tag. */
  lemma RemovalClaimsNothing(s: Wm, i: nat)
    requires Inv(s) && i < |s.outputs| && |s.outputs| > 1
    ensures Normalize(Detach(s, i)).tags == Detach(s, i).tags
  {
    var m, r := Detach(s, i), Normalize(Detach(s, i));
    NormalizeEstablishes(m);
    hide Normalize;
    forall t | 0 <= t < |m.tags| ensures r.tags[t] == m.tags[t] {
      if m.tags[t].output.None? && r.tags[t].output.Some? {
        SurvivorHasTag(s, i, r.tags[t].output.value, t);
      }
    }
  }

  lemma SurvivorHasTag(s: Wm, i: nat, j: nat, t: nat)
    requires Inv(s) && i < |s.outputs| && j < |s.outputs| - 1 && t < |s.tags| && s.tags[t].output.None?
    ensures !Tagless(Detach(s, i), j)
  {
    var k := if j < i then j else j + 1;
    assert ActiveOk(s, k);
    assert Detach(s, i).tags[s.outputs[k].activeTag].output == Some(j);
  }

  lemma NormalizedRemoval(m: Wm, r: Wm)
    requires WellFormed(m) && m.focused.Some? && m.outputs != [] && NormalizedFrom(m, r) && r.tags == m.tags
    ensures Inv(r) && DeskOf(r) == DeskOf(m)
  {
    hide FocusSound, ClaimedFairly, DeskOf;
    forall i | 0 <= i < |r.outputs| ensures r.outputs[i].activeTag < NUM_TAGS && r.outputs[i].uid == m.outputs[i].uid {
      assert ActiveChosen(m, r, i);
    }
    DeskDescribes(m);
    DescribedIsDesk(r, DeskOf(m));
  }

  lemma OutputRemovedRefines(s: Wm, e: Event, c: Config)
    requires Inv(s) && e.OutputRemoved?
    ensures Refines(s, e, c)
  {
    if s.FindOutput(e.uid).Some? {
      var i := s.FindOutput(e.uid).value;
      var m := Detach(s, i);
      var r := Normalize(m);
      assert Next(s, e, c) == ClampFloating(r) && MoveOf(s, e, c) == Unplug(e.uid) && s.outputs[i].uid == e.uid;
      DetachWellFormed(s, i);
      if m.outputs == [] {
        assert r == m;
        assert Inv(m);
      } else {
        assert |s.outputs| > 1;
      }
      hide *;
      DetachDesk(s, i);
      if m.outputs != [] {
        NormalizeEstablishes(m);
        RemovalClaimsNothing(s, i);
        NormalizedRemoval(m, r);
      }
      ClampSkeleton(r);
      SkeletonKeeps(r, ClampFloating(r));
      RefinesIs(s, e, c);
    }
  }

  lemma RefinesIs(s: Wm, e: Event, c: Config)
    requires WellFormed(s) && Inv(Next(s, e, c)) && DeskOf(Next(s, e, c)) == Moved(DeskOf(s), MoveOf(s, e, c))
    ensures Refines(s, e, c)
  {
  }

  /** A surviving output that showed its own tag keeps showing it. */
  lemma RemovalKeepsShownTags(s: Wm, i: nat, j: nat)
    requires Inv(s) && i < |s.outputs| && j < |s.outputs| && i != j && Owns(s, j, s.outputs[j].activeTag)
    ensures var r, k := RemoveOutput(s, i), if j < i then j else j - 1;
      && k < |r.outputs| && r.outputs[k].uid == s.outputs[j].uid && r.outputs[k].activeTag == s.outputs[j].activeTag
      && Owns(r, k, r.outputs[k].activeTag)
  {
    var m, k := Detach(s, i), if j < i then j else j - 1;
    assert m.outputs[k] == s.outputs[j] && m.tags[s.outputs[j].activeTag].output == Some(k);
    assert BestTag(m, k) == Some(s.outputs[j].activeTag);
    hide Detach, Normalize, LowestOwned, BestTag, ClampFloating, FocusSound, ClaimedFairly;
    NormalizeEstablishes(m);
    assert ActiveChosen(m, Normalize(m), k);
    ClampSkeleton(Normalize(m));
  }

  // ----- windows come and go -----

  lemma WindowAddedRefines(s: Wm, e: Event, c: Config)
    requires Inv(s) && e.WindowAdded?
    ensures Refines(s, e, c)
  {
    var r := OnWindowAdded(s);
    assert forall i :: 0 <= i < |s.outputs| ==>
        r.outputs[i].uid == s.outputs[i].uid && r.outputs[i].activeTag == s.outputs[i].activeTag;
    assert r.tags == s.tags && r.focused == s.focused && |r.outputs| == |s.outputs|;
    assert WellFormed(r);
    assert Next(s, e, c) == r && MoveOf(s, e, c) == Stay;
    hide OnWindowAdded, WellFormed;
    SameTagsKeep(s, r);
  }

  lemma SameTagsKeep(s: Wm, r: Wm)
    requires Inv(s) && WellFormed(r) && r.tags == s.tags && r.focused == s.focused && |r.outputs| == |s.outputs|
    requires forall i :: 0 <= i < |s.outputs| ==>
        r.outputs[i].uid == s.outputs[i].uid && r.outputs[i].activeTag == s.outputs[i].activeTag
    ensures Inv(r) && DeskOf(r) == DeskOf(s)
  {
    hide DeskOf;
    DeskDescribes(s);
    DescribedIsDesk(r, DeskOf(s));
    forall i | 0 <= i < |s.outputs| ensures ActiveOk(r, i) { assert ActiveOk(s, i); }
  }

  lemma WindowClosedRefines(s: Wm, e: Event, c: Config)
    requires Inv(s) && e.WindowClosed?
    ensures Refines(s, e, c)
  {
    var r := OnWindowClosed(s, e.id);
    var keep := (w: Window) => w.id != e.id;
    FilteredIdsDistinct(s.windows, keep);
    FilterCongruent(s.windows, keep, (w: Window) => w.id != e.id);
    forall k | 0 <= k < |r.windows| ensures r.windows[k].tag < NUM_TAGS && r.windows[k].id < s.nextId {
      assert r.windows[k] in s.windows;
    }
    assert Next(s, e, c) == r && MoveOf(s, e, c) == Stay;
    assert WellFormed(r);
    hide OnWindowClosed, WellFormed;
    SameTagsKeep(s, r);
  }

  // ----- focus -----

  lemma FocusTagRefines(s: Wm, e: Event, c: Config)
    requires Inv(s) && e.FocusTagAsked?
    ensures Refines(s, e, c)
  {
    hide FocusTag, DeskOf;
    var o := if e.output.Some? then s.FindOutputByName(e.output.value) else s.ActiveOutput();
    if o.Some? { FocusTagKeeps(s, o.value, e.tag); }
  }

  lemma SendToTagRefines(s: Wm, e: Event, c: Config)
    requires Inv(s) && e.SendToTagAsked?
    ensures Refines(s, e, c)
  {
    hide SendFocusedToTag, SendTarget, DeskOf;
    if s.ActiveOutput().Some? { SendKeeps(s, s.ActiveOutput().value, e.tag); }
  }

  lemma FocusAskedRefines(s: Wm, e: Event, c: Config)
    requires Inv(s) && e.FocusWindowAsked?
    ensures Refines(s, e, c)
  {
    hide SwitchActiveTag, DeskOf;
    var k := Position(s.windows, (w: Window) => w.appId == Some(e.app) && (e.called.None? || w.title == e.called));
    if k.Some? && s.TagOwner(s.windows[k.value].tag).Some? {
      var w := s.windows[k.value];
      var o := s.TagOwner(w.tag).value;
      var m := s.(focused := Some(o));
      assert m.SetFocusedWindow(o, s.outputs[o].focusedWindow) == m by {
        assert m.outputs[o := m.outputs[o]] == m.outputs;
      }
      FocusWindowKeeps(s, o, w.tag, s.outputs[o].focusedWindow);
      var m2 := SwitchActiveTag(m, o, w.tag);
      assert Next(s, e, c) == m2.SetFocusedWindow(o, Some(w.id)) && MoveOf(s, e, c) == Focus(s.outputs[o].uid);
      hide *;
      SetFocusSkeleton(m2, o, Some(w.id));
      SkeletonKeeps(m2, m2.SetFocusedWindow(o, Some(w.id)));
      RefinesIs(s, e, c);
    }
  }

  lemma PointerFocusKeeps(s: Wm, id: nat)
    requires Inv(s)
    ensures var k := s.FindWindow(id);
      Inv(FocusWindowOnOutput(s, id)) && DeskOf(FocusWindowOnOutput(s, id)) == Moved(DeskOf(s),
        if k.None? then Stay else FocusMove(s, s.TagOwner(s.windows[k.value].tag)))
  {
    var k := s.FindWindow(id);
    if k.Some? && s.TagOwner(s.windows[k.value].tag).Some? {
      var tag := s.windows[k.value].tag;
      FocusWindowKeeps(s, s.TagOwner(tag).value, tag, Some(id));
    }
    hide SwitchActiveTag, Inv;
  }

  lemma PointerEnteredRefines(s: Wm, e: Event, c: Config)
    requires Inv(s) && e.PointerEntered?
    ensures Refines(s, e, c)
  {
    hide FocusWindowOnOutput, DeskOf;
    PointerFocusKeeps(s, e.id);
  }

  lemma InteractedRefines(s: Wm, e: Event, c: Config)
    requires Inv(s) && e.Interacted?
    ensures Refines(s, e, c)
  {
    hide FocusWindowOnOutput, DeskOf;
    var f := (w: Window) => w.(minimized := false);
    var m := UpdateWindow(s, e.id, f);
    UpdateWindowSkeleton(s, e.id, f);
    assert m.FindWindow(e.id) == s.FindWindow(e.id) by {
      if m.FindWindow(e.id).Some? { assert s.windows[m.FindWindow(e.id).value].id == e.id; }
      if s.FindWindow(e.id).Some? { assert m.windows[s.FindWindow(e.id).value].id == e.id; }
    }
    assert forall o: Option<nat> :: FocusMove(m, o) == FocusMove(s, o);
    assert forall t: nat :: m.TagOwner(t) == s.TagOwner(t);
    assert Next(s, e, c) == FocusWindowOnOutput(m, e.id);
    SkeletonKeeps(s, m);
    PointerFocusKeeps(m, e.id);
    hide UpdateWindow, Inv, Next;
  }

  lemma FocusMoveKeeps(s: Wm, o: Option<nat>)
    requires Inv(s) && (o.Some? ==> o.value < |s.outputs|)
    ensures o.Some? ==> Inv(s.(focused := o)) && DeskOf(s.(focused := o)) == Moved(DeskOf(s), FocusMove(s, o))
  {
    if o.Some? {
      FocusKeeps(s, o.value);
    }
    hide Inv, DeskOf;
  }

  lemma FocusOutputRefines(s: Wm, e: Event, c: Config)
    requires Inv(s) && e.FocusOutputAsked?
    ensures Refines(s, e, c)
  {
    hide DeskOf, Inv;
    FocusMoveKeeps(s, s.FindOutputByName(e.name));
  }

  /** Refocusing the focused output is no move at all. */
  lemma FocusAgain(s: Wm)
    requires Inv(s)
    ensures Moved(DeskOf(s), FocusMove(s, s.focused)) == DeskOf(s)
  {
  }

  lemma CycleOutputRefines(s: Wm, e: Event, c: Config)
    requires Inv(s) && e.CycleOutput?
    ensures Refines(s, e, c)
  {
    FocusAgain(s);
    InvIsWellFormed(s);
    hide DeskOf, Inv;
    var o := OnCycleOutput(s, e.forward).focused;
    assert o.Some? ==> o.value < |s.outputs|;
    FocusMoveKeeps(s, o);
  }

  lemma PointerMovedRefines(s: Wm, e: Event, c: Config)
    requires Inv(s) && e.PointerMoved?
    ensures Refines(s, e, c)
  {
    FocusAgain(s);
    InvIsWellFormed(s);
    hide DeskOf, Inv;
    var o := OnPointerMoved(s, c, e.x, e.y).focused;
    FocusMoveKeeps(s, o);
  }

  // ----- everything else -----

  lemma GeometryKeeps(s: Wm, e: Event, c: Config)
    requires Inv(s) && (e.OutputMoved? || e.OutputResized? || e.UsableArea? || e.OutputNamed?)
    ensures SameSkeleton(s, Next(s, e, c))
  {
    hide Repair;
    var f := s.FindOutput(e.uid);
    if f.Some? {
      var o := s.outputs[f.value];
      match e
      case OutputMoved(_, x, y) => GeometrySkeleton(s, f.value, o.(x := x, y := y));
      case OutputResized(_, width, height) => GeometrySkeleton(s, f.value, o.(width := width, height := height));
      case UsableArea(_, x, y, width, height) =>
        GeometrySkeleton(s, f.value, o.(usableX := x, usableY := y, usableW := width, usableH := height));
      case OutputNamed(_, name) =>
    }
  }

  lemma AppIdKeeps(s: Wm, id: nat, appId: Option<string>, floats: bool)
    ensures SameSkeleton(s, OnAppId(s, id, appId, floats))
  {
    hide FitSide, PlaceOver, OutputArea, SameSkeleton;
    UpdateWindowSkeleton(s, id,
        (w: Window) => (if floats && !w.floating then FloatForApp(s, w) else w).(appId := appId));
  }

  lemma WindowEventKeeps(s: Wm, e: Event, c: Config)
    requires Inv(s) && (e.WindowTitled? || e.SizeHinted? || e.FullscreenAsked? || e.MinimizeAsked? || e.AppIdSet?)
    ensures SameSkeleton(s, Next(s, e, c))
  {
    hide UpdateWindow, SameSkeleton, OnAppId;
    match e
    case WindowTitled(id, title) => UpdateWindowSkeleton(s, id, (w: Window) => w.(title := title));
    case SizeHinted(id, minW, minH, maxW, maxH) =>
      UpdateWindowSkeleton(s, id, (w: Window) => w.(minW := minW, minH := minH, maxW := maxW, maxH := maxH));
    case FullscreenAsked(id, on) => UpdateWindowSkeleton(s, id, (w: Window) => w.(fullscreen := on));
    case MinimizeAsked(id) => UpdateWindowSkeleton(s, id, (w: Window) => w.(minimized := true));
    case AppIdSet(id, appId, floats) => AppIdKeeps(s, id, appId, floats);
  }

  lemma SelfSkeleton(s: Wm)
    ensures SameSkeleton(s, s)
  {
  }

  lemma ToggleKeeps(s: Wm, e: Event, c: Config)
    requires Inv(s) && (e.ToggleFullscreen? || e.ToggleFloat?)
    ensures SameSkeleton(s, Next(s, e, c))
  {
    hide UpdateWindow, SameSkeleton, GeometryOf;
    SelfSkeleton(s);
    var w := ActiveWindow(s);
    if w.Some? {
      var g := GeometryOf(s, c, w.value);
      UpdateWindowSkeleton(s, w.value, (w: Window) => w.(fullscreen := !w.fullscreen));
      UpdateWindowSkeleton(s, w.value, (w: Window) => FloatFromTile(g, w));
    }
  }

  lemma ModeKeeps(s: Wm, e: Event, c: Config)
    requires Inv(s) && (e.ToggleResizeMode? || e.LeaveResizeMode?)
    ensures SameSkeleton(s, Next(s, e, c))
  {
  }

  /** The events that leave identities, owners and focus as they are. */
  predicate Plain(e: Event) {
    || e.OutputMoved? || e.OutputResized? || e.UsableArea? || e.OutputNamed?
    || e.WindowTitled? || e.SizeHinted? || e.AppIdSet? || e.FullscreenAsked? || e.MinimizeAsked?
    || e.ToggleFullscreen? || e.ToggleFloat? || e.CycleWindow? || e.ToggleResizeMode? || e.LeaveResizeMode?
    || e.ResizeStep? || e.ManagePass? || e.RenderPass?
  }

  lemma PlainKeeps(s: Wm, e: Event, c: Config)
    requires Inv(s) && Plain(e)
    ensures SameSkeleton(s, Next(s, e, c))
  {
    hide SameSkeleton, Inv, Passes.ManageState, Passes.RenderState, OnResizeStep, OnCycleWindow;
    InvIsWellFormed(s);
    if e.OutputMoved? || e.OutputResized? || e.UsableArea? || e.OutputNamed? {
      GeometryKeeps(s, e, c);
    } else if e.WindowTitled? || e.SizeHinted? || e.AppIdSet? || e.FullscreenAsked? || e.MinimizeAsked? {
      WindowEventKeeps(s, e, c);
    } else if e.ToggleFullscreen? || e.ToggleFloat? {
      ToggleKeeps(s, e, c);
    } else if e.CycleWindow? {
      CycleWindowSkeleton(s, e.forward);
    } else if e.ResizeStep? {
      ResizeSkeleton(s, c, e.right);
    } else if e.ManagePass? {
      ManageSkeleton(s, c);
    } else if e.RenderPass? {
      RenderSkeleton(s);
    } else {
      ModeKeeps(s, e, c);
    }
  }

  lemma PlainRefines(s: Wm, e: Event, c: Config)
    requires Inv(s) && Plain(e)
    ensures Refines(s, e, c)
  {
    assert MoveOf(s, e, c) == Stay;
    hide Next, Inv, DeskOf, SameSkeleton;
    PlainKeeps(s, e, c);
    SkeletonKeeps(s, Next(s, e, c));
  }

  /** Every event keeps the invariant, and seen by identity it is exactly one move. */
  lemma NextRefines(s: Wm, e: Event, c: Config)
    requires Inv(s)
    ensures Inv(Next(s, e, c))
    ensures DeskOf(Next(s, e, c)) == Moved(DeskOf(s), MoveOf(s, e, c))
  {
    hide Next, Inv, DeskOf, MoveOf, Moved;
    match e
    case OutputAdded(_) => OutputAddedRefines(s, e, c);
    case OutputRemoved(_) => OutputRemovedRefines(s, e, c);
    case WindowAdded => WindowAddedRefines(s, e, c);
    case WindowClosed(_) => WindowClosedRefines(s, e, c);
    case FocusTagAsked(_, _) => FocusTagRefines(s, e, c);
    case SendToTagAsked(_) => SendToTagRefines(s, e, c);
    case FocusWindowAsked(_, _) => FocusAskedRefines(s, e, c);
    case PointerEntered(_) => PointerEnteredRefines(s, e, c);
    case Interacted(_) => InteractedRefines(s, e, c);
    case FocusOutputAsked(_) => FocusOutputRefines(s, e, c);
    case CycleOutput(_) => CycleOutputRefines(s, e, c);
    case PointerMoved(_, _) => PointerMovedRefines(s, e, c);
    case _ => PlainRefines(s, e, c);
  }
}
