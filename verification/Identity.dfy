/**
 Tags and focus by output identity. The implementation names outputs by index,
 and indices shift when an output goes away; this is the same machine with
 every index replaced by the identity of the output it means.
 */
module Identity {
  import opened Prelude
  import opened Desktop
  import opened Transitions
  import opened NormalizeProofs
  import opened Tiling
  import opened Passes
  import opened Invariant
  import opened Events

  /** Outputs in order, each tag's owner, and the focused output, all by identity. */
  datatype Desk = Desk(order: seq<nat>, owner: seq<Option<nat>>, focus: Option<nat>)

  /** What an event does to the desk. */
  datatype Move = Stay | Plug(uid: nat) | Unplug(uid: nat) | Claim(tag: nat, uid: nat) | Focus(uid: nat)

  function First(order: seq<nat>): Option<nat> {
    if order == [] then None else Some(order[0])
  }

  function Inherit(o: Option<nat>, gone: nat, order: seq<nat>): Option<nat> {
    if o == Some(gone) then First(order) else o
  }

  function Moved(d: Desk, m: Move): Desk {
    match m
    case Stay => d
    case Plug(uid) =>
      var free := Position(d.owner, (o: Option<nat>) => o.None?);
      Desk(d.order + [uid],
           if free.Some? then d.owner[free.value := Some(uid)] else d.owner,
           if d.focus.Some? then d.focus else Some(uid))
    case Unplug(uid) =>
      var order := Without(d.order, uid);
      Desk(order, Map(d.owner, o => Inherit(o, uid, order)), Inherit(d.focus, uid, order))
    case Claim(tag, uid) => if tag < |d.owner| then d.(owner := d.owner[tag := Some(uid)]) else d
    case Focus(uid) => d.(focus := Some(uid))
  }

  function UidOf(s: Wm, o: Option<nat>): Option<nat> {
    if o.Some? && o.value < |s.outputs| then Some(s.outputs[o.value].uid) else None
  }

  function DeskOf(s: Wm): Desk {
    Desk(Map(s.outputs, (o: Output) => o.uid), Map(s.tags, (t: Tag) => UidOf(s, t.output)), UidOf(s, s.focused))
  }

  function FocusMove(s: Wm, o: Option<nat>): Move {
    if UidOf(s, o).Some? then Focus(UidOf(s, o).value) else Stay
  }

  /** Output `o` takes a free tag; otherwise the tag's owner decides. */
  function ClaimMove(s: Wm, o: Option<nat>, tag: nat): Move {
    if UidOf(s, o).Some? && tag < |s.tags| && s.tags[tag].output.None? then Claim(tag, UidOf(s, o).value) else Stay
  }

  function MoveOf(s: Wm, e: Event, c: Config): Move
    requires WellFormed(s)
  {
    match e
    case OutputAdded(uid) => if s.FindOutput(uid).Some? then Stay else Plug(uid)
    case OutputRemoved(uid) => if s.FindOutput(uid).Some? then Unplug(uid) else Stay
    case FocusTagAsked(tag, output) =>
      var o := if output.Some? then s.FindOutputByName(output.value) else s.ActiveOutput();
      if o.None? || tag >= |s.tags| then Stay
      else if s.tags[tag].output.None? then ClaimMove(s, o, tag)
      else if s.tags[tag].output == o then Stay
      else FocusMove(s, s.tags[tag].output)
    case SendToTagAsked(tag) =>
      var o := s.ActiveOutput();
      if o.Some? && SendTarget(s, o.value, tag).Some? then ClaimMove(s, o, tag) else Stay
    case FocusOutputAsked(name) => FocusMove(s, s.FindOutputByName(name))
    case FocusWindowAsked(app, called) =>
      var k := Position(s.windows, (w: Window) => w.appId == Some(app) && (called.None? || w.title == called));
      if k.None? then Stay else FocusMove(s, s.TagOwner(s.windows[k.value].tag))
    case CycleOutput(forward) => FocusMove(s, OnCycleOutput(s, forward).focused)
    case PointerEntered(id) =>
      var k := s.FindWindow(id);
      if !c.focusFollowsMouse || k.None? then Stay else FocusMove(s, s.TagOwner(s.windows[k.value].tag))
    case Interacted(id) =>
      var k := s.FindWindow(id);
      if k.None? then Stay else FocusMove(s, s.TagOwner(s.windows[k.value].tag))
    case PointerMoved(x, y) => FocusMove(s, OnPointerMoved(s, c, x, y).focused)
    case _ => Stay
  }

  /** The desk, entry by entry. */
  ghost predicate Describes(s: Wm, d: Desk) {
    && |d.order| == |s.outputs| && (forall i :: 0 <= i < |s.outputs| ==> d.order[i] == s.outputs[i].uid)
    && |d.owner| == |s.tags| && (forall t :: 0 <= t < |s.tags| ==> d.owner[t] == UidOf(s, s.tags[t].output))
    && d.focus == UidOf(s, s.focused)
  }

  lemma DeskDescribes(s: Wm)
    ensures Describes(s, DeskOf(s))
  {
  }

  lemma DescribedIsDesk(s: Wm, d: Desk)
    requires Describes(s, d)
    ensures DeskOf(s) == d
  {
    assert DeskOf(s).order == d.order && DeskOf(s).owner == d.owner;
  }

  // ----- steps that leave tags, outputs' identities and focus alone -----

  /** Same outputs showing the same tags, same owners, same focus, same windows on the same tags. */
  ghost predicate SameSkeleton(s: Wm, r: Wm) {
    && |r.outputs| == |s.outputs| && |r.tags| == |s.tags| && |r.windows| == |s.windows|
    && r.focused == s.focused && r.nextId == s.nextId
    && (forall i :: 0 <= i < |s.outputs| ==>
        r.outputs[i].uid == s.outputs[i].uid && r.outputs[i].activeTag == s.outputs[i].activeTag)
    && (forall t :: 0 <= t < |s.tags| ==> r.tags[t].output == s.tags[t].output)
    && (forall k :: 0 <= k < |s.windows| ==> r.windows[k].id == s.windows[k].id && r.windows[k].tag == s.windows[k].tag)
    && (FractionsLegal(s) ==> FractionsLegal(r))
  }

  lemma SkeletonKeeps(s: Wm, r: Wm)
    requires SameSkeleton(s, r)
    ensures WellFormed(s) ==> WellFormed(r)
    ensures Inv(s) ==> Inv(r)
    ensures DeskOf(r) == DeskOf(s)
  {
    forall i | 0 <= i < |s.outputs| && ActiveOk(s, i) ensures ActiveOk(r, i) { }
  }

  lemma SkeletonTransitive(s: Wm, m: Wm, r: Wm)
    requires SameSkeleton(s, m) && SameSkeleton(m, r)
    ensures SameSkeleton(s, r)
  {
  }

  lemma UpdateWindowSkeleton(s: Wm, id: nat, f: Window -> Window)
    requires forall w :: f(w).id == w.id && f(w).tag == w.tag
    ensures SameSkeleton(s, UpdateWindow(s, id, f))
  {
  }

  lemma RefocusSkeleton(s: Wm, i: nat)
    requires i < |s.outputs|
    ensures SameSkeleton(s, Refocus(s, i))
  {
    hide KeepsFocus, FirstShown;
  }

  lemma ManageSkeleton(s: Wm, c: Config)
    ensures SameSkeleton(s, ManageState(s, c))
  {
    var r := RefocusAll(s);
    RefocusAllFrame(s, |s.outputs|);
    hide RefocusAll;
    forall k | 0 <= k < |s.windows|
      ensures ManageState(s, c).windows[k].id == s.windows[k].id && ManageState(s, c).windows[k].tag == s.windows[k].tag
    {
      assert ManageState(s, c).windows[k] == TiledWindow(SyncWindow(r, c, s.windows[k]));
    }
    assert ManageState(s, c) == r.(windows := ManageState(s, c).windows);
  }

  lemma RenderSkeleton(s: Wm)
    ensures SameSkeleton(s, RenderState(s))
  {
  }

  lemma ClampSkeleton(s: Wm)
    ensures SameSkeleton(s, ClampFloating(s))
  {
    hide ClampRectToArea, OutputArea;
  }

  lemma ClearSkeleton(s: Wm, tag: nat)
    ensures SameSkeleton(s, ClearFullscreen(s, tag))
  {
  }

  lemma CycleWindowSkeleton(s: Wm, forward: bool)
    requires WellFormed(s)
    ensures SameSkeleton(s, OnCycleWindow(s, forward))
  {
    hide Rotate, Filter;
  }

  lemma ResizeSkeleton(s: Wm, c: Config, right: bool)
    requires WellFormed(s)
    ensures SameSkeleton(s, OnResizeStep(s, c, right))
  {
  }

  // ----- normalizing a state whose active tags are right -----

  lemma NormalizeSkeleton(s: Wm)
    requires Inv(s)
    ensures SameSkeleton(s, Normalize(s))
  {
    if s.outputs != [] {
      assert FixFocus(s) == s;
      NormalizeKeepsOwners(s, |s.outputs|);
      NormalizeUpToEffect(s, |s.outputs|);
    }
    hide NormalizeUpTo, ActiveOk, FocusSettled;
  }

  lemma RepairSkeleton(s: Wm)
    requires Inv(s)
    ensures SameSkeleton(s, Repair(s))
  {
    NormalizeSkeleton(s);
    ClampSkeleton(Normalize(s));
    SkeletonTransitive(s, Normalize(s), Repair(s));
    hide *;
  }

  /** Moving, resizing or changing the usable area of an output only repairs positions and focus. */
  lemma GeometrySkeleton(s: Wm, i: nat, o: Output)
    requires Inv(s) && i < |s.outputs| && o.uid == s.outputs[i].uid && o.activeTag == s.outputs[i].activeTag
    ensures SameSkeleton(s, Repair(s.SetOutput(i, o)))
  {
    var m := s.SetOutput(i, o);
    assert SameSkeleton(s, m);
    hide Repair;
    SkeletonKeeps(s, m);
    RepairSkeleton(m);
    SkeletonTransitive(s, m, Repair(m));
  }

  // ----- steps that change a tag's owner, the shown tag, or focus -----

  lemma FocusKeeps(s: Wm, o: nat)
    requires Inv(s) && o < |s.outputs|
    ensures Inv(s.(focused := Some(o))) && DeskOf(s.(focused := Some(o))) == Moved(DeskOf(s), Focus(s.outputs[o].uid))
  {
    var r := s.(focused := Some(o));
    forall i | 0 <= i < |s.outputs| ensures ActiveOk(r, i) { assert ActiveOk(s, i); }
  }

  /** Taking a free tag: nobody was tagless, because the table was not full. */
  lemma ClaimKeeps(s: Wm, i: nat, tag: nat)
    requires Inv(s) && i < |s.outputs| && tag < |s.tags| && s.tags[tag].output.None?
    ensures Inv(s.SetOwner(tag, Some(i)))
    ensures DeskOf(s.SetOwner(tag, Some(i))) == Moved(DeskOf(s), Claim(tag, s.outputs[i].uid))
  {
    var r := s.SetOwner(tag, Some(i));
    forall j | 0 <= j < |s.outputs| ensures ActiveOk(r, j) {
      assert ActiveOk(s, j) && Owns(s, j, s.outputs[j].activeTag);
    }
    assert DeskOf(r).owner == DeskOf(s).owner[tag := Some(s.outputs[i].uid)];
  }

  lemma ShowKeeps(s: Wm, i: nat, tag: nat)
    requires Inv(s) && i < |s.outputs| && Owns(s, i, tag)
    ensures Inv(s.SetActive(i, tag)) && DeskOf(s.SetActive(i, tag)) == DeskOf(s)
  {
    var r := s.SetActive(i, tag);
    forall j | 0 <= j < |s.outputs| ensures ActiveOk(r, j) { assert ActiveOk(s, j); }
  }

  lemma ActivateKeeps(s: Wm, i: nat, tag: nat)
    requires Inv(s) && i < |s.outputs| && Owns(s, i, tag)
    ensures Inv(ActivateTag(s, i, tag)) && DeskOf(ActivateTag(s, i, tag)) == DeskOf(s)
  {
    var m1 := s.SetActive(i, tag);
    var m2 := ClearFullscreen(m1, s.outputs[i].activeTag);
    assert ActivateTag(s, i, tag) == Refocus(m2, i);
    hide *;
    ShowKeeps(s, i, tag);
    ClearSkeleton(m1, s.outputs[i].activeTag);
    SkeletonKeeps(m1, m2);
    assert |m2.outputs| == |s.outputs| by { SkeletonLength(m1, m2); }
    RefocusSkeleton(m2, i);
    SkeletonKeeps(m2, Refocus(m2, i));
  }

  lemma SkeletonLength(s: Wm, r: Wm)
    requires SameSkeleton(s, r)
    ensures |r.outputs| == |s.outputs|
  {
  }

  lemma SwitchKeeps(s: Wm, i: nat, tag: nat)
    requires Inv(s) && i < |s.outputs| && Owns(s, i, tag)
    ensures Inv(SwitchActiveTag(s, i, tag)) && DeskOf(SwitchActiveTag(s, i, tag)) == DeskOf(s)
    ensures |SwitchActiveTag(s, i, tag).outputs| == |s.outputs|
  {
    var m1 := s.SetActive(i, tag);
    var m2 := if s.outputs[i].activeTag != tag then ClearFullscreen(m1, s.outputs[i].activeTag) else m1;
    assert SwitchActiveTag(s, i, tag) == Refocus(m2, i);
    assert SameSkeleton(m1, m1);
    hide *;
    ShowKeeps(s, i, tag);
    ClearSkeleton(m1, s.outputs[i].activeTag);
    SkeletonKeeps(m1, m2);
    SkeletonLength(m1, m2);
    RefocusSkeleton(m2, i);
    SkeletonKeeps(m2, Refocus(m2, i));
    SkeletonLength(m2, Refocus(m2, i));
  }

  lemma FocusTagKeeps(s: Wm, i: nat, tag: nat)
    requires Inv(s) && i < |s.outputs|
    ensures Inv(FocusTag(s, i, tag))
    ensures DeskOf(FocusTag(s, i, tag)) == Moved(DeskOf(s),
              if tag >= |s.tags| || s.tags[tag].output == Some(i) then Stay
              else if s.tags[tag].output.None? then Claim(tag, s.outputs[i].uid)
              else Focus(s.outputs[s.tags[tag].output.value].uid))
  {
    if tag < |s.tags| {
      var o := s.tags[tag].output;
      if o.None? {
        ClaimKeeps(s, i, tag);
        ActivateKeeps(s.SetOwner(tag, Some(i)), i, tag);
      } else if o.value == i {
        ActivateKeeps(s, i, tag);
      } else {
        FocusKeeps(s, o.value);
        ActivateKeeps(s.(focused := o), o.value, tag);
      }
    }
    hide ActivateTag, DeskOf, Inv;
  }

  lemma RetagKeeps(s: Wm, k: nat, tag: nat)
    requires Inv(s) && k < |s.windows| && tag < |s.tags|
    ensures var r := s.SetWindow(k, s.windows[k].(tag := tag)); Inv(r) && DeskOf(r) == DeskOf(s)
  {
    var r := s.SetWindow(k, s.windows[k].(tag := tag));
    forall i | 0 <= i < |s.outputs| ensures ActiveOk(r, i) { assert ActiveOk(s, i); }
  }

  lemma SendKeeps(s: Wm, i: nat, tag: nat)
    requires Inv(s) && i < |s.outputs|
    ensures Inv(SendFocusedToTag(s, i, tag))
    ensures DeskOf(SendFocusedToTag(s, i, tag)) == Moved(DeskOf(s),
              if tag < |s.tags| && SendTarget(s, i, tag).Some? && s.tags[tag].output.None?
              then Claim(tag, s.outputs[i].uid) else Stay)
  {
    if tag < |s.tags| && SendTarget(s, i, tag).Some? {
      var k := SendTarget(s, i, tag).value;
      var m1 := if s.tags[tag].output.None? then s.SetOwner(tag, Some(i)) else s;
      var m2 := m1.SetWindow(k, m1.windows[k].(tag := tag));
      assert SendFocusedToTag(s, i, tag) == Refocus(m2, i);
      if s.tags[tag].output.None? {
        ClaimKeeps(s, i, tag);
      }
      RetagKeeps(m1, k, tag);
      RefocusSkeleton(m2, i);
      SkeletonKeeps(m2, Refocus(m2, i));
      hide Refocus, SendTarget, DeskOf, Inv, SendFocusedToTag;
    }
  }

  /** Focusing the owner of a window's tag and showing that tag there. */
  lemma FocusWindowKeeps(s: Wm, o: nat, tag: nat, before: Option<nat>)
    requires Inv(s) && o < |s.outputs| && Owns(s, o, tag)
    ensures var m := SwitchActiveTag(s.(focused := Some(o)).SetFocusedWindow(o, before), o, tag);
      |m.outputs| == |s.outputs| && Inv(m) && DeskOf(m) == Moved(DeskOf(s), Focus(s.outputs[o].uid))
  {
    var m1 := s.(focused := Some(o));
    var m2 := m1.SetFocusedWindow(o, before);
    assert Owns(m2, o, tag) && |m2.outputs| == |s.outputs|;
    hide *;
    FocusKeeps(s, o);
    SetFocusSkeleton(m1, o, before);
    SkeletonKeeps(m1, m2);
    SwitchKeeps(m2, o, tag);
  }

  lemma SetFocusSkeleton(s: Wm, o: nat, w: Option<nat>)
    requires o < |s.outputs|
    ensures SameSkeleton(s, s.SetFocusedWindow(o, w))
  {
  }
}
