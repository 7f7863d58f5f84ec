/**
 What each operation on the shared state does, as functions on values.
 The methods of `StateClass.State` are proved to compute exactly these; the
 lemmas of the other modules say what these functions guarantee.
 */
module Transitions {
  import opened Prelude
  import opened Desktop

  predicate Owns(s: Wm, i: nat, t: nat) {
    s.TagOwner(t) == Some(i)
  }

  predicate Occupied(s: Wm, t: nat) {
    exists k :: 0 <= k < |s.windows| && s.windows[k].tag == t
  }

  /** Output `i` is the one a window is managed against: the owner of its tag, or else the focused output,
      or the first if none is focused. */
  ghost predicate ManagedBy(s: Wm, w: Window, i: nat) {
    && i < |s.outputs|
    && s.TagOwner(w.tag) in {Some(i), None}
    && (s.TagOwner(w.tag).None? ==> s.focused == Some(i) || (s.focused.None? && i == 0))
  }

  /** The tag an output should show: its active tag if it owns it, else its
      lowest tag holding a window, else its lowest tag. */
  function BestTag(s: Wm, i: nat): Option<nat>
    requires i < |s.outputs|
  {
    var current := s.outputs[i].activeTag;
    if Owns(s, i, current) then Some(current)
    else
      var busy := LowestOwned(s, i, true, 0);
      if busy.Some? then busy else LowestOwned(s, i, false, 0)
  }

  /** Lowest tag from `t` on that `i` owns and, when `busy` is set, that holds a window. */
  function LowestOwned(s: Wm, i: nat, busy: bool, t: nat): (r: Option<nat>)
    requires t <= |s.tags|
    ensures r.None? ==> forall u :: t <= u < |s.tags| && Owns(s, i, u) ==> busy && !Occupied(s, u)
    ensures r.Some? ==> t <= r.value < |s.tags| && Owns(s, i, r.value) && (busy ==> Occupied(s, r.value))
    ensures r.Some? ==> forall u :: t <= u < r.value && Owns(s, i, u) ==> busy && !Occupied(s, u)
    decreases |s.tags| - t
  {
    if t == |s.tags| then None
    else if Owns(s, i, t) && (busy ==> Occupied(s, t)) then Some(t)
    else LowestOwned(s, i, busy, t + 1)
  }

  /** Keep the focused window if the output still shows it, else take the first shown one. */
  function Refocus(s: Wm, i: nat): Wm
    requires i < |s.outputs|
  {
    if KeepsFocus(s, i) then s
    else s.SetFocusedWindow(i, FirstShown(s, i))
  }

  predicate KeepsFocus(s: Wm, i: nat)
    requires i < |s.outputs|
  {
    var f := s.outputs[i].focusedWindow;
    f.Some? && s.FindWindow(f.value).Some? && s.ShownBy(i, s.windows[s.FindWindow(f.value).value])
  }

  function FirstShown(s: Wm, i: nat): Option<nat>
    requires i < |s.outputs|
  {
    var k := Position(s.windows, (w: Window) => s.ShownBy(i, w));
    if k.Some? then Some(s.windows[k.value].id) else None
  }

  /** Give output `i` a tag to show, if it has or can get one. */
  function Reassign(s: Wm, i: nat): Wm
    requires i < |s.outputs|
  {
    if Owns(s, i, s.outputs[i].activeTag) then s
    else
      var best := BestTag(s, i);
      if best.Some? then s.SetActive(i, best.value)
      else
        var free := s.FreeTag();
        if free.Some? then s.SetOwner(free.value, Some(i)).SetActive(i, free.value) else s
  }

  function NormalizeOne(s: Wm, i: nat): (r: Wm)
    requires i < |s.outputs|
    ensures |r.outputs| == |s.outputs|
  {
    Refocus(Reassign(s, i), i)
  }

  /** The first `k` outputs normalized, in order. */
  function NormalizeUpTo(s: Wm, k: nat): (r: Wm)
    requires k <= |s.outputs|
    ensures |r.outputs| == |s.outputs|
  {
    if k == 0 then s else NormalizeOne(NormalizeUpTo(s, k - 1), k - 1)
  }

  function FixFocus(s: Wm): Wm {
    if s.focused.None? || s.focused.value >= |s.outputs| then s.(focused := Some(0)) else s
  }

  function Normalize(s: Wm): Wm {
    if s.outputs == [] then s.(focused := None)
    else NormalizeUpTo(FixFocus(s), |s.outputs|)
  }

  /** Refocus the first `k` outputs, as a manage pass does. */
  function RefocusUpTo(s: Wm, k: nat): (r: Wm)
    requires k <= |s.outputs|
    ensures |r.outputs| == |s.outputs|
  {
    if k == 0 then s else Refocus(RefocusUpTo(s, k - 1), k - 1)
  }

  /** The output a floating window is clamped to. */
  function ClampOutput(s: Wm, w: Window): nat {
    if s.TagOwner(w.tag).Some? then s.TagOwner(w.tag).value
    else if s.focused.Some? then s.focused.value else 0
  }

  function ClampWindow(s: Wm, w: Window): Window {
    var o := ClampOutput(s, w);
    if !w.floating || o >= |s.outputs| then w
    else
      var a := OutputArea(s.outputs[o]);
      if a.width == 0 || a.height == 0 then w
      else
        var (fx, fy) := ClampRectToArea(w.floatX, w.floatY, w.floatW, w.floatH, a);
        w.(floatX := fx, floatY := fy)
  }

  function ClampFloating(s: Wm): Wm {
    if s.outputs == [] then s else s.(windows := Map(s.windows, w => ClampWindow(s, w)))
  }

  function Repair(s: Wm): Wm {
    ClampFloating(Normalize(s))
  }

  function AssignInitialTag(s: Wm, i: nat): Wm {
    if exists t :: 0 <= t < |s.tags| && s.tags[t].output == Some(i) then s
    else
      var free := s.FreeTag();
      if free.None? then Normalize(s)
      else
        var owned := s.SetOwner(free.value, Some(i));
        Normalize(if i < |s.outputs| then owned.SetActive(i, free.value) else owned)
  }

  /** New owner of a tag once output `removed` is gone and `remaining` outputs are left. */
  function RemapOwner(owner: Option<nat>, removed: nat, remaining: nat): Option<nat> {
    match owner
    case None => None
    case Some(o) =>
      if remaining == 0 then None
      else if o == removed then Some(0)
      else if o > removed then Some(o - 1)
      else Some(o)
  }

  function RemapFocus(focused: Option<nat>, removed: nat, remaining: nat): Option<nat> {
    if focused == Some(removed) then (if remaining == 0 then None else Some(0))
    else if focused.Some? && focused.value > removed then Some(focused.value - 1)
    else focused
  }

  /** The state right after the output is taken out, before it is repaired. */
  function Detach(s: Wm, i: nat): Wm
    requires i < |s.outputs|
  {
    var remaining := |s.outputs| - 1;
    s.(outputs := s.outputs[..i] + s.outputs[i + 1..],
       tags := Map(s.tags, (t: Tag) => t.(output := RemapOwner(t.output, i, remaining))),
       focused := RemapFocus(s.focused, i, remaining))
  }

  function RemoveOutput(s: Wm, i: nat): Wm {
    if i >= |s.outputs| then s else Repair(Detach(s, i))
  }

  function ClearFullscreen(s: Wm, tag: nat): Wm {
    s.(windows := Map(s.windows, (w: Window) => if w.tag == tag then w.(fullscreen := false) else w))
  }

  function ActivateTag(s: Wm, i: nat, tag: nat): Wm
    requires i < |s.outputs|
  {
    Refocus(ClearFullscreen(s.SetActive(i, tag), s.outputs[i].activeTag), i)
  }

  function SwitchActiveTag(s: Wm, i: nat, tag: nat): Wm {
    if i >= |s.outputs| then s
    else
      var left := s.outputs[i].activeTag;
      var s1 := s.SetActive(i, tag);
      Refocus(if left != tag then ClearFullscreen(s1, left) else s1, i)
  }

  function FocusTag(s: Wm, i: nat, tag: nat): Wm
    requires forall t :: 0 <= t < |s.tags| && s.tags[t].output.Some? ==> s.tags[t].output.value < |s.outputs|
  {
    if tag >= |s.tags| || i >= |s.outputs| then s
    else match s.tags[tag].output
      case None => ActivateTag(s.SetOwner(tag, Some(i)), i, tag)
      case Some(o) =>
        if o == i then ActivateTag(s, i, tag)
        else ActivateTag(s.(focused := Some(o)), o, tag)
  }

  /** The window a send moves: the focused one, unless it is gone or already on the tag. */
  function SendTarget(s: Wm, i: nat, tag: nat): (r: Option<nat>)
    requires i < |s.outputs|
    ensures r.Some? ==> r.value < |s.windows| && s.windows[r.value].tag != tag
    ensures r.Some? ==> s.outputs[i].focusedWindow == Some(s.windows[r.value].id)
    ensures r.Some? ==> forall k :: 0 <= k < r.value ==> s.windows[k].id != s.windows[r.value].id
    ensures r.None? ==> forall k :: 0 <= k < |s.windows| && s.outputs[i].focusedWindow == Some(s.windows[k].id) ==>
              exists j :: 0 <= j <= k && s.windows[j].id == s.windows[k].id && s.windows[j].tag == tag
  {
    var f := s.outputs[i].focusedWindow;
    if f.None? then None
    else
      var k := s.FindWindow(f.value);
      if k.Some? && s.windows[k.value].tag != tag then k else None
  }

  function SendFocusedToTag(s: Wm, i: nat, tag: nat): Wm {
    if tag >= |s.tags| || i >= |s.outputs| then s
    else
      var k := SendTarget(s, i, tag);
      if k.None? then s
      else
        var s1 := if s.tags[tag].output.None? then s.SetOwner(tag, Some(i)) else s;
        Refocus(s1.SetWindow(k.value, s1.windows[k.value].(tag := tag)), i)
  }

  /** Drop the render nodes of windows whose tag is on no output. */
  function ReleaseHiddenNodes(s: Wm): Wm {
    s.(windows := Map(s.windows, (w: Window) => if ActiveSomewhere(s, w.tag) then w else w.(node := false)))
  }

  predicate ActiveSomewhere(s: Wm, tag: nat) {
    exists i :: 0 <= i < |s.outputs| && s.outputs[i].activeTag == tag
  }

  function SetMasterFraction(s: Wm, tag: nat, f: real): Wm {
    if tag < |s.tags| then s.(tags := s.tags[tag := s.tags[tag].(masterFraction := ClampFraction(f))]) else s
  }

  function ClampFraction(f: real): real {
    if f < 0.1 then 0.1 else if f > 0.9 then 0.9 else f
  }
}
