/**
 The window manager's shared state as the object every handler updates in place.
 Each method is proved to do exactly what the function of the same purpose in
 `Transitions` says.
 */
module StateClass {
  import opened Prelude
  import opened Desktop
  import opened Transitions
  import opened Bits
  import NormalizeProofs
  import opened Passes

  /** Bit `t` is set exactly when one of `ws` is on tag `t`. */
  ghost predicate MasksTags(m: bv32, ws: seq<Window>) {
    MaskIs(m, (t: nat) => exists j :: 0 <= j < |ws| && ws[j].tag == t)
  }

  /** The destroy requests for the first `k` windows. */
  ghost function ReleaseSoFar(s: Wm, k: nat): seq<Request>
    requires k <= |s.windows|
  {
    Gather(s.windows[..k], (w: Window) => if !ActiveSomewhere(s, w.tag) && w.node then [DestroyNode(w.id)] else [])
  }

  lemma ActiveTags(s: Wm, active: seq<nat>, tag: nat)
    requires active == Map(s.outputs, (o: Output) => o.activeTag)
    ensures tag in active <==> ActiveSomewhere(s, tag)
  {
    if ActiveSomewhere(s, tag) {
      var i :| 0 <= i < |s.outputs| && s.outputs[i].activeTag == tag;
      assert active[i] == tag;
    }
  }

  lemma ReleaseOne(s: Wm, k: nat)
    requires k < |s.windows|
    ensures var w := s.windows[k];
      var more := if !ActiveSomewhere(s, w.tag) && w.node then [DestroyNode(w.id)] else [];
      ReleaseSoFar(s, k + 1) == ReleaseSoFar(s, k) + more
  {
    assert s.windows[..k + 1][..k] == s.windows[..k];
    hide ActiveSomewhere;
  }

  lemma ReleasedWindows(s: Wm)
    ensures var r := Transitions.ReleaseHiddenNodes(s);
      && |r.windows| == |s.windows| && r == s.(windows := r.windows)
      && forall j :: 0 <= j < |s.windows| ==>
           r.windows[j] == if ActiveSomewhere(s, s.windows[j].tag) then s.windows[j] else s.windows[j].(node := false)
    ensures ReleaseSoFar(s, 0) == [] && ReleaseSoFar(s, |s.windows|) == ReleaseRequests(s)
  {
    assert s.windows[..|s.windows|] == s.windows;
    hide ActiveSomewhere;
  }

  /** Reassign the owners of tags in place after output `removed` is gone. */
  method RemapTagOwners(owners: array<Option<nat>>, removed: nat, remaining: nat)
    modifies owners
    ensures owners[..] == Map(old(owners[..]), o => RemapOwner(o, removed, remaining))
  {
    ghost var before := owners[..];
    for t := 0 to owners.Length
      invariant forall k :: 0 <= k < t ==> owners[k] == RemapOwner(before[k], removed, remaining)
      invariant forall k :: t <= k < owners.Length ==> owners[k] == before[k]
    {
      match owners[t] {
        case None =>
        case Some(o) =>
          if remaining == 0 {
            owners[t] := None;
          } else if o == removed {
            owners[t] := Some(0);
          } else if o > removed {
            owners[t] := Some(o - 1);
          }
      }
    }
  }

  class State {
    var outputs: seq<Output>
    var windows: seq<Window>
    var tags: seq<Tag>
    var focusedOutput: Option<nat>
    var nextWindowId: nat
    var resizeMode: bool

    function Model(): Wm
      reads this
    {
      Wm(outputs, windows, tags, focusedOutput, nextWindowId, resizeMode)
    }

    constructor (masterFraction: real)
      ensures Model() == InitWm(masterFraction)
    {
      outputs, windows := [], [];
      tags := seq(NUM_TAGS, t => Tag(None, masterFraction));
      focusedOutput, nextWindowId, resizeMode := None, 1, false;
    }

    /** Tags fit into a mask. */
    ghost predicate TagsFit()
      reads this
    {
      |tags| == NUM_TAGS && forall k :: 0 <= k < |windows| ==> windows[k].tag < NUM_TAGS
    }

    method RefocusOutput(i: nat)
      requires i < |outputs|
      modifies this`outputs
      ensures Model() == Refocus(old(Model()), i)
    {
      var s := Model();
      var active, focused := outputs[i].activeTag, outputs[i].focusedWindow;
      var keep := false;
      if focused.Some? {
        var k := s.FindWindow(focused.value);
        if k.Some? {
          keep := s.TagOwner(windows[k.value].tag) == Some(i) && windows[k.value].tag == active;
        }
      }
      if !keep {
        var k := Position(windows, (w: Window) => s.ShownBy(i, w));
        focused := if k.Some? then Some(windows[k.value].id) else None;
      }
      outputs := outputs[i := outputs[i].(focusedWindow := focused)];
    }

    /** The tag output `i` should show, found with a mask of the occupied tags. */
    method BestTagForOutput(i: nat) returns (best: Option<nat>)
      requires TagsFit()
      ensures i >= |outputs| ==> best == None
      ensures i < |outputs| ==> best == BestTag(Model(), i)
    {
      if i >= |outputs| { return None; }
      var current := outputs[i].activeTag;
      if Model().TagOwner(current) == Some(i) { return Some(current); }
      var occupied := OccupiedMask();
      for t := 0 to |tags|
        invariant LowestOwned(Model(), i, true, 0) == LowestOwned(Model(), i, true, t)
      {
        if tags[t].output == Some(i) && Has(occupied, t) { return Some(t); }
      }
      for t := 0 to |tags|
        invariant LowestOwned(Model(), i, true, 0) == None
        invariant LowestOwned(Model(), i, false, 0) == LowestOwned(Model(), i, false, t)
      {
        if tags[t].output == Some(i) { return Some(t); }
      }
      best := None;
    }

    method OccupiedMask() returns (mask: bv32)
      requires TagsFit()
      ensures MasksTags(mask, windows)
    {
      hide Has, SetBit;
      HasNone();
      mask := 0;
      for k := 0 to |windows|
        invariant MasksTags(mask, windows[..k])
      {
        var more := SetBit(mask, windows[k].tag);
        HasSet(mask, windows[k].tag, more);
        assert windows[..k + 1] == windows[..k] + [windows[k]];
        mask := more;
      }
      assert windows[..|windows|] == windows;
    }

    method NormalizeOutput(i: nat)
      requires TagsFit() && i < |outputs|
      modifies this`outputs, this`tags
      ensures Model() == NormalizeOne(old(Model()), i) && TagsFit()
    {
      ghost var s := Model();
      if Model().TagOwner(outputs[i].activeTag) != Some(i) {
        var best := BestTagForOutput(i);
        if best.Some? {
          outputs := outputs[i := outputs[i].(activeTag := best.value)];
        } else {
          var free := Position(tags, (t: Tag) => t.output.None?);
          if free.Some? {
            tags := tags[free.value := tags[free.value].(output := Some(i))];
            outputs := outputs[i := outputs[i].(activeTag := free.value)];
          }
        }
      }
      assert Model() == Reassign(s, i);
      hide Reassign, Refocus;
      RefocusOutput(i);
    }

    method NormalizeEach()
      requires TagsFit()
      modifies this`outputs, this`tags
      ensures Model() == NormalizeUpTo(old(Model()), |old(Model()).outputs|) && TagsFit()
    {
      hide NormalizeUpTo, NormalizeOne;
      ghost var start := Model();
      NormalizeProofs.UpToStep(start, 0);
      for i := 0 to |outputs|
        invariant |outputs| == |start.outputs| && TagsFit()
        invariant Model() == NormalizeUpTo(start, i)
      {
        NormalizeOutput(i);
        NormalizeProofs.UpToStep(start, i + 1);
      }
    }

    method NormalizeOutputs()
      requires TagsFit()
      modifies this`outputs, this`tags, this`focusedOutput
      ensures Model() == Normalize(old(Model())) && TagsFit()
    {
      if outputs == [] {
        focusedOutput := None;
        return;
      }
      if focusedOutput.None? || focusedOutput.value >= |outputs| {
        focusedOutput := Some(0);
      }
      hide NormalizeUpTo;
      NormalizeEach();
    }

    method AssignInitialTag(i: nat)
      requires TagsFit()
      modifies this`outputs, this`tags, this`focusedOutput
      ensures Model() == Transitions.AssignInitialTag(old(Model()), i)
    {
      if Position(tags, (t: Tag) => t.output == Some(i)).Some? { return; }
      var free := Position(tags, (t: Tag) => t.output.None?);
      if free.Some? {
        tags := tags[free.value := tags[free.value].(output := Some(i))];
        if i < |outputs| {
          outputs := outputs[i := outputs[i].(activeTag := free.value)];
        }
      }
      NormalizeOutputs();
    }

    /** Give every tag the owner it has once output `i` is gone, through a copy of the owners. */
    method RemapOwners(i: nat, remaining: nat)
      modifies this`tags
      ensures tags == Map(old(tags), (t: Tag) => t.(output := RemapOwner(t.output, i, remaining)))
    {
      ghost var before := tags;
      var owners := new Option<nat>[|tags|](k requires 0 <= k < |tags| reads this => tags[k].output);
      RemapTagOwners(owners, i, remaining);
      assert forall k :: 0 <= k < |tags| ==> owners[..][k] == RemapOwner(before[k].output, i, remaining);
      hide RemapOwner;
      for t := 0 to |tags|
        invariant |tags| == |before| && owners.Length == |tags|
        invariant forall k :: 0 <= k < t ==> tags[k] == before[k].(output := RemapOwner(before[k].output, i, remaining))
        invariant forall k :: t <= k < |tags| ==> tags[k] == before[k]
        invariant forall k :: 0 <= k < |tags| ==> owners[k] == RemapOwner(before[k].output, i, remaining)
      {
        tags := tags[t := tags[t].(output := owners[t])];
      }
    }

    method RemoveOutput(i: nat)
      requires TagsFit()
      modifies this`outputs, this`tags, this`focusedOutput, this`windows
      ensures Model() == Transitions.RemoveOutput(old(Model()), i)
    {
      if i >= |outputs| { return; }
      ghost var before := Model();
      outputs := outputs[..i] + outputs[i + 1..];
      var remaining := |outputs|;
      RemapOwners(i, remaining);
      if focusedOutput == Some(i) {
        focusedOutput := if remaining == 0 then None else Some(0);
      } else if focusedOutput.Some? && focusedOutput.value > i {
        focusedOutput := Some(focusedOutput.value - 1);
      }
      assert Model() == Detach(before, i);
      hide Detach, Normalize, ClampFloating;
      NormalizeOutputs();
      ClampFloatingWindows();
    }

    method RepairOutputs()
      requires TagsFit()
      modifies this`outputs, this`tags, this`focusedOutput, this`windows
      ensures Model() == Repair(old(Model()))
    {
      NormalizeOutputs();
      ClampFloatingWindows();
    }

    method ClampFloatingWindows()
      modifies this`windows
      ensures Model() == ClampFloating(old(Model()))
    {
      if outputs == [] { return; }
      ghost var s := Model();
      var areas := Map(outputs, OutputArea);
      var owners := Map(tags, (t: Tag) => t.output);
      for k := 0 to |windows|
        invariant |windows| == |s.windows|
        invariant forall j :: 0 <= j < k ==> windows[j] == ClampWindow(s, s.windows[j])
        invariant forall j :: k <= j < |windows| ==> windows[j] == s.windows[j]
      {
        var w := windows[k];
        if w.floating {
          var owner := if w.tag < |owners| then owners[w.tag] else None;
          var i := if owner.Some? then owner.value else if focusedOutput.Some? then focusedOutput.value else 0;
          if i < |areas| && areas[i].width > 0 && areas[i].height > 0 {
            var (x, y) := ClampRectToArea(w.floatX, w.floatY, w.floatW, w.floatH, areas[i]);
            windows := windows[k := w.(floatX := x, floatY := y)];
          }
        }
      }
    }

    method ClearFullscreenOnTag(tag: nat)
      modifies this`windows
      ensures Model() == ClearFullscreen(old(Model()), tag)
    {
      ghost var before := windows;
      for k := 0 to |windows|
        invariant |windows| == |before|
        invariant forall j :: 0 <= j < k ==>
            windows[j] == if before[j].tag == tag then before[j].(fullscreen := false) else before[j]
        invariant forall j :: k <= j < |windows| ==> windows[j] == before[j]
      {
        if windows[k].tag == tag {
          windows := windows[k := windows[k].(fullscreen := false)];
        }
      }
    }

    method ActivateTag(i: nat, tag: nat)
      requires i < |outputs|
      modifies this`outputs, this`windows
      ensures Model() == Transitions.ActivateTag(old(Model()), i, tag)
    {
      var left := outputs[i].activeTag;
      outputs := outputs[i := outputs[i].(activeTag := tag)];
      ClearFullscreenOnTag(left);
      RefocusOutput(i);
    }

    method SwitchActiveTag(i: nat, tag: nat)
      modifies this`outputs, this`windows
      ensures Model() == Transitions.SwitchActiveTag(old(Model()), i, tag)
    {
      if i >= |outputs| { return; }
      var left := outputs[i].activeTag;
      outputs := outputs[i := outputs[i].(activeTag := tag)];
      if left != tag { ClearFullscreenOnTag(left); }
      RefocusOutput(i);
    }

    method FocusTag(i: nat, tag: nat)
      requires forall t :: 0 <= t < |tags| && tags[t].output.Some? ==> tags[t].output.value < |outputs|
      modifies this`outputs, this`windows, this`tags, this`focusedOutput
      ensures Model() == Transitions.FocusTag(old(Model()), i, tag)
    {
      if tag >= |tags| || i >= |outputs| { return; }
      match tags[tag].output {
        case None =>
          tags := tags[tag := tags[tag].(output := Some(i))];
          ActivateTag(i, tag);
        case Some(owner) =>
          if owner == i {
            ActivateTag(i, tag);
          } else {
            focusedOutput := Some(owner);
            ActivateTag(owner, tag);
          }
      }
    }

    method SendFocusedToTag(i: nat, tag: nat)
      modifies this`outputs, this`windows, this`tags
      ensures Model() == Transitions.SendFocusedToTag(old(Model()), i, tag)
    {
      if tag >= |tags| || i >= |outputs| { return; }
      var focused := outputs[i].focusedWindow;
      if focused.None? { return; }
      var k := Model().FindWindow(focused.value);
      if k.None? || windows[k.value].tag == tag { return; }
      if tags[tag].output.None? {
        tags := tags[tag := tags[tag].(output := Some(i))];
      }
      windows := windows[k.value := windows[k.value].(tag := tag)];
      RefocusOutput(i);
    }

    method TakeNode(w: Window) returns (r: Window, requests: seq<Request>)
      ensures r == w.(node := false) && requests == if w.node then [DestroyNode(w.id)] else []
    {
      r, requests := w, [];
      if w.node { r, requests := w.(node := false), [DestroyNode(w.id)]; }
    }

    /** Drop the render nodes of windows whose tag no output shows. */
    method ReleaseHiddenNodes() returns (requests: seq<Request>)
      modifies this`windows
      ensures Model() == Transitions.ReleaseHiddenNodes(old(Model()))
      ensures requests == ReleaseRequests(old(Model()))
    {
      ghost var s := Model();
      var active := Map(outputs, (o: Output) => o.activeTag);
      hide ReleaseRequests, ReleaseSoFar, ActiveSomewhere, Transitions.ReleaseHiddenNodes;
      ghost var r := Transitions.ReleaseHiddenNodes(s);
      ReleasedWindows(s);
      requests := [];
      for k := 0 to |windows|
        modifies this`windows
        invariant |windows| == |s.windows| == |r.windows|
        invariant forall j :: 0 <= j < k ==> windows[j] == r.windows[j]
        invariant forall j :: k <= j < |s.windows| ==> windows[j] == s.windows[j]
        invariant requests == ReleaseSoFar(s, k)
      {
        var w := windows[k];
        ReleaseOne(s, k);
        ActiveTags(s, active, w.tag);
        if w.tag !in active {
          var w2, more := TakeNode(w);
          windows := windows[k := w2];
          requests := requests + more;
        }
      }
    }
  }
}
