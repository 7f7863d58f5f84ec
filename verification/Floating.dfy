/** Floating windows are pulled back into the area of the output they are shown on. */
module FloatingProofs {
  import opened Desktop
  import opened Transitions
  import NormalizeProofs
  import opened Tiling

  /** Where a side of length `len` may start inside `[lo, lo + room]`: anywhere it
      fits, and only at `lo` if it is too long. */
  predicate LegalStart(v: int, len: nat, lo: int, room: nat) {
    if len <= room then lo <= v && v + len <= lo + room else v == lo
  }

  function Distance(a: int, b: int): nat {
    if a < b then b - a else a - b
  }

  /** The clamped position is legal on both axes and no legal one is nearer. */
  lemma ClampIsNearestLegal(x: int, y: int, width: nat, height: nat, a: Area, x1: int, y1: int)
    requires NonEmpty(a) && LegalStart(x1, width, a.x, a.width) && LegalStart(y1, height, a.y, a.height)
    ensures var (cx, cy) := ClampRectToArea(x, y, width, height, a);
      && LegalStart(cx, width, a.x, a.width) && LegalStart(cy, height, a.y, a.height)
      && Distance(cx, x) <= Distance(x1, x) && Distance(cy, y) <= Distance(y1, y)
  {
  }

  /** The box of a floating window is legal in an area. */
  predicate BoxLegal(w: Window, a: Area) {
    LegalStart(w.floatX, w.floatW, a.x, a.width) && LegalStart(w.floatY, w.floatH, a.y, a.height)
  }

  /** What clamping one window does, given the output it is clamped to. */
  lemma ClampWindowLegal(s: Wm, w: Window)
    ensures var o, w2 := ClampOutput(s, w), ClampWindow(s, w);
      && w2 == w.(floatX := w2.floatX, floatY := w2.floatY)
      && (w.floating && o < |s.outputs| && NonEmpty(OutputArea(s.outputs[o])) ==>
            BoxLegal(w2, OutputArea(s.outputs[o])) && (BoxLegal(w, OutputArea(s.outputs[o])) <==> w2 == w))
      && (!w.floating || o >= |s.outputs| || !NonEmpty(OutputArea(s.outputs[o])) ==> w2 == w)
  {
    hide OutputArea;
  }

  /** What the repair guarantees of window `k`: its size and everything but a floating position stay. A floating
      window ends up inside the area of the output it is managed against, where it fits, and at the origin where
      it does not; it moves only if it was not already legal, and not at all without such an area. */
  ghost predicate Repaired(s: Wm, r: Wm, k: nat)
    requires k < |s.windows| && k < |r.windows|
  {
    var w, w2 := s.windows[k], r.windows[k];
    && w2 == w.(floatX := w2.floatX, floatY := w2.floatY)
    && (!w.floating ==> w2 == w)
    && (forall i: nat :: ManagedBy(r, w2, i) && w.floating ==> PulledInside(w, w2, OutputArea(r.outputs[i])))
    && ((forall i: nat :: !ManagedBy(r, w2, i)) ==> w2 == w)
  }

  predicate PulledInside(w: Window, w2: Window, a: Area) {
    if NonEmpty(a) then BoxLegal(w2, a) && (BoxLegal(w, a) <==> w2 == w) else w2 == w
  }

  lemma ClampRepairs(s: Wm, k: nat)
    requires k < |s.windows|
    ensures var r := ClampFloating(s);
      && r == s.(windows := r.windows) && |r.windows| == |s.windows| && Repaired(s, r, k)
  {
    ClampWindowLegal(s, s.windows[k]);
    var r := ClampFloating(s);
    assert s.outputs != [] ==> r.windows[k] == ClampWindow(s, s.windows[k]);
    assert r.tags == s.tags && r.outputs == s.outputs && r.focused == s.focused;
    ClampsToManager(s, r, r.windows[k]);
    hide ClampWindow, ClampFloating, BoxLegal, OutputArea, ManagedBy;
  }

  lemma ClampsToManager(s: Wm, r: Wm, w: Window)
    requires r.tags == s.tags && |r.outputs| == |s.outputs| && r.focused == s.focused
    ensures forall i: nat :: ManagedBy(r, w, i) ==> i == ClampOutput(s, w)
    ensures (forall i: nat :: !ManagedBy(r, w, i)) ==> ClampOutput(s, w) >= |s.outputs|
  {
    var o := ClampOutput(s, w);
    if o < |s.outputs| { assert ManagedBy(r, w, o); }
  }

  lemma ClampIsFrame(s: Wm)
    ensures var r := ClampFloating(s); r == s.(windows := r.windows) && |r.windows| == |s.windows|
    ensures forall k :: 0 <= k < |s.windows| ==>
              && ClampFloating(s).windows[k] == s.windows[k].(floatX := ClampFloating(s).windows[k].floatX,
                                                              floatY := ClampFloating(s).windows[k].floatY)
              && (!s.windows[k].floating ==> ClampFloating(s).windows[k] == s.windows[k])
  {
    hide ClampWindow;
    var r := ClampFloating(s);
    assert r == s.(windows := r.windows) && |r.windows| == |s.windows|;
    hide ClampFloating, ManagedBy, PulledInside;
    forall k | 0 <= k < |s.windows|
      ensures r.windows[k] == s.windows[k].(floatX := r.windows[k].floatX, floatY := r.windows[k].floatY)
          && (!s.windows[k].floating ==> r.windows[k] == s.windows[k])
    {
      ClampRepairs(s, k);
    }
  }

  /** After any output change that repairs positions, and after removing an output. */
  lemma RepairFloats(s: Wm, i: nat, k: nat)
    requires k < |s.windows|
    ensures |Repair(s).windows| == |s.windows|
    ensures Repaired(Normalize(s), Repair(s), k) && |Normalize(s).windows| == |s.windows|
    ensures i < |s.outputs| ==> |RemoveOutput(s, i).windows| == |s.windows|
    ensures i < |s.outputs| ==> |Normalize(Detach(s, i)).windows| == |s.windows|
                                && Repaired(Normalize(Detach(s, i)), RemoveOutput(s, i), k)
  {
    hide Normalize;
    NormalizeProofs.NormalizedWindows(s);
    ClampRepairs(Normalize(s), k);
    if i < |s.outputs| {
      NormalizeProofs.NormalizedWindows(Detach(s, i));
      ClampRepairs(Normalize(Detach(s, i)), k);
      hide ClampFloating, Repaired;
    }
    hide ClampFloating, Repaired;
  }

  /** Clamping twice is clamping once. */
  lemma ClampIdempotent(s: Wm)
    ensures ClampFloating(ClampFloating(s)) == ClampFloating(s)
  {
    var r := ClampFloating(s);
    forall k | 0 <= k < |s.windows| && s.outputs != [] ensures ClampWindow(r, r.windows[k]) == r.windows[k] {
      assert r.windows[k] == ClampWindow(s, s.windows[k]);
      ClampWindowTwice(s, r, s.windows[k]);
    }
  }

  lemma ClampWindowTwice(s: Wm, r: Wm, w: Window)
    requires r.outputs == s.outputs && r.tags == s.tags && r.focused == s.focused
    ensures ClampWindow(r, ClampWindow(s, w)) == ClampWindow(s, w)
  {
  }

  /** The size given to a floated app: what it asks for, cut to 3/5 of its area; then no less than its own
      minimum; and never more than its own maximum. */
  lemma FittedSize(requested: nat, parent: nat, min: nat, max: nat)
    ensures var side := FitSide(requested, parent, min, max);
      var cut := parent > 0 && parent * 3 / 5 < requested;
      && (max > 0 ==> side <= max)
      && (max == 0 || min <= max ==> min <= side)
      && (parent > 0 && min <= parent * 3 / 5 ==> side <= parent * 3 / 5)
      && (side == requested || side == min || (max > 0 && side == max) || (cut && side == parent * 3 / 5))
      && (side > requested ==> side <= min)
      && (side < requested ==> cut || (max > 0 && side == max))
      && (cut && side > parent * 3 / 5 ==> side <= min)
      && (cut && side < parent * 3 / 5 ==> max > 0 && side == max)
  {
  }
}
