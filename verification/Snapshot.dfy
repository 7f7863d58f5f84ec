/** The status snapshot: tag bitmasks and window lists per output, built in three passes. */
module Snapshot {
  import opened Prelude
  import opened Desktop
  import opened Transitions
  import NormalizeProofs
  import Invariant
  import opened Bits

  datatype WindowSnap = WindowSnap(id: nat, appId: Option<string>, title: Option<string>, tag: nat)

  datatype TagSnap = TagSnap(id: nat, caption: Option<string>)

  datatype OutputSnap = OutputSnap(
    name: string, focused: bool, activeMask: bv32, ownedMask: bv32, occupiedMask: bv32,
    tags: seq<TagSnap>, windows: seq<WindowSnap>, focusedWindow: Option<nat>)

  datatype StatusSnapshot = StatusSnapshot(focusedOutput: Option<string>, resizeMode: bool, outputs: seq<OutputSnap>)

  function Decimal(n: nat): string {
    var digit := "0123456789"[n % 10];
    if n < 10 then [digit] else Decimal(n / 10) + [digit]
  }

  /** The connector name, or a numbered stand-in until it is known. */
  function NameOf(s: Wm, i: nat): string
    requires i < |s.outputs|
  {
    if s.outputs[i].name.Some? then s.outputs[i].name.value else "output-" + Decimal(i)
  }

  function WindowSnapOf(w: Window): WindowSnap { WindowSnap(w.id, w.appId, w.title, w.tag) }

  /** Every tag is listed by number; no code ever gives one a label. */
  function TagList(): (r: seq<TagSnap>)
    ensures |r| == NUM_TAGS && forall t :: 0 <= t < NUM_TAGS ==> r[t].id == t
  {
    seq(NUM_TAGS, (t: nat) => TagSnap(t, None))
  }

  /** The windows of `ws` on tags of output `i`, in order. */
  function Listed(s: Wm, ws: seq<Window>, i: nat): seq<Window> {
    Filter(ws, (w: Window) => s.TagOwner(w.tag) == Some(i))
  }

  /** The first `k` tags have been entered. */
  ghost predicate OwnedUpTo(s: Wm, m: bv32, i: nat, k: nat) {
    MaskIs(m, (t: nat) => t < k && Owns(s, i, t))
  }

  /** The first `k` windows have been entered. */
  ghost predicate OccupiedUpTo(s: Wm, m: bv32, i: nat, k: nat)
    requires k <= |s.windows|
  {
    MaskIs(m, (t: nat) => Owns(s, i, t) && exists j :: 0 <= j < k && s.windows[j].tag == t)
  }

  /** What is known of an output before its tags and windows are looked at. */
  ghost predicate HeadOk(s: Wm, o: OutputSnap, i: nat)
    requires i < |s.outputs|
  {
    && o.name == NameOf(s, i)
    && o.focused == (s.ActiveOutput() == Some(i))
    && s.outputs[i].activeTag < 32 && o.activeMask == Bit(s.outputs[i].activeTag)
    && o.tags == TagList()
    && o.focusedWindow == s.outputs[i].focusedWindow
  }

  ghost predicate Progress(s: Wm, o: OutputSnap, i: nat, tags: nat, windows: nat)
    requires i < |s.outputs| && windows <= |s.windows|
  {
    && HeadOk(s, o, i)
    && OwnedUpTo(s, o.ownedMask, i, tags)
    && OccupiedUpTo(s, o.occupiedMask, i, windows)
    && o.windows == Map(Listed(s, s.windows[..windows], i), WindowSnapOf)
  }

  /** What a snapshot says about one output: bit `t` of the owned and the occupied
      mask is set exactly when tag `t` is owned, or owned and holding a window; its windows are those on its tags. */
  ghost predicate Agrees(s: Wm, o: OutputSnap, i: nat)
    requires i < |s.outputs|
  {
    && HeadOk(s, o, i)
    && MaskIs(o.ownedMask, (t: nat) => Owns(s, i, t))
    && MaskIs(o.occupiedMask, (t: nat) => Owns(s, i, t) && Occupied(s, t))
    && o.windows == Map(Listed(s, s.windows, i), WindowSnapOf)
  }

  ghost predicate SnapshotAgrees(s: Wm, snap: StatusSnapshot) {
    && |snap.outputs| == |s.outputs|
    && snap.resizeMode == s.resizeMode
    && snap.focusedOutput == FocusedName(s, |s.outputs|)
    && forall i :: 0 <= i < |s.outputs| ==> Agrees(s, snap.outputs[i], i)
  }

  /** The name of the active output, if it is among the first `k`. */
  function FocusedName(s: Wm, k: nat): Option<string>
    requires k <= |s.outputs|
  {
    var o := s.ActiveOutput();
    if o.Some? && o.value < k then Some(NameOf(s, o.value)) else None
  }

  // ----- one step of each pass -----

  lemma HeadStep(s: Wm, i: nat, active: bv32)
    requires i < |s.outputs| && s.outputs[i].activeTag < 32 && active == Bit(s.outputs[i].activeTag)
    ensures Progress(s, OutputSnap(NameOf(s, i), s.ActiveOutput() == Some(i), active, 0, 0, TagList(), [],
        s.outputs[i].focusedWindow), i, 0, 0)
  {
    HasNone();
    hide Bit, Has;
  }

  lemma TagStep(s: Wm, o: OutputSnap, i: nat, k: nat, owned: bv32)
    requires i < |s.outputs| && k < |s.tags| <= 32 && Progress(s, o, i, k, 0)
    requires owned == if Owns(s, i, k) then SetBit(o.ownedMask, k) else o.ownedMask
    ensures Progress(s, o.(ownedMask := owned), i, k + 1, 0)
  {
    hide SetBit, NameOf, Has, OccupiedUpTo, Listed, Bit;
    if Owns(s, i, k) { HasSet(o.ownedMask, k, owned); }
  }

  lemma OccupiedStep(s: Wm, m: bv32, i: nat, k: nat, r: bv32)
    requires k < |s.windows| && s.windows[k].tag < 32 && OccupiedUpTo(s, m, i, k)
    requires r == if Owns(s, i, s.windows[k].tag) then SetBit(m, s.windows[k].tag) else m
    ensures OccupiedUpTo(s, r, i, k + 1)
  {
    hide SetBit, Has, Bit;
    if Owns(s, i, s.windows[k].tag) { HasSet(m, s.windows[k].tag, r); }
    forall t: nat | t < 32
      ensures Has(r, t) <==> Owns(s, i, t) && exists j :: 0 <= j < k + 1 && s.windows[j].tag == t
    {
      if s.windows[k].tag == t { assert 0 <= k < k + 1; }
    }
  }

  lemma ListedStep(s: Wm, i: nat, k: nat)
    requires k < |s.windows|
    ensures Listed(s, s.windows[..k + 1], i)
         == Listed(s, s.windows[..k], i) + if Owns(s, i, s.windows[k].tag) then [s.windows[k]] else []
  {
    assert s.windows[..k + 1][..k] == s.windows[..k];
  }

  lemma WindowStep(s: Wm, o: OutputSnap, i: nat, k: nat, occupied: bv32, list: seq<WindowSnap>)
    requires i < |s.outputs| && k < |s.windows| && s.windows[k].tag < 32 && Progress(s, o, i, |s.tags|, k)
    requires var w := s.windows[k];
      && occupied == (if Owns(s, i, w.tag) then SetBit(o.occupiedMask, w.tag) else o.occupiedMask)
      && list == o.windows + if Owns(s, i, w.tag) then [WindowSnapOf(w)] else []
    ensures Progress(s, o.(occupiedMask := occupied, windows := list), i, |s.tags|, k + 1)
  {
    OccupiedStep(s, o.occupiedMask, i, k, occupied);
    ListedStep(s, i, k);
    hide SetBit, NameOf, OwnedUpTo, OccupiedUpTo, Bit, WindowSnapOf, Listed;
  }

  lemma Finished(s: Wm, o: OutputSnap, i: nat)
    requires i < |s.outputs| && Progress(s, o, i, |s.tags|, |s.windows|)
    ensures Agrees(s, o, i)
  {
    assert s.windows[..|s.windows|] == s.windows;
    hide HeadOk, Has, Listed;
  }

  function WithTag(o: OutputSnap, t: nat): OutputSnap
    requires t < 32
  {
    o.(ownedMask := SetBit(o.ownedMask, t))
  }

  function WithWindow(o: OutputSnap, w: Window): OutputSnap
    requires w.tag < 32
  {
    o.(occupiedMask := SetBit(o.occupiedMask, w.tag), windows := o.windows + [WindowSnapOf(w)])
  }

  /** Every tag is a bit of a 32-bit word. */
  ghost predicate TagsAreBits(s: Wm) {
    && |s.tags| <= 32
    && (forall i :: 0 <= i < |s.outputs| ==> s.outputs[i].activeTag < 32)
    && (forall k :: 0 <= k < |s.windows| ==> s.windows[k].tag < 32)
  }

  /** Build the snapshot: a fresh entry per output, then one pass over the tags and one over
      the windows, each filling in the entry of the owning output. */
  method BuildSnapshot(s: Wm) returns (snap: StatusSnapshot)
    requires TagsAreBits(s)
    ensures SnapshotAgrees(s, snap)
  {
    hide Progress, Agrees, NameOf, SetBit, Bit, Listed;
    var n := |s.outputs|;
    var head: Option<string> := None;
    var snaps := new OutputSnap[n](_ => OutputSnap("", false, 0, 0, 0, [], [], None));
    for i := 0 to n
      invariant head == FocusedName(s, i)
      invariant forall j :: 0 <= j < i ==> Progress(s, snaps[j], j, 0, 0)
    {
      var name, focused := NameOf(s, i), s.ActiveOutput() == Some(i);
      if focused { head := Some(name); }
      HeadStep(s, i, Bit(s.outputs[i].activeTag));
      snaps[i] := OutputSnap(name, focused, Bit(s.outputs[i].activeTag), 0, 0, TagList(), [],
                             s.outputs[i].focusedWindow);
    }
    for t := 0 to |s.tags|
      invariant forall j :: 0 <= j < n ==> Progress(s, snaps[j], j, t, 0)
    {
      var owner := s.tags[t].output;
      forall j | 0 <= j < n
        ensures Progress(s, if owner == Some(j) then WithTag(snaps[j], t) else snaps[j], j, t + 1, 0)
      {
        TagStep(s, snaps[j], j, t, if owner == Some(j) then SetBit(snaps[j].ownedMask, t) else snaps[j].ownedMask);
      }
      if owner.Some? && owner.value < n {
        snaps[owner.value] := WithTag(snaps[owner.value], t);
      }
    }
    for k := 0 to |s.windows|
      invariant forall j :: 0 <= j < n ==> Progress(s, snaps[j], j, |s.tags|, k)
    {
      var w := s.windows[k];
      var owner := s.TagOwner(w.tag);
      forall j | 0 <= j < n
        ensures Progress(s, if owner == Some(j) then WithWindow(snaps[j], w) else snaps[j], j, |s.tags|, k + 1)
      {
        var o := snaps[j];
        WindowStep(s, o, j, k, if owner == Some(j) then SetBit(o.occupiedMask, w.tag) else o.occupiedMask,
                   o.windows + if owner == Some(j) then [WindowSnapOf(w)] else []);
        assert o.windows + [] == o.windows;
      }
      if owner.Some? && owner.value < n {
        snaps[owner.value] := WithWindow(snaps[owner.value], w);
      }
    }
    forall j | 0 <= j < n ensures Agrees(s, snaps[j], j) { Finished(s, snaps[j], j); }
    snap := StatusSnapshot(head, s.resizeMode, snaps[..]);
  }

  // ----- what a snapshot that agrees with the state guarantees -----

  /** No tag is reported by two outputs. */
  lemma MasksDisjoint(s: Wm, snap: StatusSnapshot, i: nat, j: nat)
    requires SnapshotAgrees(s, snap) && i < |s.outputs| && j < |s.outputs| && i != j
    ensures snap.outputs[i].ownedMask & snap.outputs[j].ownedMask == 0
  {
    var a, b := snap.outputs[i], snap.outputs[j];
    assert Agrees(s, a, i) && Agrees(s, b, j);
    hide Has, HeadOk;
    DisjointByBits(a.ownedMask, b.ownedMask);
  }

  /** The active tag is among the owned ones, unless nothing is owned. */
  predicate ActiveCovered(owned: bv32, active: bv32) {
    owned == 0 || owned & active == active
  }

  /** In every reachable state an output's active tag is among its own, unless it owns none. */
  lemma ActiveAmongOwned(s: Wm, snap: StatusSnapshot, i: nat)
    requires Invariant.Inv(s) && SnapshotAgrees(s, snap) && i < |s.outputs|
    ensures ActiveCovered(snap.outputs[i].ownedMask, snap.outputs[i].activeMask)
    ensures snap.outputs[i].ownedMask == 0 <==> NormalizeProofs.Tagless(s, i)
  {
    var o, t := snap.outputs[i], s.outputs[i].activeTag;
    assert Agrees(s, o, i) && NormalizeProofs.ActiveOk(s, i) && t < NUM_TAGS;
    assert o.activeMask == Bit(t) && MaskIs(o.ownedMask, (u: nat) => Owns(s, i, u));
    OwnedMaskZero(s, o.ownedMask, i);
    assert Owns(s, i, t) ==> Has(o.ownedMask, t);
    assert !Owns(s, i, t) ==> NormalizeProofs.Tagless(s, i);
    NothingCovers(o.activeMask);
    hide *;
    if Owns(s, i, t) {
      Contained(o.ownedMask, t, o.activeMask);
    }
  }

  lemma NothingCovers(active: bv32)
    ensures ActiveCovered(0, active)
  {
  }

  lemma OwnedMaskZero(s: Wm, m: bv32, i: nat)
    requires |s.tags| <= 32 && MaskIs(m, (u: nat) => Owns(s, i, u))
    ensures m == 0 <==> NormalizeProofs.Tagless(s, i)
  {
    HasNone();
    hide Has;
    if NormalizeProofs.Tagless(s, i) {
      ZeroByBits(m);
    } else {
      var u: nat :| u < |s.tags| && s.tags[u].output == Some(i);
      assert Owns(s, i, u) && Has(m, u);
    }
  }

  lemma Contained(m: bv32, t: nat, b: bv32)
    requires t < 32 && Has(m, t) && b == Bit(t)
    ensures ActiveCovered(m, b)
  {
    HasWhole(m, t);
  }

  /** The snapshot flags the focused output alone and gives its name as the focused one; an output whose name is not
      known is called after its place. */
  lemma NamesAndFocus(s: Wm, snap: StatusSnapshot)
    requires Invariant.Inv(s) && SnapshotAgrees(s, snap)
    ensures forall i :: 0 <= i < |s.outputs| ==>
              && (snap.outputs[i].focused <==> s.focused == Some(i))
              && (s.focused == Some(i) ==> snap.focusedOutput == Some(snap.outputs[i].name))
              && (s.outputs[i].name.Some? ==> snap.outputs[i].name == s.outputs[i].name.value)
              && (s.outputs[i].name.None? ==>
                    && |snap.outputs[i].name| > 7 && snap.outputs[i].name[..7] == "output-"
                    && ReadDecimal(snap.outputs[i].name[7..]) == i)
    ensures s.outputs == [] ==> snap.focusedOutput == None && snap.outputs == []
  {
    forall i | 0 <= i < |s.outputs|
      ensures snap.outputs[i].name == NameOf(s, i) && snap.outputs[i].focused == (s.focused == Some(i))
      ensures s.outputs[i].name.None? ==>
                && |NameOf(s, i)| > 7 && NameOf(s, i)[..7] == "output-"
                && ReadDecimal(NameOf(s, i)[7..]) == i
    {
      assert Agrees(s, snap.outputs[i], i);
      DecimalReads(i);
      assert ("output-" + Decimal(i))[7..] == Decimal(i);
    }
  }

  /** An output lists the windows on its tags in the state's order, each by its own id, app id, title and tag. */
  lemma ListsInOrder(s: Wm, snap: StatusSnapshot, i: nat) returns (at: seq<nat>)
    requires SnapshotAgrees(s, snap) && i < |s.outputs|
    ensures |at| == |snap.outputs[i].windows|
    ensures forall k :: 0 <= k < |at| ==>
              && at[k] < |s.windows| && s.TagOwner(s.windows[at[k]].tag) == Some(i)
              && var w, shown := s.windows[at[k]], snap.outputs[i].windows[k];
                 shown.id == w.id && shown.appId == w.appId && shown.title == w.title && shown.tag == w.tag
    ensures forall j, k :: 0 <= j < k < |at| ==> at[j] < at[k]
    ensures forall w :: 0 <= w < |s.windows| && s.TagOwner(s.windows[w].tag) == Some(i) ==> w in at
  {
    var p := (w: Window) => s.TagOwner(w.tag) == Some(i);
    at := FilterKeepsOrder(s.windows, p);
    FilterCongruent(s.windows, p, (w: Window) => s.TagOwner(w.tag) == Some(i));
    assert Agrees(s, snap.outputs[i], i);
    assert Listed(s, s.windows, i) == Filter(s.windows, p);
    hide Filter, HeadOk, Has;
    assert forall w :: 0 <= w < |s.windows| && p(s.windows[w]) ==> w in at;
  }

  /** The number a string of digits stands for. */
  function ReadDecimal(d: string): int {
    if d == "" then 0 else 10 * ReadDecimal(d[..|d| - 1]) + (d[|d| - 1] as int - '0' as int)
  }

  /** The stand-in for a missing name is the output's place in plain decimal digits, so no two outputs share one. */
  lemma {:induction false} DecimalReads(n: nat)
    ensures ReadDecimal(Decimal(n)) == n && Decimal(n) != ""
  {
    var digit := "0123456789"[n % 10];
    assert digit as int - '0' as int == n % 10;
    if n < 10 {
      assert Decimal(n) == [digit] && [digit][..0] == "";
    } else {
      DecimalReads(n / 10);
      assert Decimal(n) == Decimal(n / 10) + [digit];
      assert Decimal(n)[..|Decimal(n)| - 1] == Decimal(n / 10);
    }
  }

  /** The lists of the first `n` outputs together. */
  ghost function ListedBy(s: Wm, n: nat): multiset<Window> {
    if n == 0 then multiset{} else ListedBy(s, n - 1) + multiset(Listed(s, s.windows, n - 1))
  }

  /** The lists of the outputs partition the windows on owned tags: together they hold each
      such window exactly as often as the state does. */
  lemma {:induction false} ListsPartition(s: Wm, n: nat, below: Window -> bool)
    requires forall w :: below(w) <==> s.TagOwner(w.tag).Some? && s.TagOwner(w.tag).value < n
    ensures ListedBy(s, n) == multiset(Filter(s.windows, below))
  {
    if n == 0 {
      FilterNone(s.windows, below);
    } else {
      var last := (w: Window) => s.TagOwner(w.tag) == Some(n - 1);
      var rest := (w: Window) => s.TagOwner(w.tag).Some? && s.TagOwner(w.tag).value < n - 1;
      ListsPartition(s, n - 1, rest);
      SplitOff(s.windows, below, last, rest);
      FilterCongruent(s.windows, last, (w: Window) => s.TagOwner(w.tag) == Some(n - 1));
    }
  }

  lemma SplitOff(ws: seq<Window>, whole: Window -> bool, part: Window -> bool, rest: Window -> bool)
    requires forall w :: whole(w) <==> part(w) || rest(w)
    requires forall w :: !(part(w) && rest(w))
    ensures multiset(Filter(ws, whole)) == multiset(Filter(ws, rest)) + multiset(Filter(ws, part))
  {
    hide Filter;
    FilterSplits(Filter(ws, whole), rest, part);
    FilterTwice(ws, whole, rest, rest);
    FilterTwice(ws, whole, part, part);
  }
}
