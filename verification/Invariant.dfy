/** The invariant every reachable state satisfies. */
module Invariant {
  import opened Prelude
  import opened Desktop
  import NormalizeProofs
  import Tiling

  /** Everything the state promises about indices and identities. */
  ghost predicate WellFormed(s: Wm) {
    && |s.tags| == NUM_TAGS
    && (forall t :: 0 <= t < |s.tags| && s.tags[t].output.Some? ==> s.tags[t].output.value < |s.outputs|)
    && (forall i :: 0 <= i < |s.outputs| ==> s.outputs[i].activeTag < NUM_TAGS)
    && (forall k :: 0 <= k < |s.windows| ==> s.windows[k].tag < NUM_TAGS && s.windows[k].id < s.nextId)
    && (s.focused.Some? ==> s.focused.value < |s.outputs|)
    && Tiling.DistinctIds(s) && DistinctUids(s) && Tiling.FractionsLegal(s)
  }

  ghost predicate DistinctUids(s: Wm) {
    forall i, j :: 0 <= i < j < |s.outputs| ==> s.outputs[i].uid != s.outputs[j].uid
  }

  /** The run invariant: well formed, focused whenever there is an output, and every
      output either owns the tag it shows or owns nothing while nothing is free. */
  ghost predicate Inv(s: Wm) {
    && WellFormed(s)
    && (s.focused.None? <==> s.outputs == [])
    && (forall i :: 0 <= i < |s.outputs| ==> NormalizeProofs.ActiveOk(s, i))
  }

  lemma InitInv(masterFraction: real)
    requires 0.1 <= masterFraction <= 0.9
    ensures Inv(InitWm(masterFraction))
  {
  }

  /** A window is visible exactly when some output shows it. */
  lemma VisibleIsShown(s: Wm, w: Window)
    ensures s.IsVisible(w) <==> exists i :: 0 <= i < |s.outputs| && s.ShownBy(i, w)
  {
    if s.IsVisible(w) {
      assert s.ShownBy(s.TagOwner(w.tag).value, w);
    }
  }

  /** Hence no window is shown by two outputs. */
  lemma ShownOnce(s: Wm, w: Window, i: nat, j: nat)
    requires Inv(s) && i < |s.outputs| && j < |s.outputs|
    requires s.ShownBy(i, w) && s.ShownBy(j, w)
    ensures i == j
  {
  }
}
