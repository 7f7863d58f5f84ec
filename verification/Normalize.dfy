/**
 `normalize_outputs`: from any state with a full tag table it leaves every
 output showing a tag of its own, or owning nothing because nothing is free.
 */
module NormalizeProofs {
  import opened Prelude
  import opened Desktop
  import opened Transitions

  ghost predicate Tagless(s: Wm, i: nat) {
    forall t :: 0 <= t < |s.tags| ==> s.tags[t].output != Some(i)
  }

  ghost predicate AllAssigned(s: Wm) {
    forall t :: 0 <= t < |s.tags| ==> s.tags[t].output.Some?
  }

  /** The output owns its active tag; only a tagless output on a full table may not. */
  ghost predicate ActiveOk(s: Wm, i: nat)
    requires i < |s.outputs|
  {
    Owns(s, i, s.outputs[i].activeTag) || (Tagless(s, i) && AllAssigned(s))
  }

  /** The tag an output is to show is its active one if it owns it; else its lowest one that holds a window; else
      its lowest one; and there is none exactly when it owns none. */
  lemma BestTagIs(s: Wm, i: nat)
    requires i < |s.outputs|
    ensures var b, a := BestTag(s, i), s.outputs[i].activeTag;
      && (b.None? <==> forall t: nat :: !Owns(s, i, t))
      && (Owns(s, i, a) ==> b == Some(a))
      && (b.Some? ==> Owns(s, i, b.value))
      && (b.Some? && !Owns(s, i, a) ==>
            forall t: nat :: Owns(s, i, t) ==>
              if Occupied(s, t) then Occupied(s, b.value) && b.value <= t else Occupied(s, b.value) || b.value <= t)
  {
    hide Occupied;
    assert forall t: nat :: Owns(s, i, t) ==> t < |s.tags|;
  }

  /** The focused window is the kept one, or the first one shown. */
  ghost predicate FocusSettled(s: Wm, i: nat)
    requires i < |s.outputs|
  {
    KeepsFocus(s, i) || s.outputs[i].focusedWindow == FirstShown(s, i)
  }

  /** The focused window exists and is shown by the output; none means nothing is shown. */
  ghost predicate FocusSound(s: Wm, i: nat)
    requires i < |s.outputs|
  {
    var f := s.outputs[i].focusedWindow;
    && (f.Some? ==> exists k :: 0 <= k < |s.windows| && s.windows[k].id == f.value && s.ShownBy(i, s.windows[k]))
    && (f.None? ==> forall k :: 0 <= k < |s.windows| ==> !s.ShownBy(i, s.windows[k]))
  }

  lemma SettledIsSound(s: Wm, i: nat)
    requires i < |s.outputs| && FocusSettled(s, i)
    ensures FocusSound(s, i)
  {
    if KeepsFocus(s, i) {
      assert s.ShownBy(i, s.windows[s.FindWindow(s.outputs[i].focusedWindow.value).value]);
    }
  }

  /** Output `i` shows the window it focuses. */
  ghost predicate FocusShown(s: Wm, i: nat)
    requires i < |s.outputs|
  {
    exists k :: 0 <= k < |s.windows| && s.ShownBy(i, s.windows[k])
                && s.outputs[i].focusedWindow == Some(s.windows[k].id)
  }

  /** Window `k` is the first one output `i` shows. */
  ghost predicate FirstShownIs(s: Wm, i: nat, k: nat)
    requires i < |s.outputs| && k < |s.windows|
  {
    s.ShownBy(i, s.windows[k]) && forall j :: 0 <= j < k ==> !s.ShownBy(i, s.windows[j])
  }

  lemma KeepsFocusIs(s: Wm, i: nat)
    requires i < |s.outputs| && forall j, k :: 0 <= j < k < |s.windows| ==> s.windows[j].id != s.windows[k].id
    ensures KeepsFocus(s, i) <==> FocusShown(s, i)
  {
    if KeepsFocus(s, i) {
      assert s.ShownBy(i, s.windows[s.FindWindow(s.outputs[i].focusedWindow.value).value]);
    }
    forall k | 0 <= k < |s.windows| ensures s.FindWindow(s.windows[k].id) == Some(k) { }
  }

  /** Refocusing keeps a focused window that the output shows; otherwise it takes the first shown one, or none if
      there is none. Nothing else changes. */
  lemma RefocusIs(s: Wm, i: nat)
    requires i < |s.outputs| && forall j, k :: 0 <= j < k < |s.windows| ==> s.windows[j].id != s.windows[k].id
    ensures var r := Refocus(s, i);
      var f := r.outputs[i].focusedWindow;
      && (FocusShown(s, i) ==> r == s)
      && (!FocusShown(s, i) ==>
            && r == s.(outputs := s.outputs[i := s.outputs[i].(focusedWindow := f)])
            && (forall k :: 0 <= k < |s.windows| && FirstShownIs(s, i, k) ==> f == Some(s.windows[k].id))
            && ((forall k :: 0 <= k < |s.windows| ==> !s.ShownBy(i, s.windows[k])) ==> f == None))
  {
    KeepsFocusIs(s, i);
    hide KeepsFocus, FocusShown;
    var p := (w: Window) => s.ShownBy(i, w);
    PositionCongruent(s.windows, p, (w: Window) => s.ShownBy(i, w));
    assert forall k :: 0 <= k < |s.windows| ==> p(s.windows[k]) == s.ShownBy(i, s.windows[k]);
    hide s.ShownBy;
  }

  /** Only output `i`'s active tag and focus, and the owner of free tags, differ. */
  ghost predicate TouchesOnly(s: Wm, r: Wm, i: nat)
    requires i < |s.outputs|
  {
    && |r.outputs| == |s.outputs| && |r.tags| == |s.tags|
    && r.windows == s.windows && r.focused == s.focused && r.nextId == s.nextId && r.resizeMode == s.resizeMode
    && (forall j :: 0 <= j < |s.outputs| && j != i ==> r.outputs[j] == s.outputs[j])
    && r.outputs[i] == s.outputs[i].(activeTag := r.outputs[i].activeTag, focusedWindow := r.outputs[i].focusedWindow)
    && (forall t :: 0 <= t < |s.tags| ==>
          r.tags[t] == s.tags[t] || (s.tags[t].output.None? && r.tags[t] == s.tags[t].(output := Some(i))))
  }

  lemma NormalizeOneEffect(s: Wm, i: nat)
    requires i < |s.outputs|
    ensures TouchesOnly(s, NormalizeOne(s, i), i)
    ensures ActiveOk(NormalizeOne(s, i), i) && FocusSettled(NormalizeOne(s, i), i)
  {
    var m := Reassign(s, i);
    RefocusSettles(m, i);
    ReassignRepairs(s, i);
  }

  lemma ReassignRepairs(s: Wm, i: nat)
    requires i < |s.outputs|
    ensures ActiveOk(Reassign(s, i), i) && TouchesOnly(s, Reassign(s, i), i)
  {
    if !Owns(s, i, s.outputs[i].activeTag) && BestTag(s, i).None? {
      assert Tagless(s, i) by {
        forall t | 0 <= t < |s.tags| ensures s.tags[t].output != Some(i) {
          assert !Owns(s, i, t);
        }
      }
    }
  }

  lemma RefocusSettles(s: Wm, i: nat)
    requires i < |s.outputs|
    ensures FocusSettled(Refocus(s, i), i)
    ensures TouchesOnly(s, Refocus(s, i), i) && Refocus(s, i).tags == s.tags
    ensures Refocus(s, i).outputs[i].activeTag == s.outputs[i].activeTag
  {
    var r := Refocus(s, i);
    PositionCongruent(s.windows, (w: Window) => s.ShownBy(i, w), (w: Window) => r.ShownBy(i, w));
  }

  /** Work on output `i` does not unsettle output `j`. */
  lemma OthersUnaffected(s: Wm, r: Wm, i: nat, j: nat)
    requires i < |s.outputs| && j < |s.outputs| && i != j
    requires TouchesOnly(s, r, i)
    ensures ActiveOk(s, j) ==> ActiveOk(r, j)
    ensures KeepsFocus(s, j) ==> KeepsFocus(r, j)
    ensures FocusSettled(s, j) ==> FocusSettled(r, j)
    ensures BestTag(r, j) == BestTag(s, j)
  {
    PositionCongruent(s.windows, (w: Window) => s.ShownBy(j, w), (w: Window) => r.ShownBy(j, w));
    LowestOwnedSame(s, r, j, true, 0);
    LowestOwnedSame(s, r, j, false, 0);
  }

  lemma {:induction false} LowestOwnedSame(s: Wm, r: Wm, j: nat, busy: bool, t: nat)
    requires |r.tags| == |s.tags| && r.windows == s.windows && t <= |s.tags|
    requires forall u :: 0 <= u < |s.tags| ==> Owns(s, j, u) == Owns(r, j, u)
    ensures LowestOwned(r, j, busy, t) == LowestOwned(s, j, busy, t)
    decreases |s.tags| - t
  {
    assert forall u :: Occupied(s, u) == Occupied(r, u);
    if t < |s.tags| {
      LowestOwnedSame(s, r, j, busy, t + 1);
    }
  }

  /** What the first `k` rounds of the loop establish and what they leave alone. */
  ghost predicate NormalizedUpTo(s: Wm, r: Wm, k: nat)
    requires k <= |s.outputs|
  {
    && |r.outputs| == |s.outputs| && |r.tags| == |s.tags|
    && r.windows == s.windows && r.focused == s.focused && r.nextId == s.nextId && r.resizeMode == s.resizeMode
    && (forall j :: 0 <= j < |s.outputs| ==>
          r.outputs[j] == s.outputs[j].(
            activeTag := r.outputs[j].activeTag, focusedWindow := r.outputs[j].focusedWindow))
    && (forall j :: k <= j < |s.outputs| ==> r.outputs[j] == s.outputs[j])
    && (forall j :: 0 <= j < k ==> ActiveOk(r, j) && FocusSettled(r, j))
    && (forall t :: 0 <= t < |s.tags| ==>
          r.tags[t] == s.tags[t] || (s.tags[t].output.None? && r.tags[t].output.Some? && r.tags[t].output.value < k
                                     && r.tags[t] == s.tags[t].(output := r.tags[t].output)))
  }

  /** One round of the loop, and none. */
  lemma UpToStep(s: Wm, k: nat)
    requires k <= |s.outputs|
    ensures NormalizeUpTo(s, 0) == s
    ensures k > 0 ==> NormalizeUpTo(s, k) == NormalizeOne(NormalizeUpTo(s, k - 1), k - 1)
  {
    hide NormalizeOne;
  }

  lemma {:induction false} NormalizeUpToEffect(s: Wm, k: nat)
    requires k <= |s.outputs|
    ensures NormalizedUpTo(s, NormalizeUpTo(s, k), k)
  {
    hide *;
    UpToStep(s, k);
    if k == 0 {
      NothingNormalized(s);
    } else {
      NormalizeUpToEffect(s, k - 1);
      var m := NormalizeUpTo(s, k - 1);
      NormalizeOneEffect(m, k - 1);
      OneMoreNormalized(s, m, NormalizeOne(m, k - 1), k);
    }
  }

  lemma NothingNormalized(s: Wm)
    ensures NormalizedUpTo(s, s, 0) && ClaimedFairly(s, s)
  {
  }

  lemma OneMoreNormalized(s: Wm, m: Wm, r: Wm, k: nat)
    requires 0 < k <= |s.outputs| && NormalizedUpTo(s, m, k - 1)
    requires TouchesOnly(m, r, k - 1) && ActiveOk(r, k - 1) && FocusSettled(r, k - 1)
    ensures NormalizedUpTo(s, r, k)
  {
    hide ActiveOk, FocusSettled;
    forall j | 0 <= j < k ensures ActiveOk(r, j) && FocusSettled(r, j) {
      if j < k - 1 { OthersUnaffected(m, r, k - 1, j); }
    }
  }

  /** Which tag each output ends up showing, in terms of the state before. */
  ghost predicate ActiveChosen(s: Wm, r: Wm, j: nat)
    requires j < |s.outputs| && j < |r.outputs|
  {
    var a := r.outputs[j].activeTag;
    if BestTag(s, j).Some? then a == BestTag(s, j).value
    else a == s.outputs[j].activeTag || (a < |s.tags| && a < |r.tags| && s.tags[a].output.None? && Owns(r, j, a))
  }

  lemma {:induction false} NormalizeChooses(s: Wm, k: nat, j: nat)
    requires j < k <= |s.outputs|
    ensures ActiveChosen(s, NormalizeUpTo(s, k), j)
  {
    hide *;
    UpToStep(s, k);
    var m := NormalizeUpTo(s, k - 1);
    if j < k - 1 {
      NormalizeOneEffect(m, k - 1);
      NormalizeChooses(s, k - 1, j);
      ChosenStays(s, m, NormalizeOne(m, k - 1), k - 1, j);
    } else {
      NormalizeUpToEffect(s, j);
      OneChosen(s, m, j);
    }
  }

  lemma OneChosen(s: Wm, m: Wm, j: nat)
    requires j < |s.outputs| && NormalizedUpTo(s, m, j)
    ensures ActiveChosen(s, NormalizeOne(m, j), j)
  {
    SameBestTag(s, m, j);
    RefocusSettles(Reassign(m, j), j);
    assert m.outputs[j] == s.outputs[j];
  }

  lemma ChosenStays(s: Wm, m: Wm, r: Wm, i: nat, j: nat)
    requires i < |m.outputs| && j < |s.outputs| && j < |m.outputs| && j != i && TouchesOnly(m, r, i)
    requires ActiveChosen(s, m, j)
    ensures ActiveChosen(s, r, j)
  {
  }

  lemma SameBestTag(s: Wm, m: Wm, j: nat)
    requires j < |s.outputs| && NormalizedUpTo(s, m, j)
    ensures BestTag(m, j) == BestTag(s, j)
  {
    assert forall u :: 0 <= u < |s.tags| ==> Owns(s, j, u) == Owns(m, j, u);
    LowestOwnedSame(s, m, j, true, 0);
    LowestOwnedSame(s, m, j, false, 0);
  }

  /** Free tags go to tagless outputs, one each, lowest first. */
  ghost predicate ClaimedFairly(s: Wm, r: Wm)
    requires |r.tags| == |s.tags|
  {
    && (forall t, u :: 0 <= t < u < |s.tags|
                       && s.tags[t].output.None? && s.tags[u].output.None? && r.tags[u].output.Some?
          ==> r.tags[t].output.Some? && r.tags[t].output != r.tags[u].output)
    && (forall t :: 0 <= t < |s.tags| && s.tags[t].output.None? && r.tags[t].output.Some?
          ==> Tagless(s, r.tags[t].output.value))
  }

  lemma {:induction false} NormalizeClaims(s: Wm, k: nat)
    requires k <= |s.outputs|
    ensures |NormalizeUpTo(s, k).tags| == |s.tags| && ClaimedFairly(s, NormalizeUpTo(s, k))
  {
    hide *;
    UpToStep(s, k);
    if k == 0 {
      NothingNormalized(s);
    } else {
      NormalizeUpToEffect(s, k - 1);
      NormalizeClaims(s, k - 1);
      OneMoreClaim(s, NormalizeUpTo(s, k - 1), k - 1);
    }
  }

  lemma OneMoreClaim(s: Wm, m: Wm, i: nat)
    requires i < |s.outputs| && NormalizedUpTo(s, m, i) && ClaimedFairly(s, m)
    ensures |NormalizeOne(m, i).tags| == |s.tags| && ClaimedFairly(s, NormalizeOne(m, i))
  {
    var r := Reassign(m, i);
    NormalizeOneTags(m, i);
    ReassignClaims(m, i);
    hide NormalizeOne, Reassign, ActiveOk, FocusSettled;
    if r.tags != m.tags {
      TaglessBefore(s, m, i);
    }
  }

  lemma NormalizeOneTags(s: Wm, i: nat)
    requires i < |s.outputs|
    ensures NormalizeOne(s, i).tags == Reassign(s, i).tags
  {
    RefocusSettles(Reassign(s, i), i);
  }

  lemma TaglessBefore(s: Wm, m: Wm, i: nat)
    requires i < |s.outputs| && NormalizedUpTo(s, m, i) && Tagless(m, i)
    ensures Tagless(s, i)
  {
    forall t | 0 <= t < |s.tags| ensures s.tags[t].output != Some(i) {
      assert m.tags[t].output != Some(i);
    }
  }

  /** Reassigning either leaves the tags alone or gives a tagless output the lowest free one. */
  lemma ReassignClaims(s: Wm, i: nat)
    requires i < |s.outputs|
    ensures Reassign(s, i).tags == s.tags
            || (Tagless(s, i) && s.FreeTag().Some?
                && Reassign(s, i).tags == s.tags[s.FreeTag().value := s.tags[s.FreeTag().value].(output := Some(i))])
  {
    if !Owns(s, i, s.outputs[i].activeTag) && BestTag(s, i).None? {
      forall t | 0 <= t < |s.tags| ensures s.tags[t].output != Some(i) {
        assert !Owns(s, i, t);
      }
    }
  }

  /** What normalizing a state with outputs guarantees. */
  ghost predicate NormalizedFrom(s: Wm, r: Wm) {
    && |r.outputs| == |s.outputs| && |r.tags| == |s.tags|
    && r.windows == s.windows && r.nextId == s.nextId && r.resizeMode == s.resizeMode
    && r.focused.Some? && r.focused.value < |r.outputs|
    && (s.focused.Some? && s.focused.value < |s.outputs| ==> r.focused == s.focused)
    && (forall i :: 0 <= i < |r.outputs| ==> ActiveOk(r, i) && FocusSound(r, i) && ActiveChosen(s, r, i))
    && (forall i :: 0 <= i < |r.outputs| ==>
          r.outputs[i] == s.outputs[i].(
            activeTag := r.outputs[i].activeTag, focusedWindow := r.outputs[i].focusedWindow))
    && (forall t :: 0 <= t < |s.tags| ==>
          r.tags[t] == s.tags[t] || (s.tags[t].output.None? && r.tags[t].output.Some? &&
              r.tags[t].output.value < |s.outputs|
                                     && r.tags[t] == s.tags[t].(output := r.tags[t].output)))
    && ClaimedFairly(s, r)
  }

  /** From any state, with no assumption on active tags, owners or focus: every
      output is repaired, every owned tag keeps its owner, windows and geometry
      are untouched, and free tags are handed out lowest first, at most one each. */
  lemma NormalizeEstablishes(s: Wm)
    requires s.outputs != []
    ensures NormalizedFrom(s, Normalize(s))
  {
    var f, r, n := FixFocus(s), Normalize(s), |s.outputs|;
    assert r == NormalizeUpTo(f, n);
    NormalizeUpToEffect(f, n);
    NormalizeClaims(f, n);
    forall i | 0 <= i < n ensures ActiveChosen(f, r, i) {
      NormalizeChooses(f, n, i);
    }
    FixedFocusThenNormalized(s, r);
    hide *;
  }

  lemma NormalizedWindows(s: Wm)
    ensures Normalize(s).windows == s.windows && Normalize(s).nextId == s.nextId
  {
    if s.outputs != [] {
      NormalizeEstablishes(s);
    }
  }

  lemma FixedFocusThenNormalized(s: Wm, r: Wm)
    requires s.outputs != [] && NormalizedUpTo(FixFocus(s), r, |s.outputs|) && ClaimedFairly(FixFocus(s), r)
    requires forall i :: 0 <= i < |s.outputs| ==> ActiveChosen(FixFocus(s), r, i)
    ensures NormalizedFrom(s, r)
  {
    var f := FixFocus(s);
    forall i | 0 <= i < |s.outputs| ensures FocusSound(r, i) && ActiveChosen(s, r, i) {
      SettledIsSound(r, i);
      LowestOwnedSame(s, f, i, true, 0);
      LowestOwnedSame(s, f, i, false, 0);
      assert ActiveChosen(f, r, i) && f.outputs[i] == s.outputs[i] && f.tags == s.tags;
      assert Owns(f, i, s.outputs[i].activeTag) == Owns(s, i, s.outputs[i].activeTag);
    }
    forall i ensures Tagless(f, i) == Tagless(s, i) { }
  }

  /** A settled output is a fixed point of its round. */
  lemma SettledIsFixed(s: Wm, i: nat)
    requires i < |s.outputs| && ActiveOk(s, i) && FocusSettled(s, i)
    ensures NormalizeOne(s, i) == s
  {
    if !Owns(s, i, s.outputs[i].activeTag) {
      assert BestTag(s, i).None?;
      assert s.FreeTag().None?;
    }
    assert s.outputs[i := s.outputs[i]] == s.outputs;
  }

  lemma {:induction false} SettledUpToIsFixed(s: Wm, k: nat)
    requires k <= |s.outputs|
    requires forall i :: 0 <= i < |s.outputs| ==> ActiveOk(s, i) && FocusSettled(s, i)
    ensures NormalizeUpTo(s, k) == s
  {
    hide *;
    UpToStep(s, k);
    if k > 0 {
      SettledUpToIsFixed(s, k - 1);
      SettledIsFixed(s, k - 1);
    }
  }

  /** Normalizing twice is normalizing once. */
  lemma NormalizeIdempotent(s: Wm)
    ensures Normalize(Normalize(s)) == Normalize(s)
  {
    hide NormalizeUpTo;
    if s.outputs != [] {
      NormalizeUpToEffect(FixFocus(s), |s.outputs|);
      SettledUpToIsFixed(Normalize(s), |s.outputs|);
    }
  }

  /** A state whose active tags are right only gets its focus recomputed. */
  lemma {:induction false} NormalizeKeepsOwners(s: Wm, k: nat)
    requires k <= |s.outputs|
    requires forall i :: 0 <= i < |s.outputs| ==> ActiveOk(s, i)
    ensures NormalizeUpTo(s, k).tags == s.tags
    ensures forall i :: 0 <= i < |s.outputs| ==> NormalizeUpTo(s, k).outputs[i].activeTag == s.outputs[i].activeTag
  {
    hide *;
    UpToStep(s, k);
    if k > 0 {
      var m := NormalizeUpTo(s, k - 1);
      NormalizeKeepsOwners(s, k - 1);
      SameOk(s, m, k - 1);
      OkKeepsOwner(m, k - 1);
    }
  }

  lemma SameOk(s: Wm, m: Wm, i: nat)
    requires i < |s.outputs| && |m.outputs| == |s.outputs| && ActiveOk(s, i)
    requires m.tags == s.tags && m.outputs[i].activeTag == s.outputs[i].activeTag
    ensures ActiveOk(m, i)
  {
  }

  lemma OkKeepsOwner(s: Wm, i: nat)
    requires i < |s.outputs| && ActiveOk(s, i)
    ensures NormalizeOne(s, i).tags == s.tags
    ensures forall j :: 0 <= j < |s.outputs| ==> NormalizeOne(s, i).outputs[j].activeTag == s.outputs[j].activeTag
  {
    assert Owns(s, i, s.outputs[i].activeTag) || (BestTag(s, i).None? && s.FreeTag().None?);
    RefocusSettles(s, i);
  }
}
