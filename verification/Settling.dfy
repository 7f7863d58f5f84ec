/** A reachable state in which manage passes keep changing a window's fullscreen state. */
module Settling {
  import opened Prelude
  import opened Desktop
  import opened Transitions
  import NormalizeProofs
  import opened Tiling
  import opened Passes
  import opened PassProofs
  import opened Invariant
  import opened Events
  import opened Identity
  import opened Refinement
  import opened Runs
  import CommandProofs

  /** One output, named `uid` by the protocol, and the windows `ws`. */
  ghost predicate OneOutput(s: Wm, uid: nat, ws: seq<Window>) {
    Inv(s) && |s.outputs| == 1 && s.outputs[0].uid == uid && s.focused == Some(0) && s.windows == ws
  }

  /** The first output plugged in takes the lowest tag, and no other. */
  lemma FirstPlugged(s: Wm, uid: nat, c: Config)
    requires Inv(s) && s.outputs == []
    ensures var r := Next(s, OutputAdded(uid), c);
      && OneOutput(r, uid, s.windows) && r.nextId == s.nextId
      && (forall t :: 0 < t < NUM_TAGS ==> r.TagOwner(t) == None)
  {
    assert forall t :: 0 <= t < |s.tags| ==> s.tags[t].output.None?;
    assert s.FreeTag() == Some(0);
    assert Next(s, OutputAdded(uid), c) == OnOutputAdded(s, uid);
    var m := Attached(s, uid);
    AttachedFields(s, uid);
    AttachedKeeps(s, m, uid);
    AddedIsNormalized(s, uid);
    hide Next, OnOutputAdded, Normalize, Attached, Inv, DeskOf;
    NormalizeSkeleton(m);
    SkeletonKeeps(m, Normalize(m));
    NormalizeProofs.NormalizedWindows(m);
  }

  lemma TagTaken(s: Wm, uid: nat, c: Config)
    requires OneOutput(s, uid, []) && s.TagOwner(3) == None
    ensures var r := Next(s, FocusTagAsked(3, None), c);
      OneOutput(r, uid, []) && r.outputs[0].activeTag == 3 && r.nextId == s.nextId
  {
    var r := Next(s, FocusTagAsked(3, None), c);
    assert r == FocusTag(s, 0, 3);
    assert r.nextId == s.nextId;
    NextRefines(s, FocusTagAsked(3, None), c);
    hide Next, Inv, DeskOf, Moved, MoveOf, FocusTag;
    assert WellFormed(s) by { InvIsWellFormed(s); }
    CommandProofs.FocusTagEffect(s, 0, 3);
    assert r.windows == [];
  }

  lemma WindowOpened(s: Wm, uid: nat, c: Config)
    requires OneOutput(s, uid, []) && s.outputs[0].activeTag == 3
    ensures OneOutput(Next(s, Event.WindowAdded, c), uid, [NewWindow(s.nextId, 3)])
  {
    NextRefines(s, Event.WindowAdded, c);
    assert Next(s, Event.WindowAdded, c) == OnWindowAdded(s);
    hide Next, Inv, DeskOf, Moved, MoveOf;
  }

  lemma LastUnplugged(s: Wm, uid: nat, ws: seq<Window>, c: Config)
    requires OneOutput(s, uid, ws)
    ensures var r := Next(s, OutputRemoved(uid), c);
      Inv(r) && r.outputs == [] && r.windows == ws
  {
    NextRefines(s, OutputRemoved(uid), c);
    assert s.FindOutput(uid) == Some(0);
    var m := Detach(s, 0);
    assert m.outputs == [] && m.windows == ws;
    assert Next(s, OutputRemoved(uid), c) == ClampFloating(Normalize(m));
    hide Next, Inv, DeskOf, Moved, MoveOf, Detach;
  }

  lemma FullscreenWanted(s: Wm, uid: nat, id: nat, c: Config)
    requires OneOutput(s, uid, [NewWindow(id, 3)]) && s.TagOwner(3) == None
    ensures var r := Next(s, FullscreenAsked(id, true), c);
      Inv(r) && |r.outputs| == 1 && |r.windows| == 1 && Unsettled(r, r.windows[0])
  {
    NextRefines(s, FullscreenAsked(id, true), c);
    assert s.FindWindow(id) == Some(0);
    assert Next(s, FullscreenAsked(id, true), c) == s.SetWindow(0, NewWindow(id, 3).(fullscreen := true));
    hide Next, Inv, DeskOf, Moved, MoveOf;
  }

  lemma RunStep(s: Wm, e: Event, es: seq<Event>, rest: seq<Event>, c: Config)
    requires Inv(s) && es == [e] + rest
    ensures Inv(Next(s, e, c)) && Run(s, es, c) == Run(Next(s, e, c), rest, c)
  {
    NextRefines(s, e, c);
    assert es[1..] == rest && es[0] == e;
    hide Next, Inv, DeskOf, Moved, MoveOf;
  }

  /** A run of six events, event by event. */
  lemma RunSix(s: Wm, e0: Event, e1: Event, e2: Event, e3: Event, e4: Event, e5: Event, c: Config)
    requires Inv(s)
    ensures Inv(Next(s, e0, c))
    ensures var s1 := Next(s, e0, c);
      && Inv(Next(s1, e1, c))
      && var s2 := Next(s1, e1, c);
      && Inv(Next(s2, e2, c))
      && var s3 := Next(s2, e2, c);
      && Inv(Next(s3, e3, c))
      && var s4 := Next(s3, e3, c);
      && Inv(Next(s4, e4, c))
      && var s5 := Next(s4, e4, c);
      && Inv(Next(s5, e5, c)) && Run(s, [e0, e1, e2, e3, e4, e5], c) == Next(s5, e5, c)
  {
    hide Next, WellFormed, NormalizeProofs.ActiveOk;
    RunStep(s, e0, [e0, e1, e2, e3, e4, e5], [e1, e2, e3, e4, e5], c);
    var s1 := Next(s, e0, c);
    RunStep(s1, e1, [e1, e2, e3, e4, e5], [e2, e3, e4, e5], c);
    var s2 := Next(s1, e1, c);
    RunStep(s2, e2, [e2, e3, e4, e5], [e3, e4, e5], c);
    var s3 := Next(s2, e2, c);
    RunStep(s3, e3, [e3, e4, e5], [e4, e5], c);
    var s4 := Next(s3, e3, c);
    RunStep(s4, e4, [e4, e5], [e5], c);
    var s5 := Next(s4, e4, c);
    RunStep(s5, e5, [e5], [], c);
  }

  /** A manage pass need not settle: the only output goes while a window is on its fourth tag, another output
      comes, and the window asks for fullscreen. The next pass grants it, and the one after that still has
      requests to send. */
  lemma NeedNotSettle(c: Config) returns (es: seq<Event>, s: Wm)
    ensures es == [OutputAdded(0), FocusTagAsked(3, None), Event.WindowAdded, OutputRemoved(0),
                   OutputAdded(1), FullscreenAsked(1, true)]
    ensures Inv(InitWm(0.5)) && s == Run(InitWm(0.5), es, c) && s.outputs != []
    ensures exists k :: 0 <= k < |s.windows| && Unsettled(s, s.windows[k])
    ensures ChangeRequests(RefocusAll(ManageState(s, c)), c) != []
  {
    InitInv(0.5);
    var s0 := InitWm(0.5);
    assert s0.outputs == [] && s0.windows == [] && s0.nextId == 1;
    FirstPlugged(s0, 0, c);
    hide Next, Inv, InitWm, Run, ManageState, ChangeRequests, RefocusAll, NewWindow, Unsettled, FocusInRange;
    var s1 := Next(s0, OutputAdded(0), c);
    TagTaken(s1, 0, c);
    var s2 := Next(s1, FocusTagAsked(3, None), c);
    WindowOpened(s2, 0, c);
    var s3 := Next(s2, Event.WindowAdded, c);
    LastUnplugged(s3, 0, [NewWindow(1, 3)], c);
    var s4 := Next(s3, OutputRemoved(0), c);
    FirstPlugged(s4, 1, c);
    var s5 := Next(s4, OutputAdded(1), c);
    FullscreenWanted(s5, 1, 1, c);
    s := Next(s5, FullscreenAsked(1, true), c);
    RunSix(s0, OutputAdded(0), FocusTagAsked(3, None), Event.WindowAdded, OutputRemoved(0), OutputAdded(1),
           FullscreenAsked(1, true), c);
    es := [OutputAdded(0), FocusTagAsked(3, None), Event.WindowAdded, OutputRemoved(0), OutputAdded(1),
           FullscreenAsked(1, true)];
    InRange(s);
    ManageSettles(s, c);
  }

  lemma InRange(s: Wm)
    requires Inv(s)
    ensures FocusInRange(s)
  {
  }
}
