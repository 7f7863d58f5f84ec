/**
 Everything that can happen to the shared state: protocol events, socket
 commands, key bindings and the two passes, as one step function.
 */
module Events {
  import opened Prelude
  import opened Desktop
  import opened Transitions
  import opened Tiling
  import Passes
  import opened Invariant

  datatype Event =
    | OutputAdded(uid: nat)
    | OutputMoved(uid: nat, x: int, y: int)
    | OutputResized(uid: nat, width: nat, height: nat)
    | OutputNamed(uid: nat, name: string)
    | UsableArea(uid: nat, x: int, y: int, width: nat, height: nat)
    | OutputRemoved(uid: nat)
    | WindowAdded
    | WindowClosed(id: nat)
    | WindowTitled(id: nat, title: Option<string>)
    | SizeHinted(id: nat, minW: nat, minH: nat, maxW: nat, maxH: nat)
    | AppIdSet(id: nat, appId: Option<string>, floats: bool)
    | FullscreenAsked(id: nat, on: bool)
    | MinimizeAsked(id: nat)
    | FocusTagAsked(tag: nat, output: Option<string>)
    | SendToTagAsked(tag: nat)
    | FocusOutputAsked(name: string)
    | FocusWindowAsked(app: string, called: Option<string>)
    | CycleWindow(forward: bool)
    | CycleOutput(forward: bool)
    | ToggleFullscreen
    | ToggleFloat
    | ToggleResizeMode
    | LeaveResizeMode
    | ResizeStep(right: bool)
    | PointerEntered(id: nat)
    | Interacted(id: nat)
    | PointerMoved(x: int, y: int)
    | ManagePass(close: seq<nat>)
    | RenderPass

  function OnOutputAdded(s: Wm, uid: nat): Wm {
    var r := AssignInitialTag(s.(outputs := s.outputs + [NewOutput(uid)]), |s.outputs|);
    if r.focused.None? then r.(focused := Some(|s.outputs|)) else r
  }

  function OnOutputMoved(s: Wm, uid: nat, x: int, y: int): Wm {
    var i := s.FindOutput(uid);
    if i.None? then s else Repair(s.SetOutput(i.value, s.outputs[i.value].(x := x, y := y)))
  }

  function OnOutputResized(s: Wm, uid: nat, width: nat, height: nat): Wm {
    var i := s.FindOutput(uid);
    if i.None? then s else Repair(s.SetOutput(i.value, s.outputs[i.value].(width := width, height := height)))
  }

  function OnUsableArea(s: Wm, uid: nat, x: int, y: int, width: nat, height: nat): Wm {
    var i := s.FindOutput(uid);
    if i.None? then s
    else Repair(s.SetOutput(i.value,
        s.outputs[i.value].(usableX := x, usableY := y, usableW := width, usableH := height)))
  }

  function OnOutputNamed(s: Wm, uid: nat, name: string): Wm {
    var i := s.FindOutput(uid);
    if i.None? then s else s.SetOutput(i.value, s.outputs[i.value].(name := Some(name)))
  }

  function OnOutputRemoved(s: Wm, uid: nat): Wm {
    var i := s.FindOutput(uid);
    if i.None? then s else RemoveOutput(s, i.value)
  }

  /** A new window goes to the tag the active output shows, and is focused there. */
  function OnWindowAdded(s: Wm): Wm {
    var o := if s.ActiveOutput().Some? then s.ActiveOutput().value else 0;
    var tag := if o < |s.outputs| then s.outputs[o].activeTag else 0;
    var s1 := s.(windows := s.windows + [NewWindow(s.nextId, tag)], nextId := s.nextId + 1);
    if o < |s.outputs| then s1.SetFocusedWindow(o, Some(s.nextId)) else s1
  }

  function OnWindowClosed(s: Wm, id: nat): Wm {
    s.(windows := Filter(s.windows, (w: Window) => w.id != id))
  }

  /** Change one window by id; nothing happens if there is none. */
  function UpdateWindow(s: Wm, id: nat, f: Window -> Window): Wm {
    var k := s.FindWindow(id);
    if k.None? then s else s.SetWindow(k.value, f(s.windows[k.value]))
  }

  /** A window whose app is configured to float is floated, fitted and centred. */
  function FloatForApp(s: Wm, w: Window): Window {
    var o := s.WindowOutput(w);
    if o.None? || o.value >= |s.outputs| then w.(floating := true)
    else
      var a := OutputArea(s.outputs[o.value]);
      var fw, fh := FitSide(w.floatW, a.width, w.minW, w.maxW), FitSide(w.floatH, a.height, w.minH, w.maxH);
      var (x, y) := PlaceOver(fw, fh, a, a);
      w.(floating := true, floatW := fw, floatH := fh, floatX := x, floatY := y)
  }

  function OnAppId(s: Wm, id: nat, appId: Option<string>, floats: bool): Wm {
    UpdateWindow(s, id, (w: Window) =>
      (if floats && !w.floating then FloatForApp(s, w) else w).(appId := appId))
  }

  /** A tag is focused from the named output, or from the active one. */
  function OnFocusTag(s: Wm, tag: nat, output: Option<string>): Wm
    requires WellFormed(s)
  {
    var o := if output.Some? then s.FindOutputByName(output.value) else s.ActiveOutput();
    if o.None? then s else FocusTag(s, o.value, tag)
  }

  function OnSendToTag(s: Wm, tag: nat): Wm {
    var o := s.ActiveOutput();
    if o.None? then s else SendFocusedToTag(s, o.value, tag)
  }

  function OnFocusOutput(s: Wm, name: string): Wm {
    var o := s.FindOutputByName(name);
    if o.None? then s else s.(focused := o)
  }

  /** Show and focus the first window with this app id (and title, if given). */
  function OnFocusWindow(s: Wm, appId: string, title: Option<string>): Wm {
    var k := Position(s.windows, (w: Window) => w.appId == Some(appId) && (title.None? || w.title == title));
    if k.None? then s
    else
      var w := s.windows[k.value];
      var o := s.TagOwner(w.tag);
      if o.None? || o.value >= |s.outputs| then s
      else SwitchActiveTag(s.(focused := o), o.value, w.tag).SetFocusedWindow(o.value, Some(w.id))
  }

  /** Focus a window and the output and tag it lives on, as pointer focus does. */
  function FocusWindowOnOutput(s: Wm, id: nat): Wm {
    var k := s.FindWindow(id);
    if k.None? then s
    else
      var tag := s.windows[k.value].tag;
      var o := s.TagOwner(tag);
      if o.None? || o.value >= |s.outputs| then s
      else if s.focused == o && s.outputs[o.value].activeTag == tag &&
          s.outputs[o.value].focusedWindow == Some(id) then s
      else SwitchActiveTag(s.(focused := o).SetFocusedWindow(o.value, Some(id)), o.value, tag)
  }

  /** Next or previous index in a ring of `n`. */
  function Rotate(i: nat, n: nat, forward: bool): nat
    requires n > 0
  {
    if forward then (i + 1) % n else (i + n - 1) % n
  }

  function OnCycleWindow(s: Wm, forward: bool): Wm
    requires WellFormed(s)
  {
    var o := s.ActiveOutput();
    if o.None? then s
    else
      var i := o.value;
      var ids := Map(Filter(s.windows, (w: Window) => s.ShownBy(i, w)), (w: Window) => w.id);
      if ids == [] then s
      else
        var f := s.outputs[i].focusedWindow;
        var at := Position(ids, (id: nat) => f == Some(id));
        s.SetFocusedWindow(i, Some(ids[Rotate(if at.Some? then at.value else 0, |ids|, forward)]))
  }

  function OnCycleOutput(s: Wm, forward: bool): Wm {
    if |s.outputs| <= 1 then s
    else s.(focused := Some(Rotate(if s.focused.Some? then s.focused.value else 0, |s.outputs|, forward)))
  }

  /** The window the key bindings act on. */
  function ActiveWindow(s: Wm): Option<nat>
    requires WellFormed(s)
  {
    var o := s.ActiveOutput();
    if o.None? then None else s.outputs[o.value].focusedWindow
  }

  function FloatFromTile(g: Option<Area>, w: Window): Window {
    if w.floating then w.(floating := false) else FloatAt(w, g)
  }

  function OnResizeStep(s: Wm, c: Config, right: bool): Wm
    requires WellFormed(s)
  {
    var o := s.ActiveOutput();
    if !s.resizeMode || o.None? then s
    else
      var tag := s.outputs[o.value].activeTag;
      var step := if right then c.resizeStep else -c.resizeStep;
      ClearFullscreen(SetMasterFraction(s, tag, s.tags[tag].masterFraction + step), tag)
  }

  /** Focus follows the pointer onto the output under it. */
  function OnPointerMoved(s: Wm, c: Config, x: int, y: int): Wm {
    var o := Position(s.outputs, (o: Output) => o.x <= x < o.x + o.width && o.y <= y < o.y + o.height);
    if c.focusFollowsMouse && o.Some? then s.(focused := o) else s
  }

  function Next(s: Wm, e: Event, c: Config): Wm
    requires WellFormed(s)
  {
    match e
    case OutputAdded(uid) => if s.FindOutput(uid).Some? then s else OnOutputAdded(s, uid)
    case OutputMoved(uid, x, y) => OnOutputMoved(s, uid, x, y)
    case OutputResized(uid, width, height) => OnOutputResized(s, uid, width, height)
    case OutputNamed(uid, name) => OnOutputNamed(s, uid, name)
    case UsableArea(uid, x, y, width, height) => OnUsableArea(s, uid, x, y, width, height)
    case OutputRemoved(uid) => OnOutputRemoved(s, uid)
    case WindowAdded => OnWindowAdded(s)
    case WindowClosed(id) => OnWindowClosed(s, id)
    case WindowTitled(id, title) => UpdateWindow(s, id, (w: Window) => w.(title := title))
    case SizeHinted(id, minW, minH, maxW, maxH) =>
      UpdateWindow(s, id, (w: Window) => w.(minW := minW, minH := minH, maxW := maxW, maxH := maxH))
    case AppIdSet(id, appId, floats) => OnAppId(s, id, appId, floats)
    case FullscreenAsked(id, on) => UpdateWindow(s, id, (w: Window) => w.(fullscreen := on))
    case MinimizeAsked(id) => UpdateWindow(s, id, (w: Window) => w.(minimized := true))
    case FocusTagAsked(tag, output) => OnFocusTag(s, tag, output)
    case SendToTagAsked(tag) => OnSendToTag(s, tag)
    case FocusOutputAsked(name) => OnFocusOutput(s, name)
    case FocusWindowAsked(app, called) => OnFocusWindow(s, app, called)
    case CycleWindow(forward) => OnCycleWindow(s, forward)
    case CycleOutput(forward) => OnCycleOutput(s, forward)
    case ToggleFullscreen =>
      if ActiveWindow(s).None? then s
      else UpdateWindow(s, ActiveWindow(s).value, (w: Window) => w.(fullscreen := !w.fullscreen))
    case ToggleFloat =>
      if ActiveWindow(s).None? then s
      else
        var g := GeometryOf(s, c, ActiveWindow(s).value);
        UpdateWindow(s, ActiveWindow(s).value, (w: Window) => FloatFromTile(g, w))
    case ToggleResizeMode => s.(resizeMode := !s.resizeMode)
    case LeaveResizeMode => s.(resizeMode := false)
    case ResizeStep(right) => OnResizeStep(s, c, right)
    case PointerEntered(id) => if c.focusFollowsMouse then FocusWindowOnOutput(s, id) else s
    case Interacted(id) => FocusWindowOnOutput(UpdateWindow(s, id, (w: Window) => w.(minimized := false)), id)
    case PointerMoved(x, y) => OnPointerMoved(s, c, x, y)
    case ManagePass(_) => Passes.ManageState(s, c)
    case RenderPass => Passes.RenderState(s)
  }
}
