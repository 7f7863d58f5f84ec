/**
 The data model of the window manager: tags, outputs and windows as values,
 with the queries that only read them.
 */
module Desktop {
  import opened Prelude

  const NUM_TAGS: nat := 9

  datatype Window = Window(
    id: nat, tag: nat,
    appId: Option<string>, title: Option<string>,
    floating: bool, floatX: int, floatY: int, floatW: nat, floatH: nat,
    minW: nat, minH: nat, maxW: nat, maxH: nat,
    fullscreen: bool, fullscreenApplied: bool, minimized: bool,
    ssdApplied: Option<bool>, capsSet: bool, tiledApplied: Option<bool>,
    node: bool)

  /** `uid` stands for the identity of the output's protocol object. */
  datatype Output = Output(
    uid: nat, name: Option<string>,
    x: int, y: int, width: nat, height: nat,
    usableX: int, usableY: int, usableW: nat, usableH: nat,
    activeTag: nat, focusedWindow: Option<nat>)

  datatype Tag = Tag(output: Option<nat>, masterFraction: real)

  datatype Area = Area(x: int, y: int, width: nat, height: nat)

  function NewWindow(id: nat, tag: nat): Window {
    Window(id, tag, None, None, false, 0, 0, 400, 300, 0, 0, 0, 0, false, false, false, None, false, None, false)
  }

  function NewOutput(uid: nat): Output {
    Output(uid, None, 0, 0, 0, 0, 0, 0, 0, 0, 0, None)
  }

  /** The area floating and tiled windows are laid out in. */
  function OutputArea(o: Output): Area {
    if o.usableW > 0 || o.usableH > 0
    then Area(o.usableX, o.usableY, o.usableW, o.usableH)
    else Area(o.x, o.y, o.width, o.height)
  }

  function Min(a: int, b: int): int { if a < b then a else b }
  function Max(a: int, b: int): int { if a < b then b else a }

  /** Clamp `v` into `[lo, hi]`. */
  function Clamp(v: int, lo: int, hi: int): int
    requires lo <= hi
  {
    if v < lo then lo else if v > hi then hi else v
  }

  function ClampRectToArea(x: int, y: int, width: nat, height: nat, a: Area): (int, int) {
    if a.width == 0 || a.height == 0 then (a.x, a.y)
    else
      (Clamp(x, a.x, a.x + (a.width - Min(width, a.width))),
       Clamp(y, a.y, a.y + (a.height - Min(height, a.height))))
  }

  /** One side of a child window: at most 3/5 of the parent's, at least its own
      minimum, and never more than its own maximum (0 means no preference). */
  function FitSide(requested: nat, parent: nat, min: nat, max: nat): nat {
    var side := Max(Min(requested, if parent > 0 then parent * 3 / 5 else requested), min);
    if max > 0 then Min(side, max) else side
  }

  /** Top-left corner of a `w` by `h` child centred over `over`, kept inside `area`. */
  function PlaceOver(w: nat, h: nat, over: Area, area: Area): (int, int) {
    ClampRectToArea(over.x + over.width / 2 - w / 2, over.y + over.height / 2 - h / 2, w, h, area)
  }

  function FindById(ws: seq<Window>, id: nat): (r: Option<nat>)
    ensures r.Some? ==> r.value < |ws| && ws[r.value].id == id
    ensures r.None? ==> forall k :: 0 <= k < |ws| ==> ws[k].id != id
  {
    Position(ws, (w: Window) => w.id == id)
  }

  /** A tiled window is floated in the place of its tile, if it has one. */
  function FloatAt(w: Window, tile: Option<Area>): Window {
    if w.floating then w
    else if tile.None? then w.(floating := true)
    else
      var a := tile.value;
      w.(floating := true, floatX := a.x, floatY := a.y, floatW := a.width, floatH := a.height)
  }

  /** The whole state: `nextId` is the window id generator. */
  datatype Wm = Wm(
    outputs: seq<Output>, windows: seq<Window>, tags: seq<Tag>,
    focused: Option<nat>, nextId: nat, resizeMode: bool)
  {
    function TagOwner(tag: nat): Option<nat> {
      if tag < |tags| then tags[tag].output else None
    }

    /** The focused output, or the first one. */
    function ActiveOutput(): Option<nat> {
      if focused.Some? then focused else if outputs == [] then None else Some(0)
    }

    function FindWindow(id: nat): (r: Option<nat>)
      ensures r.Some? ==> r.value < |windows| && windows[r.value].id == id
      ensures r.None? ==> forall k :: 0 <= k < |windows| ==> windows[k].id != id
    {
      FindById(windows, id)
    }

    function FindOutput(uid: nat): (r: Option<nat>)
      ensures r.Some? ==> r.value < |outputs| && outputs[r.value].uid == uid
      ensures r.None? ==> forall k :: 0 <= k < |outputs| ==> outputs[k].uid != uid
    {
      Position(outputs, (o: Output) => o.uid == uid)
    }

    function FindOutputByName(name: string): (r: Option<nat>)
      ensures r.Some? ==> r.value < |outputs| && outputs[r.value].name == Some(name)
      ensures r.None? ==> forall k :: 0 <= k < |outputs| ==> outputs[k].name != Some(name)
    {
      Position(outputs, (o: Output) => o.name == Some(name))
    }

    /** The output a window is managed against. */
    function WindowOutput(w: Window): Option<nat> {
      if TagOwner(w.tag).Some? then TagOwner(w.tag) else ActiveOutput()
    }

    /** A window is visible when its tag is the active one of the tag's owner. */
    predicate IsVisible(w: Window) {
      var o := TagOwner(w.tag);
      o.Some? && o.value < |outputs| && outputs[o.value].activeTag == w.tag
    }

    /** `w` is displayed by output `i`. */
    predicate ShownBy(i: nat, w: Window)
      requires i < |outputs|
    {
      TagOwner(w.tag) == Some(i) && w.tag == outputs[i].activeTag
    }

    function SetOutput(i: nat, o: Output): Wm
      requires i < |outputs|
    {
      this.(outputs := outputs[i := o])
    }

    function SetActive(i: nat, tag: nat): Wm
      requires i < |outputs|
    {
      SetOutput(i, outputs[i].(activeTag := tag))
    }

    function SetFocusedWindow(i: nat, w: Option<nat>): Wm
      requires i < |outputs|
    {
      SetOutput(i, outputs[i].(focusedWindow := w))
    }

    function SetOwner(tag: nat, o: Option<nat>): Wm
      requires tag < |tags|
    {
      this.(tags := tags[tag := tags[tag].(output := o)])
    }

    function SetWindow(k: nat, w: Window): Wm
      requires k < |windows|
    {
      this.(windows := windows[k := w])
    }

    function FreeTag(): (r: Option<nat>)
      ensures r.Some? ==> r.value < |tags| && tags[r.value].output.None?
      ensures r.Some? ==> forall t :: 0 <= t < r.value ==> tags[t].output.Some?
      ensures r.None? ==> forall t :: 0 <= t < |tags| ==> tags[t].output.Some?
    {
      Position(tags, (t: Tag) => t.output.None?)
    }
  }

  function InitWm(masterFraction: real): Wm {
    Wm([], [], seq(NUM_TAGS, t => Tag(None, masterFraction)), None, 1, false)
  }
}
