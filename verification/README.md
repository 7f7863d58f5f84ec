# A verified model of streamwm

streamwm is a window manager for the river compositor: one thread owns all
state and reacts to protocol events, key bindings and socket commands; a
threaded status server pushes snapshots to subscribers; small state machines
beside it restart the worker, follow the laptop lid and drag windows.

This project models that behaviour in Dafny and proves properties of it. Protocol
objects are unique ids, requests to the compositor are values in a sequence
applied to a small model of the server, and clocks, topologies and the results
of external commands are inputs.

## Reading order

- `Prelude`, `Desktop`, `Transitions`: sequences, the data model (`Wm` is the whole
  shared state), and what each operation on it does, as functions.
- `StateClass`, `App`: the same state as an object updated in place, with one
  method per operation, per event and per pass. Every method is proved to compute
  exactly the function of that purpose; every handler keeps the run invariant.
- `Normalize`, `Floating`, `Invariant`, `Events`, `Identity`, `Refinement`, `Runs`: what the
  operations guarantee, the step function over all events, and the proof that
  every event keeps the invariant and refines a desk that knows outputs by identity
  only. A newly plugged output may find all nine tags owned, so the invariant is
  that an output owns the tag it shows, or owns nothing while nothing is free.
- `Commands`, `Effects`: what each command, key binding and protocol event changes, by value, that it changes
  nothing else, and which of them undo each other.
- `Tiling`, `Placement`, `Passes`, `PassProofs`, `Settling`: layout, stacking order, and the manage and
  render passes with the requests they send.
- `Surfaces`, `Told`: what those requests leave the compositor with, whatever it held before: keyboard focus, and
  for each window its place, its size and what it was told. Over any run the window manager's records
  of what it has told each window are right (`ToldProofs.RecordsOverRuns`), and the two passes put every
  window in its place (`ToldProofs.PassesPlaceAll`).
- `Delivery`, `Registry`: the subscriber protocol as an interleaved step machine with
  one atomic step per store, signal, receive, take and write, and the registry object
  whose publish is the uninterrupted run of those steps.
- `Bits`, `Snapshot`: the 32-bit tag masks and the snapshot built from the state.
- `Supervisor`, `Lid`, `Drag`: the rolling crash window, the lid and dock retries, and
  interactive move and resize.

## Where the code and its documentation differ

The model follows the code.

- `docs/FEATURES.md:49` says that leaving an empty tag unassigns it. The code keeps the
  owner (`src/state.rs:562-564`), and `Runs.TagKeepsOwner` proves that only unplugging its
  owner changes the owner of an assigned tag.
- `src/wm/layout.rs:128-129` says the last stack tile ends on the bottom edge of the area. The code
  subtracts one more gap (`src/wm/layout.rs:131`), so it ends one gap above unless its height is cut off at
  zero, in which case it may end elsewhere. `Tiling.EndsOnBottomExactly` and
  `Tiling.EndsOneGapAboveExactly` give both exact conditions, and `Tiling.CutStackEndsElsewhere` a stack that
  ends on neither edge.
- `src/status.rs:9-11` says a slow subscriber always receives the newest snapshot. A publish
  between the initial reply and the end of the drain (`src/status.rs:454-457`) can be
  dropped: `Delivery.StaleAfterSetUp` is such a run, and `Delivery.ConvergesExactly` says exactly when a
  waiting subscriber is up to date.
- Pointer deltas are cumulative from the start of an operation, yet the code also subtracts the
  pointer position the operation started at (`src/bindings.rs:624-630`). `Drag.MovesByDelta` says when a
  window moves by the delta all the same, and `Drag.DragJumps` is a drag that does not.
- A manage pass need not settle: a window that asks for fullscreen on a tag nobody owns is granted it,
  and the next pass has something to send again. `PassProofs.ManageSettles` gives the exact condition, and
  `Settling.NeedNotSettle` a run that reaches such a state.
- Starts and ends of pointer operations match with one seat only; with several, a new operation replaces
  one of another seat, which then stays in progress until that seat goes or has another operation staged.
  `Drag.PassMatches` gives the exact condition, `Drag.OrphanedOperation` such a run, and `Drag.NeverEnded`
  what follows.

## Model

| member | source | states |
|---|---|---|
| StateClass.RemapTagOwners | src/state.rs:253-263 | rewriting the owner table in place maps every owner as removal demands: unassigned stays, none is left when no output remains, the removed owner becomes output 0, higher owners move down by one |
| StateClass.State.constructor | src/state.rs:285-298 | a fresh state has nine unassigned tags, no outputs, no windows and no focus |
| StateClass.State.RefocusOutput | src/state.rs:633-656 | an output keeps its focused window while it still shows it, and otherwise takes the first window it shows, or none |
| StateClass.State.OccupiedMask | src/state.rs:473-477 | folding window tags into a 32-bit word sets exactly the bits of the tags that hold a window |
| StateClass.State.BestTagForOutput | src/state.rs:466-490 | the bitmask search finds the active tag if owned, else the lowest owned tag holding a window, else the lowest owned tag, else nothing |
| StateClass.State.NormalizeOutput | src/state.rs:454-462 | one round of the normalizing loop gives the output its best tag, or the lowest free one, and refocuses it |
| StateClass.State.NormalizeOutputs | src/state.rs:440-464 | the loop over all outputs computes the specified normalization, including the focus fallback and the empty desk |
| StateClass.State.AssignInitialTag | src/state.rs:390-402 | a new output takes the lowest free tag unless its index already owns one |
| StateClass.State.RemapOwners | src/state.rs:418-423 | copying the owners out, remapping the copy and copying back changes nothing else about the tags |
| StateClass.State.RemoveOutput | src/state.rs:405-433 | removal cuts the output out, remaps owners and focus, normalizes and clamps, and is a no-op out of range |
| StateClass.State.RepairOutputs | src/state.rs:435-438 | repair is normalization followed by clamping of floating windows |
| StateClass.State.ClampFloatingWindows | src/state.rs:492-533 | every floating window is clamped to the output it is shown on, falling back to the focused output and then to output 0; others are untouched |
| StateClass.State.ClearFullscreenOnTag | src/state.rs:589-593 | exactly the windows on the tag lose their fullscreen flag |
| StateClass.State.ActivateTag | src/state.rs:565-570 | activating a tag clears fullscreen on the tag left behind and refocuses |
| StateClass.State.SwitchActiveTag | src/state.rs:576-586 | the same, but a switch to the tag already shown clears nothing, and a bad index is ignored |
| StateClass.State.FocusTag | src/state.rs:541-560 | a free tag is claimed, an own tag is shown, another output's tag moves focus there; out-of-range requests change nothing |
| StateClass.State.SendFocusedToTag | src/state.rs:613-630 | the focused window moves to the tag, claiming it if free; missing, already-there and out-of-range cases change nothing |
| Desktop.Wm.FindWindow | src/state.rs:338-340 | finds the first window with the id, and nothing only if there is none |
| Desktop.Wm.FreeTag | src/state.rs:394 | finds the lowest unassigned tag, and nothing only if all are assigned |
| Transitions.LowestOwned | src/state.rs:479-489 | the lowest tag owned by the output (and, if asked for, holding a window), with nothing only if there is none |
| NormalizeProofs.NormalizeEstablishes | src/state.rs:440-464 | from any state with outputs, normalization leaves every output owning the tag it shows, or tagless with no tag free, with focus in range and settled on a shown window; owned tags and windows are unchanged |
| NormalizeProofs.NormalizeIdempotent | src/state.rs:440-464 | normalizing twice is normalizing once |
| NormalizeProofs.NormalizeKeepsOwners | src/state.rs:454-462 | normalization of a desk whose outputs are in order changes no owner |
| NormalizeProofs.NormalizeChooses | src/state.rs:466-490 | each output that owns a tag ends up showing its best one: the active one, else the lowest occupied, else the lowest |
| NormalizeProofs.NormalizeClaims | src/state.rs:458-461 | only tagless outputs claim, each at most one tag, and always the lowest then free; an assigned tag never changes hands |
| NormalizeProofs.SettledIsSound | src/state.rs:633-656 | a settled focus is a live window on a tag the output owns and shows, or none exactly when it shows none |
| NormalizeProofs.ReassignRepairs | src/state.rs:455-461 | after reassignment the output owns its active tag unless it owns nothing and no tag is free |
| Invariant.InitInv | src/state.rs:285-298 | the initial state satisfies the run invariant |
| Invariant.ShownOnce | src/state.rs:382-387 | under the invariant no window is shown by two outputs |
| Refinement.NextRefines | src/state.rs:390-630 | every event keeps the invariant, and seen by output identity instead of index it is exactly one move of an abstract desk: stay, plug, unplug, claim or focus |
| Refinement.OutputAddedRefines | src/connection.rs:308-328 | plugging an output gives it the lowest free tag and focus if there was none, and changes nothing else by identity |
| Refinement.OutputRemovedRefines | src/state.rs:405-433 | unplugging hands all its tags, and focus if it had it, to the first remaining output by identity, or to nobody if none remain |
| Refinement.RemovalKeepsShownTags | src/state.rs:405-433 | a surviving output that showed its own tag keeps its identity, keeps showing that tag and keeps owning it |
| Refinement.FocusTagRefines | src/state.rs:541-560 | focusing a tag is a claim or a focus move and nothing more by identity |
| Refinement.SendToTagRefines | src/state.rs:613-630 | sending a window to a tag claims that tag if it was free and changes no other owner |
| Refinement.FocusAskedRefines | src/status.rs:548-576 | focusing a window from the socket moves focus to the owner of its tag and changes no owner |
| Refinement.WindowClosedRefines | src/events.rs:79-93 | closing a window changes no owner, order or focus |
| Runs.ReachableStates | src/state.rs:390-630 | in every state reachable by any sequence of events: owners in range, tags below nine, focus none exactly without outputs, each output owning its active tag or tagless on a full table, and no window shown twice |
| Runs.OwnerStep | src/state.rs:562-570 | one event changes a tag's owner only from nobody to some output, or, when the owner is unplugged, to the first remaining output |
| Runs.TagKeepsOwner | src/state.rs:562-570 | over any run that does not unplug the owner, a tag keeps its owner; leaving an empty tag does not free it |
| FloatingProofs.ClampIsNearestLegal | src/state.rs:659-676 | clamping puts the rectangle inside the area where it fits, pins it to the origin where it does not, and no legal position is nearer |
| FloatingProofs.ClampRepairs | src/state.rs:492-533 | after clamping every floating window lies inside the area of the output it is managed against where it fits, moves only if it was not already legal, and not at all without such an area; sizes, tiled windows and order are unchanged |
| FloatingProofs.RepairFloats | src/state.rs:435-438 | the same holds after a whole repair, hence after output geometry changes and removals |
| FloatingProofs.ClampIdempotent | src/state.rs:492-533 | clamping twice is clamping once |
| FloatingProofs.FittedSize | src/state.rs:688-706 | a fitted side is the requested one cut to three fifths of the area, then raised to its own minimum, then cut to its own maximum |
| Tiling.ComputeTiling | src/wm/layout.rs:88-147 | one tile per window: a single one fills the area; of several the first is the full-height master at the left, as wide as its share, and the others are stacked to its right a gap apart, sharing the height, the last one taking the rest less one gap |
| Tiling.MasterWidthBounded | src/wm/layout.rs:107 | the master column is between zero and the area's width |
| Tiling.TilesDisjoint | src/wm/layout.rs:88-147 | any two tiles of an output are interior-disjoint, for any number of windows and any gap |
| Tiling.TileInside | src/wm/layout.rs:88-147 | every non-empty tile lies inside the tiling area |
| Tiling.StackConserved | src/wm/layout.rs:118-144 | stack neighbours are exactly one gap apart, the last tile is cut at zero or absorbs the division remainder less one gap, and the heights and gaps then add up to the area |
| Tiling.WidthConserved | src/wm/layout.rs:107-119 | master, gap and stack widths fill the area whenever they fit |
| Tiling.ComputeAll | src/wm/layout.rs:27-33 | the tiles of all outputs are concatenated in output order |
| Tiling.OutputTilesInside | src/wm/layout.rs:54-86 | an output's non-empty tiles lie inside its usable area, or its whole area when no usable area is known |
| Tiling.NoOverlapAnywhere | src/wm/layout.rs:27-86 | with outputs whose areas are disjoint, no two tiles on the desk overlap |
| Tiling.ListsEachVisibleWindowOnce | src/wm/layout.rs:43-52 | every visible window that does not float has exactly one tile, and nothing else has one |
| PlacementProofs.ComputePlacements | src/wm/layout.rs:166-194 | the three buckets filled in one pass are the stable partition into hidden, tiled and floating |
| PlacementProofs.PlacementOrderPartitions | src/wm/layout.rs:166-194 | placement order is a permutation of all windows, group after group, each in state order |
| PlacementProofs.TileOrFloatBox | src/wm/layout.rs:171-181 | a visible window that neither floats nor is fullscreen or minimized is placed at its tile, never at its float box |
| PlacementProofs.RenderStacksAndShows | src/wm/layout.rs:197-240 | after a render pass the windows shown are exactly the visible, unminimized ones, and they are the top of the compositor's list in placement order, whatever the list was |
| PlacementProofs.PlacingStacks | src/wm/layout.rs:209-219 | raising windows one by one leaves them on top in that order and the rest below in their old order |
| PassProofs.PassFocusSound | src/wm/mod.rs:24-29 | after the refocus loop every output focuses a live window it owns and shows, or none exactly when there is none, and keeps a focus that was still valid |
| PassProofs.FullscreenApplied | src/wm/mod.rs:53-115 | after a pass with an output present every window's fullscreen wish has been applied |
| PassProofs.RenderPassLegal | src/wm/mod.rs:302-318 | a render pass never asks for a node the server still holds; afterwards every visible window has one, and every node belongs to a window whose tag is active on some output |
| Runs.NextNodes | src/wm/mod.rs:302-318 | every event keeps client and server in agreement about nodes and causes no protocol error |
| Runs.NodesOverRuns | src/wm/mod.rs:295-333 | the same over any run of tag switches, closes, output changes and passes |
| App.App.OnManageStart | src/wm/mod.rs:16-260 | the manage pass, loop by loop, computes the specified state and sends the specified requests in order: hides, closes, fullscreen and decoration, keyboard focus, sizes, tiled state; queued closes are sent once and forgotten; the invariant is kept |
| App.App.RefocusOutputs | src/wm/mod.rs:24-29 | the loop over outputs refocuses all of them |
| App.App.CloseWindows | src/wm/mod.rs:43-51 | a queued close is sent exactly for the windows that still exist, in order |
| App.App.SyncOne | src/wm/mod.rs:67-115 | one window's lost fullscreen, capabilities, decoration and fullscreen requests are sent only when something changed |
| App.App.SyncWindows | src/wm/mod.rs:53-115 | the loop does this for every window against the targets resolved before it |
| App.App.RouteFocus | src/wm/mod.rs:130-145 | the request is the one SurfaceProofs.FocusServed proves right: focus on the active output's focused window if it exists, else no focus |
| App.App.InformTiled | src/wm/mod.rs:207-227 | a window is told whether it is tiled only when that changed |
| App.App.OnRenderStart | src/wm/mod.rs:295-333 | the render pass releases hidden nodes, takes nodes for visible windows and replays the placements, and keeps the invariant |
| StateClass.State.ReleaseHiddenNodes | src/state.rs:601-608 | exactly the windows whose tag no output shows lose their node, and a destroy request is sent for each node that existed |
| App.App.GetNodes | src/wm/mod.rs:309-318 | a node is requested for exactly the visible windows without one |
| App.App.PlaceAll | src/wm/layout.rs:197-240 | hide, position, raise and show requests follow the placements, whose positions SurfaceProofs.RenderServed proves right; a window without a node is shown but not raised |
| App.App.OutputAdded | src/connection.rs:308-328 | handler: a new output is appended, given a tag, and focused if nothing was; the invariant is kept |
| App.App.OutputMoved | src/events.rs:287-294 | handler: the position is stored and the outputs repaired |
| App.App.OutputResized | src/events.rs:295-302 | handler: the size is stored and the outputs repaired |
| App.App.UsableAreaChanged | src/events.rs:340-361 | handler: the area left by panels is stored and the outputs repaired |
| App.App.OutputRemoved | src/events.rs:312-320 | handler: the output is found by identity and removed |
| App.App.WindowAdded | src/connection.rs:295-307 | handler: the window gets a fresh id and the tag the active output shows, and is focused there |
| App.App.WindowClosed | src/events.rs:79-93 | handler: the window with the id is cut out of the list and every other one stays in place; it and its node, if any, are destroyed; unknown ids do nothing |
| App.App.AppIdSet | src/events.rs:94-143 | handler: a window of a floating app is floated, fitted to its output and centred once; others only get the id |
| App.App.FocusTagAsked | src/status.rs:524-535 | handler: a tag is focused from the named or the active output; unknown names and bad indices are ignored |
| App.App.SendToTagAsked | src/status.rs:536-541 | handler: the active output's focused window is sent |
| App.App.FocusWindowAsked | src/status.rs:548-576 | handler: the first match by app id, and by title if given, is shown and focused if its tag is owned |
| App.App.CycleWindow | src/bindings.rs:236-260 | handler: focus moves to the next or previous shown window, wrapping around |
| App.App.CycleOutput | src/bindings.rs:343-368 | handler: focus moves around the ring of outputs, empty ones included |
| App.App.ToggleFloat | src/bindings.rs:302-342 | handler: the focused window is floated in the place of its tile, or tiled again |
| App.App.ResizeStep | src/bindings.rs:389-410 | handler: in resize mode only, the active tag's master fraction moves by one step within its bounds and fullscreen ends there |
| App.App.CloseFocused | src/bindings.rs:226-235 | the focused window, if any, is queued for closing |
| App.App.FocusWindowOnOutput | src/events.rs:556-574 | computes the pointer focus that CommandProofs.PointerFocusEffect describes by value |
| App.App.PointerEntered | src/events.rs:451-464 | handler: only with focus-follows-mouse |
| App.App.Interacted | src/events.rs:470-482 | handler: the window, restored, is focused on its output, which shows its tag and is focused, whatever the setting |
| App.App.PointerMoved | src/events.rs:483-509 | handler: focus follows the pointer onto the output under it, empty or not |
| CommandProofs.ActivateEffect | src/state.rs:565-570 | after activating a tag the output shows it, keeps a focus it still shows and otherwise focuses the first shown window, exactly the windows of the tag left behind have lost fullscreen, and nothing else changed |
| CommandProofs.SwitchEffect | src/state.rs:576-586 | the same for pointer-driven switches, where staying on a tag takes nobody's fullscreen |
| CommandProofs.FocusTagEffect | src/state.rs:541-560 | a focused tag ends up shown by its owner, or by the asking output if it was free; focus moves only to another owner; no other tag changes hands |
| CommandProofs.SendMovesOne | src/state.rs:613-630 | a send moves the focused window and no other, exactly if it exists and is elsewhere; the tag is claimed only if it was free, the sender's focus stays or falls on its first shown window, and nothing else changes |
| CommandProofs.PointerFocusSettles | src/events.rs:556-574 | a repeated pointer focus of the same window changes nothing |
| CommandProofs.NewWindowPlaced | src/connection.rs:295-307 | a new window has a fresh id, is tiled and untold of anything, is on the tag the active output shows and focused there, and is shown exactly when that output owns the tag; nothing else changes |
| CommandProofs.FloatedCentred | src/events.rs:94-143 | a window floated for its app gets its fitted size and is centred up to rounding, on each axis with room, in the area of the output it is managed against; without an output it is only floated |
| Delivery.StepKeeps | src/status.rs:100-114 | every atomic step of the publisher and of any subscriber, in any interleaving, keeps the delivery invariant |
| Delivery.MonotoneDelivery | src/status.rs:425-480 | what one subscriber is sent is its initial snapshot followed by published snapshots in strictly increasing build order, so nothing older than the initial one is ever written after it |
| Delivery.StaleAfterSetUp | src/status.rs:454-457 | a concrete run: a publish that lands between the initial reply and the end of the drain leaves the subscriber waiting with older data |
| Delivery.StoreKeeps | src/status.rs:102-104 | storing the newest snapshot into a slot keeps the invariant wherever the subscriber is |
| Delivery.SignalKeeps | src/status.rs:105-112 | signalling, or pruning a subscriber that is gone, keeps the invariant |
| Delivery.OwnKeeps | src/status.rs:443-480 | so does every step of a subscriber thread: asking, receiving or timing out, clearing the slot, draining tokens, writing, waking, taking, failing |
| Delivery.AnswerKeeps | src/status.rs:640-651 | answering a pending request with a snapshot built now keeps the invariant, also when the asker has given up |
| Registry.Subscribers.Register | src/status.rs:75-86 | a subscriber gets a fresh id, an empty slot and no token |
| Registry.Subscribers.Unregister | src/status.rs:89-91 | exactly the subscriber with the id is forgotten; order is kept |
| Registry.Subscriber.TrySend | src/status.rs:105-112 | a non-blocking send leaves one token and fails only if the receiver is gone |
| Registry.Subscribers.Publish | src/status.rs:100-114 | every live subscriber's slot is overwritten and holds one token, the others are pruned, ids stay distinct |
| Registry.OfferAll | src/status.rs:100-114 | the retaining loop over the subscribers does exactly this |
| Registry.NumberedDistinct | src/status.rs:75-78 | no subscriber id is given out twice |
| Snapshot.MasksDisjoint | src/status.rs:224-232 | owned masks of different outputs have no bit in common |
| Snapshot.ActiveAmongOwned | src/status.rs:204-226 | in every reachable state the active mask is contained in the owned mask unless that is zero, which happens exactly for a tagless output |
| Snapshot.ListsPartition | src/status.rs:234-247 | the window lists together hold every window on an owned tag exactly once |
| Bits.HasSet | src/status.rs:229 | or-ing in a shifted one sets that bit and no other |
| Bits.DisjointByBits | src/status.rs:224-232 | words with no common bit have an empty intersection |
| Supervisor.PopExpired | src/main.rs:117-123 | popping expired failures from the front leaves exactly the recent ones |
| Supervisor.Supervise | src/main.rs:89-139 | the loop ends with success at the first clean exit, gives up at the first failure that makes more than five recent ones, and otherwise sleeps after each failure according to how many are recent |
| Supervisor.ForgettingIsExact | src/main.rs:117-124 | the queue after each failure equals the failures of the whole history less than sixty seconds old |
| Supervisor.CrowdedExactly | src/main.rs:128-133 | a failure is one too many exactly when it and the five before it fall within one window |
| Supervisor.AliveExactly | src/main.rs:117-133 | the supervisor still runs exactly when no six failures of the history fall within one window |
| Supervisor.AtMostFive | src/main.rs:128-133 | while it runs, any window of sixty seconds, wherever it starts, holds at most five failures |
| Supervisor.GivesUpAtSixth | src/main.rs:128-133 | when it gives up there are exactly six recent failures |
| Supervisor.DelayBounds | src/main.rs:144-149 | delays lie between 250 ms and 4 s and never shrink as recent failures grow |
| Lid.LidLoop.Poll | src/lid.rs:129-213 | one pass through the polling loop updates the remembered lid, topology and retries, and applies profiles, as specified |
| Lid.LidLoop.ReactToLid | src/lid.rs:154-167 | the lid part: the first round applies the current profile, closing applies the closed one, opening recovers twice with the topology read again |
| Lid.CloseExactly | src/lid.rs:245-259 | the clamshell profile is applied exactly when the lid is closed, an external output is connected, and lid or topology is news |
| Lid.NeverStranded | src/lid.rs:245-255 | a closed lid without external output recovers the internal panel instead, whenever that is news |
| Lid.RetryPending | src/lid.rs:174-188 | while lid and topology stay put, a retry is pending exactly when the last scheduled recovery failed, and is due thirty seconds after it |
| Lid.RetryWhenDue | src/lid.rs:169-174 | in such a round a recovery is made exactly when a retry is due |
| Lid.ChangeForgets | src/lid.rs:189-207 | closing the lid or leaving the undocked topology forgets pending retries |
| Drag.PointerOps.StartPointerOp | src/bindings.rs:462-528 | an operation is staged for the floating window under the first pointer that is over a window, anchored at pointer and float box |
| Drag.PointerOps.StartInteractiveOp | src/bindings.rs:535-600 | a window asking to be dragged is floated in the place of its tile first |
| Drag.PointerOps.ApplyPointerDelta | src/bindings.rs:603-656 | a delta moves the window or the dragged edges from where the operation started, with a floor of 50 pixels; a vanished window is ignored |
| Drag.PointerOps.EndPointerOp | src/bindings.rs:659-668 | an end is requested only if an operation is active or staged |
| Drag.PointerOps.RemoveSeat | src/events.rs:392-411 | the operations of a removed seat are dropped |
| Drag.PointerOps.ProcessPointerOps | src/bindings.rs:706-725 | the pass starts a staged operation, then ends the active one if asked to |
| Drag.LastDeltaOnly | src/bindings.rs:603-656 | any sequence of deltas leaves the same geometry as its last one alone |
| Drag.OppositeEdgeFixed | src/bindings.rs:628-654 | on each axis a dragged left or top edge follows the pointer and any other resize moves the right or bottom edge with it, while the opposite edge stays, exactly until the size floor is hit; then the size is the floor |
| Drag.MovesByDelta | src/bindings.rs:624-627 | a move displaces the window by the delta exactly when the operation was anchored with the pointer at the origin |
| Drag.PassMatches | src/bindings.rs:706-725 | a pass leaves nothing pending, and keeps the compositor's operations in step exactly when it does not start one seat's operation over another's |
| Transitions.SendTarget | src/state.rs:617-621 | the window a send moves is the output's focused one, and only if the first window with that id is on another tag |
| Tiling.LastTileHeight | src/wm/layout.rs:130-134 | when the gaps fit, the last stack tile is cut off at zero or absorbs the division remainder less one gap |
| Tiling.EndsOnBottomExactly | src/wm/layout.rs:126-135 | the last stack tile ends on the bottom edge of the area exactly when the gaps alone fill the height, or there is no gap |
| Tiling.EndsOneGapAboveExactly | src/wm/layout.rs:126-135 | it ends one gap above the bottom edge exactly when the gaps fit and its height is not cut off at zero |
| Tiling.CutStackEndsElsewhere | src/wm/layout.rs:126-135 | a stack of two in ten pixels with a gap of eight, whose last tile ends at nine: on neither edge |
| PassProofs.SeatFocusVisible | src/wm/mod.rs:130-145 | the keyboard-focus request names a window the active output shows, and clears focus exactly when it shows none or there is no output |
| PassProofs.MinimizedFocusExactly | src/wm/mod.rs:130-145 | the keyboard-focus request names the window focused before if still shown, else the first shown one; that window is minimized exactly when it was |
| PassProofs.ManageSettles | src/wm/mod.rs:53-115 | a second pass sends no fullscreen, capability, decoration or tiled request, exactly when no window asks for fullscreen on an unowned tag without having it yet |
| Settling.NeedNotSettle | src/wm/mod.rs:53-115 | a run of six events from the start reaches a state with an output where the second pass still has requests to send |
| Passes.RefocusAllFrame | src/wm/mod.rs:24-29 | the refocus loop changes nothing but the focused windows |
| CommandProofs.FocusWindowEffect | src/status.rs:548-576 | the first match, if its tag is owned, is focused on its output, which shows its tag and is focused; exactly the windows of a tag left behind lose fullscreen; otherwise, and elsewhere, nothing changes |
| CommandProofs.CycleWindowReaches | src/bindings.rs:236-260 | cycling forward comes to every window the active output shows within one round, whatever was focused before |
| CommandProofs.CycleWindowUndone | src/bindings.rs:236-260 | cycling window focus one way and back is the identity when the focused window is shown |
| CommandProofs.CycleOutputReaches | src/bindings.rs:343-368 | cycling forward comes to every output in less than one round and changes nothing else |
| CommandProofs.CycleOutputUndone | src/bindings.rs:343-368 | cycling output focus one way and back is the identity |
| Delivery.ConvergesExactly | src/status.rs:450-474 | every subscriber waiting with nothing under way, in any reachable state, has caught up with the newest publish exactly when that publish came after its set-up or before its initial snapshot was built; what was last stored for it, if anything, is that publish |
| Delivery.CatchesUp | src/status.rs:464-474 | no lost wakeup: when no publish runs, a streaming subscriber waits after at most five steps, all of them its own, and has then caught up exactly under the same condition |
| Registry.PublishIsUninterrupted | src/status.rs:100-114 | a run of publisher steps only, begin, store, signal and end, does to the registry exactly what the object's publish does |
| Snapshot.BuildSnapshot | src/status.rs:189-253 | the three passes build a snapshot in which, per output, bit t of the owned mask is set exactly for owned tags, of the occupied mask exactly for owned tags holding a window, the window list holds exactly the windows on owned tags, in order, and all tags are listed |
| Lid.BudgetBounds | src/lid.rs:169-188 | while lid and topology stay put, every scheduled recovery uses up some of a fixed budget, except that each one that fails buys one more |
| Lid.AtMostThree | src/lid.rs:169-188 | hence an undocking causes at most three scheduled recoveries, and one more for each that fails |
| Lid.LidRecoveryNotRetried | src/lid.rs:154-167 | a recovery asked for at start-up or by an opened lid alone is never retried, whether or not it worked |
| Lid.ClosedForgets | src/lid.rs:199-207 | in every run, no retry is pending unless the lid was last seen open |
| Drag.StartsMatchEnds | src/bindings.rs:706-725 | with one seat, over any run of presses, pointer motion, deltas, passes, seat removal and changes other handlers make to the windows, the compositor has an operation in progress exactly when one is active, and nothing is pending after a pass |
| Drag.OrphanedOperation | src/bindings.rs:706-714 | a run with two seats after which the first one's operation is still in progress and only the second's is active |
| Drag.NeverEnded | src/bindings.rs:706-725 | over any later run such an operation stays in progress until its seat goes or has another operation staged |
| Drag.DragJumps | src/bindings.rs:624-627 | a run in which a drag of five pixels right moves the window five pixels left, because it started with the pointer at ten |
| Drag.PointerOps.PointerEnter | src/events.rs:451-455 | the seat remembers the window its pointer entered, if the window is known |
| Drag.PointerOps.PointerPosition | src/events.rs:483-487 | the seat remembers where its pointer is |
| CommandProofs.PointerFocusEffect | src/events.rs:556-574 | pointer focus leaves the window focused on the output that owns its tag, that output focused and showing the tag, exactly the windows of a tag left behind out of fullscreen, and nothing else changed; on an unowned tag or for an unknown window nothing changes |
| EffectProofs.PointerEffect | src/events.rs:451-482 | entering a window does this only with focus-follows-mouse, clicking it always, and a click restores that window alone from minimized first |
| EffectProofs.CloseEffect | src/events.rs:79-93 | closing cuts out the one window with the id; the others stay unchanged and in order, nothing but the list changes, and an unknown id changes nothing |
| EffectProofs.WindowReports | src/events.rs:144-260 | a title, a fullscreen or a minimize request changes that one field of that one window |
| EffectProofs.SizeHintStored | src/events.rs:155-169 | a size hint is stored on that one window and changes nothing else |
| EffectProofs.AppIdEffect | src/events.rs:94-143 | an app id is stored on its window alone; a window of a floating app that does not float yet is also floated, fitted and centred |
| EffectProofs.OutputReports | src/events.rs:287-361 | a position, size or usable area is stored on the output that reported it; then every output focuses a window it shows, keeping one that was, floating windows are pulled inside, and nothing else changes |
| EffectProofs.OutputNamedEffect | src/events.rs:530-551 | a name is stored on the output it belongs to and nothing else changes |
| EffectProofs.PlugEffect | src/connection.rs:308-328 | a new output is appended bare, takes exactly the lowest free tag and shows it, and is focused only if nothing was; the other outputs keep everything but an unsound focus, and all windows stay |
| EffectProofs.UnplugEffect | src/events.rs:312-320 | an unplugged output is cut out; the others keep name, place and size, each ends up with a sound focus, and windows keep everything but the place of a floating box |
| EffectProofs.FocusTagChooses | src/status.rs:524-535 | a tag is focused through the first output with the given name, or the focused one; without one, or for a tag beyond the last, nothing changes |
| EffectProofs.SendChooses | src/status.rs:536-541 | a send acts on the focused output; without outputs, or for a tag beyond the last, nothing changes |
| EffectProofs.FocusOutputEffect | src/status.rs:542-547 | focus moves to the first output with the name and nothing else changes; an unknown name changes nothing |
| EffectProofs.PointerMovedEffect | src/events.rs:483-509 | with focus-follows-mouse the first output whose rectangle holds the pointer is focused; otherwise, and elsewhere, nothing changes |
| EffectProofs.ToggleFullscreenEffect | src/bindings.rs:289-301 | the fullscreen flag of the focused output's focused window flips and nothing else changes |
| EffectProofs.ToggleFloatEffect | src/bindings.rs:302-342 | the focused window flips between tiled and floating; a visible one is floated exactly where its tile was, and its box is kept when it is tiled again |
| EffectProofs.ResizeStepEffect | src/bindings.rs:389-410 | in resize mode the fraction of the tag the focused output shows moves by one step, held between a tenth and nine tenths, and exactly that tag's windows leave fullscreen; otherwise nothing changes |
| EffectProofs.ResizeModeLeft | src/bindings.rs:373-388 | toggling resize mode twice changes nothing, and once it is left steps do nothing |
| CommandProofs.CycleFromNowhere | src/bindings.rs:236-260 | cycling with nothing shown changes nothing; from a focus that is not shown it goes to the second window, or the last one backwards |
| NormalizeProofs.BestTagIs | src/state.rs:466-490 | an output's best tag is its active one if owned, else its lowest occupied one, else its lowest one, and missing exactly when it owns none |
| NormalizeProofs.RefocusIs | src/state.rs:633-656 | refocusing keeps a focused window that the output shows, and otherwise takes the first shown one, or none if there is none |
| Invariant.VisibleIsShown | src/state.rs:382-387 | a window is visible exactly when some output shows it |
| Tiling.TilesAre | src/wm/layout.rs:54-147 | an output's tiles are the master-and-stack arrangement, by value, of its usable or else whole area less one gap on every side, at the fraction of the tag it shows |
| Tiling.TileOrder | src/wm/layout.rs:43-52 | the k-th tile of an output belongs to the k-th window, in state order, that it shows and that does not float |
| Tiling.SameLayout | src/wm/layout.rs:27-86 | focus, fullscreen, minimizing and render nodes do not move a tile |
| SurfaceProofs.FocusServed | src/wm/mod.rs:130-145 | serving a manage pass leaves keyboard focus on the window the active output focused, if still shown, else on its first shown one, and on none exactly when it shows none or there is no output, whatever had focus before |
| SurfaceProofs.ManageServed | src/wm/mod.rs:43-227 | serving a manage pass tells each window exactly what changed: fullscreen on the output it is managed against, or its end; capabilities, decoration mode and tiled state with the right values; its tile's size or its hinted box; and closing if it was queued |
| SurfaceProofs.HintedSideIs | src/wm/mod.rs:269-291 | a hinted side lies between the window's own limits, the maximum having the last word, and is moved only by them |
| SurfaceProofs.RenderServed | src/wm/layout.rs:197-240 | serving a render pass puts a fullscreen window at the origin, a floating one where its box is and a tiled one where its tile is, wherever it was before, and tells windows nothing else |
| SurfaceProofs.RenderKeepsFocus | src/wm/mod.rs:295-333 | a render pass leaves keyboard focus alone |
| Runs.ManageHidesAll | src/wm/mod.rs:31-38 | after a manage pass no window is on screen until the render pass shows it |
| Runs.CloseServed | src/events.rs:79-93 | closing destroys that window and its node on the server, and nothing else there changes; an unknown window sends nothing |
| ToldProofs.RecordsOverRuns | src/wm/mod.rs:53-227 | over any run, what the window manager has recorded as sent to each window, capabilities, decoration, fullscreen and tiled state, is what the window was last told |
| ToldProofs.RunsFromTheStart | src/wm/mod.rs:16-333 | over any run from the start, and with a compositor just connected to, client and server agree on the render nodes, no protocol error occurs, and the records are right |
| ToldProofs.ManageTellsAll | src/wm/mod.rs:53-227 | in any state with right records and an output, a manage pass leaves every window knowing its capabilities, its decoration mode, and exactly whether it is tiled and fullscreen |
| ToldProofs.PassesPlaceAll | src/wm/mod.rs:16-333 | after a manage and a render pass every window is in place: on screen exactly if visible and not minimized, a tiled one at its tile and asked for its size, a floating one at its box and asked for its size, a fullscreen one at the origin, whatever the compositor held before |
| App.App.ProposeTiles | src/wm/mod.rs:156-184 | the size of each non-empty tile is proposed to its window, or its bounds are cleared while it is fullscreen |
| App.App.ProposeFloats | src/wm/mod.rs:185-200 | each floating window with a size is proposed that size within its own limits |
| Delivery.StaysRegistered | src/status.rs:75-114 | over any interleaving every subscriber that has not gone is registered, and a publish under way has kept it or will come to it |
| Delivery.RegistryChanges | src/status.rs:75-114 | joining appends only the fresh id, leaving cuts out only the one that leaves, a publish keeps what it kept, and no other step changes the registry |
| Registry.JoinIsRegister | src/status.rs:75-86 | joining in the step machine does to the registry exactly what the object's register does |
| Registry.LeaveIsUnregister | src/status.rs:89-91 | leaving does exactly what the object's unregister does |
| Snapshot.ListsInOrder | src/status.rs:234-247 | an output lists exactly the windows on its tags, in state order, each with its own id, app id, title and tag |
| Snapshot.NamesAndFocus | src/status.rs:196-203 | exactly the focused output is flagged and named as focused; an output without a name is called output- and its place in decimal |
| Bits.BitValues | src/status.rs:204 | the mask of tag t is the t-th power of two |
| Supervisor.DelayDoubles | src/main.rs:144-149 | the delay is a quarter of a second after the first failure, doubles with each further one, and stays at four seconds from the fifth on |
| Lid.OpenExactly | src/lid.rs:154-195 | the open profile is applied exactly when the lid is open and either an external output newly appeared, or the lid is news over outputs that are not just the internal panel |
| Lid.RecoverExactly | src/lid.rs:154-213 | the panel is recovered exactly when a closed lid without external output is news, a lid newly seen open is over the panel alone, or an open lid over the panel alone meets a new topology or a due retry |
| Lid.OpenedLooksTwice | src/lid.rs:160-166 | an opened lid is looked at twice, and each look recovers or opens by the outputs it finds |
| Lid.FastRetries | src/lid.rs:169-188 | an undocking is followed by a recovery two seconds later and one five seconds after that, no sooner, and then by none unless the last one failed |
| Lid.NotDueWaits | src/lid.rs:169-174 | a quiet round that finds nothing due does nothing and keeps every pending retry |
| Lid.RoundRemembers | src/lid.rs:140-148 | a round remembers the topology it found and the latest the lid said; a lid that never spoke counts as open |
| Drag.PressEffect | src/bindings.rs:462-528 | a press over a floating window stages a move, or a resize by the bottom right corner, for the first seat over a window, anchored at its pointer and at the window's box; otherwise nothing changes |
| Drag.InteractiveEffect | src/bindings.rs:535-600 | a window that asks to be dragged floats where its tile was, if it was tiled and had one, and an operation is staged for the asking seat, anchored at its pointer and at the box the window then has |
| Drag.DeltaEffect | src/bindings.rs:603-613 | a delta changes the dragged window alone, and nothing without an operation or once its window is gone |
| Drag.BackAtAnchor | src/bindings.rs:603-656 | a pointer back at its anchor leaves the window in the box it was anchored with |
| Drag.ReleaseEnds | src/bindings.rs:659-725 | a release ends the operation in the next pass, staged or active, and tells its seat; a pass alone ends nothing |
| Drag.SeatReports | src/events.rs:451-487 | a seat's pointer position and the window it enters or leaves are stored on that seat alone; unknown windows are not entered |
| Drag.SeatGoneEffect | src/events.rs:392-411 | a seat that goes takes its own operations and their end request along; other seats, operations and all windows stay |

## Left out

- Machine integers: coordinates, sizes and ids are unbounded; the 32-bit wrap-around of coordinate sums and of the window id counter is not modelled.
- The `f64` master fraction is a `real` and its product with the width is floored exactly; IEEE rounding is not modelled.
- App.App.OutputAdded: requires an id no present output has, because the protocol never hands out the id of a live object twice; in `Events.Next` such an event changes nothing.
- Supervisor.Supervise: the endless loop is run over a finite sequence of worker exits, with a clock that never goes back, as the monotonic clock of the standard library promises.
- Lid.LidLoop.Poll: one round of the endless loop; the sleeps are represented by the topologies read after them.
- Snapshot.BuildSnapshot: a tag has no label field, because no code sets one, and a mask bit needs a tag below 32, as the shift in the code does.
- App.App.OnManageStart: pointer operations (see `Drag`), enabling of key bindings, the layer-shell default output and the pointer warp are not among its requests.
- App.App.OnRenderStart: borders and the refresh of the status snapshot (see `Delivery`) are not among its requests.
- App.App.PlaceAll: border requests, sent between raising and showing a window when they changed, are not modelled.
- App.App.PointerEntered: the seat's record of the window under its pointer is kept by Drag.PointerOps.PointerEnter.
- App.App.PointerMoved: the seat's record of its pointer position is kept by Drag.PointerOps.PointerPosition.
- Drag.PointerOps.StartInteractiveOp: the window's tile is an argument, which the caller looks up with `Tiling.GeometryOf`.
- Delivery.CatchesUp: assumes that the subscriber's writes succeed and is about its own steps, not about fair scheduling; a failed or timed-out write is a step to its end at any point.
- Registry.Subscribers.Publish: a snapshot is named by the stamp of when it was built instead of its JSON text.
- Drag.StartsMatchEnds: drags act on the list of windows alone and are not events of the run invariant; what other handlers do to the windows is an arbitrary change here.
- The `Parent` event, which floats a dialog over its floating parent with the arithmetic proved for floating apps.
- Cursor shapes, and everything else the two passes send that is named above.
- The handlers of `App` that only store one field are code without a row: their contract is one branch of `Events.Next` and the invariant.
- Keyboard focus is one request for one seat; several seats receive the same request each.
- ToldProofs.RecordsOverRuns: speaks of what each window was told; that the compositor leaves fullscreen by itself when an output goes while others remain, so that tags migrate and the flag is not reset, is not modelled.
- The size a window commits after a proposal, and its `Dimensions` event, which no operation reads.
- The dirty flag and the manage requests that only schedule the next pass.
- Wayland, D-Bus and socket plumbing, JSON, the configuration file, logging, process spawning, sysfs and the commands a profile switch runs: they appear as inputs or not at all.
- Mutex poisoning, the limit of sixteen status clients, and serialization failures in the status server.
- Key symbols, modifiers, colours and cursor tables: finite facts about one function each.
