/**
 Lid and dock handling: which output profile is applied when the lid or the
 connector topology changes, and how recoveries of the internal panel are
 retried. Times are in milliseconds.
 */
module Lid {
  import opened Prelude

  const RECOVERY_RETRY_INTERVAL: nat := 30_000
  const UNDOCKED_RETRY_DELAYS: seq<nat> := [2_000, 5_000]

  datatype Topology = Topology(internal: bool, external: bool)

  datatype Action = ApplyOpen | ApplyClose | RecoverUndocked

  /** One round of the polling loop: the latest lid event, the topology, the topologies read again
      after an opened lid settled, the clock at the two due checks and at a recovery, and
      whether a recovery works. */
  datatype Round = Round(
    event: Option<bool>, topology: Topology, settled: Topology, settledAgain: Topology,
    undockedCheck: nat, recoveryCheck: nat, now: nat, works: bool)

  /** A fast retry: which one, and when it is due. */
  datatype Retry = Retry(stage: nat, due: nat)

  datatype Monitor = Monitor(
    lidClosed: Option<bool>, topology: Option<Topology>, undocked: Option<Retry>, recovery: Option<nat>)

  function InitMonitor(): Monitor { Monitor(None, None, None, None) }

  function Closed(m: Monitor, r: Round): bool {
    if r.event.Some? then r.event.value else m.lidClosed == Some(true)
  }

  predicate Changed(m: Monitor, r: Round) { m.topology != Some(r.topology) }

  predicate Due(m: Monitor, r: Round) {
    || (m.undocked.Some? && r.undockedCheck >= m.undocked.value.due)
    || (m.recovery.Some? && r.recoveryCheck >= m.recovery.value)
  }

  predicate Undocked(t: Topology) { t.internal && !t.external }

  /** A recovery that the retry machine schedules, as opposed to one a lid event asks for. */
  predicate Schedules(m: Monitor, r: Round) {
    && m.topology.Some? && !Closed(m, r) && Undocked(r.topology)
    && (Changed(m, r) || Due(m, r))
  }

  function OpenAction(t: Topology): Action { if Undocked(t) then RecoverUndocked else ApplyOpen }

  function ClosedAction(t: Topology): Action { if t.external then ApplyClose else RecoverUndocked }

  /** What the lid itself asks for. */
  function LidActions(m: Monitor, r: Round): seq<Action> {
    if m.lidClosed == Some(Closed(m, r)) then []
    else if Closed(m, r) then [ClosedAction(r.topology)]
    else if m.lidClosed.None? then [OpenAction(r.topology)]
    else [OpenAction(r.settled), OpenAction(r.settledAgain)]
  }

  /** What the topology or a retry asks for. */
  function TopologyActions(m: Monitor, r: Round): seq<Action> {
    if m.topology.None? then []
    else if Schedules(m, r) then [RecoverUndocked]
    else if !Changed(m, r) then []
    else if Closed(m, r) then [ClosedAction(r.topology)]
    else if r.topology.external then [ApplyOpen]
    else []
  }

  function NextRetry(m: Monitor, r: Round): Option<Retry> {
    var stage := if Changed(m, r) then 0
                 else if m.undocked.Some? then m.undocked.value.stage + 1
                 else |UNDOCKED_RETRY_DELAYS|;
    if stage < |UNDOCKED_RETRY_DELAYS| then Some(Retry(stage, r.now + UNDOCKED_RETRY_DELAYS[stage])) else None
  }

  function NextMonitor(m: Monitor, r: Round): Monitor {
    var seen := Monitor(Some(Closed(m, r)), Some(r.topology), None, None);
    if Schedules(m, r) then
      seen.(undocked := NextRetry(m, r), recovery := if r.works then None else Some(r.now + RECOVERY_RETRY_INTERVAL))
    else if m.topology.Some? && !Closed(m, r) && Undocked(r.topology) then
      seen.(undocked := m.undocked, recovery := m.recovery)
    else seen
  }

  /** The polling loop's variables, and one pass through its body. */
  class LidLoop {
    var prevLidClosed: Option<bool>
    var prevTopology: Option<Topology>
    var undockedRetry: Option<Retry>
    var recoveryRetry: Option<nat>

    ghost function State(): Monitor
      reads this
    {
      Monitor(prevLidClosed, prevTopology, undockedRetry, recoveryRetry)
    }

    constructor ()
      ensures State() == InitMonitor()
    {
      prevLidClosed, prevTopology, undockedRetry, recoveryRetry := None, None, None, None;
    }

    method ReactToLid(closed: bool, r: Round) returns (actions: seq<Action>)
      requires closed == Closed(State(), r)
      ensures actions == LidActions(State(), r)
    {
      actions := [];
      if prevLidClosed.None? {
        actions := [if closed then ClosedAction(r.topology) else OpenAction(r.topology)];
      } else if closed != prevLidClosed.value {
        if closed {
          actions := [ClosedAction(r.topology)];
        } else {
          actions := [OpenAction(r.settled), OpenAction(r.settledAgain)];
        }
      }
    }

    method Poll(r: Round) returns (actions: seq<Action>)
      modifies this
      ensures State() == NextMonitor(old(State()), r)
      ensures actions == LidActions(old(State()), r) + TopologyActions(old(State()), r)
    {
      var closed := match r.event
        case Some(c) => c
        case None => (match prevLidClosed case Some(c) => c case None => false);
      var initial := prevTopology.None?;
      var changed := prevTopology != Some(r.topology);
      var lid := ReactToLid(closed, r);
      hide LidActions;
      actions := [];
      if !closed && !initial {
        var due := (undockedRetry.Some? && r.undockedCheck >= undockedRetry.value.due)
          || (recoveryRetry.Some? && r.recoveryCheck >= recoveryRetry.value);
        if Undocked(r.topology) && (changed || due) {
          actions := [RecoverUndocked];
          recoveryRetry := if r.works then None else Some(r.now + RECOVERY_RETRY_INTERVAL);
          if changed {
            undockedRetry := Some(Retry(0, r.now + UNDOCKED_RETRY_DELAYS[0]));
          } else if undockedRetry.Some? {
            var next := undockedRetry.value.stage + 1;
            undockedRetry := if next < |UNDOCKED_RETRY_DELAYS|
                then Some(Retry(next, r.now + UNDOCKED_RETRY_DELAYS[next])) else None;
          }
        } else if changed && r.topology.external {
          undockedRetry, recoveryRetry := None, None;
          actions := [ApplyOpen];
        } else if !r.topology.internal || r.topology.external {
          undockedRetry, recoveryRetry := None, None;
        }
      } else if !initial && changed {
        actions := [ClosedAction(r.topology)];
        undockedRetry, recoveryRetry := None, None;
      } else {
        undockedRetry, recoveryRetry := None, None;
      }
      prevLidClosed, prevTopology := Some(closed), Some(r.topology);
      actions := lid + actions;
    }
  }

  // ----- runs -----

  /** The state after the rounds `rs`. */
  function After(m: Monitor, rs: seq<Round>): Monitor {
    if rs == [] then m else NextMonitor(After(m, rs[..|rs| - 1]), rs[|rs| - 1])
  }

  function AllActions(m: Monitor, r: Round): seq<Action> {
    LidActions(m, r) + TopologyActions(m, r)
  }

  lemma EitherOf(q: seq<Action>, x: Action, y: Action)
    requires q == [x, y]
    ensures forall a: Action :: a in q <==> a == x || a == y
  {
    assert q[0] == x && q[1] == y;
  }

  /** The clamshell profile is applied exactly in the rounds that find the lid closed with an
      external output connected and something new: the lid, or the topology. */
  lemma CloseExactly(m: Monitor, r: Round)
    ensures ApplyClose in AllActions(m, r) <==>
      && Closed(m, r) && r.topology.external
      && (m.lidClosed != Some(true) || (m.topology.Some? && Changed(m, r)))
  {
    var lid, topology := LidActions(m, r), TopologyActions(m, r);
    assert ApplyClose in lid + topology <==> ApplyClose in lid || ApplyClose in topology;
  }

  /** The open profile is applied exactly in the rounds that find the lid open and either an external output newly
      connected, or a lid that is news over outputs that are not just the internal one: at start-up the present ones,
      and for an opened lid those found at either of the two looks after it settled. */
  lemma OpenExactly(m: Monitor, r: Round)
    ensures ApplyOpen in AllActions(m, r) <==>
      && !Closed(m, r)
      && (|| (m.lidClosed.None? && (!r.topology.internal || r.topology.external))
          || (m.lidClosed == Some(true) && (!r.settled.internal || r.settled.external
                                            || !r.settledAgain.internal || r.settledAgain.external))
          || (m.topology.Some? && m.topology != Some(r.topology) && r.topology.external))
  {
    var lid, topology := LidActions(m, r), TopologyActions(m, r);
    assert m.lidClosed.Some? ==> m.lidClosed == Some(if m.lidClosed.value then true else false);
    if m.lidClosed == Some(true) && !Closed(m, r) {
      EitherOf(lid, OpenAction(r.settled), OpenAction(r.settledAgain));
    }
    assert ApplyOpen in lid + topology <==> ApplyOpen in lid || ApplyOpen in topology;
  }

  /** The panel is recovered exactly when a closed lid has no external output and that is news, when a lid newly seen
      open is over the internal output alone, or when the retry machine says so. */
  lemma RecoverExactly(m: Monitor, r: Round)
    ensures RecoverUndocked in AllActions(m, r) <==>
      if Closed(m, r) then !r.topology.external && (m.lidClosed != Some(true) || (m.topology.Some? && Changed(m, r)))
      else
        || (m.lidClosed.None? && r.topology.internal && !r.topology.external)
        || (m.lidClosed == Some(true) && ((r.settled.internal && !r.settled.external)
                                          || (r.settledAgain.internal && !r.settledAgain.external)))
        || (m.topology.Some? && r.topology.internal && !r.topology.external && (Changed(m, r) || Due(m, r)))
  {
    var lid, topology := LidActions(m, r), TopologyActions(m, r);
    assert m.lidClosed.Some? ==> m.lidClosed == Some(if m.lidClosed.value then true else false);
    if m.lidClosed == Some(true) && !Closed(m, r) {
      EitherOf(lid, OpenAction(r.settled), OpenAction(r.settledAgain));
    }
    assert RecoverUndocked in lid + topology <==> RecoverUndocked in lid || RecoverUndocked in topology;
    hide Due;
  }

  /** A round remembers the topology it found and the latest the lid said; a lid that never spoke counts as open. */
  lemma RoundRemembers(m: Monitor, r: Round)
    ensures var m2 := NextMonitor(m, r);
      && m2.topology == Some(r.topology)
      && m2.lidClosed == if r.event.Some? then r.event else if m.lidClosed.Some? then m.lidClosed else Some(false)
  {
    assert m.lidClosed.Some? ==> m.lidClosed == Some(if m.lidClosed.value then true else false);
    hide Schedules, NextRetry;
  }

  /** An opened lid is looked at twice, and each look acts on the outputs it finds. */
  lemma OpenedLooksTwice(m: Monitor, r: Round)
    requires m.lidClosed == Some(true) && r.event == Some(false)
    ensures var actions := AllActions(m, r);
      && |actions| >= 2
      && actions[0] == (if r.settled.internal && !r.settled.external then RecoverUndocked else ApplyOpen)
      && actions[1] == if r.settledAgain.internal && !r.settledAgain.external then RecoverUndocked else ApplyOpen
  {
  }

  /** A closed lid without an external output always recovers the internal panel when that is news. */
  lemma NeverStranded(m: Monitor, r: Round)
    requires Closed(m, r) && !r.topology.external
    requires m.lidClosed != Some(true) || (m.topology.Some? && Changed(m, r))
    ensures RecoverUndocked in AllActions(m, r) && ApplyClose !in AllActions(m, r)
  {
    var lid, topology := LidActions(m, r), TopologyActions(m, r);
    assert RecoverUndocked in lid + topology <==> RecoverUndocked in lid || RecoverUndocked in topology;
    CloseExactly(m, r);
  }

  /** Nothing happens: the lid stays open, and the topology is the one already seen. */
  predicate Quiet(m: Monitor, r: Round) {
    m.lidClosed == Some(false) && !Closed(m, r) && !Changed(m, r) && Undocked(r.topology)
  }

  ghost predicate QuietRun(m: Monitor, rs: seq<Round>) {
    rs == [] || (QuietRun(m, rs[..|rs| - 1]) && Quiet(After(m, rs[..|rs| - 1]), rs[|rs| - 1]))
  }

  /** How many recoveries the retry machine schedules during `rs`. */
  function Scheduled(m: Monitor, rs: seq<Round>): nat {
    if rs == [] then 0
    else Scheduled(m, rs[..|rs| - 1]) + if Schedules(After(m, rs[..|rs| - 1]), rs[|rs| - 1]) then 1 else 0
  }

  /** How many of the recoveries the retry machine schedules during `rs` fail. */
  function Failures(m: Monitor, rs: seq<Round>): nat {
    if rs == [] then 0
    else
      var before, r := After(m, rs[..|rs| - 1]), rs[|rs| - 1];
      Failures(m, rs[..|rs| - 1]) + if Schedules(before, r) && !r.works then 1 else 0
  }

  /** How many scheduled recoveries are left if they all work. */
  function Budget(m: Monitor): nat {
    if m.undocked.Some? then |UNDOCKED_RETRY_DELAYS| - Min2(m.undocked.value.stage)
    else if m.recovery.Some? then 1 else 0
  }

  function Min2(stage: nat): nat { if stage < |UNDOCKED_RETRY_DELAYS| then stage else |UNDOCKED_RETRY_DELAYS| - 1 }

  /** Every scheduled recovery uses up some of the budget, except that each failure buys one more. */
  lemma {:induction false} BudgetBounds(m: Monitor, rs: seq<Round>)
    requires QuietRun(m, rs)
    ensures Scheduled(m, rs) + Budget(After(m, rs)) <= Budget(m) + Failures(m, rs)
  {
    if rs != [] {
      BudgetBounds(m, rs[..|rs| - 1]);
    }
  }

  /** After an undocking, as long as the lid stays open and the topology stays as it is, at most three
      recoveries are scheduled in all, and one more for each scheduled one that fails. */
  lemma AtMostThree(m: Monitor, r: Round, rs: seq<Round>)
    requires Changed(m, r) && Schedules(m, r)
    requires QuietRun(NextMonitor(m, r), rs)
    ensures 1 + Scheduled(NextMonitor(m, r), rs) <= 3 + Failures(NextMonitor(m, r), rs)
  {
    BudgetBounds(NextMonitor(m, r), rs);
  }

  /** With nothing pending and nothing changing, nothing is scheduled. */
  lemma {:induction false} NothingScheduled(m: Monitor, rs: seq<Round>)
    requires QuietRun(m, rs) && m.undocked.None? && m.recovery.None?
    ensures Scheduled(m, rs) == 0 && After(m, rs).undocked.None? && After(m, rs).recovery.None?
  {
    if rs != [] {
      NothingScheduled(m, rs[..|rs| - 1]);
    }
  }

  /** A recovery that only the lid asked for is never retried, whether or not it worked: not the one
      at start-up, nor the two after the lid opens on a topology already seen. */
  lemma LidRecoveryNotRetried(m: Monitor, r: Round, rs: seq<Round>)
    requires m == InitMonitor() || (m.lidClosed == Some(true) && m.undocked.None? && m.recovery.None? && !Changed(m, r))
    requires QuietRun(NextMonitor(m, r), rs)
    ensures NextMonitor(m, r) == NextMonitor(m, r.(works := !r.works))
    ensures Scheduled(NextMonitor(m, r), rs) == 0
  {
    NothingScheduled(NextMonitor(m, r), rs);
  }

  /** While the lid is closed no retry is pending, so the lid always opens with none. */
  lemma {:induction false} ClosedForgets(rs: seq<Round>)
    ensures var m := After(InitMonitor(), rs);
      m.lidClosed != Some(false) ==> m.undocked.None? && m.recovery.None?
  {
  }

  /** The last scheduled recovery of a run, if there was one. */
  function LastScheduled(m: Monitor, rs: seq<Round>): Option<Round> {
    if rs == [] then None
    else if Schedules(After(m, rs[..|rs| - 1]), rs[|rs| - 1]) then Some(rs[|rs| - 1])
    else LastScheduled(m, rs[..|rs| - 1])
  }

  /** While lid and topology stay as they are, a retry is pending exactly when the last scheduled
      recovery failed, and then it is due thirty seconds after that failure. */
  lemma {:induction false} RetryPending(m: Monitor, rs: seq<Round>)
    requires QuietRun(m, rs)
    ensures var last := LastScheduled(m, rs);
      After(m, rs).recovery ==
        if last.None? then m.recovery
        else if last.value.works then None
        else Some(last.value.now + RECOVERY_RETRY_INTERVAL)
  {
    if rs != [] {
      RetryPending(m, rs[..|rs| - 1]);
    }
  }

  /** A pending retry is made in the first quiet round that finds it due, and no retry is
      made before one is due. */
  lemma RetryWhenDue(m: Monitor, r: Round)
    requires Quiet(m, r)
    ensures RecoverUndocked in AllActions(m, r) <==> Due(m, r)
  {
    assert LidActions(m, r) == [] && AllActions(m, r) == TopologyActions(m, r);
  }

  /** A quiet round that finds nothing due leaves every pending retry as it is. */
  lemma NotDueWaits(m: Monitor, r: Round)
    requires Quiet(m, r) && !Due(m, r)
    ensures NextMonitor(m, r) == m && AllActions(m, r) == []
  {
    hide Due;
  }

  /** An undocking is followed by two more recoveries while lid and topology stay as they are: the first two seconds
      later, the second five seconds after that one, and then by none unless the last one failed. */
  lemma FastRetries(m: Monitor, r: Round, a: Round, b: Round)
    requires Changed(m, r) && Schedules(m, r)
    ensures var m1 := NextMonitor(m, r);
      && (Quiet(m1, a) && a.undockedCheck >= r.now + 2_000 ==> RecoverUndocked in AllActions(m1, a))
      && (Quiet(m1, a) && a.undockedCheck < r.now + 2_000 && r.works ==> AllActions(m1, a) == [])
      && (Quiet(m1, a) && Due(m1, a) ==>
            var m2 := NextMonitor(m1, a);
            && (Quiet(m2, b) && b.undockedCheck >= a.now + 5_000 ==> RecoverUndocked in AllActions(m2, b))
            && (Quiet(m2, b) && b.undockedCheck < a.now + 5_000 && a.works ==> AllActions(m2, b) == [])
            && (Quiet(m2, b) && Due(m2, b) ==>
                  var m3 := NextMonitor(m2, b);
                  m3.undocked == None && m3.recovery == if b.works then None else Some(b.now + 30_000)))
  {
    var m1 := NextMonitor(m, r);
    assert m1.undocked == Some(Retry(0, r.now + 2_000));
    if Quiet(m1, a) {
      RetryWhenDue(m1, a);
      if Due(m1, a) {
        var m2 := NextMonitor(m1, a);
        assert m2.undocked == Some(Retry(1, a.now + 5_000));
        if Quiet(m2, b) { RetryWhenDue(m2, b); }
      }
    }
  }

  /** Any change of lid or away from an undocked topology forgets pending retries. */
  lemma ChangeForgets(m: Monitor, r: Round)
    requires Closed(m, r) || !Undocked(r.topology)
    ensures NextMonitor(m, r).undocked == None && NextMonitor(m, r).recovery == None
  {
  }
}
