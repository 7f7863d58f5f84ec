/** The supervisor: restart a failing worker with growing delays, and give up when it
    fails too often within a rolling window. Times are in milliseconds. */
module Supervisor {
  import opened Prelude

  const RESTART_WINDOW: nat := 60_000
  const MAX_RESTARTS_IN_WINDOW: nat := 5
  const INITIAL_RESTART_DELAY: nat := 250
  const MAX_RESTART_DELAY: nat := 4_000

  /** How one run of the worker ended, and when a failure was noticed. */
  datatype Exit = Success | Failure(at: nat)

  datatype Outcome = Succeeded | GaveUp | Running

  function Power(n: nat): nat { if n == 0 then 1 else 2 * Power(n - 1) }

  function RestartDelay(recent: nat): nat {
    var exponent := if recent < 1 then 0 else if recent - 1 > 4 then 4 else recent - 1;
    var delay := INITIAL_RESTART_DELAY * Power(exponent);
    if delay > MAX_RESTART_DELAY then MAX_RESTART_DELAY else delay
  }

  predicate Expired(t: nat, now: nat) { t + RESTART_WINDOW <= now }

  /** The failures of `h` less than a window old at `now`. */
  function Recent(h: seq<nat>, now: nat): seq<nat> {
    Filter(h, (t: nat) => !Expired(t, now))
  }

  ghost predicate Sorted(h: seq<nat>) {
    forall i, j :: 0 <= i < j < |h| ==> h[i] <= h[j]
  }

  function Last(h: seq<nat>): nat
    requires h != []
  {
    h[|h| - 1]
  }

  /** The latest failure is one too many. */
  predicate Crowded(h: seq<nat>)
    requires h != []
  {
    |Recent(h, Last(h))| > MAX_RESTARTS_IN_WINDOW
  }

  /** The clock never goes back from one failure to a later one. */
  ghost predicate Monotone(runs: seq<Exit>) {
    forall i, j :: 0 <= i < j < |runs| && runs[i].Failure? && runs[j].Failure? ==> runs[i].at <= runs[j].at
  }

  // ----- recent failures are a suffix of the history -----

  lemma {:induction false} DropFront(h: seq<nat>, k: nat, now: nat)
    requires k <= |h|
    requires forall i :: 0 <= i < k ==> Expired(h[i], now)
    requires forall i :: k <= i < |h| ==> !Expired(h[i], now)
    ensures Recent(h, now) == h[k..]
    decreases |h|
  {
    if h != [] {
      var front := h[..|h| - 1];
      if k == |h| {
        DropFront(front, k - 1, now);
      } else {
        DropFront(front, k, now);
        assert h[k..] == front[k..] + [Last(h)];
      }
    }
  }

  /** With a clock that never goes back, a failure expired once stays expired, so forgetting it
      early makes no difference later. */
  lemma RecentOfRecent(h: seq<nat>, before: nat, now: nat)
    requires before <= now
    ensures Recent(Recent(h, before), now) == Recent(h, now)
  {
    FilterTwice(h, (t: nat) => !Expired(t, before), (t: nat) => !Expired(t, now), (t: nat) => !Expired(t, now));
  }

  lemma LastIsLatest(h: seq<nat>, t: nat)
    requires Sorted(h) && t in h
    ensures t <= Last(h)
  {
    var i :| 0 <= i < |h| && h[i] == t;
  }

  lemma {:induction false} RecentSorted(h: seq<nat>, now: nat)
    requires Sorted(h)
    ensures Sorted(Recent(h, now))
  {
    if h != [] {
      var r := Recent(h[..|h| - 1], now);
      RecentSorted(h[..|h| - 1], now);
      forall i | 0 <= i < |r| ensures r[i] <= Last(h) { LastIsLatest(h, r[i]); }
    }
  }

  /** Drop expired failures from the front only. */
  method PopExpired(failures: seq<nat>, now: nat) returns (r: seq<nat>)
    requires Sorted(failures)
    ensures r == Recent(failures, now)
  {
    r := failures;
    ghost var k := 0;
    while r != [] && Expired(r[0], now)
      invariant k <= |failures| && r == failures[k..]
      invariant forall i :: 0 <= i < k ==> Expired(failures[i], now)
    {
      r, k := r[1..], k + 1;
    }
    DropFront(failures, k, now);
  }

  /** The supervisor is still running after `h`: no failure was one too many. */
  ghost predicate Alive(h: seq<nat>) {
    h == [] || (!Crowded(h) && Alive(h[..|h| - 1]))
  }

  /** The first runs ended in the failures `h`. */
  ghost predicate Failed(runs: seq<Exit>, h: seq<nat>) {
    |h| <= |runs| && forall k :: 0 <= k < |h| ==> runs[k] == Failure(h[k])
  }

  /** After each of the failures `h` the supervisor slept according to how many were recent. */
  ghost predicate SleptAfter(h: seq<nat>, slept: seq<nat>) {
    && |slept| == |h|
    && (h == [] || (&& Last(slept) == RestartDelay(|Recent(h, Last(h))|)
                    && SleptAfter(h[..|h| - 1], slept[..|slept| - 1])))
  }

  lemma OneMoreFailure(h: seq<nat>, now: nat, slept: seq<nat>)
    requires Alive(h) && SleptAfter(h, slept)
    ensures var r := h + [now];
      && r[..|h|] == h
      && (!Crowded(r) ==> Alive(r) && SleptAfter(r, slept + [RestartDelay(|Recent(r, now)|)]))
  {
    assert (h + [now])[..|h|] == h;
    var delay := RestartDelay(|Recent(h + [now], now)|);
    assert (slept + [delay])[..|slept|] == slept;
  }

  /** Forgetting the expired ones among the recent failures leaves the recent ones of the
      whole history. */
  lemma ForgettingIsExact(h: seq<nat>, now: nat)
    requires Sorted(h + [now])
    ensures var failures := if h == [] then [] else Recent(h, Last(h));
      Sorted(failures) && Recent(failures, now) + [now] == Recent(h + [now], now)
  {
    if h != [] {
      assert (h + [now])[|h| - 1] <= (h + [now])[|h|];
      forall i, j | 0 <= i < j < |h| ensures h[i] <= h[j] { assert (h + [now])[i] <= (h + [now])[j]; }
      RecentSorted(h, Last(h));
      RecentOfRecent(h, Last(h), now);
    }
    assert (h + [now])[..|h|] == h;
  }

  lemma NoneSlept()
    ensures SleptAfter([], [])
  {
  }

  lemma CrowdedCounts(h: seq<nat>, failures: seq<nat>)
    requires h != [] && failures == Recent(h, Last(h))
    ensures Crowded(h) <==> |failures| > MAX_RESTARTS_IN_WINDOW
  {
  }

  /** Run the worker again and again, as `runs` says it ends; `h` is the history of failures. */
  method Supervise(runs: seq<Exit>) returns (outcome: Outcome, h: seq<nat>, slept: seq<nat>)
    requires Monotone(runs)
    ensures Failed(runs, h)
    ensures outcome.Succeeded? ==> |h| < |runs| && runs[|h|] == Success
    ensures outcome.Running? ==> |h| == |runs|
    ensures outcome.GaveUp? ==> h != [] && Crowded(h) && Alive(h[..|h| - 1]) && SleptAfter(h[..|h| - 1], slept)
    ensures !outcome.GaveUp? ==> Alive(h) && SleptAfter(h, slept)
  {
    hide Crowded, Recent, RestartDelay, SleptAfter;
    NoneSlept();
    var failures: seq<nat> := [];
    h, slept := [], [];
    while |h| < |runs|
      invariant Failed(runs, h) && Alive(h) && SleptAfter(h, slept)
      invariant failures == if h == [] then [] else Recent(h, Last(h))
      decreases |runs| - |h|
    {
      if runs[|h|].Success? { return Succeeded, h, slept; }
      var now := runs[|h|].at;
      ForgettingIsExact(h, now);
      OneMoreFailure(h, now, slept);
      failures := PopExpired(failures, now);
      failures, h := failures + [now], h + [now];
      CrowdedCounts(h, failures);
      if |failures| > MAX_RESTARTS_IN_WINDOW { return GaveUp, h, slept; }
      slept := slept + [RestartDelay(|failures|)];
    }
    outcome := Running;
  }

  // ----- what this guarantees -----

  /** The history is crowded exactly when six failures in a row fall within one window. */
  lemma CrowdedExactly(h: seq<nat>)
    requires Sorted(h) && h != []
    ensures Crowded(h) <==> |h| > MAX_RESTARTS_IN_WINDOW && !Expired(h[|h| - 1 - MAX_RESTARTS_IN_WINDOW], Last(h))
  {
    var k := 0;
    while k < |h| && Expired(h[k], Last(h))
      invariant k <= |h| && forall i :: 0 <= i < k ==> Expired(h[i], Last(h))
    {
      k := k + 1;
    }
    DropFront(h, k, Last(h));
  }

  /** No six failures, whichever they are, fall within one window. */
  ghost predicate SpreadOut(h: seq<nat>) {
    forall i, j :: 0 <= i && i + MAX_RESTARTS_IN_WINDOW <= j < |h| ==> Expired(h[i], h[j])
  }

  lemma SpreadSnoc(h: seq<nat>, now: nat)
    requires Sorted(h + [now]) && SpreadOut(h)
    ensures var m := |h| - MAX_RESTARTS_IN_WINDOW;
      SpreadOut(h + [now]) <==> m < 0 || Expired(h[m], now)
  {
    var r, m := h + [now], |h| - MAX_RESTARTS_IN_WINDOW;
    if m >= 0 {
      assert r[m] == h[m] && r[|h|] == now;
      forall i | 0 <= i <= m ensures r[i] <= h[m] {}
    }
  }

  lemma SpreadPrefix(h: seq<nat>, now: nat)
    requires SpreadOut(h + [now])
    ensures SpreadOut(h)
  {
    forall i, j | 0 <= i && i + MAX_RESTARTS_IN_WINDOW <= j < |h| ensures Expired(h[i], h[j]) {
      assert Expired((h + [now])[i], (h + [now])[j]);
    }
  }

  lemma CrowdedSnoc(h: seq<nat>, now: nat)
    requires Sorted(h + [now]) && SpreadOut(h)
    ensures Crowded(h + [now]) <==> !SpreadOut(h + [now])
  {
    CrowdedExactly(h + [now]);
    SpreadSnoc(h, now);
    hide Crowded, Expired, SpreadOut, Sorted;
  }

  /** Still running, exactly when no six failures fall within one window. */
  lemma {:induction false} AliveExactly(h: seq<nat>)
    requires Sorted(h)
    ensures Alive(h) <==> SpreadOut(h)
  {
    if h != [] {
      var front, now := h[..|h| - 1], Last(h);
      assert h == front + [now];
      AliveExactly(front);
      assert Alive(h) <==> !Crowded(h) && Alive(front);
      hide *;
      if SpreadOut(front) { CrowdedSnoc(front, now); }
      if SpreadOut(h) { SpreadPrefix(front, now); }
    }
  }

  /** While it is running, at most five failures fall in any window, wherever it starts. */
  lemma AtMostFive(h: seq<nat>, from: nat)
    requires Sorted(h) && Alive(h)
    ensures |Filter(h, (t: nat) => from <= t < from + RESTART_WINDOW)| <= MAX_RESTARTS_IN_WINDOW
  {
    var inside := (t: nat) => from <= t < from + RESTART_WINDOW;
    var at := FilterKeepsOrder(h, inside);
    hide Filter, Alive;
    if |at| > MAX_RESTARTS_IN_WINDOW {
      Spread(at, 0, MAX_RESTARTS_IN_WINDOW);
      assert inside(h[at[0]]) && inside(h[at[MAX_RESTARTS_IN_WINDOW]]);
      AliveExactly(h);
    }
  }

  /** Increasing positions lie at least as far apart as their indices. */
  lemma {:induction false} Spread(at: seq<nat>, i: nat, j: nat)
    requires forall a, b :: 0 <= a < b < |at| ==> at[a] < at[b]
    requires i <= j < |at|
    ensures at[j] >= at[i] + (j - i)
    decreases j - i
  {
    if i < j {
      Spread(at, i, j - 1);
    }
  }

  /** It gives up at the sixth failure of a window, never later. */
  lemma GivesUpAtSixth(h: seq<nat>)
    requires Sorted(h) && h != [] && Crowded(h) && Alive(h[..|h| - 1])
    ensures |Recent(h, Last(h))| == MAX_RESTARTS_IN_WINDOW + 1
  {
    var front, now := h[..|h| - 1], Last(h);
    if front != [] {
      assert front[..|front|] == front;
      RecentOfRecent(front, Last(front), now);
      assert |Recent(Recent(front, Last(front)), now)| <= |Recent(front, Last(front))|;
    }
  }

  /** The first failure is followed by a quarter of a second; every further one doubles the delay, up to four seconds,
      where it stays. */
  lemma DelayDoubles(n: nat)
    ensures RestartDelay(0) == RestartDelay(1) == 250
    ensures 1 <= n < 5 ==> RestartDelay(n + 1) == 2 * RestartDelay(n)
    ensures n >= 5 ==> RestartDelay(n) == 4_000
  {
    assert Power(1) == 2 && Power(2) == 4 && Power(3) == 8 && Power(4) == 16;
  }

  /** Delays lie between the initial and the maximal one and never shrink as failures pile up. */
  lemma DelayBounds(m: nat, n: nat)
    requires m <= n
    ensures INITIAL_RESTART_DELAY <= RestartDelay(m) <= RestartDelay(n) <= MAX_RESTART_DELAY
    ensures n >= 5 ==> RestartDelay(n) == MAX_RESTART_DELAY
  {
    assert Power(1) == 2 && Power(2) == 4 && Power(3) == 8 && Power(4) == 16;
  }
}
