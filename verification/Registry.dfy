/**
 The registry of subscribers as the object the window manager thread holds: a
 growing id counter and a vector of handles, each sharing a one-slot cell and a
 one-token channel with its subscriber thread. A snapshot is named by its stamp.
 */
module Registry {
  import opened Prelude
  import opened Delivery

  /** What the registry knows of one subscriber; `alive` is whether the receiving end still exists. */
  datatype Entry = Entry(id: nat, latest: Option<nat>, token: bool, alive: bool)

  /** A subscriber after a publish: the slot overwritten, and a token left if it is still there. */
  function Offered(e: Entry, v: nat): Entry { e.(latest := Some(v), token := e.token || e.alive) }

  /** A publish offers the snapshot to every subscriber and forgets those that are gone. */
  function PublishEntries(es: seq<Entry>, v: nat): seq<Entry> {
    if es == [] then []
    else
      var front, last := PublishEntries(es[..|es| - 1], v), es[|es| - 1];
      if last.alive then front + [Offered(last, v)] else front
  }

  function ForgetEntry(es: seq<Entry>, id: nat): seq<Entry> {
    Filter(es, (e: Entry) => e.id != id)
  }

  /** The first `k` subscribers published to are those at the indices `at`. */
  ghost predicate PublishesAt(es: seq<Entry>, k: nat, v: nat, at: seq<nat>)
    requires k <= |es|
  {
    var r := PublishEntries(es[..k], v);
    |r| == |at| && forall i :: 0 <= i < |at| ==> at[i] < k && r[i] == Offered(es[at[i]], v)
  }

  lemma PublishStart(es: seq<Entry>, v: nat)
    ensures PublishesAt(es, 0, v, [])
  {
  }

  lemma PublishStep(es: seq<Entry>, k: nat, v: nat, at: seq<nat>)
    requires k < |es| && PublishesAt(es, k, v, at)
    ensures PublishesAt(es, k + 1, v, if es[k].alive then at + [k] else at)
  {
    assert es[..k + 1][..k] == es[..k];
  }

  lemma PublishedAll(es: seq<Entry>, v: nat, at: seq<nat>, r: seq<Entry>)
    requires PublishesAt(es, |es|, v, at) && |r| == |at|
    requires forall i :: 0 <= i < |r| ==> at[i] < |es| && r[i] == Offered(es[at[i]], v)
    ensures r == PublishEntries(es, v)
  {
    assert es[..|es|] == es;
  }

  lemma FilterStep(es: seq<Entry>, k: nat, p: Entry -> bool)
    requires k < |es|
    ensures Filter(es[..k + 1], p) == Filter(es[..k], p) + if p(es[k]) then [es[k]] else []
  {
    assert es[..k + 1][..k] == es[..k];
  }

  /** Ids are given out in increasing order, below `nextId`. */
  ghost predicate Numbered(es: seq<Entry>, nextId: nat) {
    es == [] || (es[|es| - 1].id < nextId && Numbered(es[..|es| - 1], es[|es| - 1].id))
  }

  lemma NumberedSnoc(es: seq<Entry>, e: Entry, nextId: nat)
    requires Numbered(es, e.id) && e.id < nextId
    ensures Numbered(es + [e], nextId)
  {
    assert (es + [e])[..|es|] == es;
  }

  lemma NumberedUpTo(es: seq<Entry>, n: nat, m: nat)
    requires Numbered(es, n) && n <= m
    ensures Numbered(es, m)
  {
  }

  lemma {:induction false} NumberedBelow(es: seq<Entry>, k: nat, nextId: nat)
    requires Numbered(es, nextId) && k < |es|
    ensures es[k].id < nextId
  {
    if k < |es| - 1 {
      NumberedBelow(es[..|es| - 1], k, es[|es| - 1].id);
    }
  }

  /** So no id is given out twice. */
  lemma {:induction false} NumberedDistinct(es: seq<Entry>, nextId: nat)
    requires Numbered(es, nextId)
    ensures forall i, j :: 0 <= i < j < |es| ==> es[i].id < es[j].id
  {
    if es != [] {
      var front, last := es[..|es| - 1], es[|es| - 1];
      NumberedDistinct(front, last.id);
      forall i | 0 <= i < |front| ensures es[i].id < last.id { NumberedBelow(front, i, last.id); }
    }
  }

  lemma {:induction false} PublishNumbered(es: seq<Entry>, v: nat, nextId: nat)
    requires Numbered(es, nextId)
    ensures Numbered(PublishEntries(es, v), nextId)
  {
    if es != [] {
      var front, last := es[..|es| - 1], es[|es| - 1];
      PublishNumbered(front, v, last.id);
      if last.alive {
        NumberedSnoc(PublishEntries(front, v), Offered(last, v), nextId);
      } else {
        NumberedUpTo(PublishEntries(front, v), last.id, nextId);
      }
    }
  }

  lemma {:induction false} ForgetNumbered(es: seq<Entry>, p: Entry -> bool, nextId: nat)
    requires Numbered(es, nextId)
    ensures Numbered(Filter(es, p), nextId)
  {
    if es != [] {
      var front, last := es[..|es| - 1], es[|es| - 1];
      ForgetNumbered(front, p, last.id);
      if p(last) {
        NumberedSnoc(Filter(front, p), last, nextId);
      } else {
        NumberedUpTo(Filter(front, p), last.id, nextId);
      }
    }
  }

  class Subscriber {
    const id: nat
    var latest: Option<nat>
    var token: bool
    var alive: bool

    constructor (id: nat)
      ensures this.id == id && latest == None && !token && alive
    {
      this.id, latest, token, alive := id, None, false, true;
    }

    ghost function View(): Entry
      reads this
    {
      Entry(id, latest, token, alive)
    }

    /** A non-blocking send on a channel of capacity one: it fails only if nobody listens. */
    method TrySend() returns (connected: bool)
      modifies this`token
      ensures connected == alive && token == (old(token) || alive)
    {
      if alive { token := true; }
      connected := alive;
    }

    /** Overwrite the slot, then prod the subscriber. */
    method Offer(v: nat) returns (connected: bool)
      modifies this
      ensures connected == old(View()).alive
      ensures View() == Offered(old(View()), v)
    {
      latest := Some(v);
      connected := TrySend();
    }
  }

  ghost function Views(cs: seq<Subscriber>): (r: seq<Entry>)
    reads cs
    ensures |r| == |cs| && forall k :: 0 <= k < |cs| ==> r[k] == cs[k].View()
  {
    seq(|cs|, k requires 0 <= k < |cs| reads cs => cs[k].View())
  }

  class Subscribers {
    var nextId: nat
    var clients: seq<Subscriber>

    ghost predicate Valid()
      reads this, clients
    {
      Numbered(Contents(), nextId)
    }

    ghost function Contents(): seq<Entry>
      reads this, clients
    {
      Views(clients)
    }

    constructor ()
      ensures Valid() && Contents() == [] && nextId == 0
    {
      nextId, clients := 0, [];
    }

    method Register() returns (c: Subscriber)
      requires Valid()
      modifies this
      ensures Valid() && fresh(c) && nextId == old(nextId) + 1
      ensures clients == old(clients) + [c]
      ensures Contents() == old(Contents()) + [Entry(old(nextId), None, false, true)]
    {
      c := new Subscriber(nextId);
      nextId := nextId + 1;
      ghost var before := Contents();
      NumberedSnoc(before, c.View(), nextId);
      clients := clients + [c];
      assert Contents() == before + [c.View()];
    }

    method Unregister(id: nat)
      requires Valid()
      modifies this`clients
      ensures Valid() && Contents() == ForgetEntry(old(Contents()), id)
    {
      hide Filter, Numbered, Views;
      ghost var before, others := Contents(), (e: Entry) => e.id != id;
      var kept, k := [], 0;
      while k < |clients|
        invariant k <= |clients| && Contents() == before
        invariant Views(kept) == Filter(before[..k], others)
      {
        if clients[k].id != id { kept := kept + [clients[k]]; }
        FilterStep(before, k, others);
        k := k + 1;
      }
      assert before[..k] == before;
      ForgetNumbered(before, others, nextId);
      FilterCongruent(before, others, (e: Entry) => e.id != id);
      clients := kept;
    }

    method Publish(v: nat)
      requires Valid()
      modifies this`clients, clients
      ensures Valid() && nextId == old(nextId)
      ensures Contents() == PublishEntries(old(Contents()), v)
    {
      NumberedDistinct(Contents(), nextId);
      PublishNumbered(Contents(), v, nextId);
      assert forall i, j :: 0 <= i < j < |clients| ==> clients[i] != clients[j] by {
        assert forall i :: 0 <= i < |clients| ==> clients[i].id == Contents()[i].id;
      }
      hide Numbered, PublishEntries;
      ghost var all := set c | c in clients;
      clients := OfferAll(clients, v, all);
    }
  }

  /** Offer a snapshot to every subscriber and retain those that are still there;
      `all` is the set of the objects in `cs`. */
  method OfferAll(cs: seq<Subscriber>, v: nat, ghost all: set<Subscriber>) returns (kept: seq<Subscriber>)
    requires forall i, j :: 0 <= i < j < |cs| ==> cs[i] != cs[j]
    requires forall i :: 0 <= i < |cs| ==> cs[i] in all
    modifies all
    ensures Views(kept) == PublishEntries(old(Views(cs)), v)
  {
    ghost var before := Views(cs);
    hide *;
    PublishStart(before, v);
    kept := [];
    ghost var at: seq<nat> := [];
    var k := 0;
    while k < |cs|
      invariant k <= |cs| && |at| == |kept|
      invariant forall i :: 0 <= i < |cs| ==> cs[i].View() == if i < k then Offered(before[i], v) else before[i]
      invariant forall i :: 0 <= i < |kept| ==> at[i] < k && kept[i] == cs[at[i]]
      invariant PublishesAt(before, k, v, at)
    {
      PublishStep(before, k, v, at);
      var connected := cs[k].Offer(v);
      if connected { kept, at := kept + [cs[k]], at + [k]; }
      k := k + 1;
    }
    PublishedAll(before, v, at, Views(kept));
  }

  // ----- the object against the step machine -----

  /** The registry entry of a client of the step machine. */
  function EntryOf(s: Sys, c: nat): Entry {
    if c in s.clients then Entry(c, s.clients[c].slot, s.clients[c].token, !s.clients[c].pc.Gone?)
    else Entry(c, None, false, false)
  }

  function Registered(s: Sys, cs: seq<nat>): seq<Entry> {
    Map(cs, c => EntryOf(s, c))
  }

  /** Store and signal for the head of the list, with no step of a subscriber in between. */
  function StoreAndSignal(s: Sys): Sys
    requires Enabled(s, Store)
  {
    Apply(Apply(s, Store), Signal)
  }

  lemma SignalFollows(s: Sys)
    requires Inv(s) && s.wm.Storing? && s.wm.todo != []
    ensures Enabled(s, Store) && Enabled(Apply(s, Store), Signal)
    ensures s.wm.todo[0] !in s.wm.kept && s.wm.todo[0] !in s.wm.todo[1..]
  {
    HeadOnce(s.wm.kept, s.wm.todo);
    hide AllOk, AllFresh, Distinct;
  }

  lemma BothKeep(s: Sys)
    requires Inv(s) && s.wm.Storing? && s.wm.todo != []
    ensures Enabled(s, Store) && Enabled(Apply(s, Store), Signal) && Inv(StoreAndSignal(s))
  {
    hide Inv, Enabled, Apply;
    SignalFollows(s);
    StepKeeps(s, Store);
    StepKeeps(Apply(s, Store), Signal);
  }

  lemma OneUninterrupted(s: Sys, c: nat)
    requires Inv(s) && s.wm.Storing? && s.wm.todo != [] && c == s.wm.todo[0]
    ensures Enabled(s, Store) && Enabled(Apply(s, Store), Signal) && Inv(StoreAndSignal(s))
    ensures c !in s.wm.kept && c !in s.wm.todo[1..]
    ensures var r := StoreAndSignal(s);
      && r.wm == Storing(s.wm.stamp, s.wm.todo[1..], if EntryOf(s, c).alive then s.wm.kept + [c] else s.wm.kept)
      && r.registry == s.registry
  {
    SignalFollows(s);
    BothKeep(s);
    hide Inv;
  }

  lemma OneOffered(s: Sys, c: nat)
    requires Inv(s) && s.wm.Storing? && s.wm.todo != [] && c == s.wm.todo[0]
    ensures c in s.clients && EntryOf(StoreAndSignal(s), c) == Offered(EntryOf(s, c), s.wm.stamp)
    ensures forall d :: d != c ==> EntryOf(StoreAndSignal(s), d) == EntryOf(s, d)
  {
    hide ClientOk, Distinct, Fresh;
  }

  /** The publish has come past the first `j` of the clients `cs`, whose entries were `es`. */
  ghost predicate Halfway(r: Sys, cs: seq<nat>, es: seq<Entry>, j: nat, v: nat) {
    && j <= |cs| == |es|
    && Inv(r) && r.wm.Storing? && r.wm.stamp == v && r.wm.todo == cs[j..] && r.registry == cs
    && Registered(r, r.wm.kept) == PublishEntries(es[..j], v)
    && forall i :: j <= i < |cs| ==> EntryOf(r, cs[i]) == es[i]
  }

  lemma PublishOneMore(es: seq<Entry>, j: nat, v: nat)
    requires j < |es|
    ensures var front := PublishEntries(es[..j], v);
      PublishEntries(es[..j + 1], v) == if es[j].alive then front + [Offered(es[j], v)] else front
  {
    assert es[..j + 1][..j] == es[..j];
  }

  lemma HalfwayStep(s: Sys, cs: seq<nat>, es: seq<Entry>, j: nat, v: nat)
    requires Halfway(s, cs, es, j, v) && j < |cs|
    ensures Enabled(s, Store) && Enabled(Apply(s, Store), Signal) && Halfway(StoreAndSignal(s), cs, es, j + 1, v)
  {
    hide Inv, Enabled, Apply, EntryOf, StoreAndSignal, PublishEntries, Offered;
    var c := cs[j];
    OneUninterrupted(s, c);
    OneOffered(s, c);
    var r := StoreAndSignal(s);
    PublishOneMore(es, j, v);
    forall i | 0 <= i < |s.wm.kept|
        ensures EntryOf(r, s.wm.kept[i]) == EntryOf(s, s.wm.kept[i]) { assert s.wm.kept[i] in s.wm.kept; }
    forall i | j + 1 <= i < |cs|
        ensures EntryOf(r, cs[i]) == es[i] { assert s.wm.todo[1..][i - j - 1] == cs[i] && cs[i] in s.wm.todo[1..]; }
  }

  /** All the steps are the publisher's. */
  predicate ByPublisher(ts: seq<Step>) {
    forall k :: 0 <= k < |ts| ==> ts[k].Begin? || ts[k].Store? || ts[k].Signal? || ts[k].End?
  }

  lemma ByPublisherMore(ts: seq<Step>, t: Step)
    requires ByPublisher(ts) && (t.Begin? || t.Store? || t.Signal? || t.End?)
    ensures ByPublisher(ts + [t])
  {
  }

  /** Run with no subscriber step in between, the steps of one publish do to the registry
      exactly what `Subscribers.Publish` does. */
  lemma PublishIsUninterrupted(s: Sys) returns (ts: seq<Step>, r: Sys)
    requires Inv(s) && s.wm.Built?
    ensures Reaches(s, ts, r) && r.wm.Idle? && r.lastPublished == Some(s.wm.stamp)
    ensures ByPublisher(ts)
    ensures Registered(r, r.registry) == PublishEntries(Registered(s, s.registry), s.wm.stamp)
  {
    var cs, es, v := s.registry, Registered(s, s.registry), s.wm.stamp;
    StepKeeps(s, Begin);
    ts, r := [Begin], Apply(s, Begin);
    var j := 0;
    assert Reaches(s, ts, r) && Halfway(r, cs, es, j, v) by { PublishBegins(s); }
    assert ByPublisher(ts);
    hide ByPublisher, Inv, Enabled, Apply, Reaches, Registered, PublishEntries, EntryOf;
    while j < |cs|
      invariant Halfway(r, cs, es, j, v) && Reaches(s, ts, r)
      invariant ByPublisher(ts)
    {
      HalfwayStep(r, cs, es, j, v);
      ByPublisherMore(ts, Store);
      ByPublisherMore(ts + [Store], Signal);
      Advance(s, ts, r, Store);
      Advance(s, ts + [Store], Apply(r, Store), Signal);
      ts, r, j := ts + [Store] + [Signal], StoreAndSignal(r), j + 1;
    }
    assert es[..j] == es;
    PublishEnds(r);
    ByPublisherMore(ts, End);
    Advance(s, ts, r, End);
    ts, r := ts + [End], Apply(r, End);
  }

  /** A subscriber that joins the step machine is registered as `Subscribers.Register` does it: last, under the next id,
      with an empty slot and no token. */
  lemma JoinIsRegister(s: Sys)
    requires Inv(s) && Enabled(s, Join)
    ensures var r := Apply(s, Join);
      && r.nextId == s.nextId + 1
      && Registered(r, r.registry) == Registered(s, s.registry) + [Entry(s.nextId, None, false, true)]
  {
    var r := Apply(s, Join);
    hide AllOk, AllFresh, Distinct;
    forall i | 0 <= i < |s.registry| ensures EntryOf(r, r.registry[i]) == EntryOf(s, s.registry[i]) {
      assert s.registry[i] in s.registry;
    }
  }

  /** One that leaves is forgotten as `Subscribers.Unregister` does it. */
  lemma LeaveIsUnregister(s: Sys, c: nat)
    requires Inv(s) && Enabled(s, Unregister(c))
    ensures var r := Apply(s, Unregister(c));
      Registered(r, r.registry) == ForgetEntry(Registered(s, s.registry), c)
  {
    var r := Apply(s, Unregister(c));
    var f, p, q := d => EntryOf(s, d), (e: Entry) => e.id != c, (d: nat) => d != c;
    FilterOfMap(s.registry, f, p, q);
    WithoutIs(s.registry, c, q);
    FilterCongruent(Map(s.registry, f), p, (e: Entry) => e.id != c);
    hide Inv, Filter, Without;
    forall i | 0 <= i < |r.registry| ensures EntryOf(r, r.registry[i]) == EntryOf(s, r.registry[i]) {
      assert r.registry[i] != c;
    }
    assert Registered(r, r.registry) == Map(Filter(s.registry, q), f);
    assert Registered(s, s.registry) == Map(s.registry, f);
  }

  lemma PublishBegins(s: Sys)
    requires Inv(s) && s.wm.Built?
    ensures Enabled(s, Begin) && Reaches(s, [Begin], Apply(s, Begin))
    ensures Halfway(Apply(s, Begin), s.registry, Registered(s, s.registry), 0, s.wm.stamp)
  {
    StepKeeps(s, Begin);
    hide Inv;
    assert Reaches(Apply(s, Begin), [Begin][1..], Apply(s, Begin));
  }

  lemma PublishEnds(s: Sys)
    requires s.wm.Storing? && s.wm.todo == []
    ensures Enabled(s, End) && Apply(s, End).wm.Idle? && Apply(s, End).lastPublished == Some(s.wm.stamp)
    ensures Registered(Apply(s, End), Apply(s, End).registry) == Registered(s, s.wm.kept)
  {
  }
}
