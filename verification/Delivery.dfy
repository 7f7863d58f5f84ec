/**
 The push protocol between the window manager thread and its subscribers, as an
 interleaved step machine. Publishing to one subscriber is two steps, a store
 into its one-slot cell and then a non-blocking signal on its one-token channel,
 and a subscriber's own steps may fall between them. The registry lock is held
 from `Begin` to `End`. Every snapshot carries the stamp of the clock tick at
 which it was built; stamps of published snapshots are in `published`.
 */
module Delivery {
  import opened Prelude

  datatype Pc =
    | Asking | Waiting
    | Clearing(first: nat) | Draining(first: nat) | WritingInitial(first: nat)
    | Blocked | Taking | Writing(value: nat)
    | Leaving | Gone

  /** One subscriber. `initial`, `lastStored`, `storedPost` and `signalledPost` only record
      history: the first snapshot, the last one stored, and whether that store came after the
      slot was cleared and its signal after the stale tokens were drained. */
  datatype Client = Client(
    pc: Pc, slot: Option<nat>, token: bool, asked: bool, reply: Option<nat>, written: seq<nat>,
    initial: Option<nat>, lastStored: Option<nat>, storedPost: bool, signalledPost: bool)

  datatype Publisher =
    | Idle
    | Built(stamp: nat)
    | Storing(stamp: nat, todo: seq<nat>, kept: seq<nat>)
    | Signalling(stamp: nat, todo: seq<nat>, kept: seq<nat>)

  datatype Sys = Sys(
    clock: nat, wm: Publisher, registry: seq<nat>, clients: map<nat, Client>, nextId: nat,
    published: set<nat>, lastPublished: Option<nat>)

  datatype Step =
    | Join | Ask(c: nat) | Receive(c: nat) | Timeout(c: nat) | Clear(c: nat) | Drain(c: nat)
    | WriteInitial(c: nat, ok: bool) | Wake(c: nat) | Take(c: nat) | Write(c: nat, ok: bool)
    | Unregister(c: nat) | Die(c: nat)
    | Build | Begin | Store | Signal | End | Answer(c: nat)

  function InitSys(): Sys { Sys(0, Idle, [], map[], 0, {}, None) }

  function NewClient(): Client { Client(Asking, None, false, false, None, [], None, None, false, false) }

  predicate LockFree(s: Sys) { s.wm.Idle? || s.wm.Built? }

  /** The slot has been cleared of what was published before the initial snapshot. */
  predicate PastClear(pc: Pc) { pc.Draining? || PastDrain(pc) }

  /** The stale wake tokens have been drained. */
  predicate PastDrain(pc: Pc) { pc.WritingInitial? || pc.Blocked? || pc.Taking? || pc.Writing? }

  function PcOf(s: Sys, c: nat): Pc {
    if c in s.clients then s.clients[c].pc else Gone
  }

  predicate Enabled(s: Sys, t: Step) {
    match t
    case Join => LockFree(s)
    case Ask(c) => PcOf(s, c).Asking?
    case Receive(c) => PcOf(s, c).Waiting? && s.clients[c].reply.Some?
    case Timeout(c) => PcOf(s, c).Waiting?
    case Clear(c) => PcOf(s, c).Clearing?
    case Drain(c) => PcOf(s, c).Draining?
    case WriteInitial(c, _) => PcOf(s, c).WritingInitial?
    case Wake(c) => PcOf(s, c).Blocked? && s.clients[c].token
    case Take(c) => PcOf(s, c).Taking?
    case Write(c, _) => PcOf(s, c).Writing?
    case Unregister(c) => PcOf(s, c).Leaving? && LockFree(s)
    case Die(c) => c in s.clients
    case Build => s.wm.Idle? && s.registry != []
    case Begin => s.wm.Built?
    case Store => s.wm.Storing? && s.wm.todo != [] && s.wm.todo[0] in s.clients
    case Signal => s.wm.Signalling? && s.wm.todo != [] && s.wm.todo[0] in s.clients
    case End => s.wm.Storing? && s.wm.todo == []
    case Answer(c) => s.wm.Idle? && c in s.clients && s.clients[c].asked
  }

  function Put(s: Sys, c: nat, k: Client): Sys { s.(clients := s.clients[c := k]) }

  /** One atomic step of a subscriber thread that touches only its own record. */
  function ClientMove(k: Client, t: Step): Client {
    match t
    case Ask(_) => k.(pc := Waiting, asked := true)
    case Receive(_) =>
      if k.reply.Some? then k.(pc := Clearing(k.reply.value), reply := None, initial := k.reply) else k
    case Timeout(_) => k.(pc := Leaving)
    case Clear(_) => if k.pc.Clearing? then k.(pc := Draining(k.pc.first), slot := None) else k
    case Drain(_) =>
      if k.token then k.(token := false)
      else if k.pc.Draining? then k.(pc := WritingInitial(k.pc.first)) else k
    case WriteInitial(_, ok) =>
      if ok && k.pc.WritingInitial? then k.(pc := Blocked, written := k.written + [k.pc.first]) else k.(pc := Leaving)
    case Wake(_) => k.(pc := Taking, token := false)
    case Take(_) => if k.slot.Some? then k.(pc := Writing(k.slot.value), slot := None) else k.(pc := Blocked)
    case Write(_, ok) =>
      if ok && k.pc.Writing? then k.(pc := Blocked, written := k.written + [k.pc.value]) else k.(pc := Leaving)
    case Die(_) => k.(pc := Gone)
    case _ => k
  }

  predicate OwnStep(t: Step) {
    || t.Ask? || t.Receive? || t.Timeout? || t.Clear? || t.Drain? || t.WriteInitial?
    || t.Wake? || t.Take? || t.Write? || t.Die?
  }

  function Apply(s: Sys, t: Step): Sys
    requires Enabled(s, t)
  {
    if OwnStep(t) then Put(s, t.c, ClientMove(s.clients[t.c], t))
    else match t
      case Join =>
        Put(s.(registry := s.registry + [s.nextId], nextId := s.nextId + 1), s.nextId, NewClient())
      case Unregister(c) => Put(s.(registry := Without(s.registry, c)), c, s.clients[c].(pc := Gone))
      case Build => s.(wm := Built(s.clock), clock := s.clock + 1, published := s.published + {s.clock})
      case Begin => s.(wm := Storing(s.wm.stamp, s.registry, []))
      case Store =>
        var c := s.wm.todo[0];
        var k := s.clients[c];
        Put(s.(wm := Signalling(s.wm.stamp, s.wm.todo, s.wm.kept)), c,
            k.(slot := Some(s.wm.stamp), lastStored := Some(s.wm.stamp),
               storedPost := PastClear(k.pc), signalledPost := false))
      case Signal =>
        var c := s.wm.todo[0];
        var k := s.clients[c];
        if k.pc.Gone? then s.(wm := Storing(s.wm.stamp, s.wm.todo[1..], s.wm.kept))
        else Put(s.(wm := Storing(s.wm.stamp, s.wm.todo[1..], s.wm.kept + [c])), c,
                 k.(token := true, signalledPost := PastDrain(k.pc)))
      case End => s.(wm := Idle, registry := s.wm.kept, lastPublished := Some(s.wm.stamp))
      case Answer(c) =>
        var k := s.clients[c];
        Put(s.(clock := s.clock + 1), c, k.(asked := false, reply := if k.pc.Waiting? then Some(s.clock) else None))
      case _ => s
  }

  // ----- the invariant -----

  /** A value the publisher has built and may still store for `c`. */
  function Pending(s: Sys, c: nat): Option<nat> {
    match s.wm
    case Idle => None
    case Built(k) => Some(k)
    case Storing(k, todo, _) => if c in todo then Some(k) else None
    case Signalling(k, todo, _) => if todo != [] && c in todo[1..] then Some(k) else None
  }

  /** The publisher has stored for `c` but not yet signalled it. */
  predicate Between(s: Sys, c: nat) {
    s.wm.Signalling? && s.wm.todo != [] && s.wm.todo[0] == c
  }

  predicate Increasing(w: seq<nat>) {
    forall i, j :: 0 <= i < j < |w| ==> w[i] < w[j]
  }

  function Last(w: seq<nat>): nat
    requires w != []
  {
    w[|w| - 1]
  }

  /** The newest value the client is already committed to. */
  function Floor(k: Client): Option<nat> {
    match k.pc
    case Waiting => k.reply
    case Clearing(i) => Some(i)
    case Draining(i) => Some(i)
    case WritingInitial(i) => Some(i)
    case Writing(v) => Some(v)
    case Blocked => if k.written != [] then Some(Last(k.written)) else None
    case Taking => if k.written != [] then Some(Last(k.written)) else None
    case _ => None
  }

  /** What was written is in order, starts with the initial snapshot, and continues with published ones. */
  predicate WrittenOk(k: Client, clock: nat, published: set<nat>) {
    && Increasing(k.written)
    && (forall i :: 0 <= i < |k.written| ==> k.written[i] < clock)
    && (forall i :: 1 <= i < |k.written| ==> k.written[i] in published)
    && (k.initial.Some? ==> k.initial.value < clock && k.initial.value !in published)
    && (k.written != [] ==> k.initial == Some(k.written[0]))
    && (k.pc.Writing? ==> k.written != [] && Last(k.written) < k.pc.value < clock && k.pc.value in published)
    && (k.pc.Blocked? || k.pc.Taking? ==> k.written != [])
    && (k.pc.Clearing? || k.pc.Draining? || k.pc.WritingInitial? ==> k.written == [] && k.initial == Some(k.pc.first))
    && (k.pc.Asking? || k.pc.Waiting? ==> k.written == [])
    && (k.pc.Asking? ==> k.reply.None?)
    && (k.reply.Some? ==> k.reply.value < clock && k.reply.value !in published)
  }

  /** Values still on their way are newer than everything committed to. */
  predicate OrderOk(k: Client, pending: Option<nat>, clock: nat, published: set<nat>) {
    && (k.lastStored.Some? ==> k.lastStored.value in published && k.lastStored.value < clock)
    && (k.slot.Some? ==> k.slot == k.lastStored)
    && (pending.Some? ==> pending.value in published && pending.value < clock)
    && (pending.Some? && k.lastStored.Some? ==> k.lastStored.value < pending.value)
    && (pending.Some? && Floor(k).Some? ==> Floor(k).value < pending.value)
    && (PastClear(k.pc) && k.slot.Some? && Floor(k).Some? ==> Floor(k).value < k.slot.value)
  }

  /** No wakeup is lost once the tokens are drained: a stored value is in the slot with a
      token, being signalled, being taken, being written, or the last line written. */
  predicate WakeOk(k: Client, between: bool) {
    && (k.pc.Asking? || k.pc.Waiting? || k.pc.Clearing? ==> !k.storedPost)
    && (k.pc.Asking? || k.pc.Waiting? || k.pc.Clearing? || k.pc.Draining? ==> !k.signalledPost)
    && (k.storedPost ==> k.lastStored.Some?)
    && (PastClear(k.pc) && k.slot.Some? ==> k.storedPost)
    && (PastClear(k.pc) && k.storedPost && k.slot.None? ==>
          k.pc == Writing(k.lastStored.value)
          || ((k.pc.Blocked? || k.pc.Taking?) && k.written != [] && Last(k.written) == k.lastStored.value))
    && (PastClear(k.pc) && !k.storedPost ==> |k.written| <= 1 && !k.pc.Writing?)
    && (PastDrain(k.pc) && k.slot.Some? && k.signalledPost ==> k.token || k.pc.Taking?)
    && (PastDrain(k.pc) && !k.signalledPost && !between ==>
          !k.token && (k.pc.WritingInitial? || k.pc.Blocked?) && |k.written| <= 1)
  }

  predicate ClientOk(k: Client, pending: Option<nat>, between: bool, clock: nat, published: set<nat>) {
    WrittenOk(k, clock, published) && OrderOk(k, pending, clock, published) && WakeOk(k, between)
  }

  /** What a registered client last got, given how far the current publish has come. */
  predicate Fresh(s: Sys, c: nat)
    requires c in s.clients
  {
    var got := s.clients[c].lastStored;
    match s.wm
    case Idle => got.Some? ==> got == s.lastPublished
    case Built(_) => got.Some? ==> got == s.lastPublished
    case Storing(k, todo, kept) =>
      (c in kept ==> got == Some(k)) && (c in todo ==> got.Some? ==> got == s.lastPublished)
    case Signalling(k, todo, kept) =>
      && (c in kept ==> got == Some(k))
      && (todo != [] && c == todo[0] ==> got == Some(k))
      && (todo != [] && c in todo[1..] ==> got.Some? ==> got == s.lastPublished)
  }

  /** Ids are in use, distinct, and the publisher walks a part of the registry. */
  ghost predicate Shape(s: Sys) {
    && (forall c :: c in s.clients ==> c < s.nextId)
    && (forall c :: c in s.registry ==> c in s.clients)
    && Distinct(s.registry)
    && (s.wm.Storing? || s.wm.Signalling? ==>
          Distinct(s.wm.kept + s.wm.todo) && forall c :: c in s.wm.kept + s.wm.todo ==> c in s.registry)
    && (s.wm.Signalling? ==> s.wm.todo != [])
    && (!s.wm.Idle? ==> s.wm.stamp in s.published && s.wm.stamp < s.clock)
    && (forall x :: x in s.published ==> x < s.clock)
  }

  predicate AllOk(s: Sys) {
    forall c :: c in s.clients ==> ClientOk(s.clients[c], Pending(s, c), Between(s, c), s.clock, s.published)
  }

  predicate AllFresh(s: Sys) {
    forall c :: c in s.registry ==> c in s.clients && Fresh(s, c)
  }

  ghost predicate Inv(s: Sys) {
    Shape(s) && AllOk(s) && AllFresh(s)
  }

  lemma InitOk()
    ensures Inv(InitSys())
  {
  }

  /** A client that does nothing stays fine while time passes, as long as nothing older
      than before can still be stored for it. */
  lemma Waits(k: Client, p: Option<nat>, p2: Option<nat>, between: bool, clock: nat, clock2: nat, published: set<nat>,
      published2: set<nat>)
    requires ClientOk(k, p, between, clock, published)
    requires clock <= clock2 && published <= published2 &&
        (forall x :: x in published2 && x !in published ==> x >= clock)
    requires p2 == p || p2.None? || (p2.value >= clock && p2.value < clock2 && p2.value in published2)
    ensures ClientOk(k, p2, between, clock2, published2)
  {
  }

  /** The same for every client but one. */
  lemma OthersWait(s: Sys, r: Sys, c: nat)
    requires AllOk(s) && s.clock <= r.clock && s.published <= r.published
    requires forall x :: x in r.published && x !in s.published ==> x >= s.clock
    requires r.clients.Keys <= s.clients.Keys + {c}
    requires forall d :: d in s.clients && d != c ==>
        d in r.clients && r.clients[d] == s.clients[d] && Between(r, d) == Between(s, d)
    requires forall d :: d in s.clients && d != c ==>
               var p, q := Pending(s, d), Pending(r, d);
               q == p || q.None? || (q.value >= s.clock && q.value < r.clock && q.value in r.published)
    requires c in r.clients ==> ClientOk(r.clients[c], Pending(r, c), Between(r, c), r.clock, r.published)
    ensures AllOk(r)
  {
    hide ClientOk, Pending, Between;
    forall d | d in r.clients ensures ClientOk(r.clients[d], Pending(r, d), Between(r, d), r.clock, r.published) {
      if d != c {
        assert d in r.clients.Keys && d in s.clients;
        Waits(s.clients[d], Pending(s, d), Pending(r, d), Between(s, d), s.clock, r.clock, s.published, r.published);
      }
    }
  }

  // ----- a client's own steps -----

  predicate ReadyFor(k: Client, t: Step) {
    && (t.Ask? ==> k.pc.Asking?) && (t.Receive? ==> k.pc.Waiting? && k.reply.Some?) && (t.Timeout? ==> k.pc.Waiting?)
    && (t.Clear? ==> k.pc.Clearing?) && (t.Drain? ==> k.pc.Draining?) && (t.WriteInitial? ==> k.pc.WritingInitial?)
    && (t.Wake? ==> k.pc.Blocked? && k.token) && (t.Take? ==> k.pc.Taking?) && (t.Write? ==> k.pc.Writing?)
  }

  lemma SetUpOk(k: Client, t: Step, pending: Option<nat>, between: bool, clock: nat, published: set<nat>)
    requires ClientOk(k, pending, between, clock, published) && ReadyFor(k, t)
    requires t.Ask? || t.Receive? || t.Timeout? || t.Clear? || t.Drain?
    ensures ClientOk(ClientMove(k, t), pending, between, clock, published)
  {
    hide Increasing, Last;
  }

  lemma StreamOk(k: Client, t: Step, pending: Option<nat>, between: bool, clock: nat, published: set<nat>)
    requires ClientOk(k, pending, between, clock, published) && ReadyFor(k, t)
    requires t.Wake? || t.Die?
    ensures ClientOk(ClientMove(k, t), pending, between, clock, published)
  {
    hide Increasing, Last;
  }

  lemma TakeOk(k: Client, pending: Option<nat>, between: bool, clock: nat, published: set<nat>)
    requires ClientOk(k, pending, between, clock, published) && k.pc.Taking?
    ensures k.slot.Some? ==> ClientOk(k.(pc := Writing(k.slot.value), slot := None), pending, between, clock, published)
    ensures k.slot.None? ==> ClientOk(k.(pc := Blocked), pending, between, clock, published)
  {
    hide Increasing, Last;
  }

  lemma IncreasingSnoc(w: seq<nat>, v: nat)
    requires Increasing(w) && (w != [] ==> Last(w) < v)
    ensures Increasing(w + [v]) && Last(w + [v]) == v
  {
  }

  /** A write that fails ends the stream. */
  lemma LeaveOk(k: Client, pending: Option<nat>, between: bool, clock: nat, published: set<nat>)
    requires ClientOk(k, pending, between, clock, published) && (k.pc.WritingInitial? || k.pc.Writing?)
    ensures ClientOk(k.(pc := Leaving), pending, between, clock, published)
  {
    hide Increasing, Last;
  }

  lemma WriteOk(k: Client, v: nat, pending: Option<nat>, between: bool, clock: nat, published: set<nat>)
    requires ClientOk(k, pending, between, clock, published)
    requires k.pc == WritingInitial(v) || k.pc == Writing(v)
    ensures ClientOk(k.(pc := Blocked, written := k.written + [v]), pending, between, clock, published)
  {
    var k2 := k.(pc := Blocked, written := k.written + [v]);
    IncreasingSnoc(k.written, v);
    hide Increasing, Last;
    assert k.pc.WritingInitial? ==> k.written == [];
    assert WrittenOk(k2, clock, published) by {
      hide OrderOk, WakeOk;
      if k.pc.WritingInitial? { assert k2.written == [v]; }
    }
    assert OrderOk(k2, pending, clock, published) && WakeOk(k2, between) by { hide WrittenOk; }
  }

  lemma WriteStepOk(k: Client, t: Step, pending: Option<nat>, between: bool, clock: nat, published: set<nat>)
    requires ClientOk(k, pending, between, clock, published) && ReadyFor(k, t)
    requires t.WriteInitial? || t.Write?
    ensures ClientOk(ClientMove(k, t), pending, between, clock, published)
  {
    hide ClientOk;
    if t.ok {
      WriteOk(k, if k.pc.Writing? then k.pc.value else k.pc.first, pending, between, clock, published);
    } else {
      LeaveOk(k, pending, between, clock, published);
    }
  }

  lemma StreamStepOk(k: Client, t: Step, pending: Option<nat>, between: bool, clock: nat, published: set<nat>)
    requires ClientOk(k, pending, between, clock, published) && ReadyFor(k, t)
    requires t.Wake? || t.Take? || t.Die?
    ensures ClientOk(ClientMove(k, t), pending, between, clock, published)
  {
    hide ClientOk;
    if t.Take? {
      TakeOk(k, pending, between, clock, published);
    } else {
      StreamOk(k, t, pending, between, clock, published);
    }
  }

  lemma OwnStepOk(k: Client, t: Step, pending: Option<nat>, between: bool, clock: nat, published: set<nat>)
    requires OwnStep(t) && ClientOk(k, pending, between, clock, published) && ReadyFor(k, t)
    ensures ClientOk(ClientMove(k, t), pending, between, clock, published)
  {
    hide ClientOk, ClientMove, ReadyFor;
    if t.WriteInitial? || t.Write? {
      WriteStepOk(k, t, pending, between, clock, published);
    } else if t.Wake? || t.Take? || t.Die? {
      StreamStepOk(k, t, pending, between, clock, published);
    } else {
      SetUpOk(k, t, pending, between, clock, published);
    }
  }

  /** Changing one client's record, but not what was last stored for it, leaves the rest alone. */
  lemma PutKeeps(s: Sys, c: nat, k: Client)
    requires Shape(s) && AllFresh(s) && AllOk(s) && c in s.clients && k.lastStored == s.clients[c].lastStored
    requires ClientOk(k, Pending(s, c), Between(s, c), s.clock, s.published)
    ensures Inv(Put(s, c, k))
  {
    hide ClientOk;
    var r := Put(s, c, k);
    OthersWait(s, r, c);
    assert r.clients.Keys == s.clients.Keys;
    forall d | d in r.registry ensures Fresh(r, d) { assert Fresh(s, d); }
  }

  lemma EnabledIsReady(s: Sys, t: Step)
    requires Enabled(s, t) && OwnStep(t)
    ensures t.c in s.clients && ReadyFor(s.clients[t.c], t)
    ensures ClientMove(s.clients[t.c], t).lastStored == s.clients[t.c].lastStored
    ensures Apply(s, t) == Put(s, t.c, ClientMove(s.clients[t.c], t))
  {
  }

  lemma OwnKeeps(s: Sys, t: Step)
    requires Inv(s) && Enabled(s, t) && OwnStep(t)
    ensures Inv(Apply(s, t))
  {
    EnabledIsReady(s, t);
    hide ClientOk, ClientMove, ReadyFor, Enabled, Apply, Put, Shape, AllFresh, Pending, Between;
    OwnStepOk(s.clients[t.c], t, Pending(s, t.c), Between(s, t.c), s.clock, s.published);
    PutKeeps(s, t.c, ClientMove(s.clients[t.c], t));
  }

  // ----- the other steps -----

  lemma JoinKeeps(s: Sys)
    requires Inv(s) && LockFree(s)
    ensures Inv(Apply(s, Join))
  {
    var r := Apply(s, Join);
    assert s.nextId !in s.registry;
    assert ClientOk(NewClient(), Pending(r, s.nextId), false, r.clock, r.published);
    hide ClientOk;
    OthersWait(s, r, s.nextId);
    forall c | c in r.registry ensures Fresh(r, c) {
      if c != s.nextId { assert Fresh(s, c); }
    }
  }

  lemma ForgetKeeps(s: Sys, c: nat)
    requires Inv(s) && LockFree(s)
    ensures Inv(s.(registry := Without(s.registry, c)))
  {
    hide ClientOk, Distinct;
    var others := (y: nat) => y != c;
    FilterDistinct(s.registry, others);
    WithoutIs(s.registry, c, others);
    var r := s.(registry := Filter(s.registry, others));
    forall d | d in r.registry ensures d in s.registry && Fresh(r, d) { assert Fresh(s, d); }
    OthersWait(s, r, s.nextId);
  }

  lemma UnregisterKeeps(s: Sys, c: nat)
    requires Inv(s) && Enabled(s, Unregister(c))
    ensures Inv(Apply(s, Unregister(c)))
  {
    ForgetKeeps(s, c);
    var mid := s.(registry := Without(s.registry, c));
    hide Without, Shape, Fresh, ClientOk;
    StreamOk(s.clients[c], Die(c), Pending(mid, c), Between(mid, c), s.clock, s.published);
    PutKeeps(mid, c, s.clients[c].(pc := Gone));
  }

  lemma BuildKeeps(s: Sys)
    requires Inv(s) && Enabled(s, Build)
    ensures Inv(Apply(s, Build))
  {
    hide ClientOk;
    var r := Apply(s, Build);
    OthersWait(s, r, s.nextId);
    forall c | c in r.registry ensures Fresh(r, c) { assert Fresh(s, c); }
  }

  lemma BeginKeeps(s: Sys)
    requires Inv(s) && Enabled(s, Begin)
    ensures Inv(Apply(s, Begin))
  {
    hide ClientOk;
    var r := Apply(s, Begin);
    assert [] + s.registry == s.registry;
    OthersWait(s, r, s.nextId);
    forall c | c in r.registry ensures Fresh(r, c) { assert Fresh(s, c); }
  }

  lemma EndKeeps(s: Sys)
    requires Inv(s) && Enabled(s, End)
    ensures Inv(Apply(s, End))
  {
    hide ClientOk;
    var r := Apply(s, End);
    assert s.wm.kept + s.wm.todo == s.wm.kept;
    OthersWait(s, r, s.nextId);
    forall c | c in r.registry ensures Fresh(r, c) { assert Fresh(s, c); }
  }

  lemma AnsweredOk(k: Client, clock: nat, published: set<nat>)
    requires ClientOk(k, None, false, clock, published) && forall x :: x in published ==> x < clock
    ensures ClientOk(k.(asked := false, reply := if k.pc.Waiting? then Some(clock) else None), None, false, clock + 1,
        published)
  {
  }

  /** Time passes when a snapshot is built. */
  lemma TickKeeps(s: Sys)
    requires Inv(s) && s.wm.Idle?
    ensures Inv(s.(clock := s.clock + 1))
  {
    hide ClientOk, Distinct;
    var r := s.(clock := s.clock + 1);
    OthersWait(s, r, s.nextId);
    forall d | d in r.registry ensures Fresh(r, d) { assert Fresh(s, d); }
  }

  lemma AnswerKeeps(s: Sys, c: nat)
    requires Inv(s) && Enabled(s, Answer(c))
    ensures Inv(Apply(s, Answer(c)))
  {
    var k := s.clients[c];
    var k2 := k.(asked := false, reply := if k.pc.Waiting? then Some(s.clock) else None);
    assert Apply(s, Answer(c)) == Put(s.(clock := s.clock + 1), c, k2) by { hide Inv, Enabled, ClientMove; }
    hide ClientOk, AllFresh, Apply, Put, ClientMove;
    AnsweredOk(k, s.clock, s.published);
    hide Shape;
    TickKeeps(s);
    PutKeeps(s.(clock := s.clock + 1), c, k2);
  }

  lemma StoredOk(k: Client, stamp: nat, clock: nat, published: set<nat>)
    requires ClientOk(k, Some(stamp), false, clock, published)
    ensures var stored := k.(slot := Some(stamp), lastStored := Some(stamp),
                             storedPost := PastClear(k.pc), signalledPost := false);
      ClientOk(stored, None, true, clock, published)
  {
  }

  /** The publisher has stored for the head of its list and turns to signalling it. */
  lemma StoreMoves(s: Sys, r: Sys)
    requires Shape(s) && AllFresh(s) && Enabled(s, Store)
    requires var c := s.wm.todo[0];
      && r.(clients := s.clients) == s.(wm := Signalling(s.wm.stamp, s.wm.todo, s.wm.kept))
      && r.clients.Keys == s.clients.Keys
      && r.clients[c].lastStored == Some(s.wm.stamp)
      && forall d :: d in s.clients && d != c ==> r.clients[d].lastStored == s.clients[d].lastStored
    ensures Shape(r) && AllFresh(r)
    ensures forall d :: d in s.clients && d != s.wm.todo[0] ==>
        Between(r, d) == Between(s, d) && Pending(r, d) == Pending(s, d)
    ensures Pending(s, s.wm.todo[0]) == Some(s.wm.stamp) && !Between(s, s.wm.todo[0])
    ensures Pending(r, s.wm.todo[0]) == None && Between(r, s.wm.todo[0])
  {
    HeadOnce(s.wm.kept, s.wm.todo);
    hide Distinct;
    forall d | d in r.registry ensures Fresh(r, d) { assert Fresh(s, d); }
  }

  lemma StoreKeeps(s: Sys)
    requires Inv(s) && Enabled(s, Store)
    ensures Inv(Apply(s, Store))
  {
    var r, c := Apply(s, Store), s.wm.todo[0];
    StoreMoves(s, r);
    StoredOk(s.clients[c], s.wm.stamp, s.clock, s.published);
    hide ClientOk, Shape, Fresh;
    OthersWait(s, r, c);
  }

  /** The head of the remaining work occurs nowhere else. */
  lemma HeadOnce(kept: seq<nat>, todo: seq<nat>)
    requires todo != [] && Distinct(kept + todo)
    ensures todo[0] !in todo[1..] && todo[0] !in kept
    ensures Distinct(kept + todo[1..]) && Distinct(kept + [todo[0]] + todo[1..])
    ensures forall x :: x in todo <==> x == todo[0] || x in todo[1..]
    ensures forall x :: x in kept && x in todo ==> false
  {
    assert (kept + todo)[|kept|] == todo[0];
    assert kept + [todo[0]] + todo[1..] == kept + todo;
    forall i | 0 <= i < |kept| ensures kept[i] != todo[0] && kept[i] !in todo {
      assert (kept + todo)[i] == kept[i];
      forall j | 0 <= j < |todo| ensures todo[j] != kept[i] { assert (kept + todo)[|kept| + j] == todo[j]; }
    }
    forall i | 0 <= i < |todo[1..]| ensures todo[1..][i] != todo[0] {
      assert (kept + todo)[|kept| + 1 + i] == todo[1..][i];
    }
    forall i, j | 0 <= i < j < |kept + todo[1..]| ensures (kept + todo[1..])[i] != (kept + todo[1..])[j] {
      var i2, j2 := if i < |kept| then i else i + 1, if j < |kept| then j else j + 1;
      assert (kept + todo)[i2] == (kept + todo[1..])[i] && (kept + todo)[j2] == (kept + todo[1..])[j];
    }
  }

  lemma SignalledOk(k: Client, clock: nat, published: set<nat>)
    requires ClientOk(k, None, true, clock, published) && k.lastStored.Some?
    ensures k.pc.Gone? ==> ClientOk(k, None, false, clock, published)
    ensures ClientOk(k.(token := true, signalledPost := PastDrain(k.pc)), None, false, clock, published)
  {
  }

  /** Moving on to the next subscriber, keeping or dropping the one just signalled. */
  lemma SignalMoves(s: Sys, r: Sys, keep: bool)
    requires Shape(s) && AllFresh(s) && Enabled(s, Signal)
    requires var c := s.wm.todo[0];
      && r.(clients := s.clients) ==
          s.(wm := Storing(s.wm.stamp, s.wm.todo[1..], if keep then s.wm.kept + [c] else s.wm.kept))
      && r.clients.Keys == s.clients.Keys
      && forall d :: d in s.clients ==> r.clients[d].lastStored == s.clients[d].lastStored
    ensures Shape(r) && AllFresh(r)
    ensures forall d :: d in s.clients && d != s.wm.todo[0] ==>
        Between(r, d) == Between(s, d) && Pending(r, d) == Pending(s, d)
    ensures Pending(r, s.wm.todo[0]) == Pending(s, s.wm.todo[0]) == None && !Between(r, s.wm.todo[0])
  {
    HeadOnce(s.wm.kept, s.wm.todo);
    hide Distinct;
    forall d | d in r.registry ensures Fresh(r, d) { assert Fresh(s, d); }
  }

  /** What the signalled client looks like afterwards. */
  function Signalled(k: Client): Client {
    if k.pc.Gone? then k else k.(token := true, signalledPost := PastDrain(k.pc))
  }

  lemma SignalApplied(s: Sys)
    requires Enabled(s, Signal)
    ensures var r, c := Apply(s, Signal), s.wm.todo[0];
      && r.(clients := s.clients)
         == s.(wm := Storing(s.wm.stamp, s.wm.todo[1..], if s.clients[c].pc.Gone? then s.wm.kept else s.wm.kept + [c]))
      && r.clients.Keys == s.clients.Keys
      && r.clients[c] == Signalled(s.clients[c])
      && forall d :: d in s.clients && d != c ==> r.clients[d] == s.clients[d]
  {
  }

  lemma SignalKeeps(s: Sys)
    requires Inv(s) && Enabled(s, Signal)
    ensures Inv(Apply(s, Signal))
  {
    var r, c := Apply(s, Signal), s.wm.todo[0];
    var k := s.clients[c];
    SignalApplied(s);
    assert c in s.registry && Fresh(s, c) && k.lastStored.Some? && Between(s, c);
    hide Apply, ClientOk, Fresh, Shape, Pending, Between, Distinct;
    SignalMoves(s, r, !k.pc.Gone?);
    SignalledOk(k, s.clock, s.published);
    OthersWait(s, r, c);
  }

  /** Every interleaving keeps the invariant. */
  lemma StepKeeps(s: Sys, t: Step)
    requires Inv(s) && Enabled(s, t)
    ensures Inv(Apply(s, t))
  {
    hide Inv, Apply;
    if OwnStep(t) {
      OwnKeeps(s, t);
    } else {
      match t
      case Join => JoinKeeps(s);
      case Unregister(c) => UnregisterKeeps(s, c);
      case Build => BuildKeeps(s);
      case Begin => BeginKeeps(s);
      case Store => StoreKeeps(s);
      case Signal => SignalKeeps(s);
      case End => EndKeeps(s);
      case Answer(c) => AnswerKeeps(s, c);
    }
  }

  // ----- runs -----

  /** `r` is reached from `s` by some interleaving of steps. */
  ghost predicate Reaches(s: Sys, ts: seq<Step>, r: Sys)
    decreases |ts|
  {
    if ts == [] then r == s
    else Enabled(s, ts[0]) && Reaches(Apply(s, ts[0]), ts[1..], r)
  }

  lemma {:induction false} ReachesOk(s: Sys, ts: seq<Step>, r: Sys)
    requires Inv(s) && Reaches(s, ts, r)
    ensures Inv(r)
    decreases |ts|
  {
    hide Inv, Enabled, Apply;
    if ts != [] {
      StepKeeps(s, ts[0]);
      ReachesOk(Apply(s, ts[0]), ts[1..], r);
    }
  }

  /** Under every interleaving, what one subscriber was sent is its initial snapshot followed by
      published snapshots in strictly increasing order, so nothing published before the
      initial snapshot was built is ever written after it. */
  lemma MonotoneDelivery(ts: seq<Step>, s: Sys, c: nat)
    requires Reaches(InitSys(), ts, s) && c in s.clients
    ensures var w := s.clients[c].written;
      && (forall i, j :: 0 <= i < j < |w| ==> w[i] < w[j])
      && (forall i :: 1 <= i < |w| ==> w[i] in s.published)
      && (w != [] ==> s.clients[c].initial == Some(w[0]) && w[0] !in s.published)
  {
    InitOk();
    ReachesOk(InitSys(), ts, s);
  }

  // ----- who is registered -----

  /** Every subscriber that has not gone is registered, and the publish under way has kept it or will come to it. */
  predicate LiveRegistered(s: Sys) {
    forall c :: c in s.clients && !s.clients[c].pc.Gone? ==>
      && c in s.registry
      && (s.wm.Storing? || s.wm.Signalling? ==> c in s.wm.kept || c in s.wm.todo)
  }

  lemma OwnLive(s: Sys, t: Step)
    requires LiveRegistered(s) && Enabled(s, t) && OwnStep(t)
    ensures LiveRegistered(Apply(s, t))
  {
    assert !ClientMove(s.clients[t.c], t).pc.Gone? ==> !s.clients[t.c].pc.Gone?;
    hide ClientMove;
  }

  lemma HeadOrRest(todo: seq<nat>, c: nat)
    requires todo != []
    ensures c in todo <==> c == todo[0] || c in todo[1..]
  {
  }

  lemma WalkLive(s: Sys, t: Step)
    requires LiveRegistered(s) && Enabled(s, t) && (t.Store? || t.Signal?)
    ensures LiveRegistered(Apply(s, t))
  {
    forall c { HeadOrRest(s.wm.todo, c); }
  }

  lemma OtherLive(s: Sys, t: Step)
    requires LiveRegistered(s) && Enabled(s, t) && !OwnStep(t) && !t.Store? && !t.Signal?
    ensures LiveRegistered(Apply(s, t))
  {
  }

  lemma StepLive(s: Sys, t: Step)
    requires LiveRegistered(s) && Enabled(s, t)
    ensures LiveRegistered(Apply(s, t))
  {
    hide Enabled, Apply, LiveRegistered;
    if OwnStep(t) {
      OwnLive(s, t);
    } else if t.Store? || t.Signal? {
      WalkLive(s, t);
    } else {
      OtherLive(s, t);
    }
  }

  /** No interleaving drops a subscriber that is still there: only its own end takes it out of the registry. */
  lemma {:induction false} StaysRegistered(s: Sys, ts: seq<Step>, r: Sys)
    requires LiveRegistered(s) && Reaches(s, ts, r)
    ensures LiveRegistered(r)
    decreases |ts|
  {
    hide Enabled, Apply, LiveRegistered;
    if ts != [] {
      StepLive(s, ts[0]);
      StaysRegistered(Apply(s, ts[0]), ts[1..], r);
    }
  }

  /** The registry grows only by a newcomer's fresh id, and a subscriber that leaves takes out only itself. */
  lemma RegistryChanges(s: Sys, t: Step)
    requires Inv(s) && Enabled(s, t)
    ensures var r := Apply(s, t);
      && (t.Join? ==> r.registry == s.registry + [s.nextId] && s.nextId !in s.registry && s.nextId !in s.clients)
      && (t.Unregister? ==>
            && t.c !in r.registry
            && (forall i :: 0 <= i < |s.registry| && s.registry[i] == t.c ==>
                  r.registry == s.registry[..i] + s.registry[i + 1..])
            && (t.c !in s.registry ==> r.registry == s.registry))
      && (t.End? ==> r.registry == s.wm.kept)
      && (!t.Join? && !t.Unregister? && !t.End? ==> r.registry == s.registry)
  {
    hide AllOk, AllFresh, ClientMove;
    if t.Unregister? {
      forall i | 0 <= i < |s.registry| && s.registry[i] == t.c
        ensures Without(s.registry, t.c) == s.registry[..i] + s.registry[i + 1..]
      {
        WithoutCuts(s.registry, i);
      }
      if t.c !in s.registry { FilterAll(s.registry, y => y != t.c); WithoutIs(s.registry, t.c, y => y != t.c); }
      hide Distinct;
    }
  }

  // ----- convergence -----

  /** Nothing is under way for `c`: it waits for a token, there is none, and no publish runs. */
  predicate Quiescent(s: Sys, c: nat) {
    s.wm.Idle? && c in s.clients && s.clients[c].pc.Blocked? && !s.clients[c].token
  }

  /** The last publish to reach `c` was stored after the slot was cleared and signalled
      after the stale tokens were drained. */
  predicate Subscribed(k: Client) {
    k.storedPost && k.signalledPost
  }

  /** A registered client for which nothing was stored joined after the last publish, so any snapshot
      it was given is newer. */
  predicate NewcomerOk(s: Sys, c: nat) {
    c in s.clients && s.clients[c].lastStored.None? && s.lastPublished.Some? ==>
      && (s.clients[c].reply.Some? ==> s.lastPublished.value < s.clients[c].reply.value)
      && (s.clients[c].initial.Some? ==> s.lastPublished.value < s.clients[c].initial.value)
  }

  predicate NewcomersOk(s: Sys) {
    && (s.lastPublished.Some? ==> s.lastPublished.value < s.clock)
    && forall c :: c in s.registry ==> NewcomerOk(s, c)
  }

  lemma OwnNewcomers(s: Sys, t: Step)
    requires NewcomersOk(s) && Enabled(s, t) && OwnStep(t)
    ensures NewcomersOk(Apply(s, t))
  {
    forall c | c in s.registry ensures NewcomerOk(Apply(s, t), c) {
      assert NewcomerOk(s, c);
    }
  }

  lemma EndNewcomers(s: Sys)
    requires Inv(s) && Enabled(s, End)
    ensures NewcomersOk(Apply(s, End))
  {
    hide AllOk, Distinct;
    forall c | c in Apply(s, End).registry ensures NewcomerOk(Apply(s, End), c) {
      assert c in s.wm.kept + s.wm.todo && Fresh(s, c);
    }
  }

  lemma OtherNewcomers(s: Sys, t: Step)
    requires NewcomersOk(s) && Enabled(s, t) && !OwnStep(t) && !t.End?
    requires s.nextId !in s.registry
    ensures NewcomersOk(Apply(s, t))
  {
    hide ClientMove;
    forall c | c in Apply(s, t).registry ensures NewcomerOk(Apply(s, t), c) {
      assert c in s.registry ==> NewcomerOk(s, c);
      assert t.Unregister? ==> c in s.registry;
    }
  }

  lemma StepNewcomers(s: Sys, t: Step)
    requires Inv(s) && NewcomersOk(s) && Enabled(s, t)
    ensures NewcomersOk(Apply(s, t))
  {
    assert s.nextId !in s.registry;
    hide Inv, NewcomersOk, Enabled, Apply;
    if OwnStep(t) {
      OwnNewcomers(s, t);
    } else if t.End? {
      EndNewcomers(s);
    } else {
      OtherNewcomers(s, t);
    }
  }

  lemma {:induction false} ReachesNewcomers(s: Sys, ts: seq<Step>, r: Sys)
    requires Inv(s) && NewcomersOk(s) && Reaches(s, ts, r)
    ensures NewcomersOk(r)
    decreases |ts|
  {
    hide Inv, Enabled, Apply, NewcomersOk;
    if ts != [] {
      StepKeeps(s, ts[0]);
      StepNewcomers(s, ts[0]);
      ReachesNewcomers(Apply(s, ts[0]), ts[1..], r);
    }
  }

  /** A reachable state has all three invariants. */
  lemma ReachedOk(ts: seq<Step>, s: Sys)
    requires Reaches(InitSys(), ts, s)
    ensures Inv(s) && NewcomersOk(s) && LiveRegistered(s)
  {
    InitOk();
    assert NewcomersOk(InitSys()) && LiveRegistered(InitSys());
    hide Reaches, Inv, NewcomersOk, LiveRegistered;
    ReachesOk(InitSys(), ts, s);
    StaysRegistered(InitSys(), ts, s);
    ReachesNewcomers(InitSys(), ts, s);
  }

  /** Whenever a subscriber is waiting with nothing under way, it has caught up with the newest publish
      exactly when that publish came after its set-up, or before its initial snapshot was built;
      and what was last stored for it, if anything, is that publish. */
  lemma ConvergesExactly(ts: seq<Step>, s: Sys, c: nat)
    requires Reaches(InitSys(), ts, s) && Quiescent(s, c)
    ensures CaughtUpExactly(s.clients[c], s.lastPublished)
  {
    hide Reaches;
    ReachedOk(ts, s);
    CaughtUp(s, c);
  }

  /** What a quiescent subscriber wrote last, compared with what was published last. */
  predicate CaughtUpExactly(k: Client, published: Option<nat>) {
    && k.written != []
    && (k.lastStored.Some? ==> k.lastStored == published)
    && (Subscribed(k) ==> published == Some(Last(k.written)))
    && (published.Some? ==>
          (Last(k.written) >= published.value <==> Subscribed(k) || published.value < k.written[0]))
  }

  /** How many steps a streaming subscriber can still take on its own. */
  function Rank(k: Client): nat {
    (if k.token then 3 else 0) + match k.pc case Taking => 2 case Writing(_) => 1 case _ => 0
  }

  /** The step a streaming subscriber takes next, its writes succeeding. */
  function NextOwn(k: Client, c: nat): Step {
    match k.pc
    case Taking => Take(c)
    case Writing(_) => Write(c, true)
    case _ => Wake(c)
  }

  /** All the steps are the subscriber's own, and none of them is its sudden end. */
  predicate ByItself(ts: seq<Step>, c: nat) {
    forall k :: 0 <= k < |ts| ==> OwnStep(ts[k]) && ts[k].c == c && !ts[k].Die?
  }

  predicate Streaming(k: Client) { k.pc.Blocked? || k.pc.Taking? || k.pc.Writing? }

  lemma {:induction false} DrainsItself(s: Sys, c: nat) returns (ts: seq<Step>, r: Sys)
    requires Inv(s) && s.wm.Idle? && c in s.registry && c in s.clients && Streaming(s.clients[c])
    ensures Reaches(s, ts, r) && |ts| <= Rank(s.clients[c]) && Inv(r) && Quiescent(r, c) && c in r.registry
    ensures ByItself(ts, c)
    ensures r.lastPublished == s.lastPublished
    ensures Subscribed(r.clients[c]) == Subscribed(s.clients[c]) && r.clients[c].lastStored == s.clients[c].lastStored
    decreases Rank(s.clients[c])
  {
    hide Inv;
    if Quiescent(s, c) {
      ts, r := [], s;
    } else {
      var t := NextOwn(s.clients[c], c);
      StepKeeps(s, t);
      ts, r := DrainsItself(Apply(s, t), c);
      ts := [t] + ts;
    }
  }

  /** No wakeup is lost: once no publish runs, a streaming subscriber left to itself is quiescent after
      at most five steps of its own, and has then caught up with the last publish exactly when that
      came after its set-up or before its initial snapshot was built. */
  lemma CatchesUp(before: seq<Step>, s: Sys, c: nat) returns (ts: seq<Step>, r: Sys)
    requires Reaches(InitSys(), before, s) && s.wm.Idle? && c in s.clients && Streaming(s.clients[c])
    ensures |ts| <= 5 && Reaches(s, ts, r) && Quiescent(r, c) && ByItself(ts, c)
    ensures CaughtUpExactly(r.clients[c], s.lastPublished)
    ensures Subscribed(r.clients[c]) == Subscribed(s.clients[c])
  {
    hide Reaches;
    ReachedOk(before, s);
    ts, r := DrainsItself(s, c);
    ReachesNewcomers(s, ts, r);
    CaughtUp(r, c);
  }

  lemma CaughtUp(s: Sys, c: nat)
    requires Inv(s) && NewcomersOk(s) && Quiescent(s, c) && c in s.registry
    ensures CaughtUpExactly(s.clients[c], s.lastPublished)
  {
    assert Fresh(s, c) && NewcomerOk(s, c) && ClientOk(s.clients[c], None, false, s.clock, s.published);
  }

  lemma {:induction false} Advance(s: Sys, ts: seq<Step>, r: Sys, t: Step)
    requires Reaches(s, ts, r) && Enabled(r, t)
    ensures Reaches(s, ts + [t], Apply(r, t))
    decreases |ts|
  {
    hide Enabled, Apply;
    if ts == [] {
      assert (ts + [t])[1..] == [];
      assert Reaches(Apply(s, t), [], Apply(r, t));
    } else {
      Advance(Apply(s, ts[0]), ts[1..], r, t);
      assert (ts + [t])[1..] == ts[1..] + [t];
    }
  }

  /** One of the only subscriber's own steps. */
  lemma AdvanceAlone(ts: seq<Step>, k: Client, t: Step, clock: nat, published: set<nat>, last: Option<nat>)
    requires Reaches(InitSys(), ts, Alone(k, Idle, clock, published, last)) && OwnStep(t) && t.c == 0
    requires Enabled(Alone(k, Idle, clock, published, last), t)
    ensures Reaches(InitSys(), ts + [t], Alone(ClientMove(k, t), Idle, clock, published, last))
  {
    hide Reaches, Enabled, ClientMove;
    Advance(InitSys(), ts, Alone(k, Idle, clock, published, last), t);
    assert map[0 := k][0 := ClientMove(k, t)] == map[0 := ClientMove(k, t)];
  }

  /** A system with the one subscriber `k`. */
  function Alone(k: Client, wm: Publisher, clock: nat, published: set<nat>, last: Option<nat>): Sys {
    Sys(clock, wm, [0], map[0 := k], 1, published, last)
  }

  /** A publish that lands between the initial snapshot and the end of the drain can stay
      undelivered: here the subscriber waits with stale data and nothing is under way. */
  lemma StaleAfterSetUp() returns (ts: seq<Step>, s: Sys)
    ensures Reaches(InitSys(), ts, s)
    ensures Quiescent(s, 0) && s.clients[0].written != []
    ensures s.lastPublished.Some? && Last(s.clients[0].written) < s.lastPublished.value
  {
    var asked := InitialAnswered();
    ts := PublishedBeforeClear(asked);
    hide Reaches;
    var k := Prodded();
    AdvanceAlone(ts, k, Clear(0), 2, {1}, Some(1));
    ts, k := ts + [Clear(0)], ClientMove(k, Clear(0));
    AdvanceAlone(ts, k, Drain(0), 2, {1}, Some(1));
    ts, k := ts + [Drain(0)], ClientMove(k, Drain(0));
    AdvanceAlone(ts, k, Drain(0), 2, {1}, Some(1));
    ts, k := ts + [Drain(0)], ClientMove(k, Drain(0));
    AdvanceAlone(ts, k, WriteInitial(0, true), 2, {1}, Some(1));
    ts, k := ts + [WriteInitial(0, true)], ClientMove(k, WriteInitial(0, true));
    assert k.written == [0];
    s := Alone(k, Idle, 2, {1}, Some(1));
  }

  /** The subscriber of the example, with its initial snapshot in hand. */
  function Answered(): Client { NewClient().(pc := Clearing(0), initial := Some(0)) }

  lemma InitialAnswered() returns (ts: seq<Step>)
    ensures Reaches(InitSys(), ts, Alone(Answered(), Idle, 1, {}, None))
  {
    var k0 := NewClient();
    var k1 := k0.(pc := Waiting, asked := true);
    var k2 := k1.(asked := false, reply := Some(0));
    var s1, s2, s3 := Alone(k0, Idle, 0, {}, None), Alone(k1, Idle, 0, {}, None), Alone(k2, Idle, 1, {}, None);
    assert Apply(InitSys(), Join) == s1;
    assert Apply(s2, Answer(0)) == s3;
    assert Reaches(InitSys(), [], InitSys());
    hide Reaches, Apply;
    Advance(InitSys(), [], InitSys(), Join);
    ts := [] + [Join];
    AdvanceAlone(ts, k0, Ask(0), 0, {}, None);
    ts := ts + [Ask(0)];
    Advance(InitSys(), ts, s2, Answer(0));
    ts := ts + [Answer(0)];
    AdvanceAlone(ts, k2, Receive(0), 1, {}, None);
    ts := ts + [Receive(0)];
  }

  /** What the stored-for, signalled subscriber looks like after a publish before it clears. */
  function Prodded(): Client { Client(Clearing(0), Some(1), true, false, None, [], Some(0), Some(1), false, false) }

  /** Storing for and signalling the only subscriber. */
  lemma StoreAlone(k: Client, v: nat, clock: nat, published: set<nat>, last: Option<nat>)
    requires !PastClear(k.pc)
    ensures Enabled(Alone(k, Storing(v, [0], []), clock, published, last), Store)
    ensures Apply(Alone(k, Storing(v, [0], []), clock, published, last), Store)
         == Alone(k.(slot := Some(v), lastStored := Some(v), storedPost := false, signalledPost := false),
                  Signalling(v, [0], []), clock, published, last)
  {
    var k2 := k.(slot := Some(v), lastStored := Some(v), storedPost := false, signalledPost := false);
    assert map[0 := k][0 := k2] == map[0 := k2];
  }

  lemma SignalAlone(k: Client, v: nat, clock: nat, published: set<nat>, last: Option<nat>)
    requires !PastClear(k.pc) && !k.pc.Gone?
    ensures Enabled(Alone(k, Signalling(v, [0], []), clock, published, last), Signal)
    ensures Apply(Alone(k, Signalling(v, [0], []), clock, published, last), Signal)
         == Alone(k.(token := true, signalledPost := false), Storing(v, [], [0]), clock, published, last)
  {
    var k2 := k.(token := true, signalledPost := false);
    assert map[0 := k][0 := k2] == map[0 := k2];
    assert [] + [0] == [0] && [0][1..] == [];
  }

  lemma BuildAlone(k: Client, clock: nat, published: set<nat>, last: Option<nat>)
    ensures Enabled(Alone(k, Idle, clock, published, last), Build)
    ensures Enabled(Alone(k, Built(clock), clock + 1, published + {clock}, last), Begin)
    ensures var s := Alone(k, Built(clock), clock + 1, published + {clock}, last);
      && Apply(Alone(k, Idle, clock, published, last), Build) == s
      && Apply(s, Begin) == s.(wm := Storing(clock, [0], []))
  {
  }

  lemma EndAlone(k: Client, v: nat, clock: nat, published: set<nat>, last: Option<nat>)
    ensures Enabled(Alone(k, Storing(v, [], [0]), clock, published, last), End)
    ensures Apply(Alone(k, Storing(v, [], [0]), clock, published, last), End) ==
        Alone(k, Idle, clock, published, Some(v))
  {
  }

  lemma PublishedBeforeClear(asked: seq<Step>) returns (ts: seq<Step>)
    requires Reaches(InitSys(), asked, Alone(Answered(), Idle, 1, {}, None))
    ensures Reaches(InitSys(), ts, Alone(Prodded(), Idle, 2, {1}, Some(1)))
  {
    var s1 := Alone(Answered(), Built(1), 2, {1}, None);
    var s2, s4 := s1.(wm := Storing(1, [0], [])), Alone(Prodded(), Storing(1, [], [0]), 2, {1}, None);
    var k2 := Prodded().(token := false);
    assert {} + {1} == {1};
    hide Reaches, Apply, Enabled;
    BuildAlone(Answered(), 1, {}, None);
    Advance(InitSys(), asked, Alone(Answered(), Idle, 1, {}, None), Build);
    Advance(InitSys(), asked + [Build], s1, Begin);
    ts := asked + [Build] + [Begin];
    StoreAlone(Answered(), 1, 2, {1}, None);
    Advance(InitSys(), ts, s2, Store);
    SignalAlone(k2, 1, 2, {1}, None);
    Advance(InitSys(), ts + [Store], Alone(k2, Signalling(1, [0], []), 2, {1}, None), Signal);
    EndAlone(Prodded(), 1, 2, {1}, None);
    Advance(InitSys(), ts + [Store] + [Signal], s4, End);
    ts := ts + [Store] + [Signal] + [End];
  }
}
