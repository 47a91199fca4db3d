/**
 Completion subscriptions as atomic steps: any number of subscribers and one completer
 race over a lifecycle word (the DONE bit and a count of reservations) and a locked map.
 */
module Completion {
  import opened Collections

  datatype Subscriber =
    | Reserved        // added its reservation before DONE
    | SawDone         // added its reservation after DONE, owes it back
    | Returned        // gave the reservation back, owes its own notification
    | Locked          // holds the map lock, about to look at DONE again
    | LockedDone      // saw DONE under the lock, owes the reservation back
    | LockedReturned  // gave it back under the lock, owes its own notification
    | LockedOpen      // did not see DONE under the lock, about to insert
    | Subscribed      // the call returned a live subscription
    | Rejected        // the call failed on capacity
    | Removed         // dropped, took itself out of the map, owes the reservation back
    | Dropped

  datatype Completer =
    | Waiting
    | Marked          // set DONE while reservations existed
    | Drained(taken: set<nat>)
    | Notifying(left: set<nat>)

  datatype Holder = Nobody | By(id: nat)

  /** The lifecycle word. */
  datatype Word = Word(done: bool, count: nat)

  /** The map and its lock. */
  datatype Table = Table(lock: Holder, waiters: set<nat>)

  datatype State = State(word: Word, table: Table, subscribers: map<nat, Subscriber>, completer: Completer, notified: set<nat>)

  datatype Event =
    | Reserve(id: nat)
    | GiveBack(id: nat)
    | NotifySelf(id: nat)
    | Lock(id: nat)
    | Look(id: nat)
    | Insert(id: nat)
    | Drop(id: nat)
    | Complete
    | Drain
    | Subtract
    | NotifyOne(id: nat)

  const INITIAL := State(Word(false, 0), Table(Nobody, {}), map[], Waiting, {})

  ghost predicate At(s: State, id: nat, pc: Subscriber) {
    id in s.subscribers && s.subscribers[id] == pc
  }

  ghost predicate Enabled(s: State, e: Event) {
    match e
    case Reserve(id) => id !in s.subscribers
    case GiveBack(id) => At(s, id, SawDone) || At(s, id, LockedDone) || At(s, id, Removed)
    case NotifySelf(id) => At(s, id, Returned) || At(s, id, LockedReturned)
    case Lock(id) => At(s, id, Reserved) && s.table.lock.Nobody?
    case Look(id) => At(s, id, Locked)
    case Insert(id) => At(s, id, LockedOpen)
    case Drop(id) => At(s, id, Subscribed) && s.table.lock.Nobody?
    case Complete => s.completer.Waiting?
    case Drain => s.completer.Marked? && s.table.lock.Nobody?
    case Subtract => s.completer.Drained?
    case NotifyOne(id) => s.completer.Notifying? && id in s.completer.left
  }

  ghost function Moved(s: State, id: nat, pc: Subscriber): State {
    s.(subscribers := s.subscribers[id := pc])
  }

  /** `capacity` bounds the map; subtraction is checked by the invariant, not by the step. */
  ghost function After(s: State, e: Event, capacity: nat): State {
    match e
    case Reserve(id) => Moved(s, id, if s.word.done then SawDone else Reserved).(word := Word(s.word.done, s.word.count + 1))
    case GiveBack(id) =>
      var pc := if At(s, id, SawDone) then Returned else if At(s, id, LockedDone) then LockedReturned else Dropped;
      Moved(s, id, pc).(word := Word(s.word.done, Less(s.word.count, 1)))
    case NotifySelf(id) =>
      Moved(s, id, Subscribed).(notified := s.notified + {id},
                                table := Table(if At(s, id, LockedReturned) then Nobody else s.table.lock, s.table.waiters))
    case Lock(id) => Moved(s, id, Locked).(table := Table(By(id), s.table.waiters))
    case Look(id) => Moved(s, id, if s.word.done then LockedDone else LockedOpen)
    case Insert(id) =>
      if |s.table.waiters| >= capacity then
        Moved(s, id, Rejected).(table := Table(Nobody, s.table.waiters), word := Word(s.word.done, Less(s.word.count, 1)))
      else
        Moved(s, id, Subscribed).(table := Table(Nobody, s.table.waiters + {id}))
    case Drop(id) =>
      if id in s.table.waiters then
        Moved(s, id, Removed).(table := Table(s.table.lock, s.table.waiters - {id}))
      else Moved(s, id, Dropped)
    case Complete => s.(word := s.word.(done := true), completer := if s.word.count == 0 then Notifying({}) else Marked)
    case Drain => s.(table := s.table.(waiters := {}), completer := Drained(s.table.waiters))
    case Subtract =>
      if s.completer.Drained? then s.(word := s.word.(count := Less(s.word.count, |s.completer.taken|)),
                                      completer := Notifying(s.completer.taken)) else s
    case NotifyOne(id) =>
      if s.completer.Notifying? then s.(completer := Notifying(s.completer.left - {id}), notified := s.notified + {id}) else s
  }

  function Less(a: nat, b: nat): nat {
    if a < b then 0 else a - b
  }

  // ------------------------------------------------- the invariant

  predicate Holds(pc: Subscriber) {
    pc.Reserved? || pc.SawDone? || pc.Locked? || pc.LockedDone? || pc.LockedOpen? || pc.Removed?
  }

  predicate InLock(pc: Subscriber) {
    pc.Locked? || pc.LockedDone? || pc.LockedReturned? || pc.LockedOpen?
  }

  ghost function Holders(subscribers: map<nat, Subscriber>): set<nat> {
    set id | id in subscribers && Holds(subscribers[id])
  }

  ghost function Taken(c: Completer): set<nat> {
    if c.Drained? then c.taken else {}
  }

  /** Subscriptions the completer has promised to notify. */
  ghost function Promised(c: Completer): set<nat> {
    match c
    case Waiting => {}
    case Marked => {}
    case Drained(taken) => taken
    case Notifying(left) => left
  }

  /** Every reservation in the word belongs to a call in progress, a map entry or the drained batch. */
  ghost predicate Counted(s: State) {
    s.word.count == |Holders(s.subscribers)| + |s.table.waiters| + |Taken(s.completer)|
  }

  ghost predicate LockSound(s: State) {
    forall id :: id in s.subscribers && InLock(s.subscribers[id]) ==> s.table.lock == By(id)
  }

  ghost predicate Phased(s: State) {
    && (s.word.done <==> !s.completer.Waiting?)
    && (s.completer.Drained? || s.completer.Notifying? ==>
         s.table.waiters == {} && forall id :: id in s.subscribers ==> !s.subscribers[id].LockedOpen?)
    && (forall id :: id in s.table.waiters ==> At(s, id, Subscribed))
  }

  /** No live subscription is forgotten. */
  ghost predicate Remembered(s: State) {
    forall id {:trigger s.subscribers[id]} :: id in s.subscribers && s.subscribers[id].Subscribed? ==>
      id in s.table.waiters || id in Promised(s.completer) || id in s.notified
  }

  ghost predicate Invariant(s: State) {
    Counted(s) && LockSound(s) && Phased(s) && Remembered(s)
  }

  lemma {:induction false} HoldersChange(subscribers: map<nat, Subscriber>, id: nat, pc: Subscriber)
    ensures var before, after := Holders(subscribers), Holders(subscribers[id := pc]);
            && (Holds(pc) && id !in before ==> |after| == |before| + 1)
            && (Holds(pc) && id in before ==> |after| == |before|)
            && (!Holds(pc) && id in before ==> |after| + 1 == |before|)
            && (!Holds(pc) && id !in before ==> |after| == |before|)
  {
    var before, after := Holders(subscribers), Holders(subscribers[id := pc]);
    if Holds(pc) {
      assert after == before + {id};
    } else {
      assert after == before - {id};
    }
  }

  ghost predicate MovesSubscriber(e: Event) {
    !(e.Complete? || e.Drain? || e.Subtract? || e.NotifyOne?)
  }

  /** What a subscriber's step does to its reservation, the map and the count. */
  ghost predicate Transfers(s: State, t: State, id: nat) {
    var held := id in s.subscribers && Holds(s.subscribers[id]);
    var holds := id in t.subscribers && Holds(t.subscribers[id]);
    || (t.word.count == s.word.count + 1 && !held && holds && t.table.waiters == s.table.waiters)
    || (t.word.count == Less(s.word.count, 1) && held && !holds && t.table.waiters == s.table.waiters)
    || (t.word.count == s.word.count && held == holds && t.table.waiters == s.table.waiters)
    || (t.word.count == s.word.count && held && !holds && id !in s.table.waiters && t.table.waiters == s.table.waiters + {id})
    || (t.word.count == s.word.count && !held && holds && id in s.table.waiters && t.table.waiters == s.table.waiters - {id})
  }

  /** A subscriber's step moves that subscriber alone. */
  lemma {:induction false} StepMoves(s: State, e: Event, capacity: nat)
    requires Enabled(s, e) && MovesSubscriber(e)
    ensures After(s, e, capacity).completer == s.completer
    ensures var after := After(s, e, capacity).subscribers; e.id in after && after == s.subscribers[e.id := after[e.id]]
  {
  }

  lemma {:induction false} CallTransfers(s: State, e: Event, capacity: nat)
    requires Enabled(s, e) && (e.Reserve? || e.GiveBack? || e.NotifySelf? || e.Lock? || e.Look?)
    ensures Transfers(s, After(s, e, capacity), e.id)
  {
  }

  lemma {:induction false} MapTransfers(s: State, e: Event, capacity: nat)
    requires Enabled(s, e) && Phased(s) && (e.Insert? || e.Drop?)
    ensures Transfers(s, After(s, e, capacity), e.id)
  {
  }

  lemma {:induction false} StepTransfers(s: State, e: Event, capacity: nat)
    requires Enabled(s, e) && MovesSubscriber(e) && Phased(s)
    ensures Transfers(s, After(s, e, capacity), e.id)
  {
    if e.Insert? || e.Drop? {
      MapTransfers(s, e, capacity);
    } else {
      CallTransfers(s, e, capacity);
    }
  }

  lemma {:induction false} TransferKeepsCount(s: State, t: State, id: nat, pc: Subscriber)
    requires Counted(s) && t.subscribers == s.subscribers[id := pc] && t.completer == s.completer && Transfers(s, t, id)
    ensures Counted(t)
    ensures id in s.subscribers && Holds(s.subscribers[id]) ==> s.word.count >= 1
  {
    HoldersChange(s.subscribers, id, pc);
    assert id in Holders(s.subscribers) <==> id in s.subscribers && Holds(s.subscribers[id]);
  }

  /** The word's reservation count stays exact, so no subtraction underflows. */
  lemma {:induction false} CountKept(s: State, e: Event, capacity: nat)
    requires Invariant(s) && Enabled(s, e)
    ensures Counted(After(s, e, capacity))
    ensures e.GiveBack? || (e.Insert? && |s.table.waiters| >= capacity) ==> s.word.count >= 1
    ensures e.Subtract? ==> s.word.count >= |s.completer.taken|
  {
    if MovesSubscriber(e) {
      StepMoves(s, e, capacity);
      StepTransfers(s, e, capacity);
      var t := After(s, e, capacity);
      TransferKeepsCount(s, t, e.id, t.subscribers[e.id]);
    }
  }

  lemma {:induction false} LockKept(s: State, e: Event, capacity: nat)
    requires LockSound(s) && Enabled(s, e)
    ensures LockSound(After(s, e, capacity))
  {
  }

  /** With no reservations there is no call that could still insert. */
  lemma {:induction false} NoHolderNoInsert(s: State)
    requires Counted(s) && s.word.count == 0
    ensures s.table.waiters == {} && forall id :: id in s.subscribers ==> !s.subscribers[id].LockedOpen?
  {
    assert Holders(s.subscribers) == {} && s.table.waiters == {};
    forall id | id in s.subscribers
      ensures !s.subscribers[id].LockedOpen?
    {
      assert id !in Holders(s.subscribers);
    }
  }

  lemma {:induction false} WaitersStaySubscribed(s: State, e: Event, capacity: nat, id: nat)
    requires Phased(s) && Enabled(s, e) && MovesSubscriber(e) && id in After(s, e, capacity).table.waiters
    ensures At(After(s, e, capacity), id, Subscribed)
  {
    assert id in s.table.waiters || (e.Insert? && id == e.id);
  }

  /** After the drain, calls that come late see DONE and insert nothing. */
  lemma {:induction false} LateCallsInsertNothing(s: State, e: Event, capacity: nat)
    requires Phased(s) && Enabled(s, e) && MovesSubscriber(e) && (s.completer.Drained? || s.completer.Notifying?)
    ensures After(s, e, capacity).table.waiters == {}
    ensures forall id :: id in After(s, e, capacity).subscribers ==> !After(s, e, capacity).subscribers[id].LockedOpen?
  {
    var t := After(s, e, capacity);
    forall id | id in t.subscribers
      ensures !t.subscribers[id].LockedOpen?
    {
      if id != e.id { assert id in s.subscribers && t.subscribers[id] == s.subscribers[id]; }
    }
  }

  lemma {:induction false} PhaseKept(s: State, e: Event, capacity: nat)
    requires Invariant(s) && Enabled(s, e)
    ensures Phased(After(s, e, capacity))
  {
    if MovesSubscriber(e) {
      if s.completer.Drained? || s.completer.Notifying? {
        LateCallsInsertNothing(s, e, capacity);
      }
      forall id | id in After(s, e, capacity).table.waiters
        ensures At(After(s, e, capacity), id, Subscribed)
      {
        WaitersStaySubscribed(s, e, capacity, id);
      }
    } else if e.Complete? && s.word.count == 0 {
      NoHolderNoInsert(s);
    }
  }

  lemma {:induction false} MemoryKept(s: State, e: Event, capacity: nat)
    requires Remembered(s) && Phased(s) && Enabled(s, e)
    ensures Remembered(After(s, e, capacity))
  {
    var t := After(s, e, capacity);
    forall id | id in t.subscribers && t.subscribers[id].Subscribed?
      ensures id in t.table.waiters || id in Promised(t.completer) || id in t.notified
    {
      assert id in s.subscribers;
      if s.subscribers[id].Subscribed? {
        SubscriptionKept(s, e, capacity, id);
      }
    }
  }

  lemma {:induction false} SubscriptionKept(s: State, e: Event, capacity: nat, id: nat)
    requires Remembered(s) && Phased(s) && Enabled(s, e)
    requires At(s, id, Subscribed) && At(After(s, e, capacity), id, Subscribed)
    ensures var t := After(s, e, capacity); id in t.table.waiters || id in Promised(t.completer) || id in t.notified
  {
    assert s.subscribers[id].Subscribed?;
  }

  lemma {:induction false} InvariantKept(s: State, e: Event, capacity: nat)
    requires Invariant(s) && Enabled(s, e)
    ensures Invariant(After(s, e, capacity))
  {
    CountKept(s, e, capacity);
    LockKept(s, e, capacity);
    PhaseKept(s, e, capacity);
    MemoryKept(s, e, capacity);
  }

  // ------------------------------------------------- why somebody is notified

  /** Everybody who saw DONE saw it rightly, and the completer keeps its promise to subscriptions only. */
  ghost predicate Honest(s: State) {
    && (forall id {:trigger s.subscribers[id]} :: id in s.subscribers && Informed(s.subscribers[id]) ==> s.word.done)
    && (forall id {:trigger id in Promised(s.completer)} :: id in Promised(s.completer) ==> At(s, id, Subscribed) || At(s, id, Dropped))
  }

  predicate Informed(pc: Subscriber) {
    pc.SawDone? || pc.Returned? || pc.LockedDone? || pc.LockedReturned?
  }

  /** Nobody is notified before DONE, while its wait is in the map, or while the completer still owes it. */
  ghost predicate Justified(s: State) {
    && (!s.word.done ==> s.notified == {})
    && (forall id {:trigger id in s.notified} :: id in s.notified ==>
         && id !in s.table.waiters && id !in Promised(s.completer)
         && (At(s, id, Subscribed) || At(s, id, Dropped)))
  }

  /** The holder of the map's lock is inside its call, and the map stays within its capacity. */
  ghost predicate Guarded(s: State, capacity: nat) {
    && (s.table.lock.By? ==> s.table.lock.id in s.subscribers && InLock(s.subscribers[s.table.lock.id]))
    && |s.table.waiters| <= capacity
  }

  ghost predicate Sound(s: State, capacity: nat) {
    Invariant(s) && Honest(s) && Justified(s) && Guarded(s, capacity)
  }

  lemma {:induction false} HonestKept(s: State, e: Event, capacity: nat)
    requires Honest(s) && Phased(s) && Enabled(s, e)
    ensures Honest(After(s, e, capacity))
  {
    var t := After(s, e, capacity);
    forall id | id in t.subscribers && Informed(t.subscribers[id])
      ensures t.word.done
    {
      assert id in s.subscribers ==> Informed(s.subscribers[id]) ==> s.word.done;
    }
    forall id | id in Promised(t.completer)
      ensures At(t, id, Subscribed) || At(t, id, Dropped)
    {
      assert id in Promised(s.completer) || id in s.table.waiters;
    }
  }

  lemma {:induction false} JustifiedKept(s: State, e: Event, capacity: nat)
    requires Honest(s) && Justified(s) && Phased(s) && Enabled(s, e)
    ensures Justified(After(s, e, capacity))
    ensures e.NotifySelf? || e.NotifyOne? ==> e.id !in s.notified
  {
    var t := After(s, e, capacity);
    if e.NotifySelf? { assert Informed(s.subscribers[e.id]); }
    if e.NotifyOne? { assert e.id in Promised(s.completer); }
    forall id | id in t.notified
      ensures id !in t.table.waiters && id !in Promised(t.completer) && (At(t, id, Subscribed) || At(t, id, Dropped))
    {
      assert id in s.notified || ((e.NotifySelf? || e.NotifyOne?) && id == e.id);
      assert id in Promised(s.completer) ==> At(s, id, Subscribed) || At(s, id, Dropped);
    }
  }

  lemma {:induction false} GuardedKept(s: State, e: Event, capacity: nat)
    requires Guarded(s, capacity) && LockSound(s) && Enabled(s, e)
    ensures Guarded(After(s, e, capacity), capacity)
  {
    var t := After(s, e, capacity);
    if e.Drop? { SmallerSet(t.table.waiters, s.table.waiters); }
    if s.table.lock.By? { assert InLock(s.subscribers[s.table.lock.id]); }
  }

  ghost predicate Possible(s: State, run: seq<Event>, capacity: nat)
    decreases |run|
  {
    run == [] || (Enabled(s, run[0]) && Possible(After(s, run[0], capacity), run[1..], capacity))
  }

  ghost function Final(s: State, run: seq<Event>, capacity: nat): State
    decreases |run|
  {
    if run == [] then s else Final(After(s, run[0], capacity), run[1..], capacity)
  }

  lemma {:induction false} SoundKept(s: State, e: Event, capacity: nat)
    requires Sound(s, capacity) && Enabled(s, e)
    ensures Sound(After(s, e, capacity), capacity)
  {
    InvariantKept(s, e, capacity);
    HonestKept(s, e, capacity);
    JustifiedKept(s, e, capacity);
    GuardedKept(s, e, capacity);
  }

  lemma {:induction false} InvariantAlways(s: State, run: seq<Event>, capacity: nat)
    requires Sound(s, capacity) && Possible(s, run, capacity)
    ensures Sound(Final(s, run, capacity), capacity)
    decreases |run|
  {
    if run != [] {
      SoundKept(s, run[0], capacity);
      InvariantAlways(After(s, run[0], capacity), run[1..], capacity);
    }
  }

  lemma {:induction false} InitiallySound(capacity: nat)
    ensures Sound(INITIAL, capacity)
  {
    assert Holders(INITIAL.subscribers) == {};
  }

  /** A run seen from its last step. */
  lemma {:induction false} LastStep(s: State, run: seq<Event>, capacity: nat)
    requires run != [] && Possible(s, run, capacity)
    ensures var n, e := |run| - 1, run[|run| - 1];
            && Possible(s, run[..n], capacity) && Enabled(Final(s, run[..n], capacity), e)
            && Final(s, run, capacity) == After(Final(s, run[..n], capacity), e, capacity)
    decreases |run|
  {
    var n := |run| - 1;
    if n > 0 {
      LastStep(After(s, run[0], capacity), run[1..], capacity);
      assert run[1..][..n - 1] == run[..n][1..] && run[1..][n - 1] == run[n] && run[..n][0] == run[0];
    } else {
      assert run[1..] == [];
    }
  }

  /**
   Over every run: nobody is notified before DONE is set, nobody whose wait is still in the
   map or owed by the completer has been, and nobody is notified twice.
   */
  lemma {:induction false} NobodyIsNotifiedEarly(run: seq<Event>, capacity: nat)
    requires Possible(INITIAL, run, capacity)
    ensures var s := Final(INITIAL, run, capacity);
            && (!s.word.done ==> s.notified == {})
            && (forall id :: id in s.notified ==> id !in s.table.waiters && !(s.completer.Notifying? && id in s.completer.left))
            && |s.table.waiters| <= capacity
    ensures run != [] && (run[|run| - 1].NotifySelf? || run[|run| - 1].NotifyOne?) ==>
              run[|run| - 1].id !in Final(INITIAL, run[..|run| - 1], capacity).notified
  {
    InitiallySound(capacity);
    InvariantAlways(INITIAL, run, capacity);
    if run != [] {
      var n := |run| - 1;
      LastStep(INITIAL, run, capacity);
      InvariantAlways(INITIAL, run[..n], capacity);
      JustifiedKept(Final(INITIAL, run[..n], capacity), run[n], capacity);
    }
  }

  /** A subscriber is turned away only by an insertion that met a full map before DONE was seen. */
  lemma {:induction false} OnlyAFullMapRejects(run: seq<Event>, capacity: nat, id: nat)
    requires Possible(INITIAL, run, capacity) && At(Final(INITIAL, run, capacity), id, Rejected)
    ensures exists n :: 0 <= n < |run| && run[n] == Insert(id) && |Final(INITIAL, run[..n], capacity).table.waiters| == capacity
    decreases |run|
  {
    var n := |run| - 1;
    LastStep(INITIAL, run, capacity);
    var before := run[..n];
    var s := Final(INITIAL, before, capacity);
    if At(s, id, Rejected) {
      OnlyAFullMapRejects(before, capacity, id);
      var i :| 0 <= i < |before| && before[i] == Insert(id) && |Final(INITIAL, before[..i], capacity).table.waiters| == capacity;
      assert run[i] == Insert(id) && run[..i] == before[..i];
    } else {
      InitiallySound(capacity);
      InvariantAlways(INITIAL, before, capacity);
      assert run[n] == Insert(id);
    }
  }

  /** A call in progress, or the completer after DONE. */
  ghost predicate Busy(s: State) {
    || (exists id :: id in s.subscribers && Steps(s.subscribers[id]) > 0)
    || s.completer.Marked? || s.completer.Drained? || (s.completer.Notifying? && s.completer.left != {})
  }

  /** Steps left in a subscriber's call; an insertion may leave one for the completer. */
  function Steps(pc: Subscriber): nat {
    match pc
    case Reserved => 4
    case Locked => 3
    case LockedDone => 2
    case LockedOpen => 2
    case SawDone => 2
    case LockedReturned => 1
    case Returned => 1
    case Removed => 1
    case _ => 0
  }

  /** Steps that finish what was begun. */
  predicate Continues(e: Event) {
    !(e.Reserve? || e.Drop? || e.Complete?)
  }

  /** No state is stuck: as long as a call is in progress, some step that finishes one is possible. */
  lemma {:induction false} SomeCallCanGoOn(run: seq<Event>, capacity: nat) returns (e: Event)
    requires Possible(INITIAL, run, capacity) && Busy(Final(INITIAL, run, capacity))
    ensures Continues(e) && Enabled(Final(INITIAL, run, capacity), e)
  {
    InitiallySound(capacity);
    InvariantAlways(INITIAL, run, capacity);
    var s := Final(INITIAL, run, capacity);
    if s.table.lock.By? {
      e := NextOf(s.subscribers[s.table.lock.id], s.table.lock.id);
    } else if s.completer.Marked? {
      e := Drain;
    } else if s.completer.Drained? {
      e := Subtract;
    } else if s.completer.Notifying? && s.completer.left != {} {
      var id :| id in s.completer.left;
      e := NotifyOne(id);
    } else {
      var id :| id in s.subscribers && Steps(s.subscribers[id]) > 0;
      e := NextOf(s.subscribers[id], id);
    }
  }

  function NextOf(pc: Subscriber, id: nat): Event {
    match pc
    case Reserved => Lock(id)
    case Locked => Look(id)
    case LockedOpen => Insert(id)
    case Returned => NotifySelf(id)
    case LockedReturned => NotifySelf(id)
    case _ => GiveBack(id)
  }

  /** The calls with at least `n` steps left. */
  ghost function AtLeast(subscribers: map<nat, Subscriber>, n: nat): set<nat> {
    set id | id in subscribers && Steps(subscribers[id]) >= n
  }

  ghost function Ahead(subscribers: map<nat, Subscriber>): nat {
    |AtLeast(subscribers, 1)| + |AtLeast(subscribers, 2)| + |AtLeast(subscribers, 3)| + |AtLeast(subscribers, 4)|
  }

  ghost function Owed(s: State): nat {
    match s.completer
    case Waiting => 0
    case Marked => 2 + |s.table.waiters|
    case Drained(taken) => 1 + |taken|
    case Notifying(left) => |left|
  }

  ghost function Left(s: State): nat {
    Ahead(s.subscribers) + Owed(s)
  }

  lemma {:induction false} AtLeastChanges(subscribers: map<nat, Subscriber>, id: nat, pc: Subscriber, n: nat)
    requires id in subscribers
    ensures |AtLeast(subscribers[id := pc], n)| + (if Steps(subscribers[id]) >= n then 1 else 0) ==
            |AtLeast(subscribers, n)| + if Steps(pc) >= n then 1 else 0
  {
    var others := AtLeast(subscribers, n) - {id};
    assert AtLeast(subscribers, n) == if Steps(subscribers[id]) >= n then others + {id} else others;
    assert AtLeast(subscribers[id := pc], n) == if Steps(pc) >= n then others + {id} else others;
  }

  lemma {:induction false} AheadChanges(subscribers: map<nat, Subscriber>, id: nat, pc: Subscriber)
    requires id in subscribers
    ensures Ahead(subscribers[id := pc]) + Steps(subscribers[id]) == Ahead(subscribers) + Steps(pc)
  {
    AtLeastChanges(subscribers, id, pc, 1);
    AtLeastChanges(subscribers, id, pc, 2);
    AtLeastChanges(subscribers, id, pc, 3);
    AtLeastChanges(subscribers, id, pc, 4);
  }

  lemma {:induction false} ContinuingLowers(s: State, e: Event, capacity: nat)
    requires Enabled(s, e) && Continues(e)
    ensures Left(After(s, e, capacity)) < Left(s)
  {
    if MovesSubscriber(e) {
      StepMoves(s, e, capacity);
      var t := After(s, e, capacity);
      AheadChanges(s.subscribers, e.id, t.subscribers[e.id]);
      if e.Insert? { assert |s.table.waiters + {e.id}| <= |s.table.waiters| + 1; }
    }
  }

  /** Calls end: from any state only so many steps can follow that finish what was begun. */
  lemma {:induction false} ContinuationsEnd(s: State, run: seq<Event>, capacity: nat)
    requires Possible(s, run, capacity) && forall e :: e in run ==> Continues(e)
    ensures |run| + Left(Final(s, run, capacity)) <= Left(s)
    decreases |run|
  {
    if run != [] {
      assert run[0] in run && forall e :: e in run[1..] ==> e in run;
      ContinuingLowers(s, run[0], capacity);
      ContinuationsEnd(After(s, run[0], capacity), run[1..], capacity);
    }
  }

  /** No call is in progress. */
  ghost predicate Settled(s: State) {
    && s.completer == Notifying({})
    && forall id {:trigger s.subscribers[id]} :: id in s.subscribers ==>
         s.subscribers[id].Subscribed? || s.subscribers[id].Rejected? || s.subscribers[id].Dropped?
  }

  /**
   No completion is lost: once all calls have finished after `complete`, the lifecycle
   word is exactly DONE, the map is empty, and every live subscription was notified.
   */
  lemma {:induction false} NoCompletionIsLost(run: seq<Event>, capacity: nat)
    requires Possible(INITIAL, run, capacity) && Settled(Final(INITIAL, run, capacity))
    ensures var s := Final(INITIAL, run, capacity);
            && s.word.done && s.word.count == 0 && s.table.waiters == {}
            && forall id :: id in s.subscribers && s.subscribers[id].Subscribed? ==> id in s.notified
  {
    InitiallySound(capacity);
    InvariantAlways(INITIAL, run, capacity);
    var s := Final(INITIAL, run, capacity);
    assert Holders(s.subscribers) == {};
  }
}
