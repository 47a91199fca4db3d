/**
 Start publication and the owner's sleep as atomic steps. Publishers enqueue under the
 inbox lock and then notify the signal; the owner registers under the signal's gate,
 checks the epoch and the queue, and releases the gate only by blocking.
 */
module Signal {

  /** What a publisher has left to do. */
  datatype Publisher =
    | Calling               // owes an epoch change and a waiter check
    | Bumped                // changed the epoch, owes the waiter check
    | Helping               // found a non-empty queue, owes the waiter check
    | Posting               // saw a waiter, owes the notification under the gate

  datatype Owner =
    | Driving
    | Gated                 // holds the gate, not yet registered
    | Registered            // holds the gate, about to load the epoch
    | EpochSame             // the epoch was unchanged, about to look at the queue
    | Quiet                 // both checks failed, about to block
    | Blocked
    | Woken                 // notified, timed out or woken spuriously; wants the gate
    | Leaving               // a check succeeded; about to deregister

  datatype State = State(
    epoch: nat,
    waiters: nat,
    queue: nat,
    publishers: map<nat, Publisher>,
    owner: Owner,
    /** The epoch the owner compares against. */
    observed: nat)

  datatype Event =
    | Push(p: nat)
    | Notify(p: nat)
    | Bump(p: nat)
    | LoadWaiters(p: nat)
    | Post(p: nat)
    | Observe
    | Drain(n: nat)
    | LockGate
    | Register
    | CheckEpoch
    | CheckQueue
    | Block
    | Interrupt
    | TakeGate
    | Leave

  const INITIAL := State(0, 0, 0, map[], Driving, 0)

  predicate GateFree(o: Owner) {
    o.Driving? || o.Blocked? || o.Woken?
  }

  ghost predicate Enabled(s: State, e: Event) {
    match e
    case Push(p) => p !in s.publishers
    case Notify(p) => p !in s.publishers
    case Bump(p) => p in s.publishers && s.publishers[p].Calling?
    case LoadWaiters(p) => p in s.publishers && (s.publishers[p].Bumped? || s.publishers[p].Helping?)
    case Post(p) => p in s.publishers && s.publishers[p].Posting? && GateFree(s.owner)
    case Observe => s.owner.Driving?
    case Drain(n) => s.owner.Driving? && n <= s.queue
    case LockGate => s.owner.Driving?
    case Register => s.owner.Gated?
    case CheckEpoch => s.owner.Registered?
    case CheckQueue => s.owner.EpochSame?
    case Block => s.owner.Quiet?
    case Interrupt => s.owner.Blocked? || s.owner.Quiet?
    case TakeGate => s.owner.Woken?
    case Leave => s.owner.Leaving?
  }

  ghost function After(s: State, e: Event): State {
    match e
    case Push(p) =>
      s.(queue := s.queue + 1, publishers := s.publishers[p := if s.queue == 0 then Calling else Helping])
    case Notify(p) => s.(publishers := s.publishers[p := Calling])
    case Bump(p) => s.(epoch := s.epoch + 1, publishers := s.publishers[p := Bumped])
    case LoadWaiters(p) =>
      if s.waiters != 0 then s.(publishers := s.publishers[p := Posting]) else s.(publishers := s.publishers - {p})
    case Post(p) =>
      s.(publishers := s.publishers - {p}, owner := if s.owner.Blocked? then Woken else s.owner)
    case Observe => s.(observed := s.epoch)
    case Drain(n) => if n <= s.queue then s.(queue := s.queue - n) else s
    case LockGate => s.(owner := Gated)
    case Register => s.(waiters := s.waiters + 1, owner := Registered)
    case CheckEpoch => s.(owner := if s.epoch == s.observed then EpochSame else Leaving)
    case CheckQueue => s.(owner := if s.queue == 0 then Quiet else Leaving)
    case Block => s.(owner := Blocked)
    case Interrupt => s.(owner := if s.owner.Blocked? then Woken else Leaving)
    case TakeGate => s.(owner := Registered)
    case Leave => s.(waiters := if s.waiters > 0 then s.waiters - 1 else 0, owner := Driving)
  }

  /** Some publisher has changed the epoch and not yet delivered, or ruled out, a wake. */
  ghost predicate WakeOwed(s: State) {
    exists p :: p in s.publishers && (s.publishers[p].Bumped? || s.publishers[p].Posting?)
  }

  ghost predicate BumpOwed(s: State) {
    exists p :: p in s.publishers && s.publishers[p].Calling?
  }

  ghost predicate Invariant(s: State) {
    && s.observed <= s.epoch
    && s.waiters == (if s.owner.Driving? || s.owner.Gated? then 0 else 1)
    && (s.owner.EpochSame? || s.owner.Quiet? || s.owner.Blocked? ==> s.epoch == s.observed || WakeOwed(s))
    && (s.owner.Quiet? || s.owner.Blocked? ==> s.queue == 0 || BumpOwed(s) || WakeOwed(s))
  }

  lemma {:induction false} OwedKept(s: State, e: Event)
    requires Invariant(s) && Enabled(s, e) && WakeOwed(s) && s.waiters == 1
    ensures WakeOwed(After(s, e)) || !GateHeldOrBlocked(After(s, e).owner)
  {
    var t := After(s, e);
    var p :| p in s.publishers && (s.publishers[p].Bumped? || s.publishers[p].Posting?);
    if p in t.publishers && (t.publishers[p].Bumped? || t.publishers[p].Posting?) {
      assert WakeOwed(t);
    }
  }

  ghost predicate GateHeldOrBlocked(o: Owner) {
    o.EpochSame? || o.Quiet? || o.Blocked?
  }

  lemma {:induction false} BumpKept(s: State, e: Event)
    requires Enabled(s, e) && BumpOwed(s)
    ensures BumpOwed(After(s, e)) || WakeOwed(After(s, e))
  {
    var t := After(s, e);
    var p :| p in s.publishers && s.publishers[p].Calling?;
    assert p in t.publishers;
  }

  lemma {:induction false} InvariantKept(s: State, e: Event)
    requires Invariant(s) && Enabled(s, e)
    ensures Invariant(After(s, e))
  {
    var t := After(s, e);
    if s.waiters == 1 && WakeOwed(s) { OwedKept(s, e); }
    if BumpOwed(s) { BumpKept(s, e); }
    if e.Push? || e.Notify? || e.Bump? { assert e.p in t.publishers; }
  }

  ghost predicate Possible(s: State, run: seq<Event>)
    decreases |run|
  {
    run == [] || (Enabled(s, run[0]) && Possible(After(s, run[0]), run[1..]))
  }

  ghost function Final(s: State, run: seq<Event>): State
    decreases |run|
  {
    if run == [] then s else Final(After(s, run[0]), run[1..])
  }

  lemma {:induction false} InvariantAlways(s: State, run: seq<Event>)
    requires Invariant(s) && Possible(s, run)
    ensures Invariant(Final(s, run))
    decreases |run|
  {
    if run != [] {
      InvariantKept(s, run[0]);
      InvariantAlways(After(s, run[0]), run[1..]);
    }
  }

  /**
   No lost wakeup: whenever the owner is blocked although the epoch changed or a start
   is queued, some publisher still owes the notification that will wake it.
   */
  lemma {:induction false} NoLostWakeup(run: seq<Event>)
    requires Possible(INITIAL, run)
    ensures var s := Final(INITIAL, run);
            s.owner.Blocked? && (s.epoch != s.observed || s.queue != 0) ==> BumpOwed(s) || WakeOwed(s)
  {
    InvariantAlways(INITIAL, run);
  }

  /** Once every publisher has returned, a blocked owner has nothing to do. */
  lemma {:induction false} QuietSleepIsIdle(run: seq<Event>)
    requires Possible(INITIAL, run) && Final(INITIAL, run).publishers == map[]
    ensures var s := Final(INITIAL, run);
            s.owner.Blocked? ==> s.epoch == s.observed && s.queue == 0
  {
    NoLostWakeup(run);
  }

  /** What a publisher does next, up to its return. */
  function Rest(p: nat, pc: Publisher): seq<Event> {
    match pc
    case Calling => [Bump(p), LoadWaiters(p), Post(p)]
    case Bumped => [LoadWaiters(p), Post(p)]
    case Helping => [LoadWaiters(p), Post(p)]
    case Posting => [Post(p)]
  }

  /** No publisher is stuck: its own remaining steps are possible and wake a blocked owner. */
  lemma {:induction false} OwedPublisherWakes(s: State, p: nat)
    requires Invariant(s) && s.owner.Blocked? && p in s.publishers
    ensures Possible(s, Rest(p, s.publishers[p])) && Final(s, Rest(p, s.publishers[p])).owner.Woken?
    decreases |Rest(p, s.publishers[p])|
  {
    var run := Rest(p, s.publishers[p]);
    var t := After(s, run[0]);
    InvariantKept(s, run[0]);
    if |run| > 1 {
      OwedPublisherWakes(t, p);
      assert run[1..] == Rest(p, t.publishers[p]);
    } else {
      assert run[1..] == [];
    }
  }

  // ------------------------------------------------- the owner's side

  /** What the owner does next on its way to sleep, or back from a check that found something. */
  function Next(o: Owner): Event {
    match o
    case Driving => LockGate
    case Gated => Register
    case Registered => CheckEpoch
    case EpochSame => CheckQueue
    case Quiet => Block
    case Blocked => Interrupt
    case Woken => TakeGate
    case Leaving => Leave
  }

  /** Steps until the attempt is over. */
  function Distance(o: Owner): nat {
    match o
    case Driving => 5
    case Gated => 4
    case Woken => 4
    case Registered => 3
    case EpochSame => 2
    case _ => 1
  }

  /** An undisturbed attempt of the owner to sleep, from any point of it. */
  ghost function Attempt(s: State): seq<Event>
    decreases Distance(s.owner)
  {
    var e := Next(s.owner);
    [e] + if Distance(s.owner) == 1 then [] else Attempt(After(s, e))
  }

  /** Where the checks that are left will send the owner. */
  predicate FallsAsleep(s: State) {
    match s.owner
    case Quiet => true
    case EpochSame => s.queue == 0
    case Leaving => false
    case Blocked => false
    case _ => s.epoch == s.observed && s.queue == 0
  }

  lemma {:induction false} AttemptEnds(s: State)
    requires Invariant(s) && !s.owner.Blocked?
    ensures Possible(s, Attempt(s)) && Attempt(s) != []
    ensures Final(s, Attempt(s)) == if FallsAsleep(s) then s.(owner := Blocked, waiters := 1) else s.(owner := Driving, waiters := 0)
    decreases Distance(s.owner)
  {
    var e := Next(s.owner);
    var t := After(s, e);
    var run := Attempt(s);
    if Distance(s.owner) == 1 {
      assert run[1..] == [];
    } else {
      assert run[1..] == Attempt(t);
      InvariantKept(s, e);
      AttemptEnds(t);
    }
  }

  /** Undisturbed, a driving owner falls asleep if and only if nothing changed since it last looked and no start waits. */
  lemma {:induction false} OwnerSleepsIffIdle(s: State)
    requires Invariant(s) && s.owner.Driving?
    ensures Possible(s, Attempt(s))
    ensures var t := Final(s, Attempt(s));
            && (t.owner.Blocked? <==> s.epoch == s.observed && s.queue == 0)
            && (!t.owner.Blocked? ==> t == s)
            && t.publishers == s.publishers && t.queue == s.queue && t.epoch == s.epoch
  {
    AttemptEnds(s);
  }

  function Bumps(run: seq<Event>): nat {
    if run == [] then 0 else (if run[0].Bump? then 1 else 0) + Bumps(run[1..])
  }

  function Pushes(run: seq<Event>): nat {
    if run == [] then 0 else (if run[0].Push? then 1 else 0) + Pushes(run[1..])
  }

  function Drains(run: seq<Event>): nat {
    if run == [] then 0 else (if run[0].Drain? then run[0].n else 0) + Drains(run[1..])
  }

  /** Every notification changes the epoch, and every start stays queued until it is drained. */
  lemma {:induction false} NothingIsForgotten(s: State, run: seq<Event>)
    requires Possible(s, run)
    ensures Final(s, run).epoch == s.epoch + Bumps(run)
    ensures Final(s, run).queue + Drains(run) == s.queue + Pushes(run)
    decreases |run|
  {
    if run != [] { NothingIsForgotten(After(s, run[0]), run[1..]); }
  }

  /**
   After any run, a blocked owner whose publishers have all returned has seen every
   notification and drained every start.
   */
  lemma {:induction false} SleeperHasSeenAll(run: seq<Event>)
    requires Possible(INITIAL, run) && Final(INITIAL, run).publishers == map[] && Final(INITIAL, run).owner.Blocked?
    ensures Final(INITIAL, run).observed == Bumps(run) && Drains(run) == Pushes(run)
  {
    QuietSleepIsIdle(run);
    NothingIsForgotten(INITIAL, run);
  }
}
