/**
 The carrier kernel between operations as a value, and what each phase of a drive
 iteration does to it, given everything the outside answers.
 */
module KernelPhases {
  import opened Options
  import opened Collections
  import opened Tasks
  import opened RQ = ReadyQueue
  import opened KernelState
  import opened KernelSpec

  datatype Core = Core(
    tasks: Table,
    queue: Queue,
    parked: Parks,
    timers: set<nat>,
    notices: seq<Notice>,
    aborts: seq<PendingAbort>,
    flight: Option<TaskKey>,
    batch: Batch,
    starts: Starts)

  const NEW_CORE := Core(map[], Queue([], [], 0), map[], {}, [], [], None, Batch([], None, []), NO_STARTS)

  /** Completions are published, the scope's start packets dropped and local starts adopted. */
  ghost predicate Collected(c: Core, scope: Option<nat>, added: seq<TaskKey>, c': Core) {
    && c'.batch == Flushed(c.batch) && c'.starts == StartsAfter(c.starts, scope)
    && Adopted(c.tasks, c.starts.local, added, c'.tasks)
    && c'.queue == c.queue.(normal := c.queue.normal + added)
    && c'.parked == c.parked && c'.timers == c.timers && c'.notices == c.notices
    && c'.aborts == c.aborts && c'.flight == c.flight
  }

  /** Every wait of the scope whose publisher is not in flight was retired. */
  ghost predicate Prepared(c: Core, scope: Option<nat>, busy: set<nat>, c': Core) {
    && c'.parked == Abandoned(c.tasks, c.parked, scope, busy)
    && c'.tasks == c.tasks && c'.queue == c.queue && c'.timers == c.timers && c'.notices == c.notices
    && c'.aborts == c.aborts && c'.flight == c.flight && c'.batch == c.batch && c'.starts == c.starts
  }

  /** The scope's tasks go, or, iff a publisher in flight refuses, stay and wait. */
  ghost predicate Reclaiming(c: Core, scope: Option<nat>, reason: Failure, busy: set<nat>, done: bool, c': Core) {
    && (done <==> !Refused(c.tasks, c.parked, scope, busy))
    && (done ==> Spared(c.tasks, c.queue, c.parked, c.flight, c'.tasks, c'.queue, c'.parked, c'.flight, scope))
    && (!done ==>
         && c'.tasks == c.tasks && c'.parked == Abandoned(c.tasks, c.parked, scope, busy)
         && c'.flight == HeldBack(c.flight, c.aborts, c.tasks, scope) && c'.queue == Returned(c.queue, c.flight, c'.flight))
    && c'.timers == c.timers - TokensOf(c.parked, c.parked.Keys - c'.parked.Keys)
    && c'.aborts == (if done then Kept(c.aborts, OtherThan(scope)) else Deferred(c.aborts, scope, reason))
    && (forall n :: n in c'.notices <==> n in c.notices && n.route in c'.parked)
    && c'.batch == c.batch && c'.starts == c.starts
  }

  /** A deferred abort is remembered and holds its task back; nothing else moves. */
  ghost predicate Remembered(c: Core, scope: Option<nat>, reason: Failure, c': Core) {
    && c'.aborts == Deferred(c.aborts, scope, reason)
    && c'.flight == HeldBack(c.flight, c.aborts, c.tasks, scope) && c'.queue == Returned(c.queue, c.flight, c'.flight)
    && c'.tasks == c.tasks && c'.parked == c.parked && c'.timers == c.timers && c'.notices == c.notices
    && c'.batch == c.batch && c'.starts == c.starts
  }

  lemma {:induction false} RememberedIsReclaiming(c: Core, mid: Core, scope: Option<nat>, reason: Failure, busy: set<nat>, c': Core)
    requires Prepared(c, scope, busy, mid) && Remembered(mid, scope, reason, c') && Refused(c.tasks, c.parked, scope, busy)
    requires forall n :: n in c.notices ==> n.route in c'.parked
    ensures Reclaiming(c, scope, reason, busy, false, c')
  {
    NoTokens(c.parked, c.parked.Keys - c'.parked.Keys);
  }

  /** One abort, from its two halves; `all` are the tasks in between. */
  ghost predicate Aborted(c: Core, scope: Option<nat>, reason: Failure, busy: set<nat>,
                          added: seq<TaskKey>, all: Table, done: bool, c': Core) {
    var q := c.queue.(normal := c.queue.normal + added);
    && c'.batch == Flushed(c.batch) && c'.starts == StartsAfter(c.starts, scope)
    && Adopted(c.tasks, c.starts.local, added, all)
    && (done <==> !Refused(all, c.parked, scope, busy))
    && (done ==> Spared(all, q, c.parked, c.flight, c'.tasks, c'.queue, c'.parked, c'.flight, scope))
    && (!done ==>
         && c'.tasks == all && c'.parked == Abandoned(all, c.parked, scope, busy)
         && c'.flight == HeldBack(c.flight, c.aborts, all, scope) && c'.queue == Returned(q, c.flight, c'.flight))
    && c'.timers == c.timers - TokensOf(c.parked, c.parked.Keys - c'.parked.Keys)
    && c'.aborts == (if done then Kept(c.aborts, OtherThan(scope)) else Deferred(c.aborts, scope, reason))
    && (forall n :: n in c'.notices <==> n in c.notices && n.route in c'.parked)
  }

  lemma {:induction false} AbortedInTwo(c: Core, scope: Option<nat>, reason: Failure, busy: set<nat>,
                                        added: seq<TaskKey>, mid: Core, done: bool, c': Core)
    requires Collected(c, scope, added, mid) && Reclaiming(mid, scope, reason, busy, done, c')
    ensures Aborted(c, scope, reason, busy, added, mid.tasks, done, c')
  {
  }

  /** One try of a retry pass: the local starts it adopted, whether it went through, and where it led. */
  datatype Attempt = Attempt(added: seq<TaskKey>, all: Table, done: bool, after: Core)

  const NO_ATTEMPT := Attempt([], map[], false, NEW_CORE)

  /** The tokens whose publication is in flight when the entry at `index` is tried. */
  function BusyAt(busy: map<nat, set<nat>>, index: nat): set<nat> {
    if index in busy then busy[index] else {}
  }

  /** Taking the pending abort at `index` out of the list and trying it. */
  ghost predicate Tried(c: Core, index: nat, busy: set<nat>, a: Attempt) {
    && index < |c.aborts|
    && Aborted(c.(aborts := SwapRemoved(c.aborts, index)), c.aborts[index].scope, c.aborts[index].reason,
               busy, a.added, a.all, a.done, a.after)
  }
}
