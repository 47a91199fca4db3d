/**
 One drive iteration as a relation between kernel values: sweeping, retrying aborts, waking,
 selecting and mounting, each phase tied to the value it starts from and to the inputs.
 */
module KernelTicks {
  import opened Options
  import opened Collections
  import opened Tasks
  import opened RQ = ReadyQueue
  import opened KernelState
  import opened KernelSpec
  import opened KernelPhases
  import opened KernelRetry
  import opened KernelAborts
  import opened KernelWakes

  /** What the outside answers during one drive iteration. */
  datatype Inputs = Inputs(
    scopesExited: bool,
    signalChanged: bool,
    /** Tokens whose publication is in flight: at each retried abort, and at an abort of the picked task. */
    busy: map<nat, set<nat>>,
    refusing: set<nat>,
    answers: map<nat, Publication>,
    wakes: seq<Arrival>,
    expired: set<nat>,
    late: seq<Arrival>,
    last: seq<Arrival>,
    /** Aborts the control plane has requested, by scope. */
    requests: map<nat, Failure>,
    fiber: Fiber)

  const NO_INPUTS := Inputs(false, false, map[], {}, map[], [], {}, [], [], map[], Fiber(Yield, [], {}))

  // ------------------------------------------------- reclaiming

  /** If borrowed scopes have exited, exactly the revoked tasks are gone from every place. */
  ghost predicate Swept(c: Core, exited: bool, c': Core) {
    if !exited then c' == c
    else
      && c'.tasks == (map k | k in c.tasks && !c.tasks[k].revoked :: c.tasks[k])
      && c'.queue == Eligible(c.queue, Not(Lost(c.tasks)))
      && c'.parked == ParksLeft(c.parked, Lost(c.tasks)) && c'.timers == c.timers - Tokens(c.parked, Lost(c.tasks))
      && (forall n :: n in c'.notices <==> n in c.notices && n.route in c'.parked)
      && c'.aborts == c.aborts && c'.flight == c.flight && c'.batch == c.batch && c'.starts == c.starts
  }

  /** After a signal every deferred abort is retried. */
  ghost predicate Retrying(c: Core, signal: bool, busy: map<nat, set<nat>>, c': Core, added: seq<TaskKey>, all: Table) {
    if signal then Passed(c, busy, c', added, all) else c' == c
  }

  // ------------------------------------------------- waking

  ghost function AwakeOf(c: Core): Waking {
    Waking(c.parked, c.queue.wakes, c.timers, Noted(c.notices))
  }

  /** A pass over notices: whether it met no fault, and what it left. */
  datatype Roused = Roused(ok: bool, now: Waking)

  ghost function Revisited(tasks: Table, w: Waking, notices: seq<Notice>, answers: map<nat, Publication>): Roused {
    Roused(!RevisitFaults(tasks, w, notices, answers, |notices|), RevisitAll(tasks, w, notices, answers, |notices|))
  }

  ghost function Rung(tasks: Table, w: Waking, arrivals: seq<Arrival>): Roused {
    Roused(!WakeFaults(tasks, w, arrivals), WakeAll(tasks, w, arrivals))
  }

  /** Arrived notices act, then expired timers go and the notices they selected act. */
  ghost function Absorbed(tasks: Table, w: Waking, i: Inputs): Roused {
    var a := if i.signalChanged || (w.parked != map[] && i.wakes != []) then Rung(tasks, w, i.wakes) else Roused(true, w);
    if !a.ok || a.now.timers == {} then a
    else Rung(tasks, a.now.(timers := a.now.timers - i.expired), i.late)
  }

  /** After a signal deferred notices are revisited first. */
  ghost function Rousing(tasks: Table, w: Waking, notices: seq<Notice>, i: Inputs): Roused {
    var a := if i.signalChanged then Revisited(tasks, w, notices, i.answers) else Roused(true, w);
    if a.ok then Absorbed(tasks, a.now, i) else a
  }

  /** Waking touches park records, timers, notices and the wake lane only. */
  ghost predicate Steady(c: Core, c': Core) {
    && c'.tasks == c.tasks && c'.queue.normal == c.queue.normal && c'.queue.streak == c.queue.streak
    && c'.aborts == c.aborts && c'.flight == c.flight && c'.batch == c.batch && c'.starts == c.starts
  }

  /** A deferred notice is never a fault; an arriving one is if it names another task. */
  ghost predicate Rose(c: Core, i: Inputs, ok: bool, c': Core) {
    && Owned(c.tasks, c.parked, c.notices, |c.notices|)
    && (i.signalChanged ==> Revisited(c.tasks, AwakeOf(c), c.notices, i.answers).ok)
    && Steady(c, c') && Roused(ok, AwakeOf(c')) == Rousing(c.tasks, AwakeOf(c), c.notices, i)
  }

  // ------------------------------------------------- selecting

  /** The cohort policy on the tasks that are not held back; nothing is picked iff all are. */
  ghost predicate Picked(tasks: Table, aborts: seq<PendingAbort>, q: Queue, flight: Option<TaskKey>, q': Queue) {
    var p := Unblocked(tasks, aborts);
    if flight.None? then
      AllBlocked(tasks, aborts, q.normal + q.wakes) && q' == if aborts == [] then q.(streak := 0) else q
    else
      && flight.value in tasks && !Blocked(aborts, tasks[flight.value].scope)
      && (flight, Eligible(q', p)) == Popped(Eligible(q, p)) && LosesOne(q, q', flight.value)
  }

  lemma {:induction false} AllUnblocked(tasks: Table, q: Queue)
    requires forall k :: k in q.normal || k in q.wakes ==> k in tasks
    ensures Eligible(q, Unblocked(tasks, [])) == q
  {
    KeptEverything(q.normal, Unblocked(tasks, []));
    KeptEverything(q.wakes, Unblocked(tasks, []));
  }

  lemma {:induction false} NormalIsLost(q: Queue, q': Queue, i: nat)
    requires i < |q.normal| && q'.wakes == q.wakes && q'.normal == Without(q.normal, i)
    ensures LosesOne(q, q', q.normal[i])
  {
  }

  lemma {:induction false} WakeIsLost(q: Queue, q': Queue, i: nat)
    requires i < |q.wakes| && q'.normal == q.normal && q'.wakes == Without(q.wakes, i)
    ensures LosesOne(q, q', q.wakes[i])
  {
  }

  /** What the cohort policy serves leaves its lane and nothing else does. */
  lemma {:induction false} PoppedIsLost(q: Queue)
    ensures Popped(q).0.Some? ==> LosesOne(q, Popped(q).1, Popped(q).0.value)
  {
    var q' := Popped(q).1;
    if Popped(q).0.Some? {
      if q'.wakes == q.wakes {
        EndsAreWithout(q.normal);
        NormalIsLost(q, q', 0);
      } else if q.streak < WAKE_BURST {
        EndsAreWithout(q.wakes);
        WakeIsLost(q, q', 0);
      } else {
        EndsAreWithout(q.wakes);
        WakeIsLost(q, q', |q.wakes| - 1);
      }
    }
  }

  lemma {:induction false} PoppedIsLive(tasks: Table, q: Queue)
    requires forall k :: k in q.normal || k in q.wakes ==> k in tasks
    ensures Popped(q).0.Some? ==> Popped(q).0.value in tasks
    ensures forall k :: k in Popped(q).1.normal || k in Popped(q).1.wakes ==> k in tasks
  {
    if q.normal != [] { EndsAreMembers(q.normal); }
    if q.wakes != [] { EndsAreMembers(q.wakes); }
  }

  lemma {:induction false} EndsAreMembers(s: seq<TaskKey>)
    requires s != []
    ensures s[0] in s && s[|s| - 1] in s
    ensures forall k :: k in s[1..] || k in s[..|s| - 1] ==> k in s
  {
  }

  /** Without deferred aborts the plain cohort policy applies. */
  lemma {:induction false} PoppedIsPicked(tasks: Table, q: Queue)
    requires forall k :: k in q.normal || k in q.wakes ==> k in tasks
    ensures Picked(tasks, [], q, Popped(q).0, Popped(q).1)
  {
    AllUnblocked(tasks, q);
    PoppedIsLost(q);
    PoppedIsLive(tasks, q);
    AllUnblocked(tasks, Popped(q).1);
  }

  lemma {:induction false} EndsAreWithout(s: seq<TaskKey>)
    requires s != []
    ensures s[1..] == Without(s, 0) && s[..|s| - 1] == Without(s, |s| - 1)
  {
  }

  /** If nothing can be picked and notices arrive, they act and selection runs once more. */
  ghost predicate Chose(c: Core, last: seq<Arrival>, ok: bool, mid: Queue, c': Core) {
    && c'.tasks == c.tasks && c'.aborts == c.aborts && c'.batch == c.batch && c'.starts == c.starts
    && if last == [] || !Stuck(c) then
         && ok && Picked(c.tasks, c.aborts, c.queue, c'.flight, c'.queue)
         && c'.parked == c.parked && c'.timers == c.timers && c'.notices == c.notices
       else
         && Picked(c.tasks, c.aborts, c.queue, None, mid)
         && var r := Rung(c.tasks, AwakeOf(c).(wakes := mid.wakes), last);
            && ok == r.ok && AwakeOf(c').(wakes := []) == r.now.(wakes := [])
            && if r.ok then Picked(c.tasks, c.aborts, mid.(wakes := r.now.wakes), c'.flight, c'.queue)
               else c'.flight.None? && c'.queue == mid.(wakes := r.now.wakes)
  }

  /** Every ready task is held back. */
  ghost predicate Stuck(c: Core) {
    AllBlocked(c.tasks, c.aborts, c.queue.normal + c.queue.wakes)
  }

  /** One selection; everything but the lanes and the task in flight stays. */
  ghost predicate Selected(c: Core, c': Core) {
    && Picked(c.tasks, c.aborts, c.queue, c'.flight, c'.queue)
    && c'.tasks == c.tasks && c'.parked == c.parked && c'.timers == c.timers && c'.notices == c.notices
    && c'.aborts == c.aborts && c'.batch == c.batch && c'.starts == c.starts
  }

  /** A pass over notices that arrive. */
  ghost predicate Rang(c: Core, arrivals: seq<Arrival>, ok: bool, c': Core) {
    Steady(c, c') && Roused(ok, AwakeOf(c')) == Rung(c.tasks, AwakeOf(c), arrivals)
  }

  lemma {:induction false} ChoseAtOnce(c: Core, last: seq<Arrival>, c': Core)
    requires Selected(c, c') && (c'.flight.Some? || last == [])
    ensures Chose(c, last, true, c'.queue, c')
  {
    if c'.flight.Some? { PickedIsReady(c, c'); }
  }

  /** A picked task was ready and not held back. */
  lemma {:induction false} PickedIsReady(c: Core, c': Core)
    requires Selected(c, c') && c'.flight.Some?
    ensures !Stuck(c)
  {
    var k := c'.flight.value;
    assert k in c.queue.normal + c.queue.wakes;
  }

  lemma {:induction false} ChoseLate(c: Core, last: seq<Arrival>, mid: Core, ok: bool, rung: Core, c': Core)
    requires Selected(c, mid) && mid.flight.None? && last != [] && Rang(mid, last, ok, rung)
    requires if ok then Selected(rung, c') else c' == rung
    ensures Chose(c, last, ok, mid.queue, c')
  {
  }

  // ------------------------------------------------- mounting

  function Room(limit: nat, c: Core): nat {
    if |c.tasks| + Waiting(c.starts) < limit then limit - |c.tasks| - Waiting(c.starts) else 0
  }

  /** Completions of another scope are published before a task is mounted. */
  function Settled(b: Batch, scope: nat): Batch {
    if b.updates != [] && b.updates[0].scope != scope then Flushed(b) else b
  }

  /** The task in flight goes where its step says: back of the normal lane, a park record, or away. */
  ghost predicate Stepped(c: Core, step: Step, ok: bool, c': Core)
    requires c.flight.Some? && c.flight.value in c.tasks
  {
    var k, task := c.flight.value, c.tasks[c.flight.value];
    && c'.starts == c.starts && c'.notices == c.notices && c'.aborts == c.aborts
    && c'.queue == (if step.Yield? then c.queue.(normal := c.queue.normal + [k]) else c.queue)
    && c'.tasks == (if step.Complete? || step.Revoked? then c.tasks - {k} else c.tasks)
    && Logged(c'.batch) == Logged(c.batch) + (if step.Complete? then [task] else [])
    && (!step.Complete? ==> c'.batch == c.batch)
    && (ok <==> Parks(c.timers, step))
    && c'.flight == (if ok then None else c.flight)
    && c'.parked == (if step.ParkOn? && ok then c.parked[k := Park(step.token, step.deadline, false, false)] else c.parked)
    && c'.timers == (if step.ParkOn? && ok && step.deadline then c.timers + {step.token} else c.timers)
  }

  /** The fiber ran: its local children wait to start, frames it left are revoked, other scopes' completions are out. */
  ghost predicate Ran(c: Core, fiber: Fiber, limit: nat, c': Core)
    requires c.flight.Some? && c.flight.value in c.tasks
  {
    var k, task := c.flight.value, c.tasks[c.flight.value];
    && c'.tasks == Revoking(c.tasks, k, fiber.revokes) && c'.batch == Settled(c.batch, task.scope)
    && c'.starts == c.starts.(local := c.starts.local + Spawned(fiber.children, Room(limit, c), task.scope))
    && c'.queue == c.queue && c'.parked == c.parked && c'.timers == c.timers
    && c'.notices == c.notices && c'.aborts == c.aborts && c'.flight == c.flight
  }

  /** A step that parks needs a registered wait and, with a deadline, an unused timer. */
  predicate Parks(timers: set<nat>, step: Step) {
    step.ParkOn? ==> step.registered && (step.deadline ==> step.token !in timers)
  }

  /** Aborting the scope of the task in flight takes it out of flight, unless the scope was held back already. */
  lemma {:induction false} AbortGrounds(c: Core, scope: nat, reason: Failure, busy: set<nat>, added: seq<TaskKey>, all: Table, done: bool, c': Core)
    requires Aborted(c, Some(scope), reason, busy, added, all, done, c')
    requires c.flight.Some? && c.flight.value in c.tasks && c.tasks[c.flight.value].scope == scope && !Blocked(c.aborts, scope)
    ensures c'.flight.None? && (Idle(c.starts) ==> Idle(c'.starts))
  {
    StartsStayOpen(c.starts, Some(scope), {});
    assert all[c.flight.value] == c.tasks[c.flight.value];
    if Blocks(c.aborts, None) {
      var i :| 0 <= i < |c.aborts| && c.aborts[i].scope.None?;
      assert Hits(c.aborts[i].scope, scope);
    }
  }

  /** Only the pending completions were published. */
  ghost predicate Rested(c: Core, c': Core) {
    && c'.batch == Flushed(c.batch)
    && c'.tasks == c.tasks && c'.queue == c.queue && c'.parked == c.parked && c'.timers == c.timers
    && c'.notices == c.notices && c'.aborts == c.aborts && c'.flight == c.flight && c'.starts == c.starts
  }

  /** What an abort in place of mounting adopted and whether it went through, and the kernel after the fiber ran. */
  datatype Mount = Mount(added: seq<TaskKey>, all: Table, done: bool, ran: Core)

  /** Nothing was picked, the picked task's scope is aborted, or the task is mounted. */
  ghost predicate Mounted(c: Core, i: Inputs, limit: nat, ok: bool, key: Option<TaskKey>, task: Task, m: Mount, c': Core) {
    if c.flight.None? then
      ok && key.None? && Rested(c, c')
    else
      && c.flight.value in c.tasks
      && var picked := c.tasks[c.flight.value];
         if picked.scope in i.requests then
           ok && key.None? && Aborted(c, Some(picked.scope), i.requests[picked.scope], i.refusing, m.added, m.all, m.done, c')
         else
           key == c.flight && task == picked && Ran(c, i.fiber, limit, m.ran) && Stepped(m.ran, i.fiber.step, ok, c')
  }

  /** The abort that takes the place of mounting, if the picked task's scope is being aborted. */
  function MountAbort(c: Core, i: Inputs): seq<PendingAbort> {
    if c.flight.Some? && c.flight.value in c.tasks && c.tasks[c.flight.value].scope in i.requests then
      [PendingAbort(Some(c.tasks[c.flight.value].scope), i.requests[c.tasks[c.flight.value].scope])]
    else
      []
  }

  // ------------------------------------------------- a whole iteration

  /** Where an iteration passed through once deferred aborts were retried. */
  datatype Stretch = Stretch(roused: Core, woke: bool, skipped: Queue, chosen: Core, chose: bool, mount: Mount)

  /** Where a whole iteration passed through. */
  datatype Course = Course(swept: Core, retried: Core, added: seq<TaskKey>, all: Table, onward: Stretch)

  const NO_COURSE := Course(NEW_CORE, NEW_CORE, [], map[], Stretch(NEW_CORE, true, Queue([], [], 0), NEW_CORE, true, Mount([], map[], true, NEW_CORE)))

  /** Waking, selecting and mounting; a fault while waking or selecting ends the iteration. */
  ghost predicate Onward(c: Core, i: Inputs, limit: nat, m: Stretch, ok: bool, ran: bool, key: Option<TaskKey>, task: Task, c': Core) {
    && Rose(c, i, m.woke, m.roused)
    && if !m.woke then !ok && !ran && key.None? && c' == m.roused
       else
         && Chose(m.roused, i.last, m.chose, m.skipped, m.chosen)
         && if !m.chose then !ok && !ran && key.None? && c' == m.chosen
            else ran == m.chosen.flight.Some? && Mounted(m.chosen, i, limit, ok, key, task, m.mount, c')
  }

  /** A drive iteration: where it began, what it was given, what it reported and where it ended. */
  datatype Iteration = Iteration(from: Core, inputs: Inputs, limit: nat, course: Course,
                                 ok: bool, ran: bool, key: Option<TaskKey>, task: Task, to: Core)

  const NO_ITERATION := Iteration(NEW_CORE, NO_INPUTS, 0, NO_COURSE, true, false, None, Task(0, 0, false), NEW_CORE)

  /** One iteration of a live kernel, phase by phase. */
  ghost predicate Ticked(t: Iteration) {
    && Rooted(t.from)
    && Swept(t.from, t.inputs.scopesExited, t.course.swept)
    && Retrying(t.course.swept, t.inputs.signalChanged, t.inputs.busy, t.course.retried, t.course.added, t.course.all)
    && Onward(t.course.retried, t.inputs, t.limit, t.course.onward, t.ok, t.ran, t.key, t.task, t.to)
  }

  /** The abort an iteration tries in place of mounting, if any. */
  function LateTries(m: Stretch, i: Inputs): seq<PendingAbort> {
    if m.woke && m.chose then MountAbort(m.chosen, i) else []
  }

  /** The aborts an iteration tries, in order. */
  function TickTries(t: Iteration): seq<PendingAbort> {
    (if t.inputs.signalChanged then Backward(t.from.aborts) else []) + LateTries(t.course.onward, t.inputs)
  }

  /** The task an iteration mounts, if any. */
  function TickMounts(t: Iteration): seq<Task> {
    if t.key.Some? then [t.task] else []
  }

  // ------------------------------------------------- what an iteration guarantees

  /** A notice that arrived for a route whose task is another one. */
  predicate Misaddressed(tasks: Table, a: Arrival) {
    a.notice.route in tasks && tasks[a.notice.route].id != a.notice.task
  }

  lemma {:induction false} FaultIsMisaddressed(tasks: Table, w: Waking, arrivals: seq<Arrival>)
    requires WakeFaults(tasks, w, arrivals)
    ensures exists a :: a in arrivals && Misaddressed(tasks, a)
    decreases |arrivals|
  {
    if Foreign(tasks, w.parked, arrivals[0].notice) {
      assert Misaddressed(tasks, arrivals[0]) && arrivals[0] in arrivals;
    } else {
      FaultIsMisaddressed(tasks, WakeOne(tasks, w, arrivals[0].notice, arrivals[0].publication), arrivals[1..]);
      var a :| a in arrivals[1..] && Misaddressed(tasks, a);
      assert a in arrivals;
    }
  }

  /** The arriving notices name the right tasks, and the mounted task parks on a registered wait and an unused timer. */
  ghost predicate Fair(t: Iteration) {
    && (forall a :: a in t.inputs.wakes + t.inputs.late + t.inputs.last ==> !Misaddressed(t.course.retried.tasks, a))
    && (t.key.Some? && t.inputs.fiber.step.ParkOn? ==>
         && t.inputs.fiber.step.registered
         && (t.inputs.fiber.step.deadline ==> t.inputs.fiber.step.token !in t.course.onward.mount.ran.timers))
  }

  lemma {:induction false} NoFaultAmong(tasks: Table, w: Waking, arrivals: seq<Arrival>, all: seq<Arrival>)
    requires (forall a :: a in arrivals ==> a in all) && forall a :: a in all ==> !Misaddressed(tasks, a)
    ensures !WakeFaults(tasks, w, arrivals)
  {
    if WakeFaults(tasks, w, arrivals) { FaultIsMisaddressed(tasks, w, arrivals); }
  }

  lemma {:induction false} FairRouses(c: Core, i: Inputs, ok: bool, c': Core)
    requires Rose(c, i, ok, c') && forall a :: a in i.wakes + i.late + i.last ==> !Misaddressed(c.tasks, a)
    ensures ok
  {
    var all, w := i.wakes + i.late + i.last, AwakeOf(c);
    var a := if i.signalChanged then Revisited(c.tasks, w, c.notices, i.answers) else Roused(true, w);
    NoFaultAmong(c.tasks, a.now, i.wakes, all);
    var b := if i.signalChanged || (a.now.parked != map[] && i.wakes != []) then Rung(c.tasks, a.now, i.wakes) else Roused(true, a.now);
    NoFaultAmong(c.tasks, b.now.(timers := b.now.timers - i.expired), i.late, all);
  }

  /** A fair iteration succeeds: only a misaddressed notice or a bad park is a fault. */
  lemma {:induction false} FairTickSucceeds(t: Iteration)
    requires Ticked(t) && Fair(t)
    ensures t.ok
  {
    var m := t.course.onward;
    FairRouses(t.course.retried, t.inputs, m.woke, m.roused);
    var all := t.inputs.wakes + t.inputs.late + t.inputs.last;
    NoFaultAmong(m.roused.tasks, AwakeOf(m.roused).(wakes := m.skipped.wakes), t.inputs.last, all);
  }

  /** Every ready task belongs to a scope with a deferred abort. */
  ghost predicate HeldUp(c: Core) {
    forall k :: k in c.queue.normal || k in c.queue.wakes ==> k in c.tasks && exists a :: a in c.aborts && About(a.scope, c.tasks[k].scope)
  }

  /** The selected task's scope is being aborted. */
  ghost predicate Condemned(c: Core, i: Inputs) {
    c.flight.Some? && c.flight.value in c.tasks && c.tasks[c.flight.value].scope in i.requests
  }

  lemma {:induction false} BlockedIsNamed(aborts: seq<PendingAbort>, s: nat)
    ensures Blocked(aborts, s) <==> exists a :: a in aborts && About(a.scope, s)
  {
    if Blocked(aborts, s) {
      var i :| 0 <= i < |aborts| && Hits(aborts[i].scope, s);
      assert aborts[i] in aborts;
    }
    if a :| a in aborts && About(a.scope, s) {
      var i :| 0 <= i < |aborts| && aborts[i] == a;
      assert Hits(aborts[i].scope, s);
    }
  }

  lemma {:induction false} StuckIsHeldUp(c: Core)
    requires Stuck(c)
    ensures HeldUp(c)
  {
    forall k | k in c.queue.normal || k in c.queue.wakes
      ensures k in c.tasks && exists a :: a in c.aborts && About(a.scope, c.tasks[k].scope)
    {
      assert k in c.queue.normal + c.queue.wakes;
      BlockedIsNamed(c.aborts, c.tasks[k].scope);
    }
  }

  /**
   A successful iteration mounts a task, and never one of a scope with a deferred or requested
   abort, unless every ready task is held back or the picked task's scope is being aborted.
   */
  lemma {:induction false} TickMountsOrIsExcused(t: Iteration)
    requires Ticked(t) && t.ok
    ensures t.key.None? ==> HeldUp(t.to) || Condemned(t.course.onward.chosen, t.inputs)
    ensures t.key.Some? ==> (forall a :: a in t.to.aborts ==> !About(a.scope, t.task.scope)) && t.task.scope !in t.inputs.requests
  {
    var m := t.course.onward;
    if m.chosen.flight.None? {
      assert Stuck(m.chosen);
      StuckIsHeldUp(t.to);
    } else if t.key.Some? {
      BlockedIsNamed(t.to.aborts, t.task.scope);
    }
  }
}
