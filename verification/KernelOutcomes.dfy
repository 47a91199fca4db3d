/**
 What one drive iteration does for single tasks: a published wake is not lost and no other
 task wakes, expired timers go, and what a mounted task's step leaves behind.
 */
module KernelOutcomes {
  import opened Options
  import opened Collections
  import opened Tasks
  import opened RQ = ReadyQueue
  import opened KernelState
  import opened KernelSpec
  import opened KernelPhases
  import opened KernelRetry
  import opened KernelAborts
  import opened KernelWakes
  import opened KernelTicks

  // ------------------------------------------------- waking

  /** The waking state between deferred and arriving notices. */
  ghost function Revived(c: Core, i: Inputs): Waking {
    if i.signalChanged then RevisitAll(c.tasks, AwakeOf(c), c.notices, i.answers, |c.notices|) else AwakeOf(c)
  }

  /** The waking state between arriving and timed-out notices. */
  ghost function Arrived(c: Core, i: Inputs): Waking {
    var w := Revived(c, i);
    if i.signalChanged || (w.parked != map[] && i.wakes != []) then WakeAll(c.tasks, w, i.wakes) else w
  }

  lemma {:induction false} RoseInThree(c: Core, i: Inputs, c': Core)
    requires Rose(c, i, true, c')
    ensures var w, a := Revived(c, i), Arrived(c, i);
            && (w.parked != map[] ==> !WakeFaults(c.tasks, w, i.wakes) || i.wakes == [])
            && (a.timers != {} ==> !WakeFaults(c.tasks, a.(timers := a.timers - i.expired), i.late))
            && AwakeOf(c') == if a.timers == {} then a else WakeAll(c.tasks, a.(timers := a.timers - i.expired), i.late)
  {
  }

  /** From the start of waking to its end a record can only go, to the wake lane, and timers can only go. */
  lemma {:induction false} RoseKeeps(c: Core, i: Inputs, c': Core, k: TaskKey)
    requires Rose(c, i, true, c')
    ensures var w, a := Revived(c, i), Arrived(c, i);
            && (k in w.parked ==> k in c.parked && w.parked[k] == c.parked[k].(deferred := w.parked[k].deferred))
            && (k in a.parked ==> k in w.parked && a.parked[k] == w.parked[k].(deferred := a.parked[k].deferred))
            && (k in c'.parked ==> k in a.parked && c'.parked[k] == a.parked[k].(deferred := c'.parked[k].deferred))
            && (k in c.parked && k !in c'.parked ==> k in c'.queue.wakes)
            && (k in c.parked && k !in w.parked ==> k in w.wakes)
            && a.timers <= w.timers <= c.timers
  {
    RoseInThree(c, i, c');
    RevisitKeeps(c.tasks, AwakeOf(c), c.notices, i.answers, |c.notices|, k);
    WakesKeep(c.tasks, Revived(c, i), i.wakes, k);
    var a := Arrived(c, i);
    WakesKeep(c.tasks, a.(timers := a.timers - i.expired), i.late, k);
  }

  /** A published wake that arrives takes its task to the wake lane. */
  lemma {:induction false} ArrivalWakes(c: Core, i: Inputs, c': Core, k: TaskKey)
    requires Rose(c, i, true, c') && k in c.parked && k in c.tasks && !c.parked[k].retired
    requires SomeSays(c.tasks, c.parked, i.wakes, k, Published)
    ensures k !in c'.parked && k in c'.queue.wakes
  {
    RoseInThree(c, i, c');
    RoseKeeps(c, i, c', k);
    var w := Revived(c, i);
    if k in w.parked {
      SameSayings(c.tasks, c.parked, w.parked, i.wakes, k, Published);
      WakesExactly(c.tasks, w, i.wakes, k);
    }
  }

  /** Expired timers are gone, and a published timeout takes its task to the wake lane, unless no timer was left. */
  lemma {:induction false} TimeoutWakes(c: Core, i: Inputs, c': Core, k: TaskKey)
    requires Rose(c, i, true, c') && k in c.parked && k in c.tasks && !c.parked[k].retired
    ensures c'.timers !! i.expired
    ensures SomeSays(c.tasks, c.parked, i.late, k, Published) && c'.timers != {} ==> k !in c'.parked && k in c'.queue.wakes
  {
    RoseInThree(c, i, c');
    RoseKeeps(c, i, c', k);
    var a := Arrived(c, i);
    if a.timers != {} {
      WakesKeep(c.tasks, a.(timers := a.timers - i.expired), i.late, k);
      if k in a.parked {
        SameSayings(c.tasks, c.parked, a.parked, i.late, k, Published);
        WakesExactly(c.tasks, a.(timers := a.timers - i.expired), i.late, k);
      }
    }
  }

  /** The deferred notice of `k` is answered as published after a signal. */
  ghost predicate Released(c: Core, i: Inputs, k: TaskKey) {
    && i.signalChanged
    && exists j :: 0 <= j < |c.notices| && c.notices[j].route == k && (if j in i.answers then i.answers[j] else Published) == Published
  }

  /** After a signal a task whose deferred publication has finished goes to the wake lane. */
  lemma {:induction false} ReleaseWakes(c: Core, i: Inputs, c': Core, k: TaskKey)
    requires Rose(c, i, true, c') && Released(c, i, k)
    requires k in c.parked && !c.parked[k].retired
    ensures k !in c'.parked && k in c'.queue.wakes
  {
    RoseKeeps(c, i, c', k);
    RevisitsExactly(c.tasks, AwakeOf(c), c.notices, i.answers, |c.notices|);
    var j :| 0 <= j < |c.notices| && c.notices[j].route == k && (if j in i.answers then i.answers[j] else Published) == Published;
    assert Verdict(c.parked, c.notices, i.answers, j) == Published;
  }

  /** Nobody wakes unasked: a task leaves its park record only by a published notice for its own unretired wait. */
  lemma {:induction false} NobodyWakesUnasked(c: Core, i: Inputs, c': Core, k: TaskKey)
    requires Rose(c, i, true, c')
    requires k in c.parked && k in c.tasks && k !in c'.parked
    ensures !c.parked[k].retired
    ensures Released(c, i, k) || SomeSays(c.tasks, c.parked, i.wakes, k, Published) || SomeSays(c.tasks, c.parked, i.late, k, Published)
  {
    RoseInThree(c, i, c');
    RoseKeeps(c, i, c', k);
    var w, a := Revived(c, i), Arrived(c, i);
    if k !in w.parked {
      RevisitsExactly(c.tasks, AwakeOf(c), c.notices, i.answers, |c.notices|);
      assert Routed(c.notices, |c.notices|, k);
      var j :| 0 <= j < |c.notices| && c.notices[j].route == k;
      assert Verdict(c.parked, c.notices, i.answers, j) == Published;
    } else if k !in a.parked {
      SameSayings(c.tasks, c.parked, w.parked, i.wakes, k, Published);
      WakesExactly(c.tasks, w, i.wakes, k);
    } else {
      SameSayings(c.tasks, c.parked, a.parked, i.late, k, Published);
      WakesExactly(c.tasks, a.(timers := a.timers - i.expired), i.late, k);
    }
  }

  /** A fault while waking: an arriving or a timed-out notice names another task than the one parked on its route by then. */
  lemma {:induction false} WakingFaultsExactly(c: Core, i: Inputs, ok: bool, c': Core)
    requires Rose(c, i, ok, c') && forall k :: k in c.parked ==> k in c.tasks
    ensures var w, a := Revived(c, i), Arrived(c, i);
            ok <==> && (forall n: nat :: !FaultAt(c.tasks, w, i.wakes, n))
                    && (a.timers != {} ==> forall n: nat :: !FaultAt(c.tasks, a.(timers := a.timers - i.expired), i.late, n))
  {
    var w, a := Revived(c, i), Arrived(c, i);
    forall k
      ensures k in w.parked || k in a.parked ==> k in c.tasks
    {
      RevisitKeeps(c.tasks, AwakeOf(c), c.notices, i.answers, |c.notices|, k);
      WakesKeep(c.tasks, w, i.wakes, k);
    }
    FaultsExactly(c.tasks, w, i.wakes);
    FaultsExactly(c.tasks, a.(timers := a.timers - i.expired), i.late);
  }

  // ------------------------------------------------- up to the end of an iteration

  /** Sweeping leaves a live kernel. */
  lemma {:induction false} SweptStaysRooted(c: Core, exited: bool, c': Core)
    requires Rooted(c) && Swept(c, exited, c')
    ensures Rooted(c')
  {
    if exited {
      KeptElements(c.queue.normal, Not(Lost(c.tasks)));
      KeptElements(c.queue.wakes, Not(Lost(c.tasks)));
    }
  }

  /** When borrowed scopes have exited exactly the revoked tasks go before anything else. */
  lemma {:induction false} RevokedAreReclaimed(t: Iteration, k: TaskKey)
    requires Ticked(t) && t.inputs.scopesExited
    ensures k in t.course.swept.tasks <==> k in t.from.tasks && !t.from.tasks[k].revoked
    ensures k in t.course.swept.tasks ==>
              && t.course.swept.tasks[k] == t.from.tasks[k]
              && (k in t.from.parked <==> k in t.course.swept.parked)
              && (k in t.from.queue.normal <==> k in t.course.swept.queue.normal)
              && (k in t.from.queue.wakes <==> k in t.course.swept.queue.wakes)
  {
    KeptElements(t.from.queue.normal, Not(Lost(t.from.tasks)));
    KeptElements(t.from.queue.wakes, Not(Lost(t.from.tasks)));
  }

  lemma {:induction false} SweptKeepsPublishing(c: Core, exited: bool, c': Core, scope: Option<nat>, busy: set<nat>, k: TaskKey)
    requires Swept(c, exited, c')
    ensures Publishing(c', scope, busy, k) <==> Publishing(c, scope, busy, k)
  {
  }

  /** After a signal every deferred abort is retried: it is pending again iff a publication of its scope is in flight. */
  lemma {:induction false} SignalRetries(t: Iteration, j: nat)
    requires Ticked(t) && t.inputs.signalChanged && j < |t.from.aborts|
    ensures var e, now := t.from.aborts[j], if j in t.inputs.busy then t.inputs.busy[j] else {};
            && (e in t.course.retried.aborts <==> exists k :: Publishing(t.from, e.scope, now, k))
            && (e !in t.course.retried.aborts ==> forall k :: k in t.course.retried.tasks ==> !About(e.scope, t.course.retried.tasks[k].scope))
  {
    var swept := t.course.swept;
    var e, now := t.from.aborts[j], if j in t.inputs.busy then t.inputs.busy[j] else {};
    SweptStaysRooted(t.from, t.inputs.scopesExited, swept);
    assert swept.aborts == t.from.aborts;
    PassDecides(swept, t.inputs.busy, t.course.retried, t.course.added, t.course.all, j);
    forall k
      ensures Publishing(swept, e.scope, now, k) <==> Publishing(t.from, e.scope, now, k)
    {
      SweptKeepsPublishing(t.from, t.inputs.scopesExited, swept, e.scope, now, k);
    }
  }

  /** A parked task that no sweep and no deferred abort is about is still parked when waking begins. */
  lemma {:induction false} StillParked(t: Iteration, k: TaskKey)
    requires Ticked(t) && k in t.from.parked
    requires t.inputs.scopesExited ==> !t.from.tasks[k].revoked
    requires t.inputs.signalChanged ==> forall a :: a in t.from.aborts ==> !About(a.scope, t.from.tasks[k].scope)
    ensures var c := t.course.retried;
            k in c.parked && c.parked[k] == t.from.parked[k] && k in c.tasks && c.tasks[k] == t.from.tasks[k]
  {
    SweptStaysRooted(t.from, t.inputs.scopesExited, t.course.swept);
    if t.inputs.signalChanged {
      PassSpares(t.course.swept, t.inputs.busy, t.course.retried, t.course.added, t.course.all, k);
    }
  }

  /** After waking, only the mounted task can be parked anew. */
  lemma {:induction false} OnlyMountedParks(t: Iteration, k: TaskKey)
    requires Ticked(t) && t.ok && k !in t.course.onward.roused.parked
    ensures k in t.to.parked ==> t.key == Some(k)
  {
    var m := t.course.onward;
    if t.inputs.last != [] && Stuck(m.roused) {
      WakesKeep(m.roused.tasks, AwakeOf(m.roused).(wakes := m.skipped.wakes), t.inputs.last, k);
    }
    assert k !in m.chosen.parked;
  }

  /**
   A published wake is not lost: whatever else an iteration does, a parked task for whose
   unretired wait a published notice arrives is in the wake lane when tasks are selected, and
   it is parked afterwards only if it was mounted and parked again.
   */
  lemma {:induction false} PublishedWakeIsNotLost(t: Iteration, k: TaskKey)
    requires Ticked(t) && t.ok && k in t.from.parked && !t.from.parked[k].retired
    requires t.inputs.scopesExited ==> !t.from.tasks[k].revoked
    requires t.inputs.signalChanged ==> forall a :: a in t.from.aborts ==> !About(a.scope, t.from.tasks[k].scope)
    requires SomeSays(t.from.tasks, t.from.parked, t.inputs.wakes, k, Published)
    ensures k in t.course.onward.roused.queue.wakes
    ensures k in t.to.parked ==> t.key == Some(k)
  {
    var c := t.course.retried;
    StillParked(t, k);
    assert forall b :: Says(c.tasks, c.parked, b, k, Published) <==> Says(t.from.tasks, t.from.parked, b, k, Published);
    assert SomeSays(c.tasks, c.parked, t.inputs.wakes, k, Published);
    ArrivalWakes(c, t.inputs, t.course.onward.roused, k);
    OnlyMountedParks(t, k);
  }

  /** With nothing else to mount, a published notice that arrives last is not lost either. */
  lemma {:induction false} LastWakeIsNotLost(t: Iteration, k: TaskKey)
    requires Ticked(t) && t.ok && HeldUp(t.course.onward.roused)
    requires var c := t.course.onward.roused;
             k in c.parked && k in c.tasks && !c.parked[k].retired && SomeSays(c.tasks, c.parked, t.inputs.last, k, Published)
    ensures k in t.to.parked ==> t.key == Some(k)
  {
    var m := t.course.onward;
    HeldUpIsStuck(m.roused);
    WakesExactly(m.roused.tasks, AwakeOf(m.roused).(wakes := m.skipped.wakes), t.inputs.last, k);
    assert t.inputs.last != [];
  }

  lemma {:induction false} HeldUpIsStuck(c: Core)
    requires HeldUp(c)
    ensures Stuck(c)
  {
    forall k | k in c.queue.normal + c.queue.wakes
      ensures k in c.tasks && Blocked(c.aborts, c.tasks[k].scope)
    {
      BlockedIsNamed(c.aborts, c.tasks[k].scope);
    }
  }

  // ------------------------------------------------- mounting

  /** Live tasks and starts on their way in. */
  function Population(c: Core): nat {
    |c.tasks| + |c.starts.incoming| + |c.starts.inbox| + |c.starts.local| + if c.starts.pending.Some? then 1 else 0
  }

  lemma {:induction false} FiberSpawns(c: Core, fiber: Fiber, limit: nat, ran: Core)
    requires c.flight.Some? && c.flight.value in c.tasks && Ran(c, fiber, limit, ran)
    ensures var free := if Population(c) < limit then limit - Population(c) else 0;
            var n, from := if |fiber.children| < free then |fiber.children| else free, |c.starts.local|;
            && |ran.starts.local| == from + n && ran.starts.local[..from] == c.starts.local
            && forall j :: 0 <= j < n ==> ran.starts.local[from + j] == Task(fiber.children[j], c.tasks[c.flight.value].scope, false)
  {
  }

  lemma {:induction false} FiberRevokes(c: Core, fiber: Fiber, limit: nat, ran: Core, j: TaskKey)
    requires c.flight.Some? && c.flight.value in c.tasks && Ran(c, fiber, limit, ran)
    ensures j in ran.tasks <==> j in c.tasks
    ensures j in ran.tasks ==>
              && ran.tasks[j].id == c.tasks[j].id && ran.tasks[j].scope == c.tasks[j].scope
              && (ran.tasks[j].revoked <==>
                   || c.tasks[j].revoked
                   || (j in fiber.revokes && j != c.flight.value && j.borrowed && c.tasks[j].scope == c.tasks[c.flight.value].scope))
  {
  }

  /** As many of a mounted task's children wait to start as the limit on tasks allows, in order and in its scope. */
  lemma {:induction false} MountSpawns(t: Iteration)
    requires Ticked(t) && t.key.Some?
    ensures var c, children := t.course.onward.chosen, t.inputs.fiber.children;
            var free := if Population(c) < t.limit then t.limit - Population(c) else 0;
            var n, from := if |children| < free then |children| else free, |c.starts.local|;
            && |t.to.starts.local| == from + n && t.to.starts.local[..from] == c.starts.local
            && forall j :: 0 <= j < n ==> t.to.starts.local[from + j] == Task(children[j], t.task.scope, false)
  {
    FiberSpawns(t.course.onward.chosen, t.inputs.fiber, t.limit, t.course.onward.mount.ran);
  }

  /** Exactly the borrowed frames of its scope that a mounted task gave back are revoked, and no other task changes. */
  lemma {:induction false} MountRevokes(t: Iteration, j: TaskKey)
    requires Ticked(t) && t.key.Some? && j in t.to.tasks
    ensures var c, k := t.course.onward.chosen, t.key.value;
            && j in c.tasks && t.to.tasks[j].id == c.tasks[j].id && t.to.tasks[j].scope == c.tasks[j].scope
            && (t.to.tasks[j].revoked <==>
                 c.tasks[j].revoked || (j in t.inputs.fiber.revokes && j != k && j.borrowed && c.tasks[j].scope == t.task.scope))
  {
    FiberRevokes(t.course.onward.chosen, t.inputs.fiber, t.limit, t.course.onward.mount.ran, j);
  }

  /** Where the step of the task in flight sends it. */
  lemma {:induction false} StepSends(c: Core, step: Step, ok: bool, c': Core)
    requires c.flight.Some? && c.flight.value in c.tasks && Stepped(c, step, ok, c')
    ensures ok <==> (step.ParkOn? ==> step.registered && (step.deadline ==> step.token !in c.timers))
    ensures var k := c.flight.value;
            ok ==>
              && c'.flight.None? && c'.queue.wakes == c.queue.wakes
              && c'.queue.normal == (if step.Yield? then c.queue.normal + [k] else c.queue.normal)
              && (forall j :: j in c'.tasks <==> j in c.tasks && !(j == k && (step.Complete? || step.Revoked?)))
              && c'.parked == (if step.ParkOn? then c.parked[k := Park(step.token, step.deadline, false, false)] else c.parked)
  {
  }

  /**
   A mounted task is where its step sends it: at the back of the normal lane, parked, or
   gone; a step is a fault if and only if it parks on an unregistered wait or a used timer.
   */
  lemma {:induction false} MountSends(t: Iteration)
    requires Ticked(t) && t.key.Some?
    ensures var step := t.inputs.fiber.step;
            t.ok <==> (step.ParkOn? ==> step.registered && (step.deadline ==> step.token !in t.course.onward.chosen.timers))
    ensures var c, k, step := t.course.onward.chosen, t.key.value, t.inputs.fiber.step;
            t.ok ==>
              && t.to.flight.None? && t.to.queue.wakes == c.queue.wakes
              && t.to.queue.normal == (if step.Yield? then c.queue.normal + [k] else c.queue.normal)
              && (forall j :: j in t.to.tasks <==> j in c.tasks && !(j == k && (step.Complete? || step.Revoked?)))
              && t.to.parked == (if step.ParkOn? then c.parked[k := Park(step.token, step.deadline, false, false)] else c.parked)
  {
    var c, ran := t.course.onward.chosen, t.course.onward.mount.ran;
    StepSends(ran, t.inputs.fiber.step, t.ok, t.to);
    forall j
      ensures j in ran.tasks <==> j in c.tasks
    {
      FiberRevokes(c, t.inputs.fiber, t.limit, ran, j);
    }
  }

  /** A selected task whose scope is being aborted is not mounted: the scope has no task left, or its abort is deferred. */
  lemma {:induction false} CondemnedIsAborted(t: Iteration)
    requires Ticked(t) && t.ok && Condemned(t.course.onward.chosen, t.inputs)
    ensures var c := t.course.onward.chosen;
            var scope := c.tasks[c.flight.value].scope;
            && t.key.None? && t.ran
            && ((forall k :: k in t.to.tasks ==> t.to.tasks[k].scope != scope) || exists a :: a in t.to.aborts && About(a.scope, scope))
  {
    var m := t.course.onward;
    var c, scope := m.chosen, m.chosen.tasks[m.chosen.flight.value].scope;
    if !m.mount.done { DeferredIsRemembered(c.aborts, Some(scope), t.inputs.requests[scope]); }
  }

  // ------------------------------------------------- completions

  /** The task an iteration completes, if any. */
  function Completes(t: Iteration): seq<Task> {
    if t.key.Some? && t.ok && t.inputs.fiber.step.Complete? then [t.task] else []
  }

  /** Every completion, published or waiting, in order. */
  function Completed(b: Batch): seq<Task> {
    b.published + b.updates
  }

  lemma {:induction false} FlushKeepsCompleted(b: Batch)
    ensures Completed(Flushed(b)) == Completed(b) && Flushed(b).updates == []
  {
    assert Completed(b) + [] == Completed(b);
  }

  /** Mounting adds the completion of the mounted task; without a task everything goes out. */
  lemma {:induction false} MountCompletes(c: Core, i: Inputs, limit: nat, ok: bool, key: Option<TaskKey>, task: Task, m: Mount, c': Core)
    requires Mounted(c, i, limit, ok, key, task, m, c')
    ensures Completed(c'.batch) == Completed(c.batch) + if key.Some? && i.fiber.step.Complete? then [task] else []
    ensures key.None? ==> c'.batch.updates == []
    ensures key.Some? && i.fiber.step.Complete? ==> ok
  {
    FlushKeepsCompleted(c.batch);
    assert Completed(c.batch) + [] == Completed(c.batch);
  }

  /** What comes before mounting only publishes completions. */
  lemma {:induction false} WaitingKeepsCompleted(t: Iteration)
    requires Ticked(t)
    ensures Completed(t.course.retried.batch) == Completed(t.from.batch)
    ensures t.course.onward.roused.batch == t.course.retried.batch
    ensures t.course.onward.woke ==> t.course.onward.chosen.batch == t.course.retried.batch
  {
    FlushKeepsCompleted(t.from.batch);
    assert t.course.swept.batch == t.from.batch;
  }

  /** Exactly the task that completes is added to the completions; with nothing mounted all of them are out. */
  lemma {:induction false} TickCompletes(t: Iteration)
    requires Ticked(t)
    ensures Completed(t.to.batch) == Completed(t.from.batch) + Completes(t)
    ensures t.ok && t.key.None? ==> t.to.batch.updates == []
  {
    var m := t.course.onward;
    WaitingKeepsCompleted(t);
    assert Completed(t.from.batch) + [] == Completed(t.from.batch);
    if m.woke && m.chose {
      MountCompletes(m.chosen, t.inputs, t.limit, t.ok, t.key, t.task, m.mount, t.to);
    }
  }
}
