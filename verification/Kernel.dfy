/**
 The carrier kernel, updated in place: selecting, parking, waking, completing and
 aborting tasks. A fiber's step, a wait's publication and a stack allocation are
 arbitrary; everything else is decided by the kernel's own fields.
 */
module Kernel {
  import opened Options
  import opened Collections
  import opened Tasks
  import opened RQ = ReadyQueue
  import opened KernelState
  import opened KernelSpec
  import opened KernelPhases
  import opened KernelRetry
  import opened KernelWakes
  import opened KernelTicks
  import opened Admission

  class Kernel {
    const ready: ReadyQueue
    const maxVthreads: nat
    const maxOwnedScopes: nat
    const capacity: nat
    var tasks: Table
    /** The map that `ParkedTasks` keeps in two slot vectors. */
    var parked: Parks
    var deferredWakes: seq<Notice>
    var pendingAborts: seq<PendingAbort>
    var inFlight: Option<TaskKey>
    var starts: Starts
    var timers: set<nat>
    var batch: Batch
    var aborted: nat
    var staleWakes: nat
    var gate: Gate
    /** What the kernel shares with other threads: open scopes, and whether its inbox was told to stop. */
    var shared: Shared
    /** Every task ever admitted to this carrier, every abort tried and every task mounted. */
    ghost var admitted: nat
    ghost var attempts: seq<PendingAbort>
    ghost var dispatched: seq<Task>

    /** Each live task is in exactly one place. */
    ghost predicate Placed()
      reads this, ready
    {
      Partitioned(tasks, ready.View(), parked, inFlight)
    }

    /** Deferred notices and timers belong to park records, and a deferred notice names its record's own task. */
    ghost predicate Tracked()
      reads this
    {
      Matched(parked, deferredWakes) && TimersOwned(timers, parked) && Addressed(tasks, deferredWakes)
    }

    /** Tasks belong to open scopes, and so do deferred aborts, through a task they still own. */
    ghost predicate Scoped()
      reads this
    {
      && TasksOpen(tasks, shared.scopes) && StartsOpen(starts, shared.scopes)
      && |shared.scopes| <= maxOwnedScopes && maxOwnedScopes > 0
      && AbortsDistinct(pendingAborts) && AbortsOwned(pendingAborts, tasks)
    }

    /** Every admitted task is waiting, live, aborted or completed, and admission is bounded. */
    ghost predicate Balanced()
      reads this
    {
      && |tasks| + Waiting(starts) <= maxVthreads
      && |tasks| + Waiting(starts) + aborted + |Logged(batch)| == admitted
    }

    ghost predicate Valid()
      reads this, ready
    {
      Placed() && Tracked() && Scoped() && Balanced() && Batched(batch)
    }

    constructor (vthreads: nat, ownedScopes: nat, queue: nat)
      requires ownedScopes > 0
      ensures Valid() && fresh(ready) && Idle(starts) && inFlight.None?
      ensures tasks == map[] && starts == NO_STARTS && pendingAborts == [] && shared == NEW_SHARED && admitted == 0
      ensures attempts == [] && dispatched == [] && gate == Gate(0, false)
      ensures Now() == NEW_CORE && maxVthreads == vthreads && maxOwnedScopes == ownedScopes && capacity == queue
    {
      ready := new ReadyQueue();
      maxVthreads, maxOwnedScopes, capacity := vthreads, ownedScopes, queue;
      tasks, parked, deferredWakes, pendingAborts := map[], map[], [], [];
      inFlight, starts, timers, batch := None, NO_STARTS, {}, Batch([], None, []);
      aborted, staleWakes := 0, 0;
      gate, shared := Gate(0, false), NEW_SHARED;
      admitted, attempts, dispatched := 0, [], [];
    }

    /** The published counts; their sum is what the carrier asserts. */
    method Snapshot() returns (active: nat, runnable: nat, suspended: nat)
      requires Placed()
      ensures active == |tasks| && suspended == |parked|
      ensures active == runnable + suspended + if inFlight.Some? then 1 else 0
    {
      active, runnable, suspended := |tasks|, |ready.normal| + |ready.wakes|, |parked|;
      PartitionSizes(tasks, ready.View(), parked, inFlight);
    }

    // ----------------------------------------------- selection

    /** Serves the cohort policy, skipping every task whose abort is deferred. */
    method SelectReady()
      requires Placed() && inFlight.None?
      modifies `inFlight, ready
      ensures Placed() && Picked(tasks, pendingAborts, old(ready.View()), inFlight, ready.View())
    {
      ReadyAreLive();
      if pendingAborts == [] {
        PoppedIsTaken(ready.View());
        PoppedIsPicked(tasks, ready.View());
        inFlight := ready.PopFront();
      } else {
        inFlight := SelectUnblocked();
      }
      if inFlight.None? {
        SameHeldPartition(tasks, old(ready.View()), ready.View(), parked, None);
      } else {
        LostIsTaken(old(ready.View()), ready.View(), inFlight.value);
        ReadyToFlight(tasks, old(ready.View()), ready.View(), parked, inFlight.value);
      }
    }

    lemma ParkedAreLive(tasks: Table, q: Queue)
      requires Partitioned(tasks, q, parked, inFlight)
      ensures forall k :: k in parked ==> k in tasks
    {
      forall k | k in parked
        ensures k in tasks
      {
        OnePlace(tasks, q, parked, inFlight, k);
      }
    }

    lemma ReadyAreLive()
      requires Placed()
      ensures forall k :: k in ready.normal || k in ready.wakes || k in parked ==> k in tasks
    {
      forall k
        ensures k in ready.normal || k in ready.wakes || k in parked ==> k in tasks
      {
        OnePlace(tasks, ready.View(), parked, inFlight, k);
      }
    }

    method SelectUnblocked() returns (task: Option<TaskKey>)
      requires Placed() && inFlight.None? && pendingAborts != []
      modifies ready
      ensures Picked(tasks, pendingAborts, old(ready.View()), task, ready.View())
    {
      var p := Unblocked(tasks, pendingAborts);
      ReadyAreLive();
      task := ready.PopMatching(p);
      KeptElements(old(ready.normal), p);
      KeptElements(old(ready.wakes), p);
      if task.Some? {
        assert task.value in Eligible(old(ready.View()), p).normal || task.value in Eligible(old(ready.View()), p).wakes;
      } else {
        forall k | k in ready.normal + ready.wakes
          ensures k in tasks && Blocked(pendingAborts, tasks[k].scope)
        {
          assert !p(k);
        }
      }
    }

    // ----------------------------------------------- what other threads do

    /** Opens a scope if the bound on owned scopes allows it. */
    method OpenScope(scope: nat)
      requires Valid()
      modifies `shared
      ensures Valid()
      ensures shared == if |old(shared).scopes| < maxOwnedScopes then old(shared).(scopes := old(shared).scopes + {scope}) else old(shared)
    {
      if |shared.scopes| < maxOwnedScopes {
        shared := shared.(scopes := shared.scopes + {scope});
      }
    }

    /** Finishes a scope once it has no task and no start left on this carrier. */
    method FinishScope(scope: nat)
      requires Valid()
      modifies `shared
      ensures Valid()
      ensures shared == if Busy(tasks, starts, scope) then old(shared) else old(shared).(scopes := old(shared).scopes - {scope})
    {
      if !Busy(tasks, starts, scope) {
        shared := shared.(scopes := shared.scopes - {scope});
        IdleScopeFinishes(tasks, starts, old(shared.scopes), scope);
        SmallerSet(shared.scopes, old(shared.scopes));
      }
    }

    /** Tells the inbox to stop: the drive loop will abort everything. */
    method Stop()
      requires Valid()
      modifies `shared
      ensures Valid() && shared == old(shared).(stopped := true)
    {
      shared := shared.(stopped := true);
    }

    /** Publishes a start, unless admission, the scope or a stopped or full inbox refuses it. */
    method Submit(task: Task) returns (accepted: bool)
      requires Valid()
      modifies `starts, `admitted
      ensures Valid()
      ensures accepted <==>
                !shared.stopped && task.scope in shared.scopes && |old(starts).inbox| < capacity && |tasks| + Waiting(old(starts)) < maxVthreads
      ensures starts == if accepted then old(starts).(inbox := old(starts).inbox + [task]) else old(starts)
      ensures Idle(old(starts)) ==> Idle(starts)
    {
      accepted := !shared.stopped && task.scope in shared.scopes && |starts.inbox| < capacity && |tasks| + Waiting(starts) < maxVthreads;
      if accepted {
        starts := starts.(inbox := starts.inbox + [task]);
        admitted := admitted + 1;
      }
    }

    // ----------------------------------------------- waking

    /** Takes out a park record together with its deferred notice, if it has one. */
    method RemoveParked(k: TaskKey) returns (park: Park)
      requires k in parked && Matched(parked, deferredWakes)
      modifies `parked, `deferredWakes
      ensures park == old(parked)[k] && parked == old(parked) - {k}
      ensures Matched(parked, deferredWakes)
      ensures forall n :: n in deferredWakes <==> n in old(deferredWakes) && n.route != k
      ensures !park.deferred ==> deferredWakes == old(deferredWakes)
      ensures |deferredWakes| == |old(deferredWakes)| - if park.deferred then 1 else 0
    {
      park := parked[k];
      if park.deferred {
        ghost var found := DeferringHasRoute(parked, deferredWakes, k);
        var i := 0;
        while !(deferredWakes[i].route == k && deferredWakes[i].token == park.token)
          invariant i <= found
          decreases found - i
        {
          i := i + 1;
        }
        UndeferKeepsMatch(parked, deferredWakes, i);
        OthersRemain(parked, deferredWakes, i);
        deferredWakes := SwapRemoved(deferredWakes, i);
      } else {
        UndeferredLeaves(parked, deferredWakes, k);
        assert forall n :: n in deferredWakes ==> n.route in parked - {k};
      }
      parked := parked - {k};
    }

    method FinishWake(n: Notice)
      requires Placed() && Tracked() && n.route in parked && n.token == parked[n.route].token
      modifies `parked, `deferredWakes, `timers, ready`wakes
      ensures Placed() && Tracked()
      ensures parked == old(parked) - {n.route} && ready.wakes == [n.route] + old(ready.wakes)
      ensures !old(parked)[n.route].deferred ==> deferredWakes == old(deferredWakes)
      ensures Noted(deferredWakes) == Unnoted(Noted(old(deferredWakes)), n.route)
      ensures timers == if old(parked)[n.route].hasDeadline then old(timers) - {n.token} else old(timers)
    {
      var park := RemoveParked(n.route);
      if park.hasDeadline {
        timers := timers - {n.token};
      }
      ready.PushWake(n.route);
      TimerLeaves(old(timers), old(parked), n.route);
      ParkedToWake(tasks, old(ready.View()), old(parked), inFlight, n.route);
    }

    ghost function Awake(): Waking
      reads this, ready
    {
      Waking(parked, ready.wakes, timers, Noted(deferredWakes))
    }

    /** Validates a notice against its park record; a foreign task is a fault. */
    method ProcessWake(n: Notice, publication: Publication) returns (ok: bool)
      requires Placed() && Tracked() && |tasks| <= maxVthreads
      modifies `parked, `deferredWakes, `timers, `staleWakes, ready`wakes
      ensures Placed() && Tracked() && (ok <==> !Foreign(tasks, old(parked), n))
      ensures Awake() == WakeOne(tasks, old(Awake()), n, publication)
      ensures n.route in old(parked) && !old(parked)[n.route].deferred ==> old(deferredWakes) <= deferredWakes
    {
      ok := true;
      if n.route !in parked {
        staleWakes := staleWakes + 1;
        return;
      }
      ParkedIsLive(tasks, ready.View(), parked, inFlight, n.route);
      if tasks[n.route].id != n.task {
        ok := false;
      } else if parked[n.route].token != n.token {
        staleWakes := staleWakes + 1;
      } else {
        match Answer(parked[n.route], publication)
        case Published => FinishWake(n);
        case InFlight => DeferWake(n);
        case Stale => staleWakes := staleWakes + 1;
      }
    }

    method DeferWake(n: Notice)
      requires Placed() && Tracked() && |tasks| <= maxVthreads && !Foreign(tasks, parked, n)
      requires n.route in parked && n.token == parked[n.route].token
      modifies `parked, `deferredWakes
      ensures Placed() && Tracked()
      ensures if old(parked)[n.route].deferred then parked == old(parked) && deferredWakes == old(deferredWakes)
              else parked == old(parked)[n.route := old(parked)[n.route].(deferred := true)] && deferredWakes == old(deferredWakes) + [n]
    {
      if !parked[n.route].deferred {
        DeferKeepsMatch(parked, deferredWakes, n);
        PartitionSizes(tasks, ready.View(), parked, inFlight);
        var marked := parked[n.route := parked[n.route].(deferred := true)];
        TimersCarryOver(timers, parked, marked);
        SameKeysPartition(tasks, ready.View(), parked, marked, inFlight);
        parked := marked;
        // The capacity assertion: deferred wakes never exceed live-task admission.
        assert |deferredWakes| < maxVthreads;
        deferredWakes := deferredWakes + [n];
      }
    }

    /** Processes whatever notices arrived, in order, until one is a fault. */
    method ProcessWakes(arrivals: seq<Arrival>) returns (ok: bool)
      requires Placed() && Tracked() && |tasks| <= maxVthreads
      modifies `parked, `deferredWakes, `timers, `staleWakes, ready`wakes
      ensures Placed() && Tracked()
      ensures Awake() == WakeAll(tasks, old(Awake()), arrivals)
      ensures !ok <==> WakeFaults(tasks, old(Awake()), arrivals)
    {
      ok := true;
      var i := 0;
      ghost var goal := WakeAll(tasks, Awake(), arrivals);
      ghost var faulty := WakeFaults(tasks, Awake(), arrivals);
      assert arrivals[0..] == arrivals;
      while ok && i < |arrivals|
        invariant Placed() && Tracked() && 0 <= i <= |arrivals|
        invariant if ok then WakeAll(tasks, Awake(), arrivals[i..]) == goal else Awake() == goal
        invariant faulty == (!ok || WakeFaults(tasks, Awake(), arrivals[i..]))
        decreases |arrivals| - i
      {
        assert arrivals[i..] == [arrivals[i]] + arrivals[i + 1..];
        ok := ProcessWake(arrivals[i].notice, arrivals[i].publication);
        i := i + 1;
      }
    }

    /** Revisits each deferred notice once, newest first; those still in flight are deferred again, and none is a fault. */
    method ProcessDeferredWakes(answers: map<nat, Publication>) returns (ok: bool)
      requires Placed() && Tracked() && |tasks| <= maxVthreads
      modifies `parked, `deferredWakes, `timers, `staleWakes, ready`wakes
      ensures Placed() && Tracked()
      ensures Awake() ==
              RevisitAll(tasks, old(Awake()), old(deferredWakes), answers, |old(deferredWakes)|)
      ensures ok && !RevisitFaults(tasks, old(Awake()), old(deferredWakes), answers, |old(deferredWakes)|)
    {
      ok := true;
      ghost var all := deferredWakes;
      var index: nat := |deferredWakes|;
      ghost var goal := RevisitAll(tasks, Awake(), all, answers, index);
      ghost var faulty := RevisitFaults(tasks, Awake(), all, answers, index);
      while ok && index > 0
        invariant Placed() && Tracked() && ok
        invariant index <= |deferredWakes| && index <= |all| && deferredWakes[..index] == all[..index]
        invariant RevisitAll(tasks, Awake(), all, answers, index) == goal
        invariant faulty == RevisitFaults(tasks, Awake(), all, answers, index)
        decreases index
      {
        index := index - 1;
        ok := RevisitOne(index, all, AnswerAt(answers, index));
      }
    }

    /** Takes one deferred notice out, clears its mark and processes it; older notices keep their positions. */
    method RevisitOne(index: nat, ghost all: seq<Notice>, publication: Publication) returns (ok: bool)
      requires Placed() && Tracked() && |tasks| <= maxVthreads
      requires index < |deferredWakes| && index < |all| && deferredWakes[..index + 1] == all[..index + 1]
      modifies `parked, `deferredWakes, `timers, `staleWakes, ready`wakes
      ensures Placed() && Tracked()
      ensures index <= |deferredWakes| && deferredWakes[..index] == all[..index]
      ensures var w := Cleared(old(Awake()), all[index].route);
              && ok && !Foreign(tasks, w.parked, all[index])
              && Awake() == WakeOne(tasks, w, all[index], publication)
    {
      var n := deferredWakes[index];
      assert n == all[..index + 1][index];
      SwapRemovedParts(deferredWakes, index);
      Undefer(index);
      assert deferredWakes[..index] == all[..index];
      ghost var before := deferredWakes;
      ok := ProcessWake(n, publication);
      assert before <= deferredWakes;
    }

    /** Takes one deferred notice out and clears its record's mark. */
    method Undefer(i: nat)
      requires Placed() && Tracked() && i < |deferredWakes|
      modifies `parked, `deferredWakes
      ensures Placed() && Tracked() && parked.Keys == old(parked.Keys)
      ensures deferredWakes == SwapRemoved(old(deferredWakes), i)
      ensures Noted(deferredWakes) == Unnoted(Noted(old(deferredWakes)), old(deferredWakes)[i].route)
      ensures var n := old(deferredWakes)[i];
              && n.route in old(parked) && parked == old(parked)[n.route := old(parked)[n.route].(deferred := false)]
              && parked[n.route].token == n.token
    {
      var n := deferredWakes[i];
      UndeferKeepsMatch(parked, deferredWakes, i);
      OthersRemain(parked, deferredWakes, i);
      deferredWakes := SwapRemoved(deferredWakes, i);
      // The route-reuse assertion: a deferred route still holds its own generation.
      assert parked[n.route].token == n.token;
      var marked := parked[n.route := parked[n.route].(deferred := false)];
      TimersCarryOver(timers, parked, marked);
      SameKeysPartition(tasks, ready.View(), parked, marked, inFlight);
      parked := marked;
    }

    // ----------------------------------------------- completion

    /** Publishes the batched completions. */
    method FlushCompletions()
      requires Batched(batch)
      modifies `batch
      ensures Batched(batch) && batch == Flushed(old(batch)) && Logged(batch) == Logged(old(batch))
    {
      if batch.updates == [] {
        return;
      }
      batch := batch.(published := batch.published + batch.updates);
      batch := batch.(updates := []);
    }

    /** Adds a completion to the batch of its own scope. */
    method QueueCompletion(t: Task)
      requires Batched(batch) && forall c :: c in batch.updates ==> c.scope == t.scope
      modifies `batch
      ensures Batched(batch) && Logged(batch) == Logged(old(batch)) + [t]
    {
      if batch.cached != Some(t.scope) {
        // The live batch never changes scope.
        HasElement(batch.updates);
        assert batch.updates == [];
        batch := batch.(cached := Some(t.scope));
      }
      batch := batch.(updates := batch.updates + [t]);
      var mayDefer: bool := *;
      if |batch.updates| == COMPLETION_BATCH || !mayDefer {
        batch := Flushed(batch);
      }
    }

    /** Forgets the task in flight. */
    method RemoveInFlight()
      requires Placed() && inFlight.Some?
      modifies `tasks, `inFlight
      ensures Placed() && inFlight.None?
      ensures old(inFlight).value in old(tasks) && tasks == old(tasks) - {old(inFlight).value}
      ensures |tasks| + 1 == |old(tasks)|
    {
      var k := inFlight.value;
      FlightEnds(tasks, ready.View(), parked, k);
      inFlight := None;
      // Removing a live in-flight task never misses.
      assert k in tasks;
      assert tasks.Keys == (tasks - {k}).Keys + {k};
      tasks := tasks - {k};
    }

    method CompleteTask()
      requires Placed() && inFlight.Some? && Batched(batch)
      requires inFlight.value in tasks && forall c :: c in batch.updates ==> c.scope == tasks[inFlight.value].scope
      modifies `tasks, `inFlight, `batch
      ensures Placed() && inFlight.None? && Batched(batch)
      ensures tasks == old(tasks) - {old(inFlight).value} && |tasks| + 1 == |old(tasks)|
      ensures Logged(batch) == Logged(old(batch)) + [old(tasks)[old(inFlight).value]]
      ensures ready.normal == [] && ready.wakes == [] ==> batch.updates == []
    {
      var t := tasks[inFlight.value];
      RemoveInFlight();
      QueueCompletion(t);
      if ready.normal == [] && ready.wakes == [] {
        FlushCompletions();
      }
    }

    // ----------------------------------------------- dispatch

    /** Records the park of the task in flight; a bad wait or a reused timer is a fault. */
    method ParkTask(token: nat, deadline: bool, registered: bool) returns (ok: bool)
      requires Placed() && Tracked() && inFlight.Some?
      modifies `parked, `timers, `inFlight
      ensures Placed() && Tracked()
      ensures ok <==> registered && (deadline ==> token !in old(timers))
      ensures !ok ==> parked == old(parked) && timers == old(timers) && inFlight == old(inFlight)
      ensures ok ==>
                && inFlight.None? && parked == old(parked)[old(inFlight).value := Park(token, deadline, false, false)]
                && timers == if deadline then old(timers) + {token} else old(timers)
    {
      var k := inFlight.value;
      var park := Park(token, deadline, false, false);
      FlightToParked(tasks, ready.View(), parked, k, park);
      if k in parked {
        return false;
      }
      if !registered {
        return false;
      }
      if deadline && token in timers {
        return false;
      }
      ParkKeepsTracking(parked, deferredWakes, timers, k, park);
      if deadline {
        timers := timers + {token};
      }
      inFlight := None;
      parked := parked[k := park];
      ok := true;
    }

    method YieldTask()
      requires Placed() && inFlight.Some?
      modifies `inFlight, ready`normal
      ensures Placed() && inFlight.None? && ready.normal == old(ready.normal) + [old(inFlight).value]
    {
      ready.PushBack(inFlight.value);
      inFlight := None;
      FlightToNormal(tasks, old(ready.View()), parked, old(inFlight).value);
    }

    // ----------------------------------------------- reclamation

    /** Reclaims the stack of the task in flight. */
    method DiscardInFlight()
      requires Placed() && inFlight.Some?
      modifies `tasks, `inFlight, `aborted
      ensures Placed() && inFlight.None? && aborted == old(aborted) + 1
      ensures old(inFlight).value in old(tasks) && tasks == old(tasks) - {old(inFlight).value} && |tasks| + 1 == |old(tasks)|
    {
      RemoveInFlight();
      aborted := aborted + 1;
      Publish();
    }

    /** Reclaims every ready task that satisfies `p`, keeping the order of the rest. */
    method SweepReady(p: TaskKey -> bool)
      requires Placed() && inFlight.None?
      modifies `tasks, `inFlight, `aborted, ready`normal, ready`wakes
      ensures Placed() && inFlight.None?
      ensures ready.View() == Eligible(old(ready.View()), Not(p))
      ensures Shrunk(old(tasks), tasks, p)
      ensures aborted + |tasks| == old(aborted) + |old(tasks)|
    {
      var i := Inspection(|ready.normal|, |ready.wakes|);
      InspectionStarts(ready.View(), p);
      var more := true;
      while more
        invariant Placed() && inFlight.None?
        invariant i.normal <= |ready.normal| && i.wakes <= |ready.wakes| && ready.wakeStreak == old(ready.wakeStreak)
        invariant Retained(ready.normal, i.normal, p) == Kept(old(ready.normal), Not(p))
        invariant Retained(ready.wakes, i.wakes, p) == Kept(old(ready.wakes), Not(p))
        invariant Shrunk(old(tasks), tasks, p)
        invariant aborted + |tasks| == old(aborted) + |old(tasks)|
        invariant !more ==> i == Inspection(0, 0)
        decreases i.normal + i.wakes, more
      {
        more, i := SweepOne(i, p);
      }
    }

    method SweepOne(i: Inspection, p: TaskKey -> bool) returns (more: bool, j: Inspection)
      requires Placed() && inFlight.None?
      requires i.normal <= |ready.normal| && i.wakes <= |ready.wakes|
      modifies `tasks, `inFlight, `aborted, ready`normal, ready`wakes
      ensures Placed() && inFlight.None?
      ensures j.normal <= |ready.normal| && j.wakes <= |ready.wakes|
      ensures Retained(ready.normal, j.normal, p) == old(Retained(ready.normal, i.normal, p))
      ensures Retained(ready.wakes, j.wakes, p) == old(Retained(ready.wakes, i.wakes, p))
      ensures j.normal + j.wakes <= i.normal + i.wakes && (more ==> j.normal + j.wakes < i.normal + i.wakes)
      ensures !more ==> j == Inspection(0, 0) && tasks == old(tasks) && aborted == old(aborted)
      ensures more ==> exists k :: p(k) && k in old(tasks) && tasks == old(tasks) - {k} && aborted == old(aborted) + 1
    {
      var task;
      task, j := ready.RemoveMatching(i, p);
      YieldIsTaken(old(ready.View()), i, ready.View(), j, p, task);
      more := task.Some?;
      if more {
        ReadyToFlight(tasks, old(ready.View()), ready.View(), parked, task.value);
        inFlight := task;
        DiscardInFlight();
      } else {
        SameHeldPartition(tasks, old(ready.View()), ready.View(), parked, None);
      }
    }

    /** Reclaims one parked task whose wait generation is already retired. */
    method SweepParkedOne(k: TaskKey)
      requires Placed() && Tracked() && inFlight.None? && k in parked && parked[k].retired
      modifies `tasks, `inFlight, `aborted, `parked, `deferredWakes, `timers
      ensures Placed() && Tracked() && inFlight.None?
      ensures parked == old(parked) - {k} && tasks == old(tasks) - {k} && timers == old(timers) - {old(parked)[k].token}
      ensures forall n :: n in deferredWakes <==> n in old(deferredWakes) && n.route != k
      ensures aborted + |tasks| == old(aborted) + |old(tasks)|
    {
      var park := RemoveParked(k);
      // The generation was retired by the preflight, so no publisher is left.
      assert park.retired;
      timers := timers - {park.token};
      inFlight := Some(k);
      TimerLeaves(old(timers), old(parked), k);
      ParkedToFlight(tasks, ready.View(), old(parked), k);
      DiscardInFlight();
    }

    /** Reclaims every parked task that satisfies `p`. */
    method SweepParked(p: TaskKey -> bool)
      requires Placed() && Tracked() && inFlight.None?
      requires forall k :: k in parked && p(k) ==> parked[k].retired
      modifies `tasks, `inFlight, `aborted, `parked, `deferredWakes, `timers
      ensures Placed() && Tracked() && inFlight.None?
      ensures parked == ParksLeft(old(parked), p) && Shrunk(old(tasks), tasks, p)
      ensures forall n :: n in deferredWakes <==> n in old(deferredWakes) && !p(n.route)
      ensures timers == old(timers) - Tokens(old(parked), p)
      ensures aborted + |tasks| == old(aborted) + |old(tasks)|
    {
      var todo := set k | k in parked && p(k);
      ghost var all, done: set<TaskKey> := todo, {};
      while todo != {}
        invariant Placed() && Tracked() && inFlight.None?
        invariant done !! todo && done + todo == all
        invariant parked == old(parked) - done && Shrunk(old(tasks), tasks, p)
        invariant forall n :: n in deferredWakes <==> n in old(deferredWakes) && n.route !in done
        invariant timers == old(timers) - TokensOf(old(parked), done)
        invariant aborted + |tasks| == old(aborted) + |old(tasks)|
        decreases todo
      {
        var k :| k in todo;
        ghost var before := tasks;
        assert k in all;
        SweepParkedOne(k);
        ShrinksFurther(old(tasks), before, p, k);
        OneMoreToken(old(parked), old(timers), done, k);
        MoveOver(done, todo, k);
        todo := todo - {k};
        done := done + {k};
      }
      SweptParks(old(parked), p, done);
      DeferredAreParked(parked, deferredWakes);
    }

    // ----------------------------------------------- scope abort

    /** Reclaims the tasks of a scope, given that all their waits are retired. */
    method AbortTasks(scope: Option<nat>)
      requires Placed() && Tracked()
      requires forall k :: k in parked && Doomed(tasks, scope)(k) ==> parked[k].retired
      modifies `tasks, `inFlight, `aborted, `parked, `deferredWakes, `timers, ready`normal, ready`wakes
      ensures Placed() && Tracked()
      ensures Spared(old(tasks), old(ready.View()), old(parked), old(inFlight), tasks, ready.View(), parked, inFlight, scope)
      ensures forall n :: n in deferredWakes <==> n in old(deferredWakes) && n.route in parked
      ensures timers == old(timers) - Tokens(old(parked), Doomed(old(tasks), scope))
      ensures aborted + |tasks| == old(aborted) + |old(tasks)| && |tasks| <= |old(tasks)|
    {
      var p := Doomed(tasks, scope);
      AbortFlight(p);
      var retained := inFlight;
      SweepAround(p, retained);
      SweptIsExact(old(tasks), old(ready.View()), tasks, ready.View(), parked, inFlight, p);
      SmallerSet(tasks.Keys, old(tasks).Keys);
    }

    /** Sweeps both lanes and the park records around the retained task in flight. */
    method SweepAround(p: TaskKey -> bool, retained: Option<TaskKey>)
      requires Placed() && Tracked() && inFlight == retained && (retained.Some? ==> !p(retained.value))
      requires forall k :: k in parked && p(k) ==> parked[k].retired
      modifies `tasks, `inFlight, `aborted, `parked, `deferredWakes, `timers, ready`normal, ready`wakes
      ensures Placed() && Tracked() && inFlight == retained
      ensures ready.View() == Eligible(old(ready.View()), Not(p)) && parked == ParksLeft(old(parked), p)
      ensures Shrunk(old(tasks), tasks, p)
      ensures forall n :: n in deferredWakes <==> n in old(deferredWakes) && n.route in parked
      ensures timers == old(timers) - Tokens(old(parked), p)
      ensures aborted + |tasks| == old(aborted) + |old(tasks)|
    {
      Unmount();
      SweepReady(p);
      ghost var left := tasks;
      SweepParked(p);
      ShrunkTwice(old(tasks), left, tasks, p);
      DeferredAreParked(parked, deferredWakes);
      RetainedLeads(old(ready.normal), retained, p);
      Remount(retained);
    }

    method AbortFlight(p: TaskKey -> bool)
      requires Placed()
      modifies `tasks, `inFlight, `aborted
      ensures Placed() && inFlight == Unless(old(inFlight), p)
      ensures Shrunk(old(tasks), tasks, p) && aborted + |tasks| == old(aborted) + |old(tasks)|
    {
      if inFlight.Some? && p(inFlight.value) {
        DiscardInFlight();
      }
    }

    /** Parks the retained task at the head of the normal lane during the sweep. */
    method Unmount()
      requires Placed()
      modifies `inFlight, ready`normal
      ensures Placed() && inFlight.None?
      ensures ready.normal == (if old(inFlight).Some? then [old(inFlight).value] else []) + old(ready.normal)
    {
      if inFlight.Some? {
        ready.PushFront(inFlight.value);
        FlightToNormal(tasks, old(ready.View()), parked, inFlight.value);
        inFlight := None;
      }
    }

    method Remount(retained: Option<TaskKey>)
      requires Placed() && inFlight.None?
      requires retained.Some? ==> ready.normal != [] && ready.normal[0] == retained.value
      modifies `inFlight, ready`normal, ready`wakes
      ensures Placed() && inFlight == retained && ready.wakes == old(ready.wakes)
      ensures ready.normal == if retained.Some? then old(ready.normal)[1..] else old(ready.normal)
    {
      if retained.Some? {
        var found := ready.Remove(retained.value);
        // The retained task has not moved.
        assert found;
        LostIsTaken(old(ready.View()), ready.View(), retained.value);
        ReadyToFlight(tasks, old(ready.View()), ready.View(), parked, retained.value);
        inFlight := retained;
      }
    }

    /** Retires every wait of the scope, unless its publisher is in flight; `busy` names those tokens. */
    method PrepareAbort(scope: Option<nat>, busy: set<nat>) returns (retired: bool)
      requires Placed() && Tracked()
      modifies `parked
      ensures Placed() && Tracked() && parked == Abandoned(tasks, old(parked), scope, busy)
      ensures retired <==> !Refused(tasks, old(parked), scope, busy)
    {
      retired := true;
      var todo := set k | k in parked && k in tasks && Hits(scope, tasks[k].scope);
      ghost var doomed := todo;
      while todo != {}
        invariant todo <= doomed && parked.Keys == old(parked).Keys
        invariant forall k :: k in parked ==>
                    parked[k] == if k in doomed - todo then AbandonedOne(tasks, old(parked), scope, busy, k) else old(parked)[k]
        invariant retired <==> forall k :: k in doomed - todo ==> !Refuses(tasks, old(parked), busy, k)
        decreases todo
      {
        var k :| k in todo;
        var abandoned := !Refuses(tasks, parked, busy, k);
        if abandoned {
          parked := parked[k := parked[k].(retired := true)];
        }
        retired := retired && abandoned;
        todo := todo - {k};
      }
      assert parked == Abandoned(tasks, old(parked), scope, busy);
      AbandonedRetires(tasks, old(parked), scope, busy);
      SameMarksMatch(old(parked), parked, deferredWakes);
      TimersCarryOver(timers, old(parked), parked);
      SameKeysPartition(tasks, ready.View(), old(parked), parked, inFlight);
    }

    /** Remembers an abort within the scope bound, unless a whole-carrier abort is pending. */
    method Postpone(scope: Option<nat>, reason: Failure) returns (absorbed: bool)
      requires Scoped() && (scope.Some? ==> Owns(tasks, scope.value))
      modifies `pendingAborts
      ensures AbortsDistinct(pendingAborts) && pendingAborts == Deferred(old(pendingAborts), scope, reason)
      ensures absorbed <==> scope.Some? && Blocks(old(pendingAborts), None)
    {
      absorbed := false;
      if scope.None? {
        pendingAborts := [];
      } else {
        var whole := FindAbort(pendingAborts, None);
        if whole < |pendingAborts| {
          return true;
        }
      }
      var i := FindAbort(pendingAborts, scope);
      if i < |pendingAborts| {
        ghost var before := pendingAborts;
        pendingAborts := pendingAborts[i := PendingAbort(scope, reason)];
        assert pendingAborts == Deferred(before, scope, reason);
      } else {
        // The capacity assertion: deferred cleanup stays within bounded scope admission.
        if scope.Some? {
          AbortFits(pendingAborts, tasks, shared.scopes, scope.value);
        }
        assert |pendingAborts| < maxOwnedScopes;
        pendingAborts := pendingAborts + [PendingAbort(scope, reason)];
      }
    }

    /** Remembers an abort whose publishers are still in flight, and holds back its tasks. */
    method DeferAbort(scope: Option<nat>, reason: Failure)
      requires Placed() && Scoped() && (scope.Some? ==> Owns(tasks, scope.value))
      requires inFlight.Some? ==> inFlight.value in tasks
      modifies `pendingAborts, `inFlight, ready`normal
      ensures Placed() && Scoped() && pendingAborts == Deferred(old(pendingAborts), scope, reason)
      ensures inFlight == HeldBack(old(inFlight), old(pendingAborts), tasks, scope)
      ensures ready.View() == Returned(old(ready.View()), old(inFlight), inFlight)
    {
      var absorbed := Postpone(scope, reason);
      DeferredAbortsOwned(old(pendingAborts), tasks, scope, reason);
      if !absorbed && inFlight.Some? && Hits(scope, tasks[inFlight.value].scope) {
        ready.PushFront(inFlight.value);
        FlightToNormal(tasks, old(ready.View()), parked, inFlight.value);
        inFlight := None;
      }
    }

    // ----------------------------------------------- starts

    /** Publishes the counts; the partition assertion is the snapshot's contract. */
    method Publish()
      requires Placed()
    {
      var active, runnable, suspended := Snapshot();
      assert active == runnable + suspended + if inFlight.Some? then 1 else 0;
    }

    method DiscardPending()
      requires starts.pending.Some? && Placed()
      modifies `starts, `aborted
      ensures starts == old(starts).(pending := None) && aborted == old(aborted) + 1
    {
      starts := starts.(pending := None);
      aborted := aborted + 1;
      Publish();
    }

    /** Discards the start packets of a scope, wherever they are queued. */
    method AbortStarts(scope: Option<nat>)
      requires Placed()
      modifies `starts, `aborted
      ensures starts == StartsAfter(old(starts), scope).(local := old(starts).local)
      ensures aborted + Waiting(starts) == old(aborted) + Waiting(old(starts)) && aborted >= old(aborted)
    {
      if starts.pending.Some? && Hits(scope, starts.pending.value.scope) {
        DiscardPending();
      }
      var retained := starts.pending;
      starts := starts.(pending := None);
      AbortIncoming(scope);
      AbortInbox(scope);
      starts := starts.(pending := retained);
    }

    method AbortIncoming(scope: Option<nat>)
      requires Placed() && starts.pending.None?
      modifies `starts, `aborted
      ensures starts == old(starts).(incoming := Kept(old(starts).incoming, Not(HitBy(scope))))
      ensures aborted + |starts.incoming| == old(aborted) + |old(starts).incoming| && aborted >= old(aborted)
    {
      var p := HitBy(scope);
      ghost var all := starts.incoming;
      assert all[..0] == [] && all[0..] == all;
      for i := 0 to |starts.incoming|
        invariant Placed() && starts == old(starts).(incoming := starts.incoming)
        invariant starts.incoming == all[i..] + Kept(all[..i], Not(p))
        invariant aborted + |starts.incoming| == old(aborted) + |all| && aborted >= old(aborted)
      {
        RotatedOnce(all, i, p);
        RotateIncoming(p);
      }
      assert all[..|all|] == all;
    }

    /** Inspects the oldest drained packet: a hit is discarded, any other goes to the back. */
    method RotateIncoming(p: Task -> bool)
      requires Placed() && starts.pending.None? && starts.incoming != []
      modifies `starts, `aborted
      ensures var head := old(starts).incoming[0];
              && starts == old(starts).(incoming := old(starts).incoming[1..] + if p(head) then [] else [head])
              && aborted == old(aborted) + if p(head) then 1 else 0
    {
      var packet := starts.incoming[0];
      starts := starts.(incoming := starts.incoming[1..]);
      if p(packet) {
        starts := starts.(pending := Some(packet));
        DiscardPending();
      } else {
        starts := starts.(incoming := starts.incoming + [packet]);
      }
    }

    /** Takes the scope's packets out of the shared inbox one at a time. */
    method AbortInbox(scope: Option<nat>)
      requires Placed() && starts.pending.None?
      modifies `starts, `aborted
      ensures starts == old(starts).(inbox := Kept(old(starts).inbox, Not(HitBy(scope))))
      ensures aborted + |starts.inbox| == old(aborted) + |old(starts).inbox| && aborted >= old(aborted)
    {
      var p := HitBy(scope);
      var i: nat := FirstHit(starts.inbox, p);
      while i < |starts.inbox|
        invariant Placed() && starts == old(starts).(inbox := starts.inbox) && i <= |starts.inbox|
        invariant i < |starts.inbox| ==> p(starts.inbox[i])
        invariant i == |starts.inbox| ==> forall t :: t in starts.inbox ==> !p(t)
        invariant Kept(starts.inbox, Not(p)) == Kept(old(starts).inbox, Not(p))
        invariant aborted + |starts.inbox| == old(aborted) + |old(starts).inbox| && aborted >= old(aborted)
        decreases |starts.inbox|
      {
        KeptOthers(starts.inbox, i, p);
        starts := starts.(pending := Some(starts.inbox[i]), inbox := Without(starts.inbox, i));
        DiscardPending();
        i := FirstHit(starts.inbox, p);
      }
      KeptNothing(starts.inbox, p);
    }

    /** Materializes the carrier-local starts at the back of the normal lane. */
    method AdoptLocal() returns (ghost added: seq<TaskKey>)
      requires Placed()
      modifies `tasks, `starts, ready`normal
      ensures Placed() && starts == old(starts).(local := []) && Adopted(old(tasks), old(starts).local, added, tasks)
      ensures ready.normal == old(ready.normal) + added
      ensures |tasks| == |old(tasks)| + |old(starts).local|
    {
      added := [];
      var local := starts.local;
      starts := starts.(local := []);
      for i := 0 to |local|
        invariant Placed() && starts == old(starts).(local := []) && |added| == i && Adopted(old(tasks), local[..i], added, tasks)
        invariant ready.normal == old(ready.normal) + added
        invariant |tasks| == |old(tasks)| + i
      {
        var k := Vacant(tasks, true);
        AdoptOne(old(tasks), local, added, tasks, k);
        Start(k, local[i]);
        added := added + [k];
      }
      assert local[..|local|] == local;
    }

    /** Stores one new task and makes it ready. */
    method Start(k: TaskKey, task: Task)
      requires Placed() && k !in tasks
      modifies `tasks, ready`normal
      ensures Placed() && tasks == old(tasks)[k := task] && |tasks| == |old(tasks)| + 1
      ensures ready.normal == old(ready.normal) + [k]
    {
      tasks := tasks[k := task];
      ready.PushBack(k);
      assert tasks.Keys == old(tasks).Keys + {k};
      StartToNormal(old(tasks), old(ready.View()), parked, inFlight, k, task);
    }

    // ----------------------------------------------- abort

    /** The kernel as a value. */
    ghost function Now(): Core
      reads this, ready
    {
      Core(tasks, ready.View(), parked, timers, deferredWakes, pendingAborts, inFlight, batch, starts)
    }

    /** Aborts a scope, or defers the abort iff one of its publishers is in flight. */
    method Abort(scope: Option<nat>, reason: Failure, busy: set<nat>) returns (done: bool, ghost added: seq<TaskKey>, ghost all: Table)
      requires Valid()
      modifies `starts, `batch, `aborted, `tasks, `inFlight, `parked, `deferredWakes, `timers, `pendingAborts, `attempts, ready`normal, ready`wakes
      ensures Valid() && attempts == old(attempts) + [PendingAbort(scope, reason)]
      ensures Aborted(old(Now()), scope, reason, busy, added, all, done, Now())
    {
      done, added, all := AbortFrom(scope, reason, busy, Now());
    }

    method AbortFrom(scope: Option<nat>, reason: Failure, busy: set<nat>, ghost was: Core) returns (done: bool, ghost added: seq<TaskKey>, ghost all: Table)
      requires Valid() && was == Now()
      modifies `starts, `batch, `aborted, `tasks, `inFlight, `parked, `deferredWakes, `timers, `pendingAborts, `attempts, ready`normal, ready`wakes
      ensures Valid() && attempts == old(attempts) + [PendingAbort(scope, reason)]
      ensures Aborted(was, scope, reason, busy, added, all, done, Now())
    {
      attempts := attempts + [PendingAbort(scope, reason)];
      added := Collect(scope, was);
      ghost var mid := Now();
      all := mid.tasks;
      done := Reclaim(scope, reason, busy, mid);
      AbortedInTwo(was, scope, reason, busy, added, mid, done, Now());
    }

    /** Everything an abort does before it looks at live tasks. */
    method Collect(scope: Option<nat>, ghost was: Core) returns (ghost added: seq<TaskKey>)
      requires Valid() && was == Now()
      modifies `starts, `batch, `aborted, `tasks, ready`normal
      ensures Valid() && Collected(was, scope, added, Now())
    {
      FlushBatch();
      DropStarts(scope);
      added := ReceiveLocal();
    }

    method FlushBatch()
      requires Valid()
      modifies `batch
      ensures Valid() && batch == Flushed(old(batch))
    {
      FlushCompletions();
    }

    method DropStarts(scope: Option<nat>)
      requires Valid()
      modifies `starts, `aborted
      ensures Valid() && starts == StartsAfter(old(starts), scope).(local := old(starts).local)
    {
      AbortStarts(scope);
      StartsStayOpen(old(starts), scope, shared.scopes);
    }

    /** Reclaims the scope's live tasks, or defers until their publishers finish. */
    method Reclaim(scope: Option<nat>, reason: Failure, busy: set<nat>, ghost was: Core) returns (done: bool)
      requires Valid() && was == Now()
      modifies `tasks, `inFlight, `aborted, `parked, `deferredWakes, `timers, `pendingAborts, ready`normal, ready`wakes
      ensures Valid() && Reclaiming(was, scope, reason, busy, done, Now())
    {
      done := Preflight(scope, busy, was);
      if done {
        FinishAbort(scope, reason, busy, was);
      } else {
        HoldAbort(scope, reason, busy, was);
      }
    }

    method Preflight(scope: Option<nat>, busy: set<nat>, ghost was: Core) returns (retired: bool)
      requires Valid() && was == Now()
      modifies `parked
      ensures Valid() && Prepared(was, scope, busy, Now())
      ensures retired <==> !Refused(was.tasks, was.parked, scope, busy)
    {
      retired := PrepareAbort(scope, busy);
    }

    method FinishAbort(scope: Option<nat>, reason: Failure, busy: set<nat>, ghost was: Core)
      requires Valid() && Prepared(was, scope, busy, Now()) && !Refused(was.tasks, was.parked, scope, busy)
      modifies `tasks, `inFlight, `aborted, `parked, `deferredWakes, `timers, `pendingAborts, ready`normal, ready`wakes
      ensures Valid() && Reclaiming(was, scope, reason, busy, true, Now())
    {
      AbandonedRetires(tasks, was.parked, scope, busy);
      pendingAborts := Kept(pendingAborts, OtherThan(scope));
      AbortTasks(scope);
      KeptAbortsDistinct(old(pendingAborts), OtherThan(scope));
      SparedAbortsOwned(old(pendingAborts), old(tasks), tasks, scope);
      RetiredParksLeft(was.parked, old(parked), Doomed(old(tasks), scope));
      TokensRemoved(was.parked, Doomed(old(tasks), scope));
      Publish();
    }

    method HoldAbort(scope: Option<nat>, reason: Failure, busy: set<nat>, ghost was: Core)
      requires Valid() && Prepared(was, scope, busy, Now()) && Refused(was.tasks, was.parked, scope, busy)
      modifies `pendingAborts, `inFlight, ready`normal
      ensures Valid() && Reclaiming(was, scope, reason, busy, false, Now())
    {
      AbandonedRetires(tasks, was.parked, scope, busy);
      ghost var mid := Now();
      Hold(scope, reason, mid);
      DeferredAreParked(parked, deferredWakes);
      RememberedIsReclaiming(was, mid, scope, reason, busy, Now());
    }

    method Hold(scope: Option<nat>, reason: Failure, ghost was: Core)
      requires Valid() && was == Now()
      requires exists k :: k in parked && k in tasks && Hits(scope, tasks[k].scope) && !tasks[k].revoked
      modifies `pendingAborts, `inFlight, ready`normal
      ensures Valid() && Remembered(was, scope, reason, Now())
    {
      FlightIsLive(tasks, ready.View(), parked, inFlight);
      DeferAbort(scope, reason);
      Publish();
    }

    /**
     Tries each pending abort once, newest first. An entry is pending again, with all tasks
     of its scope, iff one of its publishers is in flight; otherwise no task of its scope is
     left. Start packets of all of them are dropped, and tasks of other scopes stay.
     */
    method RetryAborts(busy: map<nat, set<nat>>) returns (ghost added: seq<TaskKey>, ghost all: Table)
      requires Valid() && inFlight.None?
      modifies `starts, `batch, `aborted, `tasks, `inFlight, `parked, `deferredWakes, `timers, `pendingAborts, `attempts, ready`normal, ready`wakes
      ensures Valid() && attempts == old(attempts) + Backward(old(pendingAborts))
      ensures Passed(old(Now()), busy, Now(), added, all)
    {
      ghost var first := Now();
      BeginPass();
      PassBegins(first, busy);
      added, all := RetryAll(busy, |pendingAborts|, first);
      PassEnds(first, busy, Now(), added, all);
    }

    method RetryAll(busy: map<nat, set<nat>>, count: nat, ghost first: Core) returns (ghost added: seq<TaskKey>, ghost all: Table)
      requires Valid() && Rooted(first) && count == |first.aborts|
      requires PassState(first, busy, count, Now(), [], tasks)
      modifies `starts, `batch, `aborted, `tasks, `inFlight, `parked, `deferredWakes, `timers, `pendingAborts, `attempts, ready`normal, ready`wakes
      ensures Valid() && attempts == old(attempts) + Backward(first.aborts)
      ensures PassState(first, busy, 0, Now(), added, all)
    {
      ghost var log := attempts;
      var index: nat := count;
      added, all := [], tasks;
      BackwardStarts(first.aborts, log);
      while index > 0
        invariant Valid() && index <= count
        invariant attempts == log + Backward(first.aborts[index..])
        invariant PassState(first, busy, index, Now(), added, all)
      {
        index := index - 1;
        added, all := RetryNext(index, busy, first, added, all);
        BackwardGrows(first.aborts, index, log);
      }
      assert first.aborts[0..] == first.aborts;
    }

    /** Tries the newest pending abort that a pass has not tried yet. */
    method RetryNext(index: nat, busy: map<nat, set<nat>>, ghost first: Core, ghost added: seq<TaskKey>, ghost all: Table)
      returns (ghost added': seq<TaskKey>, ghost all': Table)
      requires Valid() && Rooted(first) && index < |first.aborts| && PassState(first, busy, index + 1, Now(), added, all)
      modifies `starts, `batch, `aborted, `tasks, `inFlight, `parked, `deferredWakes, `timers, `pendingAborts, `attempts, ready`normal, ready`wakes
      ensures Valid() && attempts == old(attempts) + [first.aborts[index]]
      ensures PassState(first, busy, index, Now(), added', all')
    {
      ghost var before := Now();
      NextEntry(first.aborts, pendingAborts, index);
      ghost var a := RetryOne(index, BusyAt(busy, index));
      added', all' := PassGrows(first, busy, index, before, added, all, a);
    }

    /** What the invariant says before a pass. */
    lemma BeginPass()
      requires Valid() && inFlight.None?
      ensures Rooted(Now())
    {
      ReadyAreLive();
      DeferredAreParked(parked, deferredWakes);
    }

    /** Takes out one pending abort and tries it. */
    method RetryOne(index: nat, busy: set<nat>) returns (ghost a: Attempt)
      requires Valid() && index < |pendingAborts|
      modifies `starts, `batch, `aborted, `tasks, `inFlight, `parked, `deferredWakes, `timers, `pendingAborts, `attempts, ready`normal, ready`wakes
      ensures Valid() && attempts == old(attempts) + [old(pendingAborts)[index]]
      ensures Tried(old(Now()), index, busy, a) && Now() == a.after
    {
      var entry := pendingAborts[index];
      pendingAborts := SwapRemoved(pendingAborts, index);
      SwappedAborts(old(pendingAborts), index);
      var done;
      ghost var added, all;
      done, added, all := Abort(entry.scope, entry.reason, busy);
      a := Attempt(added, all, done, Now());
    }

    // ----------------------------------------------- one drive iteration

    /** Reclaims tasks whose borrowed frame was revoked; their waits are retired first. */
    method SweepRevoked()
      requires Valid() && inFlight.None?
      modifies `tasks, `inFlight, `aborted, `parked, `deferredWakes, `timers, ready`normal, ready`wakes
      ensures Valid() && inFlight.None?
      ensures ready.View() == Eligible(old(ready.View()), Not(Lost(old(tasks))))
      ensures tasks == map k | k in old(tasks) && !old(tasks)[k].revoked :: old(tasks)[k]
      ensures parked == ParksLeft(old(parked), Lost(old(tasks))) && timers == old(timers) - Tokens(old(parked), Lost(old(tasks)))
      ensures forall n :: n in deferredWakes <==> n in old(deferredWakes) && n.route in parked
    {
      SweepLost();
      RevokedGoKeepsScopes(old(tasks), tasks, shared.scopes, pendingAborts);
    }

    method SweepLost()
      requires Placed() && Tracked() && inFlight.None?
      modifies `tasks, `inFlight, `aborted, `parked, `deferredWakes, `timers, ready`normal, ready`wakes
      ensures Placed() && Tracked() && inFlight.None?
      ensures ready.View() == Eligible(old(ready.View()), Not(Lost(old(tasks))))
      ensures tasks == map k | k in old(tasks) && !old(tasks)[k].revoked :: old(tasks)[k]
      ensures parked == ParksLeft(old(parked), Lost(old(tasks))) && timers == old(timers) - Tokens(old(parked), Lost(old(tasks)))
      ensures forall n :: n in deferredWakes <==> n in old(deferredWakes) && n.route in parked
      ensures aborted + |tasks| == old(aborted) + |old(tasks)| && |tasks| <= |old(tasks)|
    {
      var p := Lost(tasks);
      RetireParks(p);
      RetiredParksLeft(old(parked), parked, p);
      SweepAround(p, None);
      SweptIsExact(old(tasks), old(ready.View()), tasks, ready.View(), parked, inFlight, p);
      SmallerSet(tasks.Keys, old(tasks).Keys);
    }

    method RetireParks(p: TaskKey -> bool)
      requires Placed() && Tracked()
      modifies `parked
      ensures Placed() && Tracked() && Retiring(old(parked), parked)
      ensures forall k :: k in parked && p(k) ==> parked[k].retired
      ensures forall k :: k in parked && !p(k) ==> parked[k] == old(parked)[k]
    {
      parked := map k | k in parked :: if p(k) then parked[k].(retired := true) else parked[k];
      SameMarksMatch(old(parked), parked, deferredWakes);
      TimersCarryOver(timers, old(parked), parked);
      SameKeysPartition(tasks, ready.View(), old(parked), parked, inFlight);
    }

    /** Sweeps revoked tasks if borrowed scopes have exited. */
    method Sweep(exited: bool, ghost was: Core)
      requires Valid() && inFlight.None? && was == Now()
      modifies `tasks, `inFlight, `aborted, `parked, `deferredWakes, `timers, ready`normal, ready`wakes
      ensures Valid() && Swept(was, exited, Now())
    {
      if exited {
        SweepRevoked();
      }
    }

    /** Retries the deferred aborts after a signal. */
    method Retry(signal: bool, busy: map<nat, set<nat>>, ghost was: Core) returns (ghost added: seq<TaskKey>, ghost all: Table)
      requires Valid() && inFlight.None? && Idle(starts) && was == Now()
      modifies `starts, `batch, `aborted, `tasks, `inFlight, `parked, `deferredWakes, `timers, `pendingAborts, `attempts, ready`normal, ready`wakes
      ensures Valid() && inFlight.None? && Idle(starts)
      ensures attempts == old(attempts) + if signal then Backward(was.aborts) else []
      ensures Retrying(was, signal, busy, Now(), added, all)
    {
      added, all := [], tasks;
      if signal {
        added, all := RetryAborts(busy);
        RetriedStaysIdle(was.starts, was.aborts);
      }
    }

    /** Revisits deferred notices after a signal, then processes arrived and timed-out wakes. */
    method Rouse(i: Inputs, ghost was: Core) returns (ok: bool)
      requires Valid() && was == Now()
      modifies `parked, `deferredWakes, `timers, `staleWakes, ready`wakes
      ensures Valid() && Rose(was, i, ok, Now())
    {
      ReadyAreLive();
      DeferredAreOwned(tasks, parked, deferredWakes);
      ok := true;
      if i.signalChanged {
        ok := WakeDeferred(i.answers);
      }
      if ok {
        ok := Absorb(i);
      }
    }

    method WakeDeferred(answers: map<nat, Publication>) returns (ok: bool)
      requires Valid()
      modifies `parked, `deferredWakes, `timers, `staleWakes, ready`wakes
      ensures Valid() && ok && Roused(true, Awake()) == Revisited(tasks, old(Awake()), old(deferredWakes), answers)
    {
      ok := ProcessDeferredWakes(answers);
    }

    /** Processes notices between other steps of an iteration. */
    method Wake(arrivals: seq<Arrival>) returns (ok: bool)
      requires Valid()
      modifies `parked, `deferredWakes, `timers, `staleWakes, ready`wakes
      ensures Valid() && Roused(ok, Awake()) == Rung(tasks, old(Awake()), arrivals)
    {
      ok := ProcessWakes(arrivals);
    }

    /** Removes expired timers, then processes the wakes they selected. */
    method Expire(expired: set<nat>, late: seq<Arrival>) returns (ok: bool)
      requires Valid()
      modifies `parked, `deferredWakes, `timers, `staleWakes, ready`wakes
      ensures Valid()
      ensures Roused(ok, Awake()) == Rung(tasks, old(Awake()).(timers := old(timers) - expired), late)
    {
      timers := timers - expired;
      ok := Wake(late);
    }

    /** Makes woken and timed-out tasks ready. */
    method Absorb(i: Inputs) returns (ok: bool)
      requires Valid()
      modifies `parked, `deferredWakes, `timers, `staleWakes, ready`wakes
      ensures Valid() && Roused(ok, Awake()) == Absorbed(tasks, old(Awake()), i)
    {
      ok := true;
      if i.signalChanged || (|parked| != 0 && |i.wakes| != 0) {
        ok := Wake(i.wakes);
      }
      if ok && |timers| != 0 {
        ok := Expire(i.expired, i.late);
      }
    }

    /** Selects a task, processing wakes once more if none is ready. */
    method Choose(last: seq<Arrival>, ghost was: Core) returns (ok: bool, ghost skipped: Queue)
      requires Valid() && inFlight.None? && was == Now()
      modifies `inFlight, `parked, `deferredWakes, `timers, `staleWakes, ready
      ensures Valid() && Chose(was, last, ok, skipped, Now())
    {
      ok := true;
      Select(was);
      ghost var mid := Now();
      skipped := mid.queue;
      if inFlight.Some? || last == [] {
        ChoseAtOnce(was, last, mid);
        return;
      }
      ok := WakeLast(last, mid);
      ghost var rung := Now();
      if ok {
        Select(rung);
      }
      ChoseLate(was, last, mid, ok, rung, Now());
    }

    method Select(ghost was: Core)
      requires Valid() && inFlight.None? && was == Now()
      modifies `inFlight, ready
      ensures Valid() && Selected(was, Now())
    {
      SelectReady();
    }

    method WakeLast(last: seq<Arrival>, ghost was: Core) returns (ok: bool)
      requires Valid() && was == Now()
      modifies `parked, `deferredWakes, `timers, `staleWakes, ready`wakes
      ensures Valid() && Rang(was, last, ok, Now())
    {
      ok := Wake(last);
    }

    /** Takes away revoked and aborted tasks before anything is woken. */
    method Reconcile(i: Inputs, ghost was: Core) returns (ghost swept: Core, ghost added: seq<TaskKey>, ghost all: Table)
      requires Valid() && inFlight.None? && Idle(starts) && was == Now()
      modifies `starts, `batch, `aborted, `tasks, `inFlight, `parked, `deferredWakes, `timers, `pendingAborts, `attempts, ready`normal, ready`wakes
      ensures Valid() && inFlight.None? && Idle(starts)
      ensures attempts == old(attempts) + if i.signalChanged then Backward(was.aborts) else []
      ensures Swept(was, i.scopesExited, swept) && Retrying(swept, i.signalChanged, i.busy, Now(), added, all)
    {
      Sweep(i.scopesExited, was);
      swept := Now();
      added, all := Retry(i.signalChanged, i.busy, swept);
    }

    /**
     One drive iteration: phase by phase what the inputs make of it, and nothing else. Every
     deferred abort is retried after a signal; a task is mounted unless every ready one is
     held back, and never one whose scope has a deferred or a requested abort.
     */
    method Tick(i: Inputs, ghost was: Core) returns (ok: bool, ran: bool, ghost t: Iteration)
      requires Valid() && inFlight.None? && Idle(starts) && was == Now()
      modifies `starts, `batch, `aborted, `tasks, `inFlight, `parked, `deferredWakes, `timers, `pendingAborts, `attempts, `staleWakes, `admitted, `dispatched, ready
      ensures Valid() && Idle(starts) && (ok ==> inFlight.None?)
      ensures Ticked(t) && t.from == was && t.inputs == i && t.limit == maxVthreads && t.ok == ok && t.ran == ran && t.to == Now()
      ensures dispatched == old(dispatched) + TickMounts(t) && attempts == old(attempts) + TickTries(t)
    {
      BeginPass();
      ghost var swept, added, all := Reconcile(i, was);
      ghost var retried := Now();
      ghost var key, task, stretch;
      ok, ran, key, task, stretch := GoOn(i, retried);
      t := Iteration(was, i, maxVthreads, Course(swept, retried, added, all, stretch), ok, ran, key, task, Now());
      Associates(old(attempts), if i.signalChanged then Backward(was.aborts) else [], LateTries(stretch, i));
    }

    /** Wakes, selects and mounts. */
    method GoOn(i: Inputs, ghost was: Core) returns (ok: bool, ran: bool, ghost key: Option<TaskKey>, ghost task: Task, ghost m: Stretch)
      requires Valid() && inFlight.None? && Idle(starts) && was == Now()
      modifies `starts, `batch, `aborted, `tasks, `inFlight, `parked, `deferredWakes, `timers, `pendingAborts, `attempts, `staleWakes, `admitted, `dispatched, ready
      ensures Valid() && Idle(starts) && (ok ==> inFlight.None?)
      ensures Onward(was, i, maxVthreads, m, ok, ran, key, task, Now())
      ensures dispatched == old(dispatched) + if key.Some? then [task] else []
      ensures attempts == old(attempts) + LateTries(m, i)
    {
      ok := Rouse(i, was);
      ghost var roused := Now();
      ran, key, task := false, None, Task(0, 0, false);
      m := Stretch(roused, ok, roused.queue, roused, false, Mount([], tasks, false, roused));
      if ok {
        ghost var skipped, chosen, chose, mount;
        ok, ran, key, task, skipped, chosen, chose, mount := Proceed(i, roused);
        m := Stretch(roused, true, skipped, chosen, chose, mount);
      }
    }

    /** Selects and mounts, unless a notice that arrives last is a fault. */
    method Proceed(i: Inputs, ghost was: Core)
      returns (ok: bool, ran: bool, ghost key: Option<TaskKey>, ghost task: Task,
               ghost skipped: Queue, ghost chosen: Core, ghost chose: bool, ghost mount: Mount)
      requires Valid() && inFlight.None? && Idle(starts) && was == Now()
      modifies `starts, `batch, `aborted, `tasks, `inFlight, `parked, `deferredWakes, `timers, `pendingAborts, `attempts, `staleWakes, `admitted, `dispatched, ready
      ensures Valid() && Idle(starts) && (ok ==> inFlight.None?)
      ensures Chose(was, i.last, chose, skipped, chosen)
      ensures if !chose then !ok && !ran && key.None? && Now() == chosen
              else ran == chosen.flight.Some? && Mounted(chosen, i, maxVthreads, ok, key, task, mount, Now())
      ensures dispatched == old(dispatched) + if key.Some? then [task] else []
      ensures attempts == old(attempts) + if chose then MountAbort(chosen, i) else []
    {
      ran, key, task := false, None, Task(0, 0, false);
      ok, skipped := Choose(i.last, was);
      chosen, chose, mount := Now(), ok, Mount([], tasks, false, was);
      if ok {
        ran := inFlight.Some?;
        ok, key, task, mount := MountPicked(i, chosen);
      }
    }

    /** Mounts the selected task, unless its scope is being aborted. */
    method MountPicked(i: Inputs, ghost was: Core) returns (ok: bool, ghost key: Option<TaskKey>, ghost task: Task, ghost m: Mount)
      requires Valid() && Idle(starts) && was == Now()
      requires inFlight.Some? ==> inFlight.value in tasks && !Blocked(pendingAborts, tasks[inFlight.value].scope)
      modifies `starts, `batch, `aborted, `tasks, `inFlight, `parked, `deferredWakes, `timers, `pendingAborts, `attempts, `admitted, `dispatched, ready`normal, ready`wakes
      ensures Valid() && Idle(starts) && (ok ==> inFlight.None?)
      ensures Mounted(was, i, maxVthreads, ok, key, task, m, Now())
      ensures dispatched == old(dispatched) + if key.Some? then [task] else []
      ensures attempts == old(attempts) + MountAbort(was, i)
    {
      ok, key, task, m := true, None, Task(0, 0, false), Mount([], tasks, false, was);
      if inFlight.None? {
        Rest(was);
        return;
      }
      var scope := tasks[inFlight.value].scope;
      if scope in i.requests {
        m := AbortMounted(scope, i.requests[scope], i.refusing, was);
        return;
      }
      key, task := inFlight, tasks[inFlight.value];
      ghost var ran;
      ok, ran := Run(i.fiber, was);
      m := Mount([], was.tasks, false, ran);
    }

    /** Nothing can be mounted: pending completions go out. */
    method Rest(ghost was: Core)
      requires Valid() && was == Now()
      modifies `batch
      ensures Valid() && Rested(was, Now())
    {
      FlushCompletions();
    }

    /** Publishes completions of other scopes before a task of `scope` is mounted. */
    method SettleBatch(scope: nat)
      requires Valid()
      modifies `batch
      ensures Valid() && batch == Settled(old(batch), scope)
      ensures forall c :: c in batch.updates ==> c.scope == scope
    {
      if batch.updates != [] && batch.updates[0].scope != scope {
        FlushCompletions();
      }
      BatchIsOneScope(batch, scope);
    }

    /** Dispatches the task in flight after publishing completions of other scopes. */
    method Run(fiber: Fiber, ghost was: Core) returns (ok: bool, ghost ran: Core)
      requires Valid() && Idle(starts) && inFlight.Some? && inFlight.value in tasks && !Blocked(pendingAborts, tasks[inFlight.value].scope)
      requires was == Now()
      modifies `tasks, `starts, `inFlight, `parked, `timers, `batch, `aborted, `admitted, `dispatched, ready`normal
      ensures Valid() && Idle(starts) && (ok ==> inFlight.None?)
      ensures dispatched == old(dispatched) + [was.tasks[was.flight.value]]
      ensures Ran(was, fiber, maxVthreads, ran) && Stepped(ran, fiber.step, ok, Now())
    {
      SettleBatch(tasks[inFlight.value].scope);
      RunFiber(fiber);
      ran := Now();
      ok := FinishStep(fiber.step, ran);
    }

    /** The fiber runs: it is logged, its local children wait to start, and frames it left are revoked. */
    method RunFiber(fiber: Fiber)
      requires Valid() && inFlight.Some? && inFlight.value in tasks && !Blocked(pendingAborts, tasks[inFlight.value].scope)
      modifies `tasks, `starts, `admitted, `dispatched
      ensures Valid() && dispatched == old(dispatched) + [old(tasks)[inFlight.value]]
      ensures tasks == Revoking(old(tasks), inFlight.value, fiber.revokes) && tasks[inFlight.value] == old(tasks)[inFlight.value]
      ensures var room := maxVthreads - |old(tasks)| - Waiting(old(starts));
              starts == old(starts).(local := old(starts).local + Spawned(fiber.children, room, tasks[inFlight.value].scope))
    {
      var k := inFlight.value;
      dispatched := dispatched + [tasks[k]];
      var room := maxVthreads - |tasks| - Waiting(starts);
      var spawned := Spawned(fiber.children, room, tasks[k].scope);
      starts := starts.(local := starts.local + spawned);
      admitted := admitted + |spawned|;
      tasks := Revoking(tasks, k, fiber.revokes);
      FiberKeepsScopes(old(tasks), k, fiber.revokes, shared.scopes, pendingAborts);
      SpawnedAreOpen(fiber.children, room, old(tasks)[k].scope, old(starts).local, shared.scopes);
      SameTableKeys(old(tasks), tasks, ready.View(), parked, inFlight);
      SameKeysSameSize(old(tasks), tasks);
    }

    /** The step's outcome: back of the normal lane, a park record, a completion, or reclaimed. */
    method FinishStep(step: Step, ghost was: Core) returns (ok: bool)
      requires Valid() && Idle(starts) && inFlight.Some? && inFlight.value in tasks && !Blocked(pendingAborts, tasks[inFlight.value].scope)
      requires was == Now() && forall c :: c in batch.updates ==> c.scope == tasks[inFlight.value].scope
      modifies `tasks, `inFlight, `parked, `timers, `batch, `aborted, ready`normal
      ensures Valid() && Stepped(was, step, ok, Now())
    {
      ok := Dispatch(step, was);
      DepartureKeepsScopes(old(tasks), old(inFlight).value, shared.scopes, pendingAborts);
    }

    /** Applies one step of the task in flight. */
    method Dispatch(step: Step, ghost was: Core) returns (ok: bool)
      requires Placed() && Tracked() && Batched(batch) && inFlight.Some? && inFlight.value in tasks
      requires was == Now() && forall c :: c in batch.updates ==> c.scope == tasks[inFlight.value].scope
      modifies `tasks, `inFlight, `parked, `timers, `batch, `aborted, ready`normal
      ensures Placed() && Tracked() && Batched(batch) && Stepped(was, step, ok, Now())
      ensures |tasks| + aborted + |Logged(batch)| == |old(tasks)| + old(aborted) + |Logged(old(batch))| && |tasks| <= |old(tasks)|
    {
      ok := true;
      match step
      case Yield =>
        YieldTask();
      case ParkOn(token, deadline, registered) =>
        ok := ParkTask(token, deadline, registered);
      case Complete =>
        CompleteTask();
      case Revoked =>
        DiscardInFlight();
    }

    /** Aborts the scope of the task about to be mounted, which is then no longer in flight. */
    method AbortMounted(scope: nat, reason: Failure, busy: set<nat>, ghost was: Core) returns (ghost m: Mount)
      requires Valid() && Idle(starts) && was == Now()
      requires inFlight.Some? && inFlight.value in tasks && tasks[inFlight.value].scope == scope && !Blocked(pendingAborts, scope)
      modifies `starts, `batch, `aborted, `tasks, `inFlight, `parked, `deferredWakes, `timers, `pendingAborts, `attempts, ready`normal, ready`wakes
      ensures Valid() && inFlight.None? && Idle(starts)
      ensures attempts == old(attempts) + [PendingAbort(Some(scope), reason)]
      ensures Aborted(was, Some(scope), reason, busy, m.added, m.all, m.done, Now())
    {
      ghost var done, added, all := AbortFrom(Some(scope), reason, busy, was);
      AbortGrounds(was, scope, reason, busy, added, all, done, Now());
      m := Mount(added, all, done, was);
    }

    // ----------------------------------------------- receiving starts

    /**
     Materializes local starts, then as many remote ones as the admission gate allows; those
     for which a stack is left join the back of the normal lane in publication order.
     */
    method Receive(stacks: Task -> bool) returns (ghost drained: nat, ghost added: seq<TaskKey>)
      requires Valid() && Idle(starts)
      modifies `tasks, `starts, `aborted, `gate, ready`normal
      ensures Valid() && drained <= |old(starts).inbox|
      ensures starts == Starts(None, [], old(starts).inbox[drained..], [])
      ensures var pass := Pass(|old(ready.normal)| + |old(ready.wakes)| + |old(starts).local|, |old(starts).inbox|, |starts.inbox|);
              && drained == Drained(old(gate), pass, Target(capacity))
              && gate == Next(old(gate), pass, Target(capacity))
      ensures Adopted(old(tasks), old(starts).local + Kept(old(starts).inbox[..drained], stacks), added, tasks)
      ensures ready.normal == old(ready.normal) + added
    {
      Press();
      drained, added := TakeStarts(stacks);
      Relieve();
    }

    method Press()
      requires Valid()
      modifies `gate
      ensures Valid() && gate == old(gate).(pressure := Pressed(old(gate)))
    {
      gate := gate.(pressure := gate.pressure + if gate.backlog then 1 else 0);
    }

    /** Remembers whether a backlog remains, and forgets the pressure if none does. */
    method Relieve()
      requires Valid()
      modifies `gate
      ensures Valid()
      ensures gate == Gate(if |starts.inbox| != 0 then old(gate).pressure else 0, |starts.inbox| != 0)
    {
      gate := gate.(backlog := |starts.inbox| != 0);
      if !gate.backlog {
        gate := gate.(pressure := 0);
      }
    }

    method TakeStarts(stacks: Task -> bool) returns (ghost drained: nat, ghost added: seq<TaskKey>)
      requires Valid() && Idle(starts)
      modifies `tasks, `starts, `aborted, `gate, ready`normal
      ensures Valid() && drained <= |old(starts).inbox|
      ensures starts == Starts(None, [], old(starts).inbox[drained..], [])
      ensures drained == Min(|old(starts).inbox|, Limit(|old(ready.normal)| + |old(ready.wakes)| + |old(starts).local|, Target(capacity), old(gate).pressure))
      ensures gate == if drained != 0 then old(gate).(pressure := 0) else old(gate)
      ensures Adopted(old(tasks), old(starts).local + Kept(old(starts).inbox[..drained], stacks), added, tasks)
      ensures ready.normal == old(ready.normal) + added
    {
      ghost var local := ReceiveLocal();
      ghost var mid := tasks;
      assert |ready.normal| == |old(ready.normal)| + |old(starts).local|;
      ghost var remote;
      drained, remote := TakeRemote(stacks);
      AdoptedTwice(old(tasks), old(starts).local, local, mid, Kept(old(starts).inbox[..drained], stacks), remote, tasks);
      added := local + remote;
      Associates(old(ready.normal), local, remote);
    }

    method TakeRemote(stacks: Task -> bool) returns (ghost drained: nat, ghost added: seq<TaskKey>)
      requires Valid() && Idle(starts) && starts.local == []
      modifies `tasks, `starts, `aborted, `gate, ready`normal
      ensures Valid() && drained <= |old(starts).inbox|
      ensures starts == Starts(None, [], old(starts).inbox[drained..], [])
      ensures drained == Min(|old(starts).inbox|, Limit(|old(ready.normal)| + |old(ready.wakes)|, Target(capacity), old(gate).pressure))
      ensures gate == if drained != 0 then old(gate).(pressure := 0) else old(gate)
      ensures Adopted(old(tasks), Kept(old(starts).inbox[..drained], stacks), added, tasks)
      ensures ready.normal == old(ready.normal) + added
    {
      drained := DrainInbox();
      added := StartIncoming(stacks);
    }

    /** Materializes the carrier-local starts. */
    method ReceiveLocal() returns (ghost added: seq<TaskKey>)
      requires Valid()
      modifies `tasks, `starts, ready`normal
      ensures Valid() && starts == old(starts).(local := [])
      ensures Adopted(old(tasks), old(starts).local, added, tasks) && ready.normal == old(ready.normal) + added
      ensures |added| == |old(starts).local|
    {
      added := AdoptLocal();
      ParkedAreLive(old(tasks), old(ready.View()));
      StillAddressed(old(tasks), old(starts).local, added, tasks, parked, deferredWakes);
      AdoptedScopes(old(tasks), old(starts).local, added, tasks, shared.scopes, pendingAborts);
    }

    /** Moves one batch of published starts to the incoming queue. */
    method DrainInbox() returns (ghost drained: nat)
      requires Valid() && Idle(starts)
      modifies `starts, `gate
      ensures Valid() && drained <= |old(starts).inbox|
      ensures drained == Min(|old(starts).inbox|, Limit(|ready.normal| + |ready.wakes|, Target(capacity), old(gate).pressure))
      ensures starts == old(starts).(incoming := old(starts).inbox[..drained], inbox := old(starts).inbox[drained..])
      ensures gate == if drained != 0 then old(gate).(pressure := 0) else old(gate)
    {
      var limit := Allowance();
      var count := Min(|starts.inbox|, limit);
      var inbox := starts.inbox;
      starts := starts.(incoming := inbox[..count], inbox := inbox[count..]);
      drained := count;
      if count != 0 {
        gate := gate.(pressure := 0);
      }
      assert inbox == inbox[..count] + inbox[count..];
    }

    /** How many remote starts this pass may take. */
    method Allowance() returns (limit: nat)
      ensures limit == Limit(|ready.normal| + |ready.wakes|, Target(capacity), gate.pressure)
    {
      var target := Target(capacity);
      var runnable := |ready.normal| + |ready.wakes|;
      if runnable <= target / 2 {
        limit := target - runnable;
      } else if gate.pressure >= PRESSURE_BOUND {
        limit := 1;
      } else {
        limit := 0;
      }
    }

    /** Turns each incoming packet into a ready task, in order, or fails it when no stack is left. */
    method StartIncoming(stacks: Task -> bool) returns (ghost added: seq<TaskKey>)
      requires Valid() && starts.pending.None?
      modifies `tasks, `starts, `aborted, ready`normal
      ensures Valid() && starts == old(starts).(incoming := [])
      ensures Adopted(old(tasks), Kept(old(starts).incoming, stacks), added, tasks)
      ensures ready.normal == old(ready.normal) + added
    {
      added := MaterializeAll(stacks);
      ParkedAreLive(old(tasks), old(ready.View()));
      StillAddressed(old(tasks), Kept(old(starts).incoming, stacks), added, tasks, parked, deferredWakes);
      KeptStaysOpen(old(starts).incoming, stacks, shared.scopes);
      AdoptedScopes(old(tasks), Kept(old(starts).incoming, stacks), added, tasks, shared.scopes, pendingAborts);
    }

    method MaterializeAll(stacks: Task -> bool) returns (ghost added: seq<TaskKey>)
      requires Placed() && starts.pending.None?
      modifies `tasks, `starts, `aborted, ready`normal
      ensures Placed() && starts == old(starts).(incoming := [])
      ensures Adopted(old(tasks), Kept(old(starts).incoming, stacks), added, tasks)
      ensures ready.normal == old(ready.normal) + added
      ensures |tasks| + aborted == |old(tasks)| + old(aborted) + |old(starts).incoming| && aborted >= old(aborted)
    {
      added := [];
      ghost var all, i: nat := starts.incoming, 0;
      assert all[..0] == [] && all[0..] == all;
      while starts.incoming != []
        invariant Placed() && i <= |all| && starts == old(starts).(incoming := all[i..])
        invariant Adopted(old(tasks), Kept(all[..i], stacks), added, tasks)
        invariant ready.normal == old(ready.normal) + added
        invariant |tasks| + aborted == |old(tasks)| + old(aborted) + i && aborted >= old(aborted)
        decreases |starts.incoming|
      {
        KeptGrows(all, i, stacks);
        assert starts.incoming[0] == all[i] && all[i..][1..] == all[i + 1..];
        ghost var before := tasks;
        ghost var k := StartNext(stacks);
        if k.Some? {
          AdoptMore(old(tasks), Kept(all[..i], stacks), added, before, k.value, all[i]);
          Associates(old(ready.normal), added, [k.value]);
          added := added + [k.value];
        }
        i := i + 1;
      }
      assert all[..|all|] == all;
    }

    /** Materializes the oldest packet at the back of the normal lane, or fails it without a stack. */
    method StartNext(stacks: Task -> bool) returns (ghost started: Option<TaskKey>)
      requires Placed() && starts.pending.None? && starts.incoming != []
      modifies `tasks, `starts, `aborted, ready`normal
      ensures Placed() && starts == old(starts).(incoming := old(starts).incoming[1..])
      ensures started.Some? <==> stacks(old(starts).incoming[0])
      ensures started.Some? ==>
                && started.value !in old(tasks) && tasks == old(tasks)[started.value := old(starts).incoming[0]]
                && ready.normal == old(ready.normal) + [started.value] && aborted == old(aborted) && |tasks| == |old(tasks)| + 1
      ensures started.None? ==> tasks == old(tasks) && ready.normal == old(ready.normal) && aborted == old(aborted) + 1
    {
      starts := starts.(pending := Some(starts.incoming[0]), incoming := starts.incoming[1..]);
      started := None;
      if !stacks(starts.pending.value) {
        DiscardPending();
        return;
      }
      var task := starts.pending.value;
      starts := starts.(pending := None);
      var k := Vacant(tasks, false);
      Start(k, task);
      started := Some(k);
    }

    // ----------------------------------------------- shutting down

    /** Nothing is left on the carrier. */
    ghost predicate Reclaimed()
      reads this, ready
    {
      && tasks == map[] && starts == NO_STARTS && inFlight.None? && ready.View().Empty() && parked == map[]
      && deferredWakes == [] && pendingAborts == [] && batch.updates == []
    }

    /** Aborts everything; unless a publisher refuses, the carrier is then empty. */
    method AbortAll(reason: Failure, busy: set<nat>, ghost was: Core) returns (done: bool, ghost added: seq<TaskKey>, ghost all: Table)
      requires Valid() && was == Now()
      modifies `starts, `batch, `aborted, `tasks, `inFlight, `parked, `deferredWakes, `timers, `pendingAborts, `attempts, ready`normal, ready`wakes
      ensures Valid() && (done ==> Reclaimed())
      ensures Idle(old(starts)) ==> Idle(starts)
      ensures old(inFlight).None? ==> inFlight.None?
      ensures attempts == old(attempts) + [PendingAbort(None, reason)]
      ensures Aborted(was, None, reason, busy, added, all, done, Now())
    {
      done, added, all := AbortFrom(None, reason, busy, was);
      StartsStayOpen(was.starts, None, {});
      if done {
        NothingIsLeft(was, reason, busy, added, all);
      }
    }

    lemma NothingIsLeft(was: Core, reason: Failure, busy: set<nat>, added: seq<TaskKey>, all: Table)
      requires Valid() && Aborted(was, None, reason, busy, added, all, true, Now())
      ensures Reclaimed()
    {
      assert tasks == map[];
      NothingLives(tasks, ready.View(), parked, inFlight);
      NoneKept(was.starts, was.aborts);
      HasElement(deferredWakes);
    }
  }
}
