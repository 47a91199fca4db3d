/**
 What an abort, a pass of retries and a shutdown mean for single tasks, waits and start
 packets, spelled out on the kernel's fields.
 */
module KernelAborts {
  import opened Options
  import opened Collections
  import opened Tasks
  import opened RQ = ReadyQueue
  import opened KernelState
  import opened KernelSpec
  import opened KernelPhases
  import opened KernelRetry

  /** An abort of `scope` is about tasks of scope `s`; without a scope it is about every task. */
  predicate About(scope: Option<nat>, s: nat) {
    scope == None || scope == Some(s)
  }

  /** Every park record belongs to a live task. */
  ghost predicate ParksLive(c: Core) {
    forall k :: k in c.parked ==> k in c.tasks
  }

  /** A parked task of the scope whose wait can still be published, with its publication in flight. */
  ghost predicate Publishing(c: Core, scope: Option<nat>, busy: set<nat>, k: TaskKey) {
    && k in c.parked && k in c.tasks && About(scope, c.tasks[k].scope)
    && !c.tasks[k].revoked && !c.parked[k].retired && c.parked[k].token in busy
  }

  // ------------------------------------------------- one abort

  /** An abort goes through if and only if no publication of the scope is in flight. */
  lemma {:induction false} AbortedIffQuiet(c: Core, scope: Option<nat>, reason: Failure, busy: set<nat>,
                                           added: seq<TaskKey>, all: Table, done: bool, c': Core)
    requires ParksLive(c) && Aborted(c, scope, reason, busy, added, all, done, c')
    ensures done <==> forall k :: !Publishing(c, scope, busy, k)
  {
    if k :| Publishing(c, scope, busy, k) {
      assert all[k] == c.tasks[k];
      assert Refuses(all, c.parked, busy, k) && Hits(scope, all[k].scope);
    }
    if !done {
      var k :| Refuses(all, c.parked, busy, k) && Hits(scope, all[k].scope);
      assert all[k] == c.tasks[k];
      assert Publishing(c, scope, busy, k);
    }
  }

  /** An abort that went through left no task and no start of the scope, and every other task where it was. */
  lemma {:induction false} AbortClears(c: Core, scope: Option<nat>, reason: Failure, busy: set<nat>,
                                       added: seq<TaskKey>, all: Table, c': Core)
    requires ParksLive(c) && Aborted(c, scope, reason, busy, added, all, true, c')
    ensures forall k :: k in c'.tasks ==> !About(scope, c'.tasks[k].scope)
    ensures forall k :: k in c.tasks && !About(scope, c.tasks[k].scope) ==> k in c'.tasks && c'.tasks[k] == c.tasks[k]
    ensures forall k :: k in c'.parked <==> k in c.parked && !About(scope, c.tasks[k].scope)
    ensures forall k :: k in c'.parked ==> c'.parked[k] == c.parked[k]
    ensures forall k :: k in c.tasks && !About(scope, c.tasks[k].scope) ==>
              && (k in c.queue.normal ==> k in c'.queue.normal) && (k in c.queue.wakes <==> k in c'.queue.wakes)
              && (c.flight == Some(k) <==> c'.flight == Some(k))
    ensures forall a :: a in c'.aborts <==> a in c.aborts && scope.Some? && a.scope != scope
  {
    var p := Not(Doomed(all, scope));
    forall k | k in c.tasks
      ensures k in all && all[k] == c.tasks[k]
    {
    }
    KeptElements(c.queue.normal + added, p);
    KeptElements(c.queue.wakes, p);
    KeptElements(c.aborts, OtherThan(scope));
  }

  /** A refused abort keeps every task, retires every wait of the scope that it can, and is remembered. */
  lemma {:induction false} RefusalHolds(c: Core, scope: Option<nat>, reason: Failure, busy: set<nat>,
                                        added: seq<TaskKey>, all: Table, c': Core)
    requires ParksLive(c) && Aborted(c, scope, reason, busy, added, all, false, c')
    ensures forall k :: k in c.tasks ==> k in c'.tasks && c'.tasks[k] == c.tasks[k]
    ensures c'.parked.Keys == c.parked.Keys && c'.timers == c.timers
    ensures forall k {:trigger c'.parked[k]} :: k in c.parked ==>
              c'.parked[k] == if About(scope, c.tasks[k].scope) && !Publishing(c, scope, busy, k) then c.parked[k].(retired := true) else c.parked[k]
    ensures PendingAbort(scope, reason) in c'.aborts || (exists a :: a in c.aborts && a in c'.aborts && a.scope.None?)
    ensures scope.Some? ==> forall a :: a in c.aborts && a.scope != scope ==> a in c'.aborts
  {
    forall k | k in c.parked
      ensures Publishing(c, scope, busy, k) <==> Refuses(all, c.parked, busy, k) && Hits(scope, all[k].scope)
    {
      assert all[k] == c.tasks[k];
    }
    NoTokens(c.parked, c.parked.Keys - c'.parked.Keys);
    DeferredIsRemembered(c.aborts, scope, reason);
  }

  lemma {:induction false} DeferredIsRemembered(aborts: seq<PendingAbort>, scope: Option<nat>, reason: Failure)
    ensures var after := Deferred(aborts, scope, reason);
            && (PendingAbort(scope, reason) in after || exists a :: a in aborts && a in after && a.scope.None?)
            && (scope.Some? ==> forall a :: a in aborts && a.scope != scope ==> a in after)
  {
    var after := Deferred(aborts, scope, reason);
    if scope.Some? && Blocks(aborts, None) {
      var i :| 0 <= i < |aborts| && aborts[i].scope.None?;
      assert aborts[i] in aborts;
    } else if scope.Some? && Blocks(aborts, scope) {
      var i :| 0 <= i < |aborts| && aborts[i].scope == scope;
      assert after[i] == PendingAbort(scope, reason);
      forall a | a in aborts && a.scope != scope
        ensures a in after
      {
        var j :| 0 <= j < |aborts| && aborts[j] == a;
        assert after[j] == a;
      }
    }
  }

  /** A refused abort takes its scope's task from flight to the head of the normal lane, unless a whole-carrier abort is pending. */
  lemma {:induction false} RefusalGrounds(c: Core, scope: Option<nat>, reason: Failure, busy: set<nat>,
                                          added: seq<TaskKey>, all: Table, c': Core)
    requires Aborted(c, scope, reason, busy, added, all, false, c')
    requires c.flight.Some? && c.flight.value in c.tasks && forall a :: a in c.aborts ==> a.scope.Some?
    ensures if About(scope, c.tasks[c.flight.value].scope) then c'.flight.None? && c'.queue.normal == [c.flight.value] + c.queue.normal + added
            else c'.flight == c.flight && c'.queue.normal == c.queue.normal + added
    ensures c'.queue.wakes == c.queue.wakes && c'.queue.streak == c.queue.streak
  {
    assert all[c.flight.value] == c.tasks[c.flight.value];
    assert !Blocks(c.aborts, None);
    Associates([c.flight.value], c.queue.normal, added);
  }

  /** Either way the scope's start packets are dropped, the others keep their order, and completions are out. */
  lemma {:induction false} AbortDropsStarts(c: Core, scope: Option<nat>, reason: Failure, busy: set<nat>,
                                            added: seq<TaskKey>, all: Table, done: bool, c': Core)
    requires Aborted(c, scope, reason, busy, added, all, done, c')
    ensures c'.starts.inbox == Kept(c.starts.inbox, (t: Task) => !About(scope, t.scope))
    ensures c'.starts.incoming == Kept(c.starts.incoming, (t: Task) => !About(scope, t.scope))
    ensures c'.starts.local == [] && (c'.starts.pending.Some? ==> !About(scope, c'.starts.pending.value.scope))
    ensures c'.batch.updates == [] && c'.batch.published == c.batch.published + c.batch.updates
  {
    var f, g := Not(HitBy(scope)), (t: Task) => !About(scope, t.scope);
    KeptSame(c.starts.inbox, f, g);
    KeptSame(c.starts.incoming, f, g);
  }

  // ------------------------------------------------- a pass of retries

  /**
   What a pass of retries does for one entry: it is pending again if and only if a publication
   of its scope was in flight when it was tried, and then with all its tasks, whose other
   waits are retired; otherwise no task of its scope is left.
   */
  lemma {:induction false} PassDecides(c: Core, busy: map<nat, set<nat>>, c': Core, added: seq<TaskKey>, all: Table, j: nat)
    requires Rooted(c) && Passed(c, busy, c', added, all) && j < |c.aborts|
    ensures var e, now := c.aborts[j], if j in busy then busy[j] else {};
            && (e in c'.aborts <==> exists k :: Publishing(c, e.scope, now, k))
            && (e !in c'.aborts ==> forall k :: k in c'.tasks ==> !About(e.scope, c'.tasks[k].scope))
            && (e in c'.aborts ==> forall k :: k in c.tasks && About(e.scope, c.tasks[k].scope) ==> k in c'.tasks && c'.tasks[k] == c.tasks[k])
            && (e in c'.aborts ==> forall k {:trigger c.parked[k]} :: k in c.parked && About(e.scope, c.tasks[k].scope) ==>
                 && k in c'.parked
                 && c'.parked[k] == if Publishing(c, e.scope, now, k) then c.parked[k] else c.parked[k].(retired := true))
  {
    var e, now := c.aborts[j], if j in busy then busy[j] else {};
    forall k | k in c.parked
      ensures Publishing(c, e.scope, now, k) <==> Refuses(c.tasks, c.parked, now, k) && Hits(e.scope, c.tasks[k].scope)
    {
    }
    if Refused(c.tasks, c.parked, e.scope, now) {
      var k :| Refuses(c.tasks, c.parked, now, k) && Hits(e.scope, c.tasks[k].scope);
      assert Publishing(c, e.scope, now, k);
    }
    forall s: nat | About(e.scope, s)
      ensures Blocked(c.aborts, s) && (Blocked(c'.aborts, s) <==> e in c'.aborts)
    {
      OneEntryDecides(c.aborts, c'.aborts, j, s);
    }
    if e in c'.aborts {
      forall k | k in c.parked && About(e.scope, c.tasks[k].scope)
        ensures k in c'.parked
        ensures c'.parked[k] == if Publishing(c, e.scope, now, k) then c.parked[k] else c.parked[k].(retired := true)
      {
        assert all[k] == c.tasks[k] && k in c'.tasks;
        assert c'.parked[k] == AbandonedOne(c.tasks, c.parked, c.aborts[j].scope, BusyAt(busy, j), k);
      }
      forall k | k in c.tasks && About(e.scope, c.tasks[k].scope)
        ensures k in c'.tasks && c'.tasks[k] == c.tasks[k]
      {
        assert all[k] == c.tasks[k];
      }
    }
  }

  /** No scope is named by two entries, so one entry decides whether a scope stays held back. */
  lemma {:induction false} OneEntryDecides(aborts: seq<PendingAbort>, aborts': seq<PendingAbort>, j: nat, s: nat)
    requires AbortsDistinct(aborts) && j < |aborts| && About(aborts[j].scope, s) && forall a :: a in aborts' ==> a in aborts
    ensures Blocked(aborts, s) && (Blocked(aborts', s) <==> aborts[j] in aborts')
  {
    assert Hits(aborts[j].scope, s);
    if Blocked(aborts', s) {
      var i :| 0 <= i < |aborts'| && Hits(aborts'[i].scope, s);
      assert aborts'[i] in aborts;
      var n :| 0 <= n < |aborts| && aborts[n] == aborts'[i];
      assert n == j;
    }
    if aborts[j] in aborts' {
      var i :| 0 <= i < |aborts'| && aborts'[i] == aborts[j];
      assert Hits(aborts'[i].scope, s);
    }
  }

  /** Tasks no entry is about stay, with their park records, and so do start packets, in order. */
  lemma {:induction false} PassSpares(c: Core, busy: map<nat, set<nat>>, c': Core, added: seq<TaskKey>, all: Table, k: TaskKey)
    requires Rooted(c) && Passed(c, busy, c', added, all)
    requires k in c.tasks && forall a :: a in c.aborts ==> !About(a.scope, c.tasks[k].scope)
    ensures k in c'.tasks && c'.tasks[k] == c.tasks[k]
    ensures k in c.parked <==> k in c'.parked
    ensures k in c.parked ==> c'.parked[k] == c.parked[k]
    ensures (k in c.queue.normal ==> k in c'.queue.normal) && (k in c.queue.wakes ==> k in c'.queue.wakes)
  {
    assert !Blocked(c.aborts, c.tasks[k].scope);
    assert c.aborts[0..] == c.aborts && all[k] == c.tasks[k];
    KeptElements(c.queue.normal + added, Alive(c'.tasks));
    KeptElements(c.queue.wakes, Alive(c'.tasks));
  }
}
