/**
 Retrying every pending abort, newest first: what a whole pass does, although each try
 takes an entry out of the list with `swap_remove` and may put it back at the end.
 */
module KernelRetry {
  import opened Options
  import opened Collections
  import opened Tasks
  import opened RQ = ReadyQueue
  import opened KernelState
  import opened KernelSpec
  import opened KernelPhases

  // ------------------------------------------------- retrying aborts

  /** Start packets no abort of the list is about. */
  function Untouched(aborts: seq<PendingAbort>): Task -> bool {
    (t: Task) => !Blocked(aborts, t.scope)
  }

  /** The starts after every abort of the list has been tried. */
  function StartsRetried(s: Starts, tried: seq<PendingAbort>): Starts {
    if tried == [] then s
    else
      Starts(if s.pending.Some? && Blocked(tried, s.pending.value.scope) then None else s.pending,
             Kept(s.incoming, Untouched(tried)), Kept(s.inbox, Untouched(tried)), [])
  }

  /** The tasks after aborts were tried: exactly those of a scope whose abort went through are gone. */
  function TasksLeft(all: Table, tried: seq<PendingAbort>, still: seq<PendingAbort>): Table {
    map k | k in all && (!Blocked(tried, all[k].scope) || Blocked(still, all[k].scope)) :: all[k]
  }

  function Purged(tasks: Table, scope: Option<nat>): Table {
    map k | k in tasks && !Hits(scope, tasks[k].scope) :: tasks[k]
  }

  lemma {:induction false} BlockedFirst(e: PendingAbort, rest: seq<PendingAbort>, s: nat)
    ensures Blocked([e] + rest, s) <==> Hits(e.scope, s) || Blocked(rest, s)
  {
    var all := [e] + rest;
    if Blocked(rest, s) {
      var i :| 0 <= i < |rest| && Hits(rest[i].scope, s);
      assert all[i + 1] == rest[i];
    }
    if Hits(e.scope, s) { assert all[0] == e; }
    if Blocked(all, s) && !Hits(e.scope, s) {
      var i :| 0 <= i < |all| && Hits(all[i].scope, s);
      assert rest[i - 1] == all[i];
    }
  }

  /** Being blocked depends only on which aborts are listed. */
  lemma {:induction false} BlockedByMembers(a: seq<PendingAbort>, b: seq<PendingAbort>, s: nat)
    requires Blocked(a, s) && forall x :: x in a && Hits(x.scope, s) ==> x in b
    ensures Blocked(b, s)
  {
    var i :| 0 <= i < |a| && Hits(a[i].scope, s);
    assert a[i] in a;
    var j :| 0 <= j < |b| && b[j] == a[i];
  }

  lemma {:induction false} KeptTwice<T>(s: seq<T>, f: T -> bool, g: T -> bool, h: T -> bool)
    requires forall x :: h(x) == (f(x) && g(x))
    ensures Kept(Kept(s, f), g) == Kept(s, h)
  {
    if s != [] {
      KeptTwice(s[1..], f, g, h);
      var rest := Kept(s[1..], f);
      if f(s[0]) {
        assert Kept(s, f) == [s[0]] + rest && ([s[0]] + rest)[1..] == rest;
      } else {
        assert Kept(s, f) == rest;
      }
    }
  }

  lemma {:induction false} RetryStarts(s: Starts, tried: seq<PendingAbort>, e: PendingAbort)
    ensures StartsAfter(StartsRetried(s, tried), e.scope) == StartsRetried(s, [e] + tried)
  {
    var g, h := Not(HitBy(e.scope)), Untouched([e] + tried);
    forall t: Task
      ensures Blocked([e] + tried, t.scope) <==> Hits(e.scope, t.scope) || Blocked(tried, t.scope)
    {
      BlockedFirst(e, tried, t.scope);
    }
    assert [e] + tried != [];
    if tried == [] {
      assert forall t: Task :: !Blocked(tried, t.scope);
      KeptSame(s.incoming, g, h);
      KeptSame(s.inbox, g, h);
    } else {
      KeptTwice(s.incoming, Untouched(tried), g, h);
      KeptTwice(s.inbox, Untouched(tried), g, h);
    }
    if s.pending.Some? { BlockedFirst(e, tried, s.pending.value.scope); }
  }

  /** What one more try does to the tasks left. */
  lemma {:induction false} RetryTasks(all: Table, tried: seq<PendingAbort>, still: seq<PendingAbort>, e: PendingAbort, done: bool,
                                      still': seq<PendingAbort>)
    requires AbortsDistinct([e] + tried)
    requires forall a :: a in still ==> a in tried
    requires forall a :: a in still' <==> a in still || (!done && a == e)
    ensures (if done then Purged(TasksLeft(all, tried, still), e.scope) else TasksLeft(all, tried, still)) == TasksLeft(all, [e] + tried, still')
  {
    forall s: nat
      ensures Blocked([e] + tried, s) <==> Hits(e.scope, s) || Blocked(tried, s)
      ensures Hits(e.scope, s) ==> !Blocked(tried, s) && !Blocked(still, s)
      ensures Blocked(still', s) <==> Blocked(still, s) || (!done && Hits(e.scope, s))
    {
      BlockedFirst(e, tried, s);
      if Hits(e.scope, s) { OthersDoNotHit(e, tried, s); }
      if Blocked(still, s) {
        BlockedByMembers(still, tried, s);
        BlockedByMembers(still, still', s);
      }
      if !done && Hits(e.scope, s) {
        assert [e][0] == e && Blocked([e], s);
        BlockedByMembers([e], still', s);
      }
      if Blocked(still', s) && !(!done && Hits(e.scope, s)) { BlockedByMembers(still', still, s); }
    }
  }

  lemma {:induction false} OthersDoNotHit(e: PendingAbort, others: seq<PendingAbort>, s: nat)
    requires AbortsDistinct([e] + others) && Hits(e.scope, s)
    ensures !Blocked(others, s)
  {
    var all := [e] + others;
    forall i | 0 <= i < |others|
      ensures !Hits(others[i].scope, s)
    {
      assert all[0] == e && all[i + 1] == others[i];
    }
  }

  lemma {:induction false} AdoptedNothing(tasks: Table, added: seq<TaskKey>, tasks': Table)
    requires Adopted(tasks, [], added, tasks')
    ensures tasks' == tasks
  {
    assert tasks'.Keys == tasks.Keys;
  }

  /** The list after one try: the entry is gone or at the back, and nothing before it moved. */
  lemma {:induction false} RetryList(aborts: seq<PendingAbort>, i: nat, done: bool)
    requires AbortsDistinct(aborts) && i < |aborts|
    ensures var e, rest := aborts[i], SwapRemoved(aborts, i);
            var after := if done then Kept(rest, OtherThan(e.scope)) else Deferred(rest, e.scope, e.reason);
            && i <= |after| && after[..i] == aborts[..i]
            && forall a :: a in after[i..] <==> a in aborts[i + 1..] || (!done && a == e)
  {
    var e, rest := aborts[i], SwapRemoved(aborts, i);
    SwappedAborts(aborts, i);
    SwapTail(aborts, i);
    if done {
      KeptEverything(rest, OtherThan(e.scope));
    } else {
      assert (rest + [e])[i..] == rest[i..] + [e] && (rest + [e])[..i] == rest[..i];
      assert Deferred(rest, e.scope, e.reason) == rest + [e];
    }
  }

  lemma {:induction false} SwapTail(aborts: seq<PendingAbort>, i: nat)
    requires i < |aborts|
    ensures forall a :: a in SwapRemoved(aborts, i)[i..] <==> a in aborts[i + 1..]
  {
    if i < |aborts| - 1 {
      var last := aborts[|aborts| - 1];
      assert SwapRemoved(aborts, i)[i..] == [last] + aborts[i + 1..|aborts| - 1];
      assert aborts[i + 1..] == aborts[i + 1..|aborts| - 1] + [last];
    }
  }

  lemma {:induction false} KeptEverything<T>(s: seq<T>, f: T -> bool)
    requires forall x :: x in s ==> f(x)
    ensures Kept(s, f) == s
  {
    if s != [] {
      assert s[0] in s && forall x :: x in s[1..] ==> x in s;
      KeptEverything(s[1..], f);
    }
  }

  lemma {:induction false} SuffixDistinct(aborts: seq<PendingAbort>, i: nat)
    requires AbortsDistinct(aborts) && i < |aborts|
    ensures AbortsDistinct([aborts[i]] + aborts[i + 1..])
  {
    assert [aborts[i]] + aborts[i + 1..] == aborts[i..];
  }

  /** The starts, tasks and list of pending aborts once `entries[index..]` have been tried, newest first. */
  ghost predicate Retried(starts: Starts, tasks: Table, entries: seq<PendingAbort>, index: nat,
                          starts': Starts, tasks': Table, aborts': seq<PendingAbort>, added: seq<TaskKey>, all: Table) {
    && index <= |aborts'| && index <= |entries| && aborts'[..index] == entries[..index]
    && starts' == StartsRetried(starts, entries[index..])
    && (forall a :: a in aborts'[index..] ==> a in entries[index..])
    && Adopted(tasks, if index == |entries| then [] else starts.local, added, all)
    && tasks' == TasksLeft(all, entries[index..], aborts'[index..])
  }

  /** What trying one entry does to them. */
  ghost predicate TriedOne(starts: Starts, tasks: Table, aborts: seq<PendingAbort>, index: nat, done: bool,
                           starts': Starts, tasks': Table, aborts': seq<PendingAbort>, added: seq<TaskKey>, all: Table)
    requires index < |aborts|
  {
    var entry := aborts[index];
    && index <= |aborts'| && aborts'[..index] == aborts[..index]
    && starts' == StartsAfter(starts, entry.scope)
    && Adopted(tasks, starts.local, added, all)
    && tasks' == (if done then Purged(all, entry.scope) else all)
    && (forall a :: a in aborts'[index..] <==> a in aborts[index + 1..] || (!done && a == entry))
  }

  lemma {:induction false} RetryBegins(starts: Starts, tasks: Table, entries: seq<PendingAbort>)
    ensures Retried(starts, tasks, entries, |entries|, starts, tasks, entries, [], tasks)
  {
    assert entries[|entries|..] == [];
    assert TasksLeft(tasks, [], []) == tasks;
  }

  lemma {:induction false} RetryAdvances(starts0: Starts, tasks0: Table, entries: seq<PendingAbort>, index: nat,
                                         starts: Starts, tasks: Table, aborts: seq<PendingAbort>, added: seq<TaskKey>, all: Table,
                                         done: bool, starts': Starts, tasks': Table, aborts': seq<PendingAbort>,
                                         more: seq<TaskKey>, mid: Table)
    requires AbortsDistinct(entries) && index < |entries|
    requires Retried(starts0, tasks0, entries, index + 1, starts, tasks, aborts, added, all)
    requires TriedOne(starts, tasks, aborts, index, done, starts', tasks', aborts', more, mid)
    ensures var first := index + 1 == |entries|;
            Retried(starts0, tasks0, entries, index, starts', tasks', aborts', if first then more else added, if first then mid else all)
  {
    var e, tried, still := entries[index], entries[index + 1..], aborts[index + 1..];
    assert entries[index..] == [e] + tried;
    assert aborts[index] == entries[..index + 1][index];
    assert aborts'[..index] == aborts[..index + 1][..index] == entries[..index];
    RetryStarts(starts0, tried, e);
    assert starts.local == if tried == [] then starts0.local else [];
    SuffixDistinct(entries, index);
    RetryTable(starts0.local, tasks0, added, all, e, tried, still, tasks, starts.local, more, mid, done, tasks', aborts'[index..]);
  }

  /** The task table across one try: local starts join at the first, later ones find none. */
  lemma {:induction false} RetryTable(local: seq<Task>, tasks0: Table, added: seq<TaskKey>, all: Table,
                                      e: PendingAbort, tried: seq<PendingAbort>, still: seq<PendingAbort>,
                                      tasks: Table, nowLocal: seq<Task>, more: seq<TaskKey>, mid: Table, done: bool,
                                      tasks': Table, still': seq<PendingAbort>)
    requires AbortsDistinct([e] + tried) && (forall a :: a in still ==> a in tried)
    requires Adopted(tasks0, if tried == [] then [] else local, added, all) && tasks == TasksLeft(all, tried, still)
    requires nowLocal == (if tried == [] then local else []) && Adopted(tasks, nowLocal, more, mid)
    requires tasks' == (if done then Purged(mid, e.scope) else mid)
    requires forall a :: a in still' <==> a in still || (!done && a == e)
    ensures Adopted(tasks0, local, if tried == [] then more else added, if tried == [] then mid else all)
    ensures tasks' == TasksLeft(if tried == [] then mid else all, [e] + tried, still')
  {
    if tried == [] {
      NoAbortsLeaveAll(all, tried, still);
      NoAbortsLeaveAll(mid, tried, still);
      AdoptedNothing(tasks0, added, all);
      RetryTasks(mid, tried, still, e, done, still');
    } else {
      AdoptedNothing(tasks, more, mid);
      RetryTasks(all, tried, still, e, done, still');
    }
  }

  lemma {:induction false} NoAbortsLeaveAll(all: Table, tried: seq<PendingAbort>, still: seq<PendingAbort>)
    requires tried == []
    ensures TasksLeft(all, tried, still) == all
  {
  }

  lemma {:induction false} KeptSame<T>(s: seq<T>, f: T -> bool, g: T -> bool)
    requires forall x :: f(x) == g(x)
    ensures Kept(s, f) == Kept(s, g)
  {
    if s != [] { KeptSame(s[1..], f, g); }
  }

  lemma {:induction false} RetriedStaysIdle(s: Starts, tried: seq<PendingAbort>)
    requires Idle(s)
    ensures Idle(StartsRetried(s, tried))
  {
  }

  // ------------------------------------------------- a whole pass

  function Alive(tasks: Table): TaskKey -> bool {
    (k: TaskKey) => k in tasks
  }

  /** What the kernel's invariant says before a pass: every place holds live tasks, and nothing is in flight. */
  ghost predicate Rooted(c: Core) {
    && (forall k :: k in c.parked ==> k in c.tasks)
    && (forall k :: k in c.queue.normal || k in c.queue.wakes ==> k in c.tasks)
    && (forall n :: n in c.notices ==> n.route in c.parked)
    && AbortsDistinct(c.aborts) && c.flight.None?
  }

  /** An entry is pending again iff a publisher of its scope refused. */
  ghost predicate AbortsTried(c0: Core, busy: map<nat, set<nat>>, index: nat, aborts: seq<PendingAbort>) {
    && index <= |aborts|
    && forall j :: index <= j < |c0.aborts| ==>
         (c0.aborts[j] in aborts[index..] <==> Refused(c0.tasks, c0.parked, c0.aborts[j].scope, BusyAt(busy, j)))
  }

  /** Park records are as before, without their tasks gone, up to the waits the tries retired. */
  ghost predicate ParksTried(c0: Core, busy: map<nat, set<nat>>, index: nat, tasks: Table, parked: Parks) {
    && (forall k :: k in parked ==>
         && k in c0.parked && k in c0.tasks && parked[k].token == c0.parked[k].token
         && k in tasks && tasks[k] == c0.tasks[k])
    && (forall k :: k in c0.parked && k in c0.tasks && !BlockedFrom(c0.aborts, index, c0.tasks[k].scope) ==>
         k in parked && parked[k] == c0.parked[k])
    && (forall k, j {:trigger AbandonedOne(c0.tasks, c0.parked, c0.aborts[j].scope, BusyAt(busy, j), k)} ::
         k in parked && k in c0.parked && k in c0.tasks && index <= j < |c0.aborts| && Hits(c0.aborts[j].scope, c0.tasks[k].scope) ==>
         parked[k] == AbandonedOne(c0.tasks, c0.parked, c0.aborts[j].scope, BusyAt(busy, j), k))
    && (forall k :: k in c0.parked && k in tasks ==> k in parked)
  }

  ghost predicate BlockedFrom(aborts: seq<PendingAbort>, index: nat, s: nat) {
    index <= |aborts| && Blocked(aborts[index..], s)
  }

  /** A pass that has tried `c0.aborts[index..]`, newest first, and has led to `c`. */
  ghost predicate PassState(c0: Core, busy: map<nat, set<nat>>, index: nat, c: Core, added: seq<TaskKey>, all: Table) {
    && Retried(c0.starts, c0.tasks, c0.aborts, index, c.starts, c.tasks, c.aborts, added, all)
    && AbortsDistinct(c.aborts) && AbortsTried(c0, busy, index, c.aborts)
    && ParksTried(c0, busy, index, c.tasks, c.parked)
    && c.queue == Eligible(c0.queue.(normal := c0.queue.normal + added), Alive(c.tasks)) && c.flight.None?
    && c.timers == c0.timers - TokensOf(c0.parked, c0.parked.Keys - c.parked.Keys)
    && (forall n :: n in c.notices <==> n in c0.notices && n.route in c.parked)
    && c.batch == (if index < |c0.aborts| then Flushed(c0.batch) else c0.batch)
  }

  lemma {:induction false} NothingSkipped(q: Queue, tasks: Table)
    requires forall k :: k in q.normal || k in q.wakes ==> k in tasks
    ensures Eligible(q, Alive(tasks)) == q
  {
    KeptEverything(q.normal, Alive(tasks));
    KeptEverything(q.wakes, Alive(tasks));
  }

  lemma {:induction false} PassBegins(c: Core, busy: map<nat, set<nat>>)
    requires Rooted(c)
    ensures PassState(c, busy, |c.aborts|, c, [], c.tasks)
  {
    RetryBegins(c.starts, c.tasks, c.aborts);
    assert c.queue.normal + [] == c.queue.normal;
    NothingSkipped(c.queue, c.tasks);
    NoTokens(c.parked, c.parked.Keys - c.parked.Keys);
  }

  lemma {:induction false} StaysDistinct(aborts: seq<PendingAbort>, index: nat, done: bool)
    requires AbortsDistinct(aborts) && index < |aborts|
    ensures var e, rest := aborts[index], SwapRemoved(aborts, index);
            AbortsDistinct(if done then Kept(rest, OtherThan(e.scope)) else Deferred(rest, e.scope, e.reason))
  {
    var e, rest := aborts[index], SwapRemoved(aborts, index);
    SwappedAborts(aborts, index);
    if done {
      KeptAbortsDistinct(rest, OtherThan(e.scope));
    } else {
      assert Deferred(rest, e.scope, e.reason) == rest + [e];
    }
  }

  /** The list of pending aborts after one try, and what that try does to starts and tasks. */
  lemma {:induction false} OneTry(starts: Starts, tasks: Table, aborts: seq<PendingAbort>, index: nat, done: bool,
                                  starts': Starts, tasks': Table, aborts': seq<PendingAbort>, added: seq<TaskKey>, all: Table)
    requires AbortsDistinct(aborts) && index < |aborts|
    requires var e, rest := aborts[index], SwapRemoved(aborts, index);
             && aborts' == (if done then Kept(rest, OtherThan(e.scope)) else Deferred(rest, e.scope, e.reason))
             && starts' == StartsAfter(starts, e.scope) && Adopted(tasks, starts.local, added, all)
             && tasks' == if done then Purged(all, e.scope) else all
    ensures TriedOne(starts, tasks, aborts, index, done, starts', tasks', aborts', added, all) && AbortsDistinct(aborts')
  {
    RetryList(aborts, index, done);
    StaysDistinct(aborts, index, done);
  }

  lemma {:induction false} TryIsOne(c: Core, index: nat, busy: set<nat>, a: Attempt)
    requires Tried(c, index, busy, a) && AbortsDistinct(c.aborts)
    ensures TriedOne(c.starts, c.tasks, c.aborts, index, a.done, a.after.starts, a.after.tasks, a.after.aborts, a.added, a.all)
    ensures AbortsDistinct(a.after.aborts)
  {
    var tasks := a.after.tasks;
    assert a.done ==> tasks == Purged(a.all, c.aborts[index].scope);
    OneTry(c.starts, c.tasks, c.aborts, index, a.done, a.after.starts, tasks, a.after.aborts, a.added, a.all);
  }

  /** Other tries leave a scope's tasks and waits alone, so its publishers answer as at the start. */
  lemma {:induction false} SameRefusal(c0: Core, busy: map<nat, set<nat>>, index: nat, c: Core, added: seq<TaskKey>, all: Table, a: Attempt)
    requires Rooted(c0) && index < |c0.aborts| && PassState(c0, busy, index + 1, c, added, all)
    requires Adopted(c.tasks, c.starts.local, a.added, a.all)
    ensures var e, now := c0.aborts[index], BusyAt(busy, index);
            && (forall k :: k in c.parked && k in c0.tasks && Hits(e.scope, c0.tasks[k].scope) ==>
                 k in c0.parked && c.parked[k] == c0.parked[k] && k in a.all && a.all[k] == c0.tasks[k])
            && (Refused(a.all, c.parked, e.scope, now) <==> Refused(c0.tasks, c0.parked, e.scope, now))
  {
    var e, now := c0.aborts[index], BusyAt(busy, index);
    SuffixDistinct(c0.aborts, index);
    forall k | k in c0.parked && k in c0.tasks && Hits(e.scope, c0.tasks[k].scope)
      ensures k in c.parked && c.parked[k] == c0.parked[k] && k in a.all && a.all[k] == c0.tasks[k]
    {
      OthersDoNotHit(e, c0.aborts[index + 1..], c0.tasks[k].scope);
      assert !BlockedFrom(c0.aborts, index + 1, c0.tasks[k].scope);
    }
    if Refused(a.all, c.parked, e.scope, now) {
      var k :| Refuses(a.all, c.parked, now, k) && Hits(e.scope, a.all[k].scope);
      assert c.tasks[k] == c0.tasks[k] && a.all[k] == c.tasks[k];
      assert Refuses(c0.tasks, c0.parked, now, k);
    }
    if Refused(c0.tasks, c0.parked, e.scope, now) {
      var k :| Refuses(c0.tasks, c0.parked, now, k) && Hits(e.scope, c0.tasks[k].scope);
      assert Refuses(a.all, c.parked, now, k);
    }
  }

  lemma {:induction false} AbortsAdvance(c0: Core, busy: map<nat, set<nat>>, index: nat, still: seq<PendingAbort>, aborts': seq<PendingAbort>, done: bool)
    requires AbortsDistinct(c0.aborts) && index < |c0.aborts| && index <= |aborts'|
    requires forall j :: index < j < |c0.aborts| ==>
               (c0.aborts[j] in still <==> Refused(c0.tasks, c0.parked, c0.aborts[j].scope, BusyAt(busy, j)))
    requires c0.aborts[index] !in still
    requires forall a :: a in aborts'[index..] <==> a in still || (!done && a == c0.aborts[index])
    requires done <==> !Refused(c0.tasks, c0.parked, c0.aborts[index].scope, BusyAt(busy, index))
    ensures AbortsTried(c0, busy, index, aborts')
  {
    forall j | index < j < |c0.aborts|
      ensures c0.aborts[j] != c0.aborts[index]
    {
    }
  }

  /** One try on the park records and the tasks. */
  ghost predicate ParkStep(tasks: Table, parked: Parks, all: Table, scope: Option<nat>, now: set<nat>, done: bool, tasks': Table, parked': Parks) {
    && (forall k :: k in tasks ==> k in all && all[k] == tasks[k])
    && (if done then tasks' == Purged(all, scope) && parked' == ParksLeft(parked, Doomed(all, scope))
        else tasks' == all && parked' == Abandoned(all, parked, scope, now))
  }

  lemma {:induction false} ParksAdvance(c0: Core, busy: map<nat, set<nat>>, index: nat, tasks: Table, parked: Parks,
                                        all: Table, done: bool, tasks': Table, parked': Parks)
    requires Rooted(c0) && index < |c0.aborts| && ParksTried(c0, busy, index + 1, tasks, parked)
    requires ParkStep(tasks, parked, all, c0.aborts[index].scope, BusyAt(busy, index), done, tasks', parked')
    requires forall k :: k in all && k in c0.tasks ==> k in tasks
    ensures ParksTried(c0, busy, index, tasks', parked')
  {
    var e := c0.aborts[index];
    SuffixDistinct(c0.aborts, index);
    forall s: nat
      ensures BlockedFrom(c0.aborts, index, s) <==> Hits(e.scope, s) || BlockedFrom(c0.aborts, index + 1, s)
      ensures Hits(e.scope, s) ==> !BlockedFrom(c0.aborts, index + 1, s)
    {
      assert c0.aborts[index..] == [e] + c0.aborts[index + 1..];
      BlockedFirst(e, c0.aborts[index + 1..], s);
      if Hits(e.scope, s) { OthersDoNotHit(e, c0.aborts[index + 1..], s); }
    }
    forall k, j | k in parked' && k in c0.parked && k in c0.tasks && index <= j < |c0.aborts| && Hits(c0.aborts[j].scope, c0.tasks[k].scope)
      ensures parked'[k] == AbandonedOne(c0.tasks, c0.parked, c0.aborts[j].scope, BusyAt(busy, j), k)
    {
      LaterEntry(c0, index, j, c0.tasks[k].scope);
      assert all[k] == c0.tasks[k];
    }
  }

  /** No scope is hit by two entries. */
  lemma {:induction false} LaterEntry(c0: Core, index: nat, j: nat, s: nat)
    requires AbortsDistinct(c0.aborts) && index <= j < |c0.aborts| && Hits(c0.aborts[j].scope, s)
    ensures j > index ==> !Hits(c0.aborts[index].scope, s)
  {
  }

  lemma {:induction false} LaneAdvances(lane: seq<TaskKey>, all: Table, scope: Option<nat>)
    ensures Kept(Kept(lane, Alive(all)), Not(Doomed(all, scope))) == Kept(lane, Alive(Purged(all, scope)))
  {
    KeptTwice(lane, Alive(all), Not(Doomed(all, scope)), Alive(Purged(all, scope)));
  }

  /** The lanes after one try: local starts join at the first, and then the scope's tasks may go. */
  lemma {:induction false} QueueAdvances(c0: Core, c: Core, all: Table, more: seq<TaskKey>, added: seq<TaskKey>, scope: Option<nat>)
    requires c.queue == Eligible(c0.queue.(normal := c0.queue.normal + added), Alive(c.tasks))
    requires (added == [] && c.tasks == c0.tasks && Rooted(c0)) || (more == [] && all == c.tasks)
    requires forall k :: k in c.tasks ==> k in all
    requires forall k :: k in more ==> k in all
    ensures var q := c.queue.(normal := c.queue.normal + more);
            var q0 := c0.queue.(normal := c0.queue.normal + if more == [] then added else more);
            && q == Eligible(q0, Alive(all))
            && Eligible(q, Not(Doomed(all, scope))) == Eligible(q0, Alive(Purged(all, scope)))
  {
    var q0 := c0.queue.(normal := c0.queue.normal + if more == [] then added else more);
    assert c.queue.normal + [] == c.queue.normal;
    if added == [] && c.tasks == c0.tasks && Rooted(c0) {
      assert c0.queue.normal + [] == c0.queue.normal;
      NothingSkipped(c0.queue, c0.tasks);
      NothingSkipped(q0, all);
    }
    LaneAdvances(q0.normal, all, scope);
    LaneAdvances(q0.wakes, all, scope);
  }

  lemma {:induction false} TimersAdvance(timers: set<nat>, parked0: Parks, parked: Parks, parked': Parks)
    requires parked.Keys <= parked0.Keys && parked'.Keys <= parked.Keys
    requires forall k :: k in parked ==> parked[k].token == parked0[k].token
    ensures timers - TokensOf(parked0, parked0.Keys - parked.Keys) - TokensOf(parked, parked.Keys - parked'.Keys) ==
            timers - TokensOf(parked0, parked0.Keys - parked'.Keys)
  {
    var first, second, both := parked0.Keys - parked.Keys, parked.Keys - parked'.Keys, parked0.Keys - parked'.Keys;
    forall t
      ensures t in TokensOf(parked0, both) <==> t in TokensOf(parked0, first) || t in TokensOf(parked, second)
    {
      if t in TokensOf(parked, second) {
        var k :| k in second && k in parked && parked[k].token == t;
        assert k in both && parked0[k].token == t;
      }
      if t in TokensOf(parked0, both) {
        var k :| k in both && k in parked0 && parked0[k].token == t;
        assert k in first || (k in second && parked[k].token == t);
      }
    }
  }

  /** What one try does to each part of the kernel. */
  lemma {:induction false} TriedMeans(c: Core, index: nat, now: set<nat>, a: Attempt)
    requires Tried(c, index, now, a) && c.flight.None?
    ensures Adopted(c.tasks, c.starts.local, a.added, a.all)
    ensures var scope := c.aborts[index].scope;
            && (a.done <==> !Refused(a.all, c.parked, scope, now))
            && ParkStep(c.tasks, c.parked, a.all, scope, now, a.done, a.after.tasks, a.after.parked)
            && a.after.flight.None? && a.after.batch == Flushed(c.batch)
            && var q := c.queue.(normal := c.queue.normal + a.added);
               a.after.queue == if a.done then Eligible(q, Not(Doomed(a.all, scope))) else q
    ensures a.after.timers == c.timers - TokensOf(c.parked, c.parked.Keys - a.after.parked.Keys)
    ensures forall n :: n in a.after.notices <==> n in c.notices && n.route in a.after.parked
  {
  }

  /** What the earlier tries left, seen from the entry tried next. */
  lemma {:induction false} StillPending(c0: Core, busy: map<nat, set<nat>>, index: nat, aborts: seq<PendingAbort>)
    requires AbortsDistinct(c0.aborts) && index < |c0.aborts| && AbortsTried(c0, busy, index + 1, aborts)
    requires aborts[..index + 1] == c0.aborts[..index + 1] && AbortsDistinct(aborts)
    ensures aborts[index] == c0.aborts[index] && c0.aborts[index] !in aborts[index + 1..]
  {
    assert aborts[index] == aborts[..index + 1][index];
  }

  lemma {:induction false} FreshAdopted(c0: Core, busy: map<nat, set<nat>>, index: nat, c: Core, added: seq<TaskKey>, all: Table, a: Attempt)
    requires index < |c0.aborts| && PassState(c0, busy, index + 1, c, added, all) && Adopted(c.tasks, c.starts.local, a.added, a.all)
    ensures if index + 1 == |c0.aborts| then c.tasks == c0.tasks && added == [] else a.added == [] && a.all == c.tasks
    ensures forall k :: k in a.all && k in c0.tasks ==> k in c.tasks
  {
    if index + 1 == |c0.aborts| {
      AdoptedNothing(c0.tasks, added, all);
      NoAbortsLeaveAll(all, c0.aborts[index + 1..], c.aborts[index + 1..]);
    } else {
      assert c0.aborts[index + 1..] != [];
      AdoptedNothing(c.tasks, a.added, a.all);
    }
  }

  lemma {:induction false} PassParks(c0: Core, busy: map<nat, set<nat>>, index: nat, c: Core, added: seq<TaskKey>, all: Table, a: Attempt)
    requires Rooted(c0) && index < |c0.aborts| && PassState(c0, busy, index + 1, c, added, all)
    requires Tried(c, index, BusyAt(busy, index), a)
    ensures AbortsTried(c0, busy, index, a.after.aborts)
    ensures ParksTried(c0, busy, index, a.after.tasks, a.after.parked)
  {
    var e, now := c0.aborts[index], BusyAt(busy, index);
    StillPending(c0, busy, index, c.aborts);
    TriedMeans(c, index, now, a);
    TryIsOne(c, index, now, a);
    SameRefusal(c0, busy, index, c, added, all, a);
    AbortsAdvance(c0, busy, index, c.aborts[index + 1..], a.after.aborts, a.done);
    FreshAdopted(c0, busy, index, c, added, all, a);
    ParksAdvance(c0, busy, index, c.tasks, c.parked, a.all, a.done, a.after.tasks, a.after.parked);
  }

  lemma {:induction false} PassLanes(c0: Core, busy: map<nat, set<nat>>, index: nat, c: Core, added: seq<TaskKey>, all: Table, a: Attempt)
    requires Rooted(c0) && index < |c0.aborts| && PassState(c0, busy, index + 1, c, added, all)
    requires Tried(c, index, BusyAt(busy, index), a)
    ensures var now := if index + 1 == |c0.aborts| then a.added else added;
            a.after.queue == Eligible(c0.queue.(normal := c0.queue.normal + now), Alive(a.after.tasks))
    ensures a.after.timers == c0.timers - TokensOf(c0.parked, c0.parked.Keys - a.after.parked.Keys)
  {
    TriedMeans(c, index, BusyAt(busy, index), a);
    FreshAdopted(c0, busy, index, c, added, all, a);
    QueueAdvances(c0, c, a.all, a.added, added, c.aborts[index].scope);
    TimersAdvance(c0.timers, c0.parked, c.parked, a.after.parked);
  }

  /** One more try leads from one state of the pass to the next. */
  lemma {:induction false} PassAdvances(c0: Core, busy: map<nat, set<nat>>, index: nat, c: Core, added: seq<TaskKey>, all: Table, a: Attempt)
    requires Rooted(c0) && index < |c0.aborts| && PassState(c0, busy, index + 1, c, added, all)
    requires Tried(c, index, BusyAt(busy, index), a)
    ensures var first := index + 1 == |c0.aborts|;
            PassState(c0, busy, index, a.after, if first then a.added else added, if first then a.all else all)
  {
    TryIsOne(c, index, BusyAt(busy, index), a);
    RetryAdvances(c0.starts, c0.tasks, c0.aborts, index, c.starts, c.tasks, c.aborts, added, all, a.done,
                  a.after.starts, a.after.tasks, a.after.aborts, a.added, a.all);
    TriedMeans(c, index, BusyAt(busy, index), a);
    PassParks(c0, busy, index, c, added, all, a);
    PassLanes(c0, busy, index, c, added, all, a);
  }

  lemma {:induction false} PassGrows(c0: Core, busy: map<nat, set<nat>>, index: nat, c: Core, added: seq<TaskKey>, all: Table, a: Attempt)
    returns (added': seq<TaskKey>, all': Table)
    requires Rooted(c0) && index < |c0.aborts| && PassState(c0, busy, index + 1, c, added, all)
    requires Tried(c, index, BusyAt(busy, index), a)
    ensures PassState(c0, busy, index, a.after, added', all')
  {
    PassAdvances(c0, busy, index, c, added, all, a);
    added', all' := added, all;
    if index + 1 == |c0.aborts| {
      added', all' := a.added, a.all;
    }
  }

  /**
   What a whole pass does: start packets of every tried scope are dropped and local starts
   adopted; an entry is pending again iff a publisher of its scope refused, and exactly the
   tasks of the other entries are gone, from the lanes and the park records.
   */
  ghost predicate Passed(c: Core, busy: map<nat, set<nat>>, c': Core, added: seq<TaskKey>, all: Table) {
    && c'.starts == StartsRetried(c.starts, c.aborts)
    && Adopted(c.tasks, if c.aborts == [] then [] else c.starts.local, added, all)
    && c'.tasks == TasksLeft(all, c.aborts, c'.aborts)
    && (forall a :: a in c'.aborts ==> a in c.aborts)
    && (forall j :: 0 <= j < |c.aborts| ==>
         (c.aborts[j] in c'.aborts <==> Refused(c.tasks, c.parked, c.aborts[j].scope, BusyAt(busy, j))))
    && ParksTried(c, busy, 0, c'.tasks, c'.parked)
    && c'.queue == Eligible(c.queue.(normal := c.queue.normal + added), Alive(c'.tasks)) && c'.flight.None?
    && c'.timers == c.timers - TokensOf(c.parked, c.parked.Keys - c'.parked.Keys)
    && (forall n :: n in c'.notices <==> n in c.notices && n.route in c'.parked)
    && c'.batch == (if c.aborts == [] then c.batch else Flushed(c.batch))
  }

  lemma {:induction false} PassEnds(c: Core, busy: map<nat, set<nat>>, c': Core, added: seq<TaskKey>, all: Table)
    requires PassState(c, busy, 0, c', added, all)
    ensures Passed(c, busy, c', added, all)
  {
    assert c.aborts[0..] == c.aborts && c'.aborts[0..] == c'.aborts;
  }

  lemma {:induction false} BackwardStarts(entries: seq<PendingAbort>, log: seq<PendingAbort>)
    ensures log == log + Backward(entries[|entries|..])
  {
  }

  lemma {:induction false} BackwardGrows(entries: seq<PendingAbort>, index: nat, log: seq<PendingAbort>)
    requires index < |entries|
    ensures log + Backward(entries[index + 1..]) + [entries[index]] == log + Backward(entries[index..])
  {
    assert Backward(entries[index..]) == Backward(entries[index + 1..]) + [entries[index]];
  }

  lemma {:induction false} NextEntry(entries: seq<PendingAbort>, aborts: seq<PendingAbort>, index: nat)
    requires index < |entries| && index < |aborts| && aborts[..index + 1] == entries[..index + 1]
    ensures aborts[index] == entries[index]
  {
    assert aborts[index] == aborts[..index + 1][index];
  }
}
