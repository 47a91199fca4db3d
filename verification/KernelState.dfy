/**
 The carrier kernel's state as values: where each live task is, which wakes are
 deferred, and which scope aborts are waiting for a retry.
 */
module KernelState {
  import opened Options
  import opened Collections
  import opened Tasks
  import opened RQ = ReadyQueue

  datatype Task = Task(id: nat, scope: nat, revoked: bool)

  /** A park record. `retired` means its wait generation can no longer publish. */
  datatype Park = Park(token: nat, hasDeadline: bool, deferred: bool, retired: bool)

  datatype Notice = Notice(route: TaskKey, task: nat, token: nat)

  datatype Publication = Published | InFlight | Stale

  datatype Failure = Failure(code: nat)

  /** A scope abort waiting for publishers to finish; no scope means every task. */
  datatype PendingAbort = PendingAbort(scope: Option<nat>, reason: Failure)

  type Table = map<TaskKey, Task>

  type Parks = map<TaskKey, Park>

  predicate Hits(scope: Option<nat>, s: nat) {
    scope.None? || scope.value == s
  }

  // ------------------------------------------------- one place per task

  /** How often `k` is held by the ready lanes, the park records and the dispatcher. */
  ghost function PlaceCount(q: Queue, parked: Parks, flight: Option<TaskKey>, k: TaskKey): nat {
    Held(q)[k] + (if k in parked then 1 else 0) + (if flight == Some(k) then 1 else 0)
  }

  /** Each live task is ready, parked or in flight, exactly once. */
  ghost predicate Partitioned(tasks: Table, q: Queue, parked: Parks, flight: Option<TaskKey>) {
    forall k {:trigger PlaceCount(q, parked, flight, k)} :: PlaceCount(q, parked, flight, k) == if k in tasks then 1 else 0
  }

  /** The count a snapshot asserts. */
  lemma {:induction false} PartitionSizes(tasks: Table, q: Queue, parked: Parks, flight: Option<TaskKey>)
    requires Partitioned(tasks, q, parked, flight)
    ensures |tasks| == |q.normal| + |q.wakes| + |parked| + if flight.Some? then 1 else 0
  {
    var places := Held(q) + multiset(parked.Keys) + Taken(flight);
    forall k
      ensures places[k] == multiset(tasks.Keys)[k]
    {
      assert PlaceCount(q, parked, flight, k) == if k in tasks then 1 else 0;
    }
    assert places == multiset(tasks.Keys);
    assert |multiset(tasks.Keys)| == |tasks.Keys| && |multiset(parked.Keys)| == |parked.Keys|;
  }

  /** No key is in two places, and no place holds a dead key. */
  lemma {:induction false} OnePlace(tasks: Table, q: Queue, parked: Parks, flight: Option<TaskKey>, k: TaskKey)
    requires Partitioned(tasks, q, parked, flight)
    ensures k in tasks <==> k in q.normal || k in q.wakes || k in parked || flight == Some(k)
    ensures k in q.normal ==> k !in q.wakes && k !in parked && flight != Some(k)
    ensures k in q.wakes ==> k !in parked && flight != Some(k)
    ensures k in parked ==> flight != Some(k)
  {
    assert PlaceCount(q, parked, flight, k) <= 1;
    assert k in q.normal <==> multiset(q.normal)[k] > 0;
    assert k in q.wakes <==> multiset(q.wakes)[k] > 0;
  }

  lemma {:induction false} ParkedIsLive(tasks: Table, q: Queue, parked: Parks, flight: Option<TaskKey>, k: TaskKey)
    requires Partitioned(tasks, q, parked, flight) && k in parked
    ensures k in tasks
  {
    OnePlace(tasks, q, parked, flight, k);
  }

  lemma {:induction false} FlightIsLive(tasks: Table, q: Queue, parked: Parks, flight: Option<TaskKey>)
    requires Partitioned(tasks, q, parked, flight)
    ensures flight.Some? ==> flight.value in tasks
  {
    if flight.Some? { OnePlace(tasks, q, parked, flight, flight.value); }
  }

  lemma {:induction false} FlightToNormal(tasks: Table, q: Queue, parked: Parks, k: TaskKey)
    requires Partitioned(tasks, q, parked, Some(k))
    ensures Partitioned(tasks, q.(normal := q.normal + [k]), parked, None)
    ensures Partitioned(tasks, q.(normal := [k] + q.normal), parked, None)
  {
    forall j
      ensures PlaceCount(q.(normal := q.normal + [k]), parked, None, j) == PlaceCount(q, parked, Some(k), j)
      ensures PlaceCount(q.(normal := [k] + q.normal), parked, None, j) == PlaceCount(q, parked, Some(k), j)
    {
      assert multiset(q.normal + [k])[j] == multiset(q.normal)[j] + multiset{k}[j];
      assert multiset([k] + q.normal)[j] == multiset{k}[j] + multiset(q.normal)[j];
      assert PlaceCount(q, parked, Some(k), j) == if j in tasks then 1 else 0;
    }
  }

  lemma {:induction false} FlightToParked(tasks: Table, q: Queue, parked: Parks, k: TaskKey, park: Park)
    requires Partitioned(tasks, q, parked, Some(k))
    ensures k !in parked && Partitioned(tasks, q, parked[k := park], None)
  {
    OnePlace(tasks, q, parked, Some(k), k);
    var parked' := parked[k := park];
    forall j
      ensures PlaceCount(q, parked', None, j) == if j in tasks then 1 else 0
    {
      assert PlaceCount(q, parked, Some(k), j) == if j in tasks then 1 else 0;
    }
  }

  lemma {:induction false} FlightEnds(tasks: Table, q: Queue, parked: Parks, k: TaskKey)
    requires Partitioned(tasks, q, parked, Some(k))
    ensures k in tasks && Partitioned(tasks - {k}, q, parked, None)
  {
    OnePlace(tasks, q, parked, Some(k), k);
    forall j
      ensures PlaceCount(q, parked, None, j) == PlaceCount(q, parked, Some(k), j) - if j == k then 1 else 0
    {
    }
  }

  lemma {:induction false} ParkedToWake(tasks: Table, q: Queue, parked: Parks, flight: Option<TaskKey>, k: TaskKey)
    requires Partitioned(tasks, q, parked, flight) && k in parked
    ensures Partitioned(tasks, q.(wakes := [k] + q.wakes), parked - {k}, flight)
  {
    forall j
      ensures PlaceCount(q.(wakes := [k] + q.wakes), parked - {k}, flight, j) == PlaceCount(q, parked, flight, j)
    {
      assert multiset([k] + q.wakes)[j] == multiset{k}[j] + multiset(q.wakes)[j];
    }
  }

  lemma {:induction false} ParkedToFlight(tasks: Table, q: Queue, parked: Parks, k: TaskKey)
    requires Partitioned(tasks, q, parked, None) && k in parked
    ensures Partitioned(tasks, q, parked - {k}, Some(k))
  {
    forall j
      ensures PlaceCount(q, parked - {k}, Some(k), j) == PlaceCount(q, parked, None, j)
    {
    }
  }

  lemma {:induction false} StartToNormal(tasks: Table, q: Queue, parked: Parks, flight: Option<TaskKey>, k: TaskKey, task: Task)
    requires Partitioned(tasks, q, parked, flight) && k !in tasks
    ensures Partitioned(tasks[k := task], q.(normal := q.normal + [k]), parked, flight)
  {
    forall j
      ensures PlaceCount(q.(normal := q.normal + [k]), parked, flight, j) == PlaceCount(q, parked, flight, j) + if j == k then 1 else 0
    {
      assert multiset(q.normal + [k])[j] == multiset(q.normal)[j] + multiset{k}[j];
    }
  }

  /** Any change of the queue that only takes out `k` puts it in flight. */
  lemma {:induction false} ReadyToFlight(tasks: Table, q: Queue, q': Queue, parked: Parks, k: TaskKey)
    requires Partitioned(tasks, q, parked, None)
    requires Held(q) == Held(q') + multiset{k}
    ensures k in tasks && Partitioned(tasks, q', parked, Some(k))
  {
    forall j
      ensures PlaceCount(q', parked, Some(k), j) == PlaceCount(q, parked, None, j)
    {
    }
    assert PlaceCount(q', parked, Some(k), k) >= 1;
  }

  lemma {:induction false} SameHeldPartition(tasks: Table, q: Queue, q': Queue, parked: Parks, flight: Option<TaskKey>)
    requires Partitioned(tasks, q, parked, flight) && Held(q') == Held(q)
    ensures Partitioned(tasks, q', parked, flight)
  {
    forall j
      ensures PlaceCount(q', parked, flight, j) == PlaceCount(q, parked, flight, j)
    {
    }
  }

  /** The table may change as long as the same tasks stay live. */
  lemma {:induction false} SameTableKeys(tasks: Table, tasks': Table, q: Queue, parked: Parks, flight: Option<TaskKey>)
    requires Partitioned(tasks, q, parked, flight) && tasks'.Keys == tasks.Keys
    ensures Partitioned(tasks', q, parked, flight)
  {
    forall k
      ensures PlaceCount(q, parked, flight, k) == if k in tasks' then 1 else 0
    {
      assert k in tasks' <==> k in tasks'.Keys;
      assert k in tasks <==> k in tasks.Keys;
    }
  }

  /** Records may change as long as the same tasks stay parked. */
  lemma {:induction false} SameKeysPartition(tasks: Table, q: Queue, parked: Parks, parked': Parks, flight: Option<TaskKey>)
    requires Partitioned(tasks, q, parked, flight) && parked'.Keys == parked.Keys
    ensures Partitioned(tasks, q, parked', flight)
  {
    forall j
      ensures PlaceCount(q, parked', flight, j) == PlaceCount(q, parked, flight, j)
    {
      assert j in parked' <==> j in parked'.Keys;
    }
  }

  lemma {:induction false} PoppedIsTaken(q: Queue)
    ensures var (task, q') := Popped(q);
            if task.Some? then Held(q) == Held(q') + multiset{task.value}
            else q'.normal == q.normal && q'.wakes == q.wakes
  {
    var q' := Popped(q).1;
    if q'.wakes == q.wakes {
      if q.normal != [] { EndsAreTaken(q.normal); }
    } else {
      EndsAreTaken(q.wakes);
    }
  }

  lemma {:induction false} EndsAreTaken(s: seq<TaskKey>)
    requires s != []
    ensures multiset(s) == multiset(s[1..]) + multiset{s[0]}
    ensures multiset(s) == multiset(s[..|s| - 1]) + multiset{s[|s| - 1]}
  {
    assert s == [s[0]] + s[1..];
    assert s == s[..|s| - 1] + [s[|s| - 1]];
  }

  lemma {:induction false} WithoutIsTaken(s: seq<TaskKey>, i: nat)
    requires i < |s|
    ensures multiset(s) == multiset(Without(s, i)) + multiset{s[i]}
  {
    assert s == s[..i] + [s[i]] + s[i + 1..];
  }

  lemma {:induction false} DroppedIsTaken(s: seq<TaskKey>, s': seq<TaskKey>, k: TaskKey)
    requires Drops(s, s', k)
    ensures multiset(s) == multiset(s') + multiset{k}
  {
    var i: nat :| i < |s| && s[i] == k && s' == Without(s, i);
    WithoutIsTaken(s, i);
  }

  lemma {:induction false} LostIsTaken(q: Queue, q': Queue, k: TaskKey)
    requires LosesOne(q, q', k)
    ensures Held(q) == Held(q') + multiset{k}
  {
    if q'.wakes == q.wakes && Drops(q.normal, q'.normal, k) {
      DroppedIsTaken(q.normal, q'.normal, k);
    } else {
      DroppedIsTaken(q.wakes, q'.wakes, k);
    }
  }

  // ------------------------------------------------- deferred wakes

  /** Removal that fills the gap with the last element. */
  function SwapRemoved<T>(s: seq<T>, i: nat): seq<T>
    requires i < |s|
  {
    if i == |s| - 1 then s[..i] else s[..|s| - 1][i := s[|s| - 1]]
  }

  lemma {:induction false} ReplacedMultiset<T>(s: seq<T>, i: nat, x: T)
    requires i < |s|
    ensures multiset(s[i := x]) + multiset{s[i]} == multiset(s) + multiset{x}
  {
    assert s == s[..i] + [s[i]] + s[i + 1..];
    assert s[i := x] == s[..i] + [x] + s[i + 1..];
  }

  lemma {:induction false} SwapRemovedParts<T>(s: seq<T>, i: nat)
    requires i < |s|
    ensures SwapRemoved(s, i)[..i] == s[..i]
    ensures multiset(SwapRemoved(s, i)) == multiset(s) - multiset{s[i]}
  {
    var last := s[|s| - 1];
    assert s == s[..|s| - 1] + [last];
    if i < |s| - 1 { ReplacedMultiset(s[..|s| - 1], i, last); }
  }

  function Routes(deferred: seq<Notice>): seq<TaskKey> {
    seq(|deferred|, i requires 0 <= i < |deferred| => deferred[i].route)
  }

  ghost function Deferring(parked: Parks): set<TaskKey> {
    set k | k in parked && parked[k].deferred
  }

  /** How many deferred notices address `k`. */
  ghost function RouteCount(deferred: seq<Notice>, k: TaskKey): nat {
    multiset(Routes(deferred))[k]
  }

  /** Deferred notices and deferred park records correspond one to one, with equal tokens. */
  ghost predicate Matched(parked: Parks, deferred: seq<Notice>) {
    && (forall k {:trigger RouteCount(deferred, k)} :: RouteCount(deferred, k) == if k in parked && parked[k].deferred then 1 else 0)
    && forall n :: n in deferred ==> n.route in parked && n.token == parked[n.route].token
  }

  lemma {:induction false} RoutesOfSwap(deferred: seq<Notice>, i: nat, k: TaskKey)
    requires i < |deferred|
    ensures RouteCount(SwapRemoved(deferred, i), k) == RouteCount(deferred, k) - if deferred[i].route == k then 1 else 0
  {
    SwapRemovedParts(Routes(deferred), i);
    assert Routes(SwapRemoved(deferred, i)) == SwapRemoved(Routes(deferred), i);
    assert Routes(deferred)[i] in Routes(deferred);
  }

  lemma {:induction false} CountedRoute(deferred: seq<Notice>, i: nat)
    requires i < |deferred|
    ensures RouteCount(deferred, deferred[i].route) > 0
  {
    assert Routes(deferred)[i] in multiset(Routes(deferred));
  }

  lemma {:induction false} RouteIsDeferring(parked: Parks, deferred: seq<Notice>, i: nat)
    requires Matched(parked, deferred) && i < |deferred|
    ensures deferred[i].route in parked && parked[deferred[i].route].deferred && parked[deferred[i].route].token == deferred[i].token
  {
    CountedRoute(deferred, i);
    assert deferred[i] in deferred;
  }

  lemma {:induction false} DeferringHasRoute(parked: Parks, deferred: seq<Notice>, k: TaskKey) returns (i: nat)
    requires Matched(parked, deferred) && k in parked && parked[k].deferred
    ensures i < |deferred| && deferred[i].route == k && deferred[i].token == parked[k].token
  {
    assert RouteCount(deferred, k) == 1;
    assert k in Routes(deferred);
    i :| i < |Routes(deferred)| && Routes(deferred)[i] == k;
    assert deferred[i] in deferred;
  }

  /** Taking out one notice and its record's mark, or its record, keeps the rest matched. */
  lemma {:induction false} UndeferKeepsMatch(parked: Parks, deferred: seq<Notice>, i: nat)
    requires Matched(parked, deferred) && i < |deferred|
    ensures var k := deferred[i].route;
            && k in parked && parked[k].token == deferred[i].token
            && Matched(parked[k := parked[k].(deferred := false)], SwapRemoved(deferred, i))
            && Matched(parked - {k}, SwapRemoved(deferred, i))
  {
    RouteIsDeferring(parked, deferred, i);
    OthersRemain(parked, deferred, i);
    forall k
      ensures RouteCount(SwapRemoved(deferred, i), k) == RouteCount(deferred, k) - if deferred[i].route == k then 1 else 0
    {
      RoutesOfSwap(deferred, i, k);
    }
  }

  /** No other notice shares the removed one's route. */
  lemma {:induction false} OthersRemain(parked: Parks, deferred: seq<Notice>, i: nat)
    requires Matched(parked, deferred) && i < |deferred|
    ensures forall n :: n in SwapRemoved(deferred, i) <==> n in deferred && n.route != deferred[i].route
  {
    var rest := SwapRemoved(deferred, i);
    SwapRemovedParts(deferred, i);
    forall n | n in deferred && n.route != deferred[i].route
      ensures n in rest
    {
      assert n in multiset(deferred);
      assert n in multiset(rest);
    }
    forall n | n in rest
      ensures n in deferred && n.route != deferred[i].route
    {
      assert n in multiset(rest);
      assert n in multiset(deferred);
      var j :| 0 <= j < |rest| && rest[j] == n;
      CountedRoute(rest, j);
      RoutesOfSwap(deferred, i, n.route);
      assert RouteCount(deferred, n.route) <= 1;
    }
  }

  lemma {:induction false} UndeferredLeaves(parked: Parks, deferred: seq<Notice>, k: TaskKey)
    requires Matched(parked, deferred) && k in parked && !parked[k].deferred
    ensures Matched(parked - {k}, deferred)
  {
    forall n | n in deferred
      ensures n.route != k
    {
      var j :| 0 <= j < |deferred| && deferred[j] == n;
      RouteIsDeferring(parked, deferred, j);
    }
  }

  /** Deferring a record that is not deferred yet fits within the number of records. */
  lemma {:induction false} DeferKeepsMatch(parked: Parks, deferred: seq<Notice>, n: Notice)
    requires Matched(parked, deferred) && n.route in parked && !parked[n.route].deferred && n.token == parked[n.route].token
    ensures Matched(parked[n.route := parked[n.route].(deferred := true)], deferred + [n])
    ensures |deferred| < |parked|
  {
    var k := n.route;
    forall j
      ensures RouteCount(deferred + [n], j) == RouteCount(deferred, j) + if j == k then 1 else 0
    {
      assert Routes(deferred + [n]) == Routes(deferred) + [k];
    }
    DeferredFit(parked, deferred);
    SmallerSet(Deferring(parked) + {k}, parked.Keys);
  }

  lemma {:induction false} DeferredFit(parked: Parks, deferred: seq<Notice>)
    requires Matched(parked, deferred)
    ensures |deferred| == |Deferring(parked)|
  {
    forall k
      ensures multiset(Routes(deferred))[k] == multiset(Deferring(parked))[k]
    {
      assert RouteCount(deferred, k) == if k in parked && parked[k].deferred then 1 else 0;
    }
    assert multiset(Routes(deferred)) == multiset(Deferring(parked));
    assert |multiset(Routes(deferred))| == |deferred|;
    assert |multiset(Deferring(parked))| == |Deferring(parked)|;
  }

  /** Parking and retiring touch no deferred mark. */
  lemma {:induction false} SameMarksMatch(parked: Parks, parked': Parks, deferred: seq<Notice>)
    requires Matched(parked, deferred)
    requires forall k :: k in parked ==> k in parked' && parked'[k].token == parked[k].token && parked'[k].deferred == parked[k].deferred
    requires forall k :: k in parked' && k !in parked ==> !parked'[k].deferred
    ensures Matched(parked', deferred)
  {
  }

  // ------------------------------------------------- timers

  /** No timer outlives the park record it belongs to. */
  ghost predicate TimersOwned(timers: set<nat>, parked: Parks) {
    forall t :: t in timers ==> exists k :: k in parked && parked[k].token == t && parked[k].hasDeadline
  }

  lemma {:induction false} TimerLeaves(timers: set<nat>, parked: Parks, k: TaskKey)
    requires TimersOwned(timers, parked) && k in parked
    ensures TimersOwned(timers - {parked[k].token}, parked - {k})
    ensures !parked[k].hasDeadline ==> TimersOwned(timers, parked - {k})
  {
    forall t | t in timers && (t != parked[k].token || !parked[k].hasDeadline)
      ensures exists j :: j in parked - {k} && (parked - {k})[j].token == t && (parked - {k})[j].hasDeadline
    {
      var j :| j in parked && parked[j].token == t && parked[j].hasDeadline;
      assert j in parked - {k};
    }
  }

  lemma {:induction false} TimersCarryOver(timers: set<nat>, parked: Parks, parked': Parks)
    requires TimersOwned(timers, parked)
    requires forall k :: k in parked ==> k in parked' && parked'[k].token == parked[k].token && parked'[k].hasDeadline == parked[k].hasDeadline
    ensures TimersOwned(timers, parked')
  {
    forall t | t in timers
      ensures exists k :: k in parked' && parked'[k].token == t && parked'[k].hasDeadline
    {
      var j :| j in parked && parked[j].token == t && parked[j].hasDeadline;
      assert j in parked';
    }
  }

  /** Notices name the task that owns their route. */
  ghost predicate Addressed(tasks: Table, notices: seq<Notice>) {
    forall n :: n in notices && n.route in tasks ==> tasks[n.route].id == n.task
  }

  // ------------------------------------------------- starts and completions

  /** Start packets on their way in: the one being materialized, drained ones, published ones and local ones. */
  datatype Starts = Starts(pending: Option<Task>, incoming: seq<Task>, inbox: seq<Task>, local: seq<Task>)

  const NO_STARTS := Starts(None, [], [], [])

  function Waiting(s: Starts): nat {
    |s.incoming| + |s.inbox| + |s.local| + if s.pending.Some? then 1 else 0
  }

  /** Between operations no packet is half materialized. */
  predicate Idle(s: Starts) {
    s.pending.None? && s.incoming == []
  }

  /** Completions not published yet, the scope whose progress is cached, and everything published. */
  datatype Batch = Batch(updates: seq<Task>, cached: Option<nat>, published: seq<Task>)

  const COMPLETION_BATCH: nat := 64

  /** The batch belongs to one scope, whose progress is cached. */
  ghost predicate Batched(b: Batch) {
    |b.updates| < COMPLETION_BATCH && forall t :: t in b.updates ==> b.cached == Some(t.scope)
  }

  function Flushed(b: Batch): Batch {
    b.(updates := [], published := b.published + b.updates)
  }

  /** Every completion, published or not, in order. */
  function Logged(b: Batch): seq<Task> {
    b.published + b.updates
  }

  lemma {:induction false} BatchIsOneScope(b: Batch, scope: nat)
    requires Batched(b) && (b.updates != [] ==> b.updates[0].scope == scope)
    ensures forall c :: c in b.updates ==> c.scope == scope
  {
    if b.updates != [] { assert b.updates[0] in b.updates; }
  }

  // ------------------------------------------------- scopes and deferred aborts

  /** The scopes the control plane has open, and whether the inbox was told to stop. */
  datatype Shared = Shared(scopes: set<nat>, stopped: bool)

  const NEW_SHARED := Shared({}, false)

  /** Live tasks and waiting starts belong to open scopes. */
  ghost predicate TasksOpen(tasks: Table, scopes: set<nat>) {
    forall k {:trigger tasks[k]} :: k in tasks ==> tasks[k].scope in scopes
  }

  ghost predicate AllOpen(starts: seq<Task>, scopes: set<nat>) {
    forall t :: t in starts ==> t.scope in scopes
  }

  ghost predicate StartsOpen(s: Starts, scopes: set<nat>) {
    && AllOpen(s.incoming, scopes) && AllOpen(s.inbox, scopes) && AllOpen(s.local, scopes)
    && (s.pending.Some? ==> s.pending.value.scope in scopes)
  }

  /** Pending aborts name distinct scopes, and a whole-carrier abort stands alone. */
  ghost predicate AbortsDistinct(aborts: seq<PendingAbort>) {
    && (forall i, j :: 0 <= i < j < |aborts| ==> aborts[i].scope != aborts[j].scope)
    && (forall i :: 0 <= i < |aborts| && aborts[i].scope.None? ==> |aborts| == 1)
  }

  /** The scope has a live task whose frame has not been revoked. */
  ghost predicate Owns(tasks: Table, scope: nat) {
    exists k :: k in tasks && tasks[k].scope == scope && !tasks[k].revoked
  }

  /** A pending abort's scope still has a task here, so it cannot have finished. */
  ghost predicate AbortsOwned(aborts: seq<PendingAbort>, tasks: Table) {
    forall a :: a in aborts && a.scope.Some? ==> Owns(tasks, a.scope.value)
  }

  ghost function Named(aborts: seq<PendingAbort>): set<nat> {
    set i | 0 <= i < |aborts| && aborts[i].scope.Some? :: aborts[i].scope.value
  }

  lemma {:induction false} NamedSize(aborts: seq<PendingAbort>)
    requires forall i, j :: 0 <= i < j < |aborts| ==> aborts[i].scope != aborts[j].scope
    requires forall i :: 0 <= i < |aborts| ==> aborts[i].scope.Some?
    ensures |Named(aborts)| == |aborts|
  {
    if aborts != [] {
      var front := aborts[..|aborts| - 1];
      NamedSize(front);
      var last := aborts[|aborts| - 1].scope.value;
      assert Named(aborts) == Named(front) + {last};
      assert last !in Named(front);
    }
  }

  /** A refused scope that is not pending yet still fits: it and every pending one own a task of an open scope. */
  lemma {:induction false} AbortFits(aborts: seq<PendingAbort>, tasks: Table, scopes: set<nat>, scope: nat)
    requires AbortsDistinct(aborts) && AbortsOwned(aborts, tasks) && TasksOpen(tasks, scopes) && Owns(tasks, scope)
    requires forall i :: 0 <= i < |aborts| ==> aborts[i].scope.Some? && aborts[i].scope.value != scope
    ensures |aborts| < |scopes|
  {
    NamedSize(aborts);
    forall s | s in Named(aborts) + {scope}
      ensures s in scopes
    {
      if s != scope {
        var i :| 0 <= i < |aborts| && aborts[i].scope == Some(s);
        assert aborts[i] in aborts;
      }
      var k :| k in tasks && tasks[k].scope == s && !tasks[k].revoked;
    }
    assert scope !in Named(aborts);
    SmallerSet(Named(aborts) + {scope}, scopes);
  }

  /** Whether a pending abort forbids dispatching a task of scope `s`. */
  predicate Blocked(aborts: seq<PendingAbort>, s: nat) {
    exists i :: 0 <= i < |aborts| && Hits(aborts[i].scope, s)
  }

  /** Removals that spare the unrevoked tasks of every pending scope keep its witness. */
  lemma {:induction false} OwnersSurvive(aborts: seq<PendingAbort>, tasks: Table, tasks': Table)
    requires AbortsOwned(aborts, tasks)
    requires forall k :: k in tasks && !tasks[k].revoked && Blocked(aborts, tasks[k].scope) ==> k in tasks' && tasks'[k] == tasks[k]
    ensures AbortsOwned(aborts, tasks')
  {
    forall a | a in aborts && a.scope.Some?
      ensures Owns(tasks', a.scope.value)
    {
      var i :| 0 <= i < |aborts| && aborts[i] == a;
      var k :| k in tasks && tasks[k].scope == a.scope.value && !tasks[k].revoked;
      assert Hits(aborts[i].scope, tasks[k].scope);
      assert k in tasks';
    }
  }
}
