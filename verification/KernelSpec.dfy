/**
 What the carrier kernel's operations do, as functions and predicates of its fields, and
 the facts about them that do not need the kernel object.
 */
module KernelSpec {
  import opened Options
  import opened Collections
  import opened Tasks
  import opened RQ = ReadyQueue
  import opened KernelState

  /** What a mounted fiber may do. */
  datatype Step =
    | Yield
    | ParkOn(token: nat, deadline: bool, registered: bool)
    | Complete
    | Revoked

  /** Tasks of `scope`, or every task. */
  function Doomed(tasks: Table, scope: Option<nat>): TaskKey -> bool {
    (k: TaskKey) => k in tasks && Hits(scope, tasks[k].scope)
  }

  function Unblocked(tasks: Table, aborts: seq<PendingAbort>): TaskKey -> bool {
    (k: TaskKey) => k in tasks && !Blocked(aborts, tasks[k].scope)
  }

  function Lost(tasks: Table): TaskKey -> bool {
    (k: TaskKey) => k in tasks && tasks[k].revoked
  }

  function HitBy(scope: Option<nat>): Task -> bool {
    (t: Task) => Hits(scope, t.scope)
  }

  /** `tasks'` is `tasks` without some tasks that satisfy `p`. */
  ghost predicate Shrunk(tasks: Table, tasks': Table, p: TaskKey -> bool) {
    && (forall k :: k in tasks' ==> k in tasks && tasks'[k] == tasks[k])
    && (forall k :: k in tasks && !p(k) ==> k in tasks')
  }

  /** Only the wait generations of park records were retired. */
  ghost predicate Retiring(parked: Parks, parked': Parks) {
    && parked'.Keys == parked.Keys
    && forall k :: k in parked ==> parked'[k] == parked[k] || parked'[k] == parked[k].(retired := true)
  }

  /** The park records an abort leaves. */
  function ParksLeft(parked: Parks, p: TaskKey -> bool): Parks {
    map k | k in parked && !p(k) :: parked[k]
  }

  function Tokens(parked: Parks, p: TaskKey -> bool): set<nat> {
    set k | k in parked && p(k) :: parked[k].token
  }

  ghost function TokensOf(parked: Parks, keys: set<TaskKey>): set<nat> {
    set k | k in keys && k in parked :: parked[k].token
  }

  lemma {:induction false} OneMoreToken(parked: Parks, timers: set<nat>, done: set<TaskKey>, k: TaskKey)
    requires k in parked
    ensures timers - TokensOf(parked, done) - {parked[k].token} == timers - TokensOf(parked, done + {k})
    ensures parked - done - {k} == parked - (done + {k})
  {
    assert TokensOf(parked, done + {k}) == TokensOf(parked, done) + {parked[k].token};
  }

  lemma {:induction false} NoTokens(parked: Parks, keys: set<TaskKey>)
    requires keys == {}
    ensures TokensOf(parked, keys) == {}
  {
  }

  lemma {:induction false} TokensRemoved(parked: Parks, p: TaskKey -> bool)
    ensures TokensOf(parked, parked.Keys - ParksLeft(parked, p).Keys) == Tokens(parked, p)
  {
    assert forall k :: k in parked.Keys - ParksLeft(parked, p).Keys <==> k in parked && p(k);
  }

  lemma MoveOver(done: set<TaskKey>, todo: set<TaskKey>, k: TaskKey)
    requires k in todo && done !! todo
    ensures done + {k} !! todo - {k} && done + {k} + (todo - {k}) == done + todo
  {
  }

  lemma {:induction false} SweptParks(parked: Parks, p: TaskKey -> bool, done: set<TaskKey>)
    requires done == set k | k in parked && p(k)
    ensures parked - done == ParksLeft(parked, p) && TokensOf(parked, done) == Tokens(parked, p)
  {
    forall k
      ensures k in parked - done <==> k in ParksLeft(parked, p)
    {
    }
  }

  lemma {:induction false} ShrinksFurther(tasks: Table, tasks': Table, p: TaskKey -> bool, k: TaskKey)
    requires Shrunk(tasks, tasks', p) && p(k)
    ensures Shrunk(tasks, tasks' - {k}, p)
  {
  }

  lemma {:induction false} DeferredAreParked(parked: Parks, deferred: seq<Notice>)
    requires Matched(parked, deferred)
    ensures forall n :: n in deferred ==> n.route in parked
  {
  }

  function Unless(flight: Option<TaskKey>, p: TaskKey -> bool): Option<TaskKey> {
    if flight.Some? && p(flight.value) then None else flight
  }

  /**
   A successful abort: exactly the tasks of `scope` are gone, wherever they were, and
   every other task keeps its place, its lane order and the cohort position.
   */
  ghost predicate Spared(tasks: Table, q: Queue, parked: Parks, flight: Option<TaskKey>,
                         tasks': Table, q': Queue, parked': Parks, flight': Option<TaskKey>, scope: Option<nat>) {
    var p := Doomed(tasks, scope);
    && tasks' == (map k | k in tasks && !Hits(scope, tasks[k].scope) :: tasks[k])
    && q' == Eligible(q, Not(p))
    && parked' == ParksLeft(parked, p)
    && flight' == Unless(flight, p)
  }

  lemma {:induction false} ShrunkTwice(a: Table, b: Table, c: Table, p: TaskKey -> bool)
    requires Shrunk(a, b, p) && Shrunk(b, c, p)
    ensures Shrunk(a, c, p)
  {
  }

  /** A retained head survives filtering, and the rest is filtered as without it. */
  lemma {:induction false} RetainedLeads(normal: seq<TaskKey>, retained: Option<TaskKey>, p: TaskKey -> bool)
    requires retained.Some? ==> !p(retained.value)
    ensures var head := if retained.Some? then [retained.value] else [];
            Kept(head + normal, Not(p)) == head + Kept(normal, Not(p))
  {
    var head := if retained.Some? then [retained.value] else [];
    KeptAppend(head, normal, Not(p));
  }

  /** Once no place holds a doomed task, only the others are left. */
  lemma {:induction false} SweptIsExact(tasks: Table, q: Queue, tasks': Table, q': Queue, parked': Parks, flight': Option<TaskKey>, p: TaskKey -> bool)
    requires Shrunk(tasks, tasks', p) && Partitioned(tasks', q', parked', flight')
    requires q' == Eligible(q, Not(p))
    requires forall k :: k in parked' ==> !p(k)
    requires flight'.Some? ==> !p(flight'.value)
    ensures tasks' == map k | k in tasks && !p(k) :: tasks[k]
  {
    KeptElements(q.normal, Not(p));
    KeptElements(q.wakes, Not(p));
    forall k | k in tasks'
      ensures !p(k)
    {
      OnePlace(tasks', q', parked', flight', k);
    }
  }

  /** An abort of exactly this scope is pending. */
  ghost predicate Blocks(aborts: seq<PendingAbort>, scope: Option<nat>) {
    exists i :: 0 <= i < |aborts| && (aborts[i].scope == scope || aborts[i].scope.None?)
  }

  /** The pending aborts after one more was deferred; a whole-carrier abort absorbs the others. */
  ghost function Deferred(aborts: seq<PendingAbort>, scope: Option<nat>, reason: Failure): seq<PendingAbort> {
    if scope.None? then [PendingAbort(scope, reason)]
    else if Blocks(aborts, None) then aborts
    else if Blocks(aborts, scope) then
      seq(|aborts|, i requires 0 <= i < |aborts| => if aborts[i].scope == scope then PendingAbort(scope, reason) else aborts[i])
    else aborts + [PendingAbort(scope, reason)]
  }

  /** A deferred abort takes its own task out of flight, unless a whole-carrier abort absorbs it. */
  ghost function HeldBack(flight: Option<TaskKey>, aborts: seq<PendingAbort>, tasks: Table, scope: Option<nat>): Option<TaskKey> {
    if scope.Some? && Blocks(aborts, None) then flight else Unless(flight, Doomed(tasks, scope))
  }

  /** The queue after a task that is no longer in flight went to the head of the normal lane. */
  function Returned(q: Queue, flight: Option<TaskKey>, flight': Option<TaskKey>): Queue {
    if flight.Some? && flight'.None? then q.(normal := [flight.value] + q.normal) else q
  }

  method FindAbort(aborts: seq<PendingAbort>, scope: Option<nat>) returns (i: nat)
    ensures i <= |aborts| && (i < |aborts| ==> aborts[i].scope == scope)
    ensures forall j :: 0 <= j < i ==> aborts[j].scope != scope
  {
    i := 0;
    while i < |aborts| && aborts[i].scope != scope
      invariant i <= |aborts| && forall j :: 0 <= j < i ==> aborts[j].scope != scope
    {
      i := i + 1;
    }
  }

  function OtherThan(scope: Option<nat>): PendingAbort -> bool {
    (a: PendingAbort) => scope.Some? && a.scope != scope
  }

  /**
   Whether a parked wait cannot be retired: its publisher is in flight. The publisher of a
   revoked frame is gone, and a wait that was retired stays so.
   */
  predicate Refuses(tasks: Table, parked: Parks, busy: set<nat>, k: TaskKey) {
    k in parked && k in tasks && !tasks[k].revoked && !parked[k].retired && parked[k].token in busy
  }

  /** Some wait of the scope refuses. */
  ghost predicate Refused(tasks: Table, parked: Parks, scope: Option<nat>, busy: set<nat>) {
    exists k :: Refuses(tasks, parked, busy, k) && Hits(scope, tasks[k].scope)
  }

  /** The park records after every wait of the scope that does not refuse was retired. */
  ghost function Abandoned(tasks: Table, parked: Parks, scope: Option<nat>, busy: set<nat>): Parks {
    map k | k in parked :: AbandonedOne(tasks, parked, scope, busy, k)
  }

  ghost function AbandonedOne(tasks: Table, parked: Parks, scope: Option<nat>, busy: set<nat>, k: TaskKey): Park
    requires k in parked
  {
    if k in tasks && Hits(scope, tasks[k].scope) && !Refuses(tasks, parked, busy, k) then parked[k].(retired := true) else parked[k]
  }

  lemma {:induction false} AbandonedRetires(tasks: Table, parked: Parks, scope: Option<nat>, busy: set<nat>)
    ensures var parked' := Abandoned(tasks, parked, scope, busy);
            && Retiring(parked, parked')
            && (forall k :: k in parked' && !Doomed(tasks, scope)(k) ==> parked'[k] == parked[k])
            && (!Refused(tasks, parked, scope, busy) ==> forall k :: k in parked' && Doomed(tasks, scope)(k) ==> parked'[k].retired)
            && (Refused(tasks, parked, scope, busy) ==>
                 exists k :: k in parked' && k in tasks && Hits(scope, tasks[k].scope) && !tasks[k].revoked)
  {
    if Refused(tasks, parked, scope, busy) {
      var k :| Refuses(tasks, parked, busy, k) && Hits(scope, tasks[k].scope);
      assert k in Abandoned(tasks, parked, scope, busy);
    }
  }

  /** Retiring doomed waits changes nothing an abort leaves. */
  lemma {:induction false} RetiredParksLeft(parked: Parks, parked': Parks, p: TaskKey -> bool)
    requires Retiring(parked, parked') && forall k :: k in parked' && !p(k) ==> parked'[k] == parked[k]
    ensures ParksLeft(parked', p) == ParksLeft(parked, p) && Tokens(parked', p) == Tokens(parked, p)
  {
    assert forall k :: k in parked ==> parked'[k].token == parked[k].token;
  }

  /** Exactly the start packets of `scope` are dropped; the others keep their order and local ones are adopted. */
  function StartsAfter(s: Starts, scope: Option<nat>): Starts {
    var p := Not(HitBy(scope));
    Starts(if s.pending.Some? && Hits(scope, s.pending.value.scope) then None else s.pending,
           Kept(s.incoming, p), Kept(s.inbox, p), [])
  }

  lemma {:induction false} StartsStayOpen(s: Starts, scope: Option<nat>, scopes: set<nat>)
    ensures StartsOpen(s, scopes) ==> StartsOpen(StartsAfter(s, scope), scopes)
    ensures Idle(s) ==> Idle(StartsAfter(s, scope))
  {
    KeptElements(s.incoming, Not(HitBy(scope)));
    KeptElements(s.inbox, Not(HitBy(scope)));
  }

  // ------------------------------------------------- scopes

  /** Whether a scope still has a task or a start on this carrier. */
  predicate Busy(tasks: Table, starts: Starts, scope: nat) {
    || (exists k :: k in tasks && tasks[k].scope == scope)
    || (exists t :: t in starts.incoming + starts.inbox + starts.local && t.scope == scope)
    || (starts.pending.Some? && starts.pending.value.scope == scope)
  }

  lemma {:induction false} IdleScopeFinishes(tasks: Table, starts: Starts, scopes: set<nat>, scope: nat)
    requires TasksOpen(tasks, scopes) && StartsOpen(starts, scopes) && !Busy(tasks, starts, scope)
    ensures TasksOpen(tasks, scopes - {scope}) && StartsOpen(starts, scopes - {scope})
  {
    forall t | t in starts.incoming || t in starts.inbox || t in starts.local
      ensures t.scope != scope
    {
      assert t in starts.incoming + starts.inbox + starts.local;
    }
  }

  // ------------------------------------------------- pending aborts

  /** Fewer aborts are still distinct and owned. */
  lemma {:induction false} KeptAbortsDistinct(aborts: seq<PendingAbort>, f: PendingAbort -> bool)
    requires AbortsDistinct(aborts)
    ensures AbortsDistinct(Kept(aborts, f)) && |Kept(aborts, f)| <= |aborts|
  {
    if aborts != [] {
      var rest := aborts[1..];
      assert aborts == [aborts[0]] + rest;
      assert AbortsDistinct(rest);
      KeptAbortsDistinct(rest, f);
      KeptElements(rest, f);
      forall j | 0 <= j < |Kept(rest, f)|
        ensures Kept(rest, f)[j].scope != aborts[0].scope && Kept(rest, f)[j].scope.Some?
      {
        assert Kept(rest, f)[j] in rest;
      }
      assert aborts[0].scope.None? ==> rest == [];
    }
  }

  /** After a successful abort the other pending scopes still own their tasks. */
  lemma {:induction false} SparedAbortsOwned(aborts: seq<PendingAbort>, tasks: Table, tasks': Table, scope: Option<nat>)
    requires AbortsOwned(aborts, tasks) && tasks' == map k | k in tasks && !Hits(scope, tasks[k].scope) :: tasks[k]
    ensures AbortsOwned(Kept(aborts, OtherThan(scope)), tasks')
  {
    var left := Kept(aborts, OtherThan(scope));
    KeptElements(aborts, OtherThan(scope));
    forall a | a in left && a.scope.Some?
      ensures Owns(tasks', a.scope.value)
    {
      assert a in aborts && a.scope != scope;
      var k :| k in tasks && tasks[k].scope == a.scope.value && !tasks[k].revoked;
      assert k in tasks';
    }
  }

  lemma {:induction false} DeferredAbortsOwned(aborts: seq<PendingAbort>, tasks: Table, scope: Option<nat>, reason: Failure)
    requires AbortsOwned(aborts, tasks) && (scope.Some? ==> Owns(tasks, scope.value))
    ensures AbortsOwned(Deferred(aborts, scope, reason), tasks)
  {
    forall a | a in Deferred(aborts, scope, reason)
      ensures a in aborts || a == PendingAbort(scope, reason)
    {
    }
  }

  lemma {:induction false} SwappedAborts(aborts: seq<PendingAbort>, i: nat)
    requires AbortsDistinct(aborts) && i < |aborts|
    ensures AbortsDistinct(SwapRemoved(aborts, i)) && SwapRemoved(aborts, i)[..i] == aborts[..i]
    ensures forall j :: 0 <= j < |SwapRemoved(aborts, i)| ==> SwapRemoved(aborts, i)[j].scope != aborts[i].scope && SwapRemoved(aborts, i)[j].scope.Some?
    ensures aborts[i].scope.None? ==> i == 0 && SwapRemoved(aborts, i) == []
    ensures forall a :: a in SwapRemoved(aborts, i) ==> a in aborts
  {
    SwapRemovedParts(aborts, i);
  }

  /** `tasks'` is `tasks` plus the `starts` under the fresh keys `added`. */
  ghost predicate Adopted(tasks: Table, starts: seq<Task>, added: seq<TaskKey>, tasks': Table) {
    && |added| == |starts|
    && (forall i, j :: 0 <= i < j < |added| ==> added[i] != added[j])
    && (forall i :: 0 <= i < |added| ==> added[i] !in tasks && added[i] in tasks' && tasks'[added[i]] == starts[i])
    && (forall k :: k in tasks ==> k in tasks' && tasks'[k] == tasks[k])
    && (forall k :: k in tasks' ==> k in tasks || k in added)
  }

  lemma {:induction false} AdoptOne(tasks: Table, starts: seq<Task>, added: seq<TaskKey>, tasks': Table, k: TaskKey)
    requires |added| < |starts| && Adopted(tasks, starts[..|added|], added, tasks') && k !in tasks'
    ensures Adopted(tasks, starts[..|added| + 1], added + [k], tasks'[k := starts[|added|]])
  {
  }

  /** Fresh keys are no routes of deferred notices. */
  lemma {:induction false} StillAddressed(tasks: Table, starts: seq<Task>, added: seq<TaskKey>, tasks': Table, parked: Parks, deferred: seq<Notice>)
    requires Adopted(tasks, starts, added, tasks') && Addressed(tasks, deferred) && Matched(parked, deferred)
    requires forall k :: k in parked ==> k in tasks
    ensures Addressed(tasks', deferred)
  {
    DeferredAreParked(parked, deferred);
    forall n | n in deferred && n.route in tasks'
      ensures tasks'[n.route].id == n.task
    {
      assert n.route in parked;
      assert tasks'[n.route] == tasks[n.route];
    }
  }

  /** Adopting starts of open scopes keeps every task open and every pending scope owned. */
  lemma {:induction false} AdoptedScopes(tasks: Table, starts: seq<Task>, added: seq<TaskKey>, tasks': Table, scopes: set<nat>, aborts: seq<PendingAbort>)
    requires Adopted(tasks, starts, added, tasks') && TasksOpen(tasks, scopes) && AllOpen(starts, scopes) && AbortsOwned(aborts, tasks)
    ensures TasksOpen(tasks', scopes) && AbortsOwned(aborts, tasks')
  {
    forall k | k in tasks'
      ensures tasks'[k].scope in scopes
    {
      if k !in tasks {
        var i :| 0 <= i < |added| && added[i] == k;
        assert starts[i] in starts;
      } else {
        assert tasks'[k] == tasks[k];
      }
    }
    OwnersSurvive(aborts, tasks, tasks');
  }

  ghost function From(tasks: Table, index: nat): set<TaskKey> {
    set k | k in tasks && k.index >= index
  }

  /** A slab slot that is not in use. */
  method Vacant(tasks: Table, borrowed: bool) returns (k: TaskKey)
    ensures k !in tasks && k.borrowed == borrowed
  {
    var index: nat := *;
    while TaskKey(index, borrowed) in tasks
      decreases From(tasks, index)
    {
      assert TaskKey(index, borrowed) in From(tasks, index) && TaskKey(index, borrowed) !in From(tasks, index + 1);
      index := index + 1;
    }
    k := TaskKey(index, borrowed);
  }

  /** One rotation of a queue that is being filtered in place. */
  lemma {:induction false} RotatedOnce(all: seq<Task>, i: nat, p: Task -> bool)
    requires i < |all|
    ensures var now := all[i..] + Kept(all[..i], Not(p));
            && now != [] && now[0] == all[i]
            && now[1..] + (if p(all[i]) then [] else [all[i]]) == all[i + 1..] + Kept(all[..i + 1], Not(p))
  {
    KeptGrows(all, i, Not(p));
    assert all[i..] == [all[i]] + all[i + 1..];
  }

  method FirstHit(s: seq<Task>, p: Task -> bool) returns (i: nat)
    ensures i <= |s| && (i < |s| ==> p(s[i]))
    ensures forall j :: 0 <= j < i ==> !p(s[j])
  {
    i := 0;
    while i < |s| && !p(s[i])
      invariant i <= |s| && forall j :: 0 <= j < i ==> !p(s[j])
    {
      i := i + 1;
    }
  }

  // ------------------------------------------------- what a mounted fiber does

  /** A fiber's run: the local children it spawned, the borrowed frames it revoked, and how it came back. */
  datatype Fiber = Fiber(step: Step, children: seq<nat>, revokes: set<TaskKey>)

  /** Local children belong to their parent's scope; admission takes the first that fit. */
  function Spawned(children: seq<nat>, room: nat, scope: nat): seq<Task> {
    seq(if |children| < room then |children| else room, i requires 0 <= i < |children| => Task(children[i], scope, false))
  }

  /** A running frame can only revoke borrowed tasks of its own scope. */
  function Revoking(tasks: Table, key: TaskKey, revokes: set<TaskKey>): Table
    requires key in tasks
  {
    map k | k in tasks ::
      if k in revokes && k != key && k.borrowed && tasks[k].scope == tasks[key].scope then tasks[k].(revoked := true) else tasks[k]
  }

  /** Revoking and spawning in an unblocked scope disturbs no deferred abort. */
  lemma {:induction false} FiberKeepsScopes(tasks: Table, key: TaskKey, revokes: set<TaskKey>, scopes: set<nat>, aborts: seq<PendingAbort>)
    requires key in tasks && TasksOpen(tasks, scopes) && AbortsOwned(aborts, tasks) && !Blocked(aborts, tasks[key].scope)
    ensures var tasks' := Revoking(tasks, key, revokes);
            && tasks'.Keys == tasks.Keys && TasksOpen(tasks', scopes) && AbortsOwned(aborts, tasks')
            && tasks'[key] == tasks[key]
  {
    var tasks' := Revoking(tasks, key, revokes);
    forall k | k in tasks'
      ensures tasks'[k].scope in scopes
    {
      assert tasks'[k].scope == tasks[k].scope;
    }
    OwnersSurvive(aborts, tasks, tasks');
  }

  lemma {:induction false} SpawnedAreOpen(children: seq<nat>, room: nat, scope: nat, local: seq<Task>, scopes: set<nat>)
    requires AllOpen(local, scopes) && scope in scopes
    ensures AllOpen(local + Spawned(children, room, scope), scopes) && |Spawned(children, room, scope)| <= room
  {
  }

  /** Forgetting a task of an unblocked scope disturbs no deferred abort. */
  lemma {:induction false} DepartureKeepsScopes(tasks: Table, k: TaskKey, scopes: set<nat>, aborts: seq<PendingAbort>)
    requires k in tasks && TasksOpen(tasks, scopes) && AbortsOwned(aborts, tasks) && !Blocked(aborts, tasks[k].scope)
    ensures TasksOpen(tasks - {k}, scopes) && AbortsOwned(aborts, tasks - {k})
  {
    forall j | j in tasks - {k}
      ensures (tasks - {k})[j].scope in scopes
    {
      assert tasks[j].scope in scopes;
    }
    OwnersSurvive(aborts, tasks, tasks - {k});
  }

  /** Only revoked tasks go, so every deferred abort keeps its owner. */
  lemma {:induction false} RevokedGoKeepsScopes(tasks: Table, tasks': Table, scopes: set<nat>, aborts: seq<PendingAbort>)
    requires TasksOpen(tasks, scopes) && AbortsOwned(aborts, tasks)
    requires tasks' == map k | k in tasks && !tasks[k].revoked :: tasks[k]
    ensures TasksOpen(tasks', scopes) && AbortsOwned(aborts, tasks')
  {
    forall k | k in tasks'
      ensures tasks'[k].scope in scopes
    {
      assert tasks[k].scope in scopes;
    }
    OwnersSurvive(aborts, tasks, tasks');
  }

  // ------------------------------------------------- receiving

  lemma {:induction false} AdoptMore(tasks: Table, starts: seq<Task>, added: seq<TaskKey>, tasks': Table, k: TaskKey, t: Task)
    requires Adopted(tasks, starts, added, tasks') && k !in tasks'
    ensures Adopted(tasks, starts + [t], added + [k], tasks'[k := t])
  {
  }

  lemma {:induction false} AdoptedTwice(tasks: Table, s: seq<Task>, a: seq<TaskKey>, mid: Table, t: seq<Task>, b: seq<TaskKey>, tasks': Table)
    requires Adopted(tasks, s, a, mid) && Adopted(mid, t, b, tasks')
    ensures Adopted(tasks, s + t, a + b, tasks')
  {
    forall i | 0 <= i < |a|
      ensures a[i] in tasks' && tasks'[a[i]] == s[i]
    {
      assert a[i] in mid;
    }
    forall i, j | 0 <= i < j < |a + b|
      ensures (a + b)[i] != (a + b)[j]
    {
      if i < |a| <= j { assert a[i] in mid && b[j - |a|] !in mid; }
    }
  }

  lemma {:induction false} KeptStaysOpen(starts: seq<Task>, f: Task -> bool, scopes: set<nat>)
    requires AllOpen(starts, scopes)
    ensures AllOpen(Kept(starts, f), scopes)
  {
    KeptElements(starts, f);
  }

  datatype Effect = Ignored | Deferring | Readying

  /** A retired generation can no longer publish. */
  function Answer(park: Park, publication: Publication): Publication {
    if park.retired then Stale else publication
  }

  /** What a notice must do, given what its wait says about publication. */
  function EffectOf(tasks: Table, parked: Parks, n: Notice, publication: Publication): Effect {
    if n.route !in parked || n.route !in tasks || tasks[n.route].id != n.task || parked[n.route].token != n.token then Ignored
    else
      match Answer(parked[n.route], publication)
      case Published => Readying
      case InFlight => if parked[n.route].deferred then Ignored else Deferring
      case Stale => Ignored
  }

  /** A notice and what its wait will say about it. */
  datatype Arrival = Arrival(notice: Notice, publication: Publication)

  /** What wakes act on: the park records, the wake lane, the timers and the deferred notices. */
  datatype Waking = Waking(parked: Parks, wakes: seq<TaskKey>, timers: set<nat>, notices: set<Notice>)

  ghost function Noted(deferred: seq<Notice>): set<Notice> {
    set n | n in deferred
  }

  function Unnoted(notices: set<Notice>, k: TaskKey): set<Notice> {
    set n | n in notices && n.route != k
  }

  /** A notice whose park record belongs to another task. */
  predicate Foreign(tasks: Table, parked: Parks, n: Notice) {
    n.route in parked && n.route in tasks && tasks[n.route].id != n.task
  }

  function WakeOne(tasks: Table, w: Waking, n: Notice, publication: Publication): Waking {
    match EffectOf(tasks, w.parked, n, publication)
    case Ignored => w
    case Deferring =>
      if n.route !in w.parked then w
      else w.(parked := w.parked[n.route := w.parked[n.route].(deferred := true)], notices := w.notices + {n})
    case Readying =>
      if n.route !in w.parked then w
      else Waking(w.parked - {n.route}, [n.route] + w.wakes,
                  if w.parked[n.route].hasDeadline then w.timers - {n.token} else w.timers, Unnoted(w.notices, n.route))
  }

  /** Notices act one after the other; a fault ends the pass. */
  function WakeAll(tasks: Table, w: Waking, arrivals: seq<Arrival>): Waking
    decreases |arrivals|
  {
    if arrivals == [] || Foreign(tasks, w.parked, arrivals[0].notice) then w
    else WakeAll(tasks, WakeOne(tasks, w, arrivals[0].notice, arrivals[0].publication), arrivals[1..])
  }

  /** A deferred notice taken out again, with its record's mark. */
  function Cleared(w: Waking, k: TaskKey): Waking {
    if k !in w.parked then w
    else w.(parked := w.parked[k := w.parked[k].(deferred := false)], notices := Unnoted(w.notices, k))
  }

  /** The answer about the deferred notice at an index. */
  function AnswerAt(answers: map<nat, Publication>, index: nat): Publication {
    if index in answers then answers[index] else Published
  }

  /** Deferred notices are revisited from the newest down, each with its mark cleared first. */
  function RevisitAll(tasks: Table, w: Waking, notices: seq<Notice>, answers: map<nat, Publication>, left: nat): Waking
    requires left <= |notices|
    decreases left
  {
    if left == 0 then w
    else
      var n := notices[left - 1];
      var v := Cleared(w, n.route);
      if Foreign(tasks, v.parked, n) then v
      else RevisitAll(tasks, WakeOne(tasks, v, n, AnswerAt(answers, left - 1)), notices, answers, left - 1)
  }

  /** Whether a pass over arriving notices meets one that belongs to another task. */
  predicate WakeFaults(tasks: Table, w: Waking, arrivals: seq<Arrival>)
    decreases |arrivals|
  {
    arrivals != [] &&
    (Foreign(tasks, w.parked, arrivals[0].notice)
     || WakeFaults(tasks, WakeOne(tasks, w, arrivals[0].notice, arrivals[0].publication), arrivals[1..]))
  }

  predicate RevisitFaults(tasks: Table, w: Waking, notices: seq<Notice>, answers: map<nat, Publication>, left: nat)
    requires left <= |notices|
    decreases left
  {
    left > 0 &&
    var n := notices[left - 1];
    var v := Cleared(w, n.route);
    Foreign(tasks, v.parked, n) || RevisitFaults(tasks, WakeOne(tasks, v, n, AnswerAt(answers, left - 1)), notices, answers, left - 1)
  }

  // ------------------------------------------------- one drive iteration

  /** Every listed task is live and held back by a deferred abort. */
  ghost predicate AllBlocked(tasks: Table, aborts: seq<PendingAbort>, keys: seq<TaskKey>) {
    forall k :: k in keys ==> k in tasks && Blocked(aborts, tasks[k].scope)
  }

  lemma SameKeysSameSize(a: Table, b: Table)
    requires a.Keys == b.Keys
    ensures |a| == |b|
  {
    assert |a.Keys| == |a| && |b.Keys| == |b|;
  }

  lemma {:induction false} NothingLives(tasks: Table, q: Queue, parked: Parks, flight: Option<TaskKey>)
    requires Partitioned(tasks, q, parked, flight) && tasks == map[]
    ensures q.Empty() && parked == map[] && flight.None?
  {
    PartitionSizes(tasks, q, parked, flight);
  }

  lemma {:induction false} NoneKept(s: Starts, aborts: seq<PendingAbort>)
    ensures StartsAfter(s, None) == NO_STARTS && Kept(aborts, OtherThan(None)) == []
  {
    KeptNothing(s.incoming, Not(HitBy(None)));
    KeptNothing(s.inbox, Not(HitBy(None)));
    KeptNothing(aborts, OtherThan(None));
  }

  lemma {:induction false} InspectionStarts(q: Queue, p: TaskKey -> bool)
    ensures Retained(q.normal, |q.normal|, p) == Kept(q.normal, Not(p))
    ensures Retained(q.wakes, |q.wakes|, p) == Kept(q.wakes, Not(p))
  {
    assert q.normal[..|q.normal|] == q.normal && q.wakes[..|q.wakes|] == q.wakes;
  }

  lemma {:induction false} ParkKeepsTracking(parked: Parks, deferred: seq<Notice>, timers: set<nat>, k: TaskKey, park: Park)
    requires Matched(parked, deferred) && TimersOwned(timers, parked) && k !in parked && !park.deferred
    ensures Matched(parked[k := park], deferred)
    ensures TimersOwned(timers, parked[k := park])
    ensures park.hasDeadline ==> TimersOwned(timers + {park.token}, parked[k := park])
  {
    var parked' := parked[k := park];
    SameMarksMatch(parked, parked', deferred);
    TimersCarryOver(timers, parked, parked');
    assert k in parked' && parked'[k] == park;
  }
}
