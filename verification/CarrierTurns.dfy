/**
 A carrier's drive loop as a relation between carrier values: what other threads do, what a
 turn brings in, and what its drive iteration does with it.
 */
module CarrierTurns {
  import opened Options
  import opened Collections
  import opened Tasks
  import opened RQ = ReadyQueue
  import opened KernelState
  import opened KernelSpec
  import opened KernelPhases
  import opened KernelTicks
  import opened Admission

  /** The kernel, what it shares with other threads, and its admission gate. */
  datatype World = World(core: Core, shared: Shared, gate: Gate)

  const NEW_WORLD := World(NEW_CORE, NEW_SHARED, Gate(0, false))

  /** The configured bounds. */
  datatype Limits = Limits(vthreads: nat, scopes: nat, queue: nat)

  /** What other threads do to a carrier: scopes open and finish, starts are published, it is told to stop. */
  datatype Outside = Open(scope: nat) | Finish(scope: nat) | Submit(task: Task) | Stop

  /** An abort the inbox hands over, and the tokens whose publication is in flight when it is tried. */
  datatype Request = Request(scope: nat, reason: Failure, busy: set<nat>)

  /** Everything that is not the kernel's own decision during one turn of the loop. */
  datatype Turn = Turn(before: seq<Outside>, aborts: seq<Request>, refusing: set<nat>, stackless: set<Task>, during: seq<Outside>, inputs: Inputs)

  datatype Outcome = Driving | Stopped | Failed

  const STOPPED_REASON := Failure(0)
  const FAILED_REASON := Failure(1)

  // ------------------------------------------------- what other threads do

  predicate Accepts(w: World, task: Task, l: Limits) {
    !w.shared.stopped && task.scope in w.shared.scopes && |w.core.starts.inbox| < l.queue && |w.core.tasks| + Waiting(w.core.starts) < l.vthreads
  }

  /** One outside event: refused ones change nothing. */
  ghost function Happened(w: World, e: Outside, l: Limits): World {
    match e
    case Open(scope) => if |w.shared.scopes| < l.scopes then w.(shared := w.shared.(scopes := w.shared.scopes + {scope})) else w
    case Finish(scope) => if Busy(w.core.tasks, w.core.starts, scope) then w else w.(shared := w.shared.(scopes := w.shared.scopes - {scope}))
    case Submit(task) =>
      if Accepts(w, task, l) then w.(core := w.core.(starts := w.core.starts.(inbox := w.core.starts.inbox + [task]))) else w
    case Stop => w.(shared := w.shared.(stopped := true))
  }

  ghost function AllHappened(w: World, events: seq<Outside>, l: Limits): World
    decreases |events|
  {
    if events == [] then w else AllHappened(Happened(w, events[0], l), events[1..], l)
  }

  // ------------------------------------------------- what a turn brings in

  /** The kernel after the last abort of a list. */
  function Reached(c: Core, path: seq<Attempt>): Core {
    if path == [] then c else path[|path| - 1].after
  }

  /** The kernel when the abort at `i` is tried. */
  function Before(c: Core, path: seq<Attempt>, i: nat): Core
    requires i <= |path|
  {
    if i == 0 then c else path[i - 1].after
  }

  /** The aborts were tried one after the other. */
  ghost predicate AbortsTaken(c: Core, aborts: seq<Request>, path: seq<Attempt>) {
    && |path| == |aborts|
    && forall i {:trigger Before(c, path, i)} :: 0 <= i < |path| ==> TookRequest(Before(c, path, i), aborts[i], path[i])
  }

  ghost predicate TookRequest(c: Core, r: Request, a: Attempt) {
    TookAbort(c, Some(r.scope), r.reason, r.busy, a)
  }

  ghost predicate TookAbort(c: Core, scope: Option<nat>, reason: Failure, busy: set<nat>, a: Attempt) {
    Aborted(c, scope, reason, busy, a.added, a.all, a.done, a.after)
  }

  /** The aborts the inbox hands over, as the kernel tries them. */
  function Handed(aborts: seq<Request>): seq<PendingAbort> {
    seq(|aborts|, i requires 0 <= i < |aborts| => PendingAbort(Some(aborts[i].scope), aborts[i].reason))
  }

  /** Tasks for which a stack is left. */
  function Stacked(stackless: set<Task>): Task -> bool {
    (task: Task) => task !in stackless
  }

  /** One receive pass: local starts, then what the gate allows of the published ones, oldest first. */
  ghost predicate Received(w: World, stackless: set<Task>, l: Limits, drained: nat, added: seq<TaskKey>, w': World) {
    var starts, target := w.core.starts, Target(l.queue);
    var pass := Pass(|w.core.queue.normal| + |w.core.queue.wakes| + |starts.local|, |starts.inbox|, |w'.core.starts.inbox|);
    && drained == Drained(w.gate, pass, target) && drained <= |starts.inbox| && w'.gate == Next(w.gate, pass, target)
    && w'.core.starts == Starts(None, [], starts.inbox[drained..], [])
    && Adopted(w.core.tasks, starts.local + Kept(starts.inbox[..drained], Stacked(stackless)), added, w'.core.tasks)
    && Entered(w, added, w')
  }

  /** Only local starts are taken. */
  ghost predicate TookLocal(w: World, added: seq<TaskKey>, w': World) {
    && w'.gate == w.gate && w'.core.starts == w.core.starts.(local := [])
    && Adopted(w.core.tasks, w.core.starts.local, added, w'.core.tasks)
    && Entered(w, added, w')
  }

  /** New tasks are at the back of the normal lane; nothing else moved. */
  ghost predicate Entered(w: World, added: seq<TaskKey>, w': World) {
    && w'.core.queue == w.core.queue.(normal := w.core.queue.normal + added)
    && w'.core.parked == w.core.parked && w'.core.timers == w.core.timers && w'.core.notices == w.core.notices
    && w'.core.aborts == w.core.aborts && w'.core.flight == w.core.flight && w'.core.batch == w.core.batch
    && w'.shared == w.shared
  }

  /** What bringing things in went through. */
  datatype Feed = Feed(path: seq<Attempt>, drained: nat, added: seq<TaskKey>, stopped: bool)

  /**
   After a signal a stopped carrier aborts everything, and is done iff no publisher refuses;
   otherwise it takes the aborts it is handed and receives. Without a signal it receives iff
   starts are known to wait, and takes local starts otherwise.
   */
  ghost predicate Fed(w: World, turn: Turn, l: Limits, f: Feed, w': World) {
    if turn.inputs.signalChanged && w.shared.stopped then
      && |f.path| == 1 && TookAbort(w.core, None, STOPPED_REASON, turn.refusing, f.path[0])
      && f.stopped == f.path[0].done && w' == w.(core := f.path[0].after)
    else
      && !f.stopped
      && if turn.inputs.signalChanged then
           AbortsTaken(w.core, turn.aborts, f.path) && Received(w.(core := Reached(w.core, f.path)), turn.stackless, l, f.drained, f.added, w')
         else if w.gate.backlog || w.core.starts.inbox != [] then
           Received(w, turn.stackless, l, f.drained, f.added, w')
         else
           TookLocal(w, f.added, w')
  }

  /** What a turn has the kernel abort before it ticks. */
  function Demands(w: World, turn: Turn): seq<PendingAbort> {
    if !turn.inputs.signalChanged then []
    else if w.shared.stopped then [PendingAbort(None, STOPPED_REASON)]
    else Handed(turn.aborts)
  }

  // ------------------------------------------------- turns

  /** What a whole turn went through. */
  datatype Passage = Passage(begun: World, feed: Feed, fed: World, ticking: World, tick: Iteration)

  /** What other threads do meanwhile, then the drive iteration, which touches neither scopes nor the gate. */
  ghost predicate Iterated(w: World, turn: Turn, l: Limits, from: World, t: Iteration, w': World) {
    && from == AllHappened(w, turn.during, l)
    && Ticked(t) && t.from == from.core && t.inputs == turn.inputs && t.limit == l.vthreads && t.to == w'.core
    && w'.shared == from.shared && w'.gate == from.gate
  }

  /** The task a turn mounted, if any. */
  function Dispatches(p: Passage): seq<Task> {
    if p.feed.stopped then [] else TickMounts(p.tick)
  }

  /** A turn ends with its abort of everything, or with its drive iteration. */
  ghost predicate Finished(p: Passage, turn: Turn, l: Limits, outcome: Outcome, w': World) {
    if p.feed.stopped then outcome.Stopped? && w' == p.fed
    else outcome == (if p.tick.ok then Driving else Failed) && Iterated(p.fed, turn, l, p.ticking, p.tick, w')
  }

  /** One turn of the loop. */
  ghost predicate Turned(w: World, turn: Turn, l: Limits, p: Passage, outcome: Outcome, w': World) {
    p.begun == AllHappened(w, turn.before, l) && Fed(p.begun, turn, l, p.feed, p.fed) && Finished(p, turn, l, outcome, w')
  }

  /** The aborts a turn tries, in order. */
  function TurnTries(p: Passage, turn: Turn): seq<PendingAbort> {
    Demands(p.begun, turn) + if p.feed.stopped then [] else TickTries(p.tick)
  }

  lemma {:induction false} TriesJoin(log: seq<PendingAbort>, p: Passage, turn: Turn)
    ensures var demands, late := Demands(p.begun, turn), TickTries(p.tick);
            && (p.feed.stopped ==> log + demands == log + TurnTries(p, turn))
            && (!p.feed.stopped ==> log + demands + late == log + TurnTries(p, turn))
  {
    var demands, late := Demands(p.begun, turn), TickTries(p.tick);
    Associates(log, demands, late);
    assert demands + [] == demands;
  }

  /** Turns from a new carrier until one stops it or faults. */
  ghost predicate Driven(worlds: seq<World>, turns: seq<Turn>, l: Limits, passages: seq<Passage>, outcome: Outcome)
    decreases |passages|
  {
    && |worlds| == |passages| + 1 && |passages| <= |turns|
    && if passages == [] then outcome.Driving? && worlds[0] == NEW_WORLD
       else
         var n := |passages| - 1;
         && Driven(worlds[..n + 1], turns, l, passages[..n], Driving)
         && Turned(worlds[n], turns[n], l, passages[n], outcome, worlds[n + 1])
  }

  /** The tasks a run mounted, in order. */
  function AllDispatches(passages: seq<Passage>): seq<Task> {
    if passages == [] then [] else AllDispatches(passages[..|passages| - 1]) + Dispatches(passages[|passages| - 1])
  }

  /** The aborts a run tried, in order. */
  function AllTries(passages: seq<Passage>, turns: seq<Turn>): seq<PendingAbort>
    requires |passages| <= |turns|
  {
    if passages == [] then []
    else AllTries(passages[..|passages| - 1], turns) + TurnTries(passages[|passages| - 1], turns[|passages| - 1])
  }

  lemma {:induction false} DrivenGrows(worlds: seq<World>, turns: seq<Turn>, l: Limits, passages: seq<Passage>,
                                       p: Passage, outcome: Outcome, w': World)
    requires Driven(worlds, turns, l, passages, Driving) && |passages| < |turns|
    requires Turned(worlds[|passages|], turns[|passages|], l, p, outcome, w')
    ensures Driven(worlds + [w'], turns, l, passages + [p], outcome)
    ensures AllDispatches(passages + [p]) == AllDispatches(passages) + Dispatches(p)
    ensures AllTries(passages + [p], turns) == AllTries(passages, turns) + TurnTries(p, turns[|passages|])
  {
    var n := |passages|;
    assert (worlds + [w'])[..n + 1] == worlds && (passages + [p])[..n] == passages;
    assert (worlds + [w'])[n] == worlds[n];
  }

  // ------------------------------------------------- after a fault

  /** The last abort of a list went through. */
  predicate Gone(path: seq<Attempt>) {
    path != [] && path[|path| - 1].done
  }

  /** Whole-carrier aborts, until one goes through. */
  ghost predicate GaveUp(c: Core, busies: seq<set<nat>>, path: seq<Attempt>) {
    && |path| <= |busies|
    && forall i {:trigger Before(c, path, i)} :: 0 <= i < |path| ==>
         TookRound(Before(c, path, i), busies[i], path[i]) && (i + 1 < |path| ==> !path[i].done)
  }

  ghost predicate TookRound(c: Core, busy: set<nat>, a: Attempt) {
    TookAbort(c, None, FAILED_REASON, busy, a)
  }

  lemma {:induction false} GaveUpGrows(c: Core, busies: seq<set<nat>>, path: seq<Attempt>, a: Attempt, path': seq<Attempt>)
    requires GaveUp(c, busies, path) && |path| < |busies| && !Gone(path) && path' == path + [a]
    requires TookRound(Reached(c, path), busies[|path|], a)
    ensures GaveUp(c, busies, path') && Reached(c, path') == a.after && Gone(path') == a.done
  {
    forall j | 0 <= j < |path'|
      ensures TookRound(Before(c, path', j), busies[j], path'[j]) && (j + 1 < |path'| ==> !path'[j].done)
    {
      if j < |path| {
        assert path'[j] == path[j] && Before(c, path', j) == Before(c, path, j);
      }
    }
  }

  /** The whole-carrier aborts that were tried, one for each attempt. */
  function Renewed(n: nat): seq<PendingAbort> {
    if n == 0 then [] else Renewed(n - 1) + [PendingAbort(None, FAILED_REASON)]
  }

  /** How a whole run ends: as its turns do, or, after a fault, with a stopped inbox and as the aborts that follow do. */
  ghost predicate Ended(w: World, turns: seq<Turn>, taken: nat, busies: seq<set<nat>>, driven: Outcome, path: seq<Attempt>, outcome: Outcome, w': World) {
    match driven
    case Driving => outcome.Driving? && taken == |turns| && w' == w && path == []
    case Stopped => outcome.Stopped? && w' == w && path == []
    case Failed =>
      && GaveUp(w.core, busies, path) && w' == World(Reached(w.core, path), w.shared.(stopped := true), w.gate)
      && outcome == (if Gone(path) then Stopped else Failed) && (Gone(path) || |path| == |busies|)
  }

  lemma {:induction false} AbortsTakenGrows(c: Core, aborts: seq<Request>, path: seq<Attempt>, i: nat, a: Attempt)
    requires i < |aborts| && AbortsTaken(c, aborts[..i], path) && TookRequest(Reached(c, path), aborts[i], a)
    ensures AbortsTaken(c, aborts[..i + 1], path + [a]) && Reached(c, path + [a]) == a.after
  {
    var path' := path + [a];
    forall j | 0 <= j < |path'|
      ensures TookRequest(Before(c, path', j), aborts[..i + 1][j], path'[j])
    {
      if j < i { assert path'[j] == path[j] && aborts[..i + 1][j] == aborts[..i][j] && Before(c, path', j) == Before(c, path, j); }
    }
  }

  lemma {:induction false} HandedGrows(aborts: seq<Request>, i: nat, log: seq<PendingAbort>)
    requires i < |aborts|
    ensures log + Handed(aborts[..i]) + [PendingAbort(Some(aborts[i].scope), aborts[i].reason)] == log + Handed(aborts[..i + 1])
  {
  }
}
