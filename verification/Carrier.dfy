/**
 The carrier's drive loop over its kernel, from construction to shutdown. Other threads act
 between and inside turns; every operation's precondition is met in every state a run
 reaches, and every turn is the one `CarrierTurns` describes.
 */
module Carrier {
  import opened Options
  import opened Collections
  import opened Tasks
  import opened KernelState
  import opened KernelSpec
  import opened KernelPhases
  import opened KernelTicks
  import opened Admission
  import opened CarrierTurns
  import opened CarrierRuns
  import K = Kernel

  /** Between turns nothing is in flight and no packet is half materialized. */
  ghost predicate Resting(kernel: K.Kernel)
    reads kernel, kernel.ready
  {
    kernel.Valid() && kernel.inFlight.None? && Idle(kernel.starts)
  }

  /** After a turn: at rest unless it faulted, and empty once stopped. */
  ghost predicate Standing(kernel: K.Kernel, outcome: Outcome)
    reads kernel, kernel.ready
  {
    && kernel.Valid() && Idle(kernel.starts) && (outcome.Failed? || Resting(kernel))
    && (outcome.Stopped? ==> kernel.Reclaimed())
  }

  ghost function Now(kernel: K.Kernel): World
    reads kernel, kernel.ready
  {
    World(kernel.Now(), kernel.shared, kernel.gate)
  }

  ghost function Bounds(kernel: K.Kernel): Limits {
    Limits(kernel.maxVthreads, kernel.maxOwnedScopes, kernel.capacity)
  }

  method Happen(kernel: K.Kernel, events: seq<Outside>, ghost was: World)
    requires Resting(kernel) && was == Now(kernel)
    modifies kernel`shared, kernel`starts, kernel`admitted
    ensures Resting(kernel) && Now(kernel) == AllHappened(was, events, Bounds(kernel))
  {
    ghost var goal := AllHappened(was, events, Bounds(kernel));
    assert events[0..] == events;
    for i := 0 to |events|
      invariant Resting(kernel) && AllHappened(Now(kernel), events[i..], Bounds(kernel)) == goal
    {
      assert events[i..][0] == events[i] && events[i..][1..] == events[i + 1..];
      HappenOne(kernel, events[i], Now(kernel));
    }
  }

  method HappenOne(kernel: K.Kernel, event: Outside, ghost was: World)
    requires Resting(kernel) && was == Now(kernel)
    modifies kernel`shared, kernel`starts, kernel`admitted
    ensures Resting(kernel) && Now(kernel) == Happened(was, event, Bounds(kernel))
  {
    match event
    case Open(scope) => kernel.OpenScope(scope);
    case Finish(scope) => kernel.FinishScope(scope);
    case Submit(task) =>
      var accepted := kernel.Submit(task);
    case Stop => kernel.Stop();
  }

  /** Aborts the scopes the inbox names, whether or not they are still open. */
  method TakeAborts(kernel: K.Kernel, aborts: seq<Request>, ghost was: Core) returns (ghost path: seq<Attempt>)
    requires Resting(kernel) && was == kernel.Now()
    modifies kernel, kernel.ready
    ensures Resting(kernel) && kernel.dispatched == old(kernel.dispatched)
    ensures AbortsTaken(was, aborts, path) && Now(kernel) == old(Now(kernel)).(core := Reached(was, path))
    ensures kernel.attempts == old(kernel.attempts) + Handed(aborts)
  {
    path := [];
    ghost var log := kernel.attempts;
    assert aborts[..0] == [];
    for i := 0 to |aborts|
      invariant Resting(kernel) && kernel.dispatched == old(kernel.dispatched)
      invariant AbortsTaken(was, aborts[..i], path) && Now(kernel) == old(Now(kernel)).(core := Reached(was, path))
      invariant kernel.attempts == log + Handed(aborts[..i])
    {
      ghost var a := TakeAbort(kernel, aborts[i], Reached(was, path));
      AbortsTakenGrows(was, aborts, path, i, a);
      HandedGrows(aborts, i, log);
      path := path + [a];
    }
    assert aborts[..|aborts|] == aborts;
  }

  method TakeAbort(kernel: K.Kernel, abort: Request, ghost was: Core) returns (ghost a: Attempt)
    requires Resting(kernel) && was == kernel.Now()
    modifies kernel, kernel.ready
    ensures Resting(kernel) && kernel.dispatched == old(kernel.dispatched)
    ensures TookRequest(was, abort, a) && Now(kernel) == old(Now(kernel)).(core := a.after)
    ensures kernel.attempts == old(kernel.attempts) + [PendingAbort(Some(abort.scope), abort.reason)]
  {
    ghost var done, added, all := kernel.AbortFrom(Some(abort.scope), abort.reason, abort.busy, was);
    StartsStayOpen(was.starts, Some(abort.scope), {});
    a := Attempt(added, all, done, kernel.Now());
  }

  /** Receives starts after what the inbox has handed over. */
  method Take(kernel: K.Kernel, stackless: set<Task>, ghost was: World) returns (ghost drained: nat, ghost added: seq<TaskKey>)
    requires Resting(kernel) && was == Now(kernel)
    modifies kernel, kernel.ready
    ensures Resting(kernel) && kernel.dispatched == old(kernel.dispatched) && kernel.attempts == old(kernel.attempts)
    ensures Received(was, stackless, Bounds(kernel), drained, added, Now(kernel))
  {
    drained, added := kernel.Receive(Stacked(stackless));
  }

  method TakeLocal(kernel: K.Kernel, ghost was: World) returns (ghost added: seq<TaskKey>)
    requires Resting(kernel) && was == Now(kernel)
    modifies kernel, kernel.ready
    ensures Resting(kernel) && kernel.dispatched == old(kernel.dispatched) && kernel.attempts == old(kernel.attempts)
    ensures TookLocal(was, added, Now(kernel))
  {
    added := kernel.ReceiveLocal();
  }

  /** A stopped carrier aborts everything. */
  method StopAll(kernel: K.Kernel, reason: Failure, busy: set<nat>, ghost was: Core) returns (done: bool, ghost a: Attempt)
    requires kernel.Valid() && Idle(kernel.starts) && was == kernel.Now()
    modifies kernel, kernel.ready
    ensures kernel.Valid() && Idle(kernel.starts) && (old(kernel.inFlight).None? ==> kernel.inFlight.None?) && (done ==> kernel.Reclaimed())
    ensures kernel.dispatched == old(kernel.dispatched) && kernel.attempts == old(kernel.attempts) + [PendingAbort(None, reason)]
    ensures TookAbort(was, None, reason, busy, a) && a.done == done && Now(kernel) == old(Now(kernel)).(core := a.after)
  {
    ghost var added, all;
    done, added, all := kernel.AbortAll(reason, busy, was);
    a := Attempt(added, all, done, kernel.Now());
  }

  /** Takes the aborts the inbox hands over, then receives. */
  method TakeControl(kernel: K.Kernel, turn: Turn, ghost was: World) returns (ghost f: Feed)
    requires Resting(kernel) && was == Now(kernel)
    modifies kernel, kernel.ready
    ensures Resting(kernel) && kernel.dispatched == old(kernel.dispatched)
    ensures kernel.attempts == old(kernel.attempts) + Handed(turn.aborts)
    ensures AbortsTaken(was.core, turn.aborts, f.path) && !f.stopped
    ensures Received(was.(core := CarrierTurns.Reached(was.core, f.path)), turn.stackless, Bounds(kernel), f.drained, f.added, Now(kernel))
  {
    ghost var path := TakeAborts(kernel, turn.aborts, was.core);
    ghost var drained, added := Take(kernel, turn.stackless, Now(kernel));
    f := Feed(path, drained, added, false);
  }

  /** Takes what waits without a signal. */
  method TakeWork(kernel: K.Kernel, turn: Turn, ghost was: World) returns (ghost f: Feed)
    requires Resting(kernel) && was == Now(kernel)
    modifies kernel, kernel.ready
    ensures Resting(kernel) && kernel.dispatched == old(kernel.dispatched) && kernel.attempts == old(kernel.attempts) && !f.stopped
    ensures if was.gate.backlog || was.core.starts.inbox != [] then
              Received(was, turn.stackless, Bounds(kernel), f.drained, f.added, Now(kernel))
            else
              TookLocal(was, f.added, Now(kernel))
  {
    ghost var drained: nat, added := 0, [];
    if kernel.gate.backlog || |kernel.starts.inbox| != 0 {
      drained, added := Take(kernel, turn.stackless, was);
    } else {
      added := TakeLocal(kernel, was);
    }
    f := Feed([], drained, added, false);
  }

  /** Brings in starts and control requests before the tick; a stopped carrier only aborts. */
  method Collect(kernel: K.Kernel, turn: Turn, ghost was: World) returns (stopped: bool, ghost f: Feed)
    requires Resting(kernel) && was == Now(kernel)
    modifies kernel, kernel.ready
    ensures Resting(kernel) && kernel.dispatched == old(kernel.dispatched) && stopped == f.stopped
    ensures stopped ==> kernel.Reclaimed()
    ensures Fed(was, turn, Bounds(kernel), f, Now(kernel))
    ensures kernel.attempts == old(kernel.attempts) + Demands(was, turn)
  {
    stopped := false;
    if turn.inputs.signalChanged && kernel.shared.stopped {
      ghost var a;
      stopped, a := StopAll(kernel, STOPPED_REASON, turn.refusing, was.core);
      f := Feed([a], 0, [], stopped);
    } else if turn.inputs.signalChanged {
      f := TakeControl(kernel, turn, was);
    } else {
      f := TakeWork(kernel, turn, was);
    }
  }

  /**
   One turn of the loop, exactly as `Turned` describes it: what came before and inside it,
   the aborts it was handed, the starts it took, and its drive iteration.
   */
  method Step(kernel: K.Kernel, turn: Turn, ghost was: World) returns (outcome: Outcome, ghost p: Passage)
    requires Resting(kernel) && was == Now(kernel)
    modifies kernel, kernel.ready
    ensures Standing(kernel, outcome) && Turned(was, turn, Bounds(kernel), p, outcome, Now(kernel))
    ensures kernel.attempts == old(kernel.attempts) + TurnTries(p, turn)
    ensures kernel.dispatched == old(kernel.dispatched) + Dispatches(p)
  {
    Happen(kernel, turn.before, was);
    outcome, p := Serve(kernel, turn, Now(kernel));
  }

  /** What a turn does once others have acted. */
  method Serve(kernel: K.Kernel, turn: Turn, ghost begun: World) returns (outcome: Outcome, ghost p: Passage)
    requires Resting(kernel) && begun == Now(kernel)
    modifies kernel, kernel.ready
    ensures Standing(kernel, outcome) && p.begun == begun
    ensures Fed(begun, turn, Bounds(kernel), p.feed, p.fed) && Finished(p, turn, Bounds(kernel), outcome, Now(kernel))
    ensures kernel.attempts == old(kernel.attempts) + TurnTries(p, turn)
    ensures kernel.dispatched == old(kernel.dispatched) + Dispatches(p)
  {
    var stopped;
    ghost var feed;
    stopped, feed := Collect(kernel, turn, begun);
    ghost var fed := Now(kernel);
    ghost var ticking, tick := fed, NO_ITERATION;
    outcome := Stopped;
    if !stopped {
      outcome, ticking, tick := Advance(kernel, turn, fed);
    }
    p := Passage(begun, feed, fed, ticking, tick);
    TriesJoin(old(kernel.attempts), p, turn);
  }

  /** What other threads do meanwhile, then the drive iteration. */
  method Advance(kernel: K.Kernel, turn: Turn, ghost was: World) returns (outcome: Outcome, ghost from: World, ghost t: Iteration)
    requires Resting(kernel) && was == Now(kernel)
    modifies kernel, kernel.ready
    ensures Standing(kernel, outcome) && outcome == (if t.ok then Driving else Failed)
    ensures Iterated(was, turn, Bounds(kernel), from, t, Now(kernel))
    ensures kernel.attempts == old(kernel.attempts) + TickTries(t)
    ensures kernel.dispatched == old(kernel.dispatched) + TickMounts(t)
  {
    Happen(kernel, turn.during, was);
    from := Now(kernel);
    var ok, ran;
    ok, ran, t := Iterate(kernel, turn.inputs, from.core);
    outcome := if ok then Driving else Failed;
  }

  /** The drive iteration touches neither scopes nor the admission gate. */
  method Iterate(kernel: K.Kernel, i: Inputs, ghost was: Core) returns (ok: bool, ran: bool, ghost t: Iteration)
    requires Resting(kernel) && was == kernel.Now()
    modifies kernel, kernel.ready
    ensures kernel.Valid() && Idle(kernel.starts) && (ok ==> kernel.inFlight.None?)
    ensures Ticked(t) && t.from == was && t.inputs == i && t.limit == kernel.maxVthreads && t.ok == ok && t.ran == ran && t.to == kernel.Now()
    ensures kernel.shared == old(kernel.shared) && kernel.gate == old(kernel.gate)
    ensures kernel.attempts == old(kernel.attempts) + TickTries(t)
    ensures kernel.dispatched == old(kernel.dispatched) + TickMounts(t)
  {
    ok, ran, t := kernel.Tick(i, was);
  }

  /** Turns from a new carrier until one stops it or faults. */
  method Drive(kernel: K.Kernel, turns: seq<Turn>) returns (outcome: Outcome, ghost worlds: seq<World>, ghost passages: seq<Passage>)
    requires Resting(kernel) && Now(kernel) == NEW_WORLD && kernel.attempts == [] && kernel.dispatched == []
    modifies kernel, kernel.ready
    ensures Standing(kernel, outcome) && Driven(worlds, turns, Bounds(kernel), passages, outcome)
    ensures Now(kernel) == worlds[|passages|] && (outcome.Driving? ==> |passages| == |turns|)
    ensures kernel.dispatched == AllDispatches(passages) && kernel.attempts == AllTries(passages, turns)
  {
    outcome, worlds, passages := Driving, [NEW_WORLD], [];
    var i := 0;
    while i < |turns| && outcome.Driving?
      invariant i == |passages| <= |turns| && Standing(kernel, outcome)
      invariant Driven(worlds, turns, Bounds(kernel), passages, outcome) && Now(kernel) == worlds[i]
      invariant kernel.dispatched == AllDispatches(passages) && kernel.attempts == AllTries(passages, turns)
      decreases |turns| - i
    {
      ghost var p;
      outcome, p := Step(kernel, turns[i], worlds[i]);
      DrivenGrows(worlds, turns, Bounds(kernel), passages, p, outcome, Now(kernel));
      worlds, passages := worlds + [Now(kernel)], passages + [p];
      i := i + 1;
    }
  }

  /** After a fault the inbox stops, and everything is aborted until no publisher refuses. */
  method GiveUp(kernel: K.Kernel, busies: seq<set<nat>>, ghost was: World) returns (outcome: Outcome, ghost path: seq<Attempt>)
    requires Standing(kernel, Failed) && was == Now(kernel)
    modifies kernel, kernel.ready
    ensures Standing(kernel, Failed) && kernel.dispatched == old(kernel.dispatched)
    ensures GaveUp(was.core, busies, path)
    ensures Now(kernel) == World(Reached(was.core, path), was.shared.(stopped := true), was.gate)
    ensures kernel.attempts == old(kernel.attempts) + Renewed(|path|)
    ensures outcome == (if Gone(path) then Stopped else Failed) && (Gone(path) ==> kernel.Reclaimed()) && (Gone(path) || |path| == |busies|)
    ensures (exists j :: 0 <= j < |busies| && Silent(was.core, busies[j])) ==> outcome.Stopped?
  {
    kernel.ReadyAreLive();
    kernel.Stop();
    path := [];
    ghost var halted := was.(shared := was.shared.(stopped := true));
    var i, gone := 0, false;
    while i < |busies| && !gone
      invariant i == |path| <= |busies| && Standing(kernel, Failed) && kernel.dispatched == old(kernel.dispatched)
      invariant GaveUp(was.core, busies, path) && Now(kernel) == halted.(core := Reached(was.core, path))
      invariant kernel.attempts == old(kernel.attempts) + Renewed(i)
      invariant gone == Gone(path) && (gone ==> kernel.Reclaimed())
      decreases |busies| - i
    {
      Associates(old(kernel.attempts), Renewed(i), [PendingAbort(None, FAILED_REASON)]);
      gone, path := GiveUpOnce(kernel, busies, i, was.core, path);
      i := i + 1;
    }
    outcome := if gone then Stopped else Failed;
    SilenceEndsIt(was.core, busies, path);
  }

  method GiveUpOnce(kernel: K.Kernel, busies: seq<set<nat>>, i: nat, ghost was: Core, ghost path: seq<Attempt>) returns (gone: bool, ghost path': seq<Attempt>)
    requires Standing(kernel, Failed) && i == |path| < |busies| && GaveUp(was, busies, path) && !Gone(path) && kernel.Now() == Reached(was, path)
    modifies kernel, kernel.ready
    ensures Standing(kernel, Failed) && kernel.dispatched == old(kernel.dispatched) && |path'| == |path| + 1
    ensures GaveUp(was, busies, path') && Now(kernel) == old(Now(kernel)).(core := Reached(was, path'))
    ensures kernel.attempts == old(kernel.attempts) + [PendingAbort(None, FAILED_REASON)]
    ensures gone == Gone(path') && (gone ==> kernel.Reclaimed())
  {
    ghost var a, before := NO_ATTEMPT, Reached(was, path);
    gone, a := StopAll(kernel, FAILED_REASON, busies[i], before);
    path' := path + [a];
    GaveUpGrows(was, busies, path, a, path');
  }

  /** What follows the last turn: nothing, unless it faulted. */
  method ShutDown(kernel: K.Kernel, turns: seq<Turn>, busies: seq<set<nat>>, driven: Outcome, ghost was: World, ghost taken: nat)
    returns (outcome: Outcome, ghost path: seq<Attempt>)
    requires Standing(kernel, driven) && was == Now(kernel) && (driven.Driving? ==> taken == |turns|)
    modifies kernel, kernel.ready
    ensures Standing(kernel, outcome) && kernel.dispatched == old(kernel.dispatched)
    ensures Ended(was, turns, taken, busies, driven, path, outcome, Now(kernel))
    ensures driven.Failed? && (exists j :: 0 <= j < |busies| && Silent(was.core, busies[j])) ==> outcome.Stopped?
    ensures kernel.attempts == old(kernel.attempts) + Renewed(|path|)
  {
    outcome, path := driven, [];
    if driven.Failed? {
      outcome, path := GiveUp(kernel, busies, was);
    }
  }

  /**
   A whole carrier: turn after turn from construction, exactly as `Driven` describes them,
   and after a fault whole-carrier aborts until no publisher refuses. A carrier that stopped
   is empty, and every task it admitted was completed or aborted.
   */
  method Run(l: Limits, turns: seq<Turn>, busies: seq<set<nat>>)
    returns (kernel: K.Kernel, outcome: Outcome, ghost worlds: seq<World>, ghost passages: seq<Passage>, ghost driven: Outcome, ghost path: seq<Attempt>)
    requires l.scopes > 0
    ensures fresh(kernel) && kernel.Valid() && Driven(worlds, turns, l, passages, driven)
    ensures Ended(worlds[|passages|], turns, |passages|, busies, driven, path, outcome, Now(kernel))
    ensures driven.Failed? && (exists j :: 0 <= j < |busies| && Silent(worlds[|passages|].core, busies[j])) ==> outcome.Stopped?
    ensures outcome.Driving? ==> Resting(kernel)
    ensures kernel.dispatched == AllDispatches(passages) && kernel.attempts == AllTries(passages, turns) + Renewed(|path|)
    ensures outcome.Stopped? ==> kernel.Reclaimed() && kernel.aborted + |kernel.batch.published| == kernel.admitted
  {
    kernel := new K.Kernel(l.vthreads, l.scopes, l.queue);
    outcome, worlds, passages := Drive(kernel, turns);
    driven := outcome;
    outcome, path := ShutDown(kernel, turns, busies, outcome, worlds[|passages|], |passages|);
  }
}
