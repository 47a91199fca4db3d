/** What whole runs of a carrier guarantee, from the relation its drive loop is proved to follow. */
module CarrierRuns {
  import opened Options
  import opened Collections
  import opened Tasks
  import opened KernelState
  import opened KernelSpec
  import opened KernelPhases
  import opened KernelAborts
  import opened KernelTicks
  import opened KernelOutcomes
  import opened Admission
  import opened CarrierTurns

  /** Each turn of a run, on its own. */
  lemma {:induction false} EachTurn(worlds: seq<World>, turns: seq<Turn>, l: Limits, passages: seq<Passage>, outcome: Outcome, j: nat)
    requires Driven(worlds, turns, l, passages, outcome) && j < |passages|
    ensures |worlds| == |passages| + 1 && |passages| <= |turns|
    ensures Turned(worlds[j], turns[j], l, passages[j], if j + 1 == |passages| then outcome else Driving, worlds[j + 1])
    decreases |passages|
  {
    var n := |passages| - 1;
    if j < n {
      EachTurn(worlds[..n + 1], turns, l, passages[..n], Driving, j);
    }
  }

  // ------------------------------------------------- who can end a run

  /** Nobody tells the inbox to stop. */
  predicate Quiet(events: seq<Outside>) {
    forall e :: e in events ==> !e.Stop?
  }

  lemma {:induction false} QuietKeepsGoing(w: World, events: seq<Outside>, l: Limits)
    requires Quiet(events) && !w.shared.stopped
    ensures !AllHappened(w, events, l).shared.stopped
    decreases |events|
  {
    if events != [] {
      assert events[0] in events;
      assert Quiet(events[1..]) by { assert forall e :: e in events[1..] ==> e in events; }
      QuietKeepsGoing(Happened(w, events[0], l), events[1..], l);
    }
  }

  lemma {:induction false} QuietTurn(w: World, turn: Turn, l: Limits, p: Passage, outcome: Outcome, w': World)
    requires Turned(w, turn, l, p, outcome, w') && Quiet(turn.before) && Quiet(turn.during) && !w.shared.stopped
    ensures !outcome.Stopped? && !p.feed.stopped && !w'.shared.stopped
  {
    QuietKeepsGoing(w, turn.before, l);
    assert p.fed.shared == p.begun.shared;
    QuietKeepsGoing(p.fed, turn.during, l);
  }

  ghost predicate AllQuiet(turns: seq<Turn>, n: nat) {
    forall j :: 0 <= j < n && j < |turns| ==> Quiet(turns[j].before) && Quiet(turns[j].during)
  }

  lemma {:induction false} NewCarrier(worlds: seq<World>, turns: seq<Turn>, l: Limits, passages: seq<Passage>, outcome: Outcome)
    requires Driven(worlds, turns, l, passages, outcome)
    ensures |worlds| == |passages| + 1 && worlds[0] == NEW_WORLD && (passages == [] ==> outcome.Driving?)
    decreases |passages|
  {
    if passages != [] {
      var n := |passages| - 1;
      NewCarrier(worlds[..n + 1], turns, l, passages[..n], Driving);
    }
  }

  /** While nobody tells it to stop, a run does not, and its inbox stays open. */
  lemma {:induction false} QuietRun(worlds: seq<World>, turns: seq<Turn>, l: Limits, passages: seq<Passage>, outcome: Outcome)
    requires Driven(worlds, turns, l, passages, outcome) && AllQuiet(turns, |passages|)
    ensures |worlds| == |passages| + 1 && !outcome.Stopped? && !worlds[|passages|].shared.stopped
    decreases |passages|
  {
    if passages != [] {
      var n := |passages| - 1;
      QuietRun(worlds[..n + 1], turns, l, passages[..n], Driving);
      QuietTurn(worlds[n], turns[n], l, passages[n], outcome, worlds[n + 1]);
    }
  }

  /** A run stops only if somebody told it to, during one of the turns it took. */
  lemma {:induction false} StopWasAsked(worlds: seq<World>, turns: seq<Turn>, l: Limits, passages: seq<Passage>, outcome: Outcome)
    requires Driven(worlds, turns, l, passages, outcome) && outcome.Stopped?
    ensures exists j :: 0 <= j < |passages| && j < |turns| && !(Quiet(turns[j].before) && Quiet(turns[j].during))
  {
    if AllQuiet(turns, |passages|) { QuietRun(worlds, turns, l, passages, outcome); }
  }

  /** A run faults only in its last turn, by a misaddressed notice or a bad park. */
  lemma {:induction false} FaultHasCause(worlds: seq<World>, turns: seq<Turn>, l: Limits, passages: seq<Passage>, outcome: Outcome)
    requires Driven(worlds, turns, l, passages, outcome) && outcome.Failed?
    ensures passages != [] && !passages[|passages| - 1].feed.stopped && !Fair(passages[|passages| - 1].tick)
  {
    NewCarrier(worlds, turns, l, passages, outcome);
    var n := |passages| - 1;
    EachTurn(worlds, turns, l, passages, outcome, n);
    if Fair(passages[n].tick) && !passages[n].feed.stopped { FairTickSucceeds(passages[n].tick); }
  }

  /** With fair inputs and nobody telling it to stop, a carrier drives on. */
  lemma {:induction false} FairRunDrives(worlds: seq<World>, turns: seq<Turn>, l: Limits, passages: seq<Passage>, outcome: Outcome)
    requires Driven(worlds, turns, l, passages, outcome) && AllQuiet(turns, |passages|)
    requires forall p :: p in passages ==> Fair(p.tick)
    ensures outcome.Driving?
  {
    QuietRun(worlds, turns, l, passages, outcome);
    if outcome.Failed? {
      NewCarrier(worlds, turns, l, passages, outcome);
      assert passages[|passages| - 1] in passages;
      FaultHasCause(worlds, turns, l, passages, outcome);
    }
  }

  // ------------------------------------------------- giving up

  /** None of the publications in flight is for a parked task. */
  ghost predicate Silent(c: Core, busy: set<nat>) {
    forall k :: k in c.parked ==> c.parked[k].token !in busy
  }

  /** Every later park record was there before, with its token, and belongs to a live task. */
  ghost predicate SameWaits(c: Core, c': Core) {
    ParksLive(c') && forall k :: k in c'.parked ==> k in c.parked && c'.parked[k].token == c.parked[k].token
  }

  lemma {:induction false} RefusedRound(c: Core, busy: set<nat>, a: Attempt)
    requires ParksLive(c) && TookRound(c, busy, a) && !a.done
    ensures SameWaits(c, a.after)
  {
    RefusalHolds(c, None, FAILED_REASON, busy, a.added, a.all, a.after);
    assert forall k :: k in a.after.parked ==> k in a.after.parked.Keys;
  }

  lemma {:induction false} SilentRound(c: Core, busy: set<nat>, a: Attempt)
    requires ParksLive(c) && TookRound(c, busy, a) && Silent(c, busy)
    ensures a.done
  {
    AbortedIffQuiet(c, None, FAILED_REASON, busy, a.added, a.all, a.done, a.after);
    assert forall k :: !Publishing(c, None, busy, k);
  }

  lemma {:induction false} WaitsAlong(c: Core, path: seq<Attempt>, i: nat)
    requires ParksLive(c) && i <= |path|
    requires forall j {:trigger Before(c, path, j)} :: 0 <= j < |path| && ParksLive(Before(c, path, j)) ==> SameWaits(Before(c, path, j), path[j].after)
    ensures SameWaits(c, Before(c, path, i))
  {
    if i > 0 {
      WaitsAlong(c, path, i - 1);
      assert SameWaits(Before(c, path, i - 1), Before(c, path, i));
    }
  }

  /** Refused whole-carrier aborts leave every park record with its token. */
  lemma {:induction false} TokensStay(c: Core, busies: seq<set<nat>>, path: seq<Attempt>, i: nat)
    requires ParksLive(c) && GaveUp(c, busies, path) && !Gone(path) && i <= |path|
    ensures SameWaits(c, Before(c, path, i))
  {
    forall j | 0 <= j < |path| && ParksLive(Before(c, path, j))
      ensures SameWaits(Before(c, path, j), path[j].after)
    {
      RefusedRound(Before(c, path, j), busies[j], path[j]);
    }
    WaitsAlong(c, path, i);
  }

  /** Giving up ends: once no publication for a parked task is in flight, nothing refuses the abort. */
  lemma {:induction false} GivingUpEnds(c: Core, busies: seq<set<nat>>, path: seq<Attempt>, j: nat)
    requires ParksLive(c) && GaveUp(c, busies, path) && (Gone(path) || |path| == |busies|)
    requires j < |busies| && Silent(c, busies[j])
    ensures Gone(path)
  {
    if !Gone(path) {
      TokensStay(c, busies, path, j);
      SilentRound(Before(c, path, j), busies[j], path[j]);
    }
  }

  lemma {:induction false} SilenceEndsIt(c: Core, busies: seq<set<nat>>, path: seq<Attempt>)
    requires ParksLive(c) && GaveUp(c, busies, path) && (Gone(path) || |path| == |busies|)
    ensures (exists j :: 0 <= j < |busies| && Silent(c, busies[j])) ==> Gone(path)
  {
    if j :| 0 <= j < |busies| && Silent(c, busies[j]) { GivingUpEnds(c, busies, path, j); }
  }

  // ------------------------------------------------- being told to stop

  lemma {:induction false} StopIsHeard(w: World, events: seq<Outside>, l: Limits)
    requires w.shared.stopped || Stop in events
    ensures AllHappened(w, events, l).shared.stopped
    decreases |events|
  {
    if events != [] { StopIsHeard(Happened(w, events[0], l), events[1..], l); }
  }

  lemma {:induction false} EventsKeepTasks(w: World, events: seq<Outside>, l: Limits)
    ensures AllHappened(w, events, l).core == w.core.(starts := AllHappened(w, events, l).core.starts)
    decreases |events|
  {
    if events != [] { EventsKeepTasks(Happened(w, events[0], l), events[1..], l); }
  }

  /** A carrier told to stop does so at its next signalled turn, with no task left, unless a publication for a parked task is in flight. */
  lemma {:induction false} ToldToStopStops(w: World, turn: Turn, l: Limits, p: Passage, outcome: Outcome, w': World)
    requires Turned(w, turn, l, p, outcome, w') && turn.inputs.signalChanged && (w.shared.stopped || Stop in turn.before)
    requires ParksLive(w.core) && Silent(w.core, turn.refusing)
    ensures outcome.Stopped? && w'.core.tasks == map[]
  {
    StopIsHeard(w, turn.before, l);
    EventsKeepTasks(w, turn.before, l);
    var c, a := p.begun.core, p.feed.path[0];
    AbortedIffQuiet(c, None, STOPPED_REASON, turn.refusing, a.added, a.all, a.done, a.after);
    assert forall k :: !Publishing(c, None, turn.refusing, k);
    AbortClears(c, None, STOPPED_REASON, turn.refusing, a.added, a.all, a.after);
    assert a.after.tasks.Keys == {};
  }

  /** What one handed abort did. */
  lemma {:induction false} AbortActed(c: Core, r: Request, a: Attempt)
    requires TookRequest(c, r, a)
    ensures ParksLive(c) ==> (a.done <==> forall k :: !Publishing(c, Some(r.scope), r.busy, k))
    ensures if a.done then forall k :: k in a.after.tasks ==> a.after.tasks[k].scope != r.scope
            else exists b :: b in a.after.aborts && About(b.scope, r.scope)
  {
    if ParksLive(c) { AbortedIffQuiet(c, Some(r.scope), r.reason, r.busy, a.added, a.all, a.done, a.after); }
    DeferredIsRemembered(c.aborts, Some(r.scope), r.reason);
  }

  /**
   A signalled turn tries every abort it is handed, in order: each goes through, leaving no
   task of its scope, iff no publication of the scope is in flight by then, and is deferred otherwise.
   */
  lemma {:induction false} HandedAbortsAct(w: World, turn: Turn, l: Limits, p: Passage, outcome: Outcome, w': World, i: nat)
    requires Turned(w, turn, l, p, outcome, w') && turn.inputs.signalChanged && !p.begun.shared.stopped && i < |turn.aborts|
    ensures |p.feed.path| == |turn.aborts|
    ensures var c, a, scope := Before(p.begun.core, p.feed.path, i), p.feed.path[i], turn.aborts[i].scope;
            && (ParksLive(c) ==> (a.done <==> forall k :: !Publishing(c, Some(scope), turn.aborts[i].busy, k)))
            && if a.done then forall k :: k in a.after.tasks ==> a.after.tasks[k].scope != scope
               else exists b :: b in a.after.aborts && About(b.scope, scope)
  {
    AbortActed(Before(p.begun.core, p.feed.path, i), turn.aborts[i], p.feed.path[i]);
  }

  // ------------------------------------------------- receiving

  /**
   One receive pass: from half a window down it fills the window or empties the inbox; above
   that it takes nothing, or one start once 65,536 passes have left a backlog. The window is
   64 ready tasks, or the inbox capacity if that is smaller.
   */
  lemma {:induction false} ReceiveFillsWindow(w: World, stackless: set<Task>, l: Limits, drained: nat, added: seq<TaskKey>, w': World)
    requires Received(w, stackless, l, drained, added, w')
    ensures var ready := |w.core.queue.normal| + |w.core.queue.wakes| + |w.core.starts.local|;
            var before, after := w.core.starts.inbox, w'.core.starts.inbox;
            var window := if l.queue < 64 then l.queue else 64;
            var pressure := w.gate.pressure + if w.gate.backlog then 1 else 0;
            var took := |before| - |after|;
            && took >= 0 && after == before[took..]
            && (2 * ready <= window ==> after == [] || ready + took == window)
            && (2 * ready > window ==> took == if pressure >= 65_536 && before != [] then 1 else 0)
            && (pressure < 65_536 && took > 0 ==> ready + took <= window)
            && (w'.gate.backlog <==> after != [])
            && w'.gate.pressure == if took > 0 || after == [] then 0 else pressure
  {
  }

  /** A scope finishes if and only if no task and no start of it is left on the carrier; other scopes stay. */
  lemma {:induction false} ScopeFinishesIffIdle(w: World, scope: nat, l: Limits)
    ensures var c, scopes := w.core, Happened(w, Finish(scope), l).shared.scopes;
            && (scope in scopes <==>
                 && scope in w.shared.scopes
                 && ((exists k :: k in c.tasks && c.tasks[k].scope == scope)
                     || (exists t :: (t in c.starts.incoming || t in c.starts.inbox || t in c.starts.local) && t.scope == scope)
                     || (c.starts.pending.Some? && c.starts.pending.value.scope == scope)))
            && forall s :: s != scope ==> (s in scopes <==> s in w.shared.scopes)
  {
    var c := w.core;
    forall t
      ensures t in c.starts.incoming + c.starts.inbox + c.starts.local <==> t in c.starts.incoming || t in c.starts.inbox || t in c.starts.local
    {
    }
  }

  /** A scope opens while there is room for one more, and a start is published at the back of an open scope's inbox under the stated bounds. */
  lemma {:induction false} OpeningsAndStartsArrive(w: World, scope: nat, task: Task, l: Limits)
    ensures scope in Happened(w, Open(scope), l).shared.scopes <==> scope in w.shared.scopes || |w.shared.scopes| < l.scopes
    ensures Happened(w, Submit(task), l).core.starts.inbox ==
            if !w.shared.stopped && task.scope in w.shared.scopes && |w.core.starts.inbox| < l.queue && Population(w.core) < l.vthreads
            then w.core.starts.inbox + [task] else w.core.starts.inbox
  {
  }

  // ------------------------------------------------- progress and safety of every turn

  /**
   Every turn that neither stops nor faults mounts a task whose scope has no deferred or
   requested abort, unless all ready tasks are held back or the picked one was aborted.
   */
  lemma {:induction false} TurnsMountOrAreExcused(worlds: seq<World>, turns: seq<Turn>, l: Limits, passages: seq<Passage>, outcome: Outcome, j: nat)
    requires Driven(worlds, turns, l, passages, outcome) && j < |passages| && (j + 1 < |passages| || outcome.Driving?)
    ensures |worlds| == |passages| + 1
    ensures var p := passages[j];
            if p.tick.key.Some? then
              && Dispatches(p) == [p.tick.task] && p.tick.task.scope !in p.tick.inputs.requests
              && forall a :: a in worlds[j + 1].core.aborts ==> !About(a.scope, p.tick.task.scope)
            else
              Dispatches(p) == [] && (HeldUp(worlds[j + 1].core) || Condemned(p.tick.course.onward.chosen, p.tick.inputs))
  {
    EachTurn(worlds, turns, l, passages, outcome, j);
    TickMountsOrIsExcused(passages[j].tick);
  }

  // ------------------------------------------------- completions

  lemma {:induction false} EventsKeepBatch(w: World, events: seq<Outside>, l: Limits)
    ensures AllHappened(w, events, l).core.batch == w.core.batch
    decreases |events|
  {
    if events != [] { EventsKeepBatch(Happened(w, events[0], l), events[1..], l); }
  }

  lemma {:induction false} RequestKeepsCompleted(c: Core, r: Request, a: Attempt)
    requires TookRequest(c, r, a)
    ensures Completed(a.after.batch) == Completed(c.batch)
  {
    FlushKeepsCompleted(c.batch);
  }

  lemma {:induction false} SameAlong(c: Core, path: seq<Attempt>, i: nat)
    requires i <= |path|
    requires forall j {:trigger Before(c, path, j)} :: 0 <= j < |path| ==> Completed(path[j].after.batch) == Completed(Before(c, path, j).batch)
    ensures Completed(Before(c, path, i).batch) == Completed(c.batch)
  {
    if i > 0 {
      SameAlong(c, path, i - 1);
      assert Before(c, path, i).batch == path[i - 1].after.batch;
    }
  }

  lemma {:induction false} AbortsKeepCompleted(c: Core, aborts: seq<Request>, path: seq<Attempt>)
    requires AbortsTaken(c, aborts, path)
    ensures Completed(Reached(c, path).batch) == Completed(c.batch)
  {
    forall j | 0 <= j < |path|
      ensures Completed(path[j].after.batch) == Completed(Before(c, path, j).batch)
    {
      RequestKeepsCompleted(Before(c, path, j), aborts[j], path[j]);
    }
    SameAlong(c, path, |path|);
  }

  lemma {:induction false} FeedKeepsCompleted(w: World, turn: Turn, l: Limits, f: Feed, w': World)
    requires Fed(w, turn, l, f, w')
    ensures Completed(w'.core.batch) == Completed(w.core.batch)
  {
    FlushKeepsCompleted(w.core.batch);
    if turn.inputs.signalChanged && !w.shared.stopped { AbortsKeepCompleted(w.core, turn.aborts, f.path); }
  }

  /** The task a turn completes, if any. */
  function TurnCompletes(p: Passage): seq<Task> {
    if p.feed.stopped then [] else Completes(p.tick)
  }

  /** The tasks a run completes, in order. */
  function AllCompletes(passages: seq<Passage>): seq<Task> {
    if passages == [] then [] else AllCompletes(passages[..|passages| - 1]) + TurnCompletes(passages[|passages| - 1])
  }

  lemma {:induction false} TurnKeepsCompleted(w: World, turn: Turn, l: Limits, p: Passage, outcome: Outcome, w': World)
    requires Turned(w, turn, l, p, outcome, w')
    ensures Completed(w'.core.batch) == Completed(w.core.batch) + TurnCompletes(p)
  {
    EventsKeepBatch(w, turn.before, l);
    FeedKeepsCompleted(p.begun, turn, l, p.feed, p.fed);
    assert Completed(w.core.batch) + [] == Completed(w.core.batch);
    if !p.feed.stopped {
      EventsKeepBatch(p.fed, turn.during, l);
      TickCompletes(p.tick);
    }
  }

  /** Over a whole run the completions, published or pending, are exactly the completed tasks, in order. */
  lemma {:induction false} RunCompletes(worlds: seq<World>, turns: seq<Turn>, l: Limits, passages: seq<Passage>, outcome: Outcome)
    requires Driven(worlds, turns, l, passages, outcome)
    ensures |worlds| == |passages| + 1 && Completed(worlds[|passages|].core.batch) == AllCompletes(passages)
    decreases |passages|
  {
    if passages != [] {
      var n := |passages| - 1;
      RunCompletes(worlds[..n + 1], turns, l, passages[..n], Driving);
      TurnKeepsCompleted(worlds[n], turns[n], l, passages[n], outcome, worlds[n + 1]);
    }
  }
}
