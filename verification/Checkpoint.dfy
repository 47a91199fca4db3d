/**
 The epoch-gated cancellation check as atomic steps. A cancel raises flags one by one
 and then advances the epoch, all under the domain lock; a task's checkpoint reads its
 token's flag only after it has seen an epoch it has not looked at before.
 */
module Checkpoint {
  import opened Epochs
  import H = CancellationHistory

  datatype Decision = Continue | RuntimeStopped | Cancelled | CheckDeadline

  /** Who holds the domain lock. */
  datatype Canceller = Free | Raising(id: nat, left: set<nat>)

  /** Between checks, or between the epoch load and the flag read of one. */
  datatype Phase = Resting | Reading

  /** The shared domain: handle flags and the epoch that announces them. */
  datatype Domain = Domain(
    history: H.History,
    flags: set<nat>,
    /** The shared counter, and how far it has come without its wraps. */
    epoch: nat,
    total: nat,
    canceller: Canceller,
    /** The total that announced each token's cancellation. */
    announced: map<nat, nat>)

  /** A task's own policy. */
  datatype Context = Context(
    token: nat,
    /** The epoch last loaded by a check, and the total then; zero in a fresh context. */
    observed: nat,
    looked: nat,
    masked: nat,
    closing: bool,
    sticky: bool,
    deadline: bool,
    phase: Phase)

  /** What the check in progress, or the last one, knew at its start, and what it answered. */
  datatype Verdict = Verdict(
    /** Whether a covering cancel had returned. */
    due: bool,
    /** Whether the context was closing, and whether it was neither closing nor masked. */
    closing: bool,
    open: bool,
    /** Whether the cancel was unreported and the counter whole laps ahead. */
    lapped: bool,
    decision: Decision)

  const UNCHECKED := Verdict(false, false, false, false, Continue)

  datatype State = State(domain: Domain, context: Context, verdict: Verdict)

  datatype Event =
    | Insert(parents: set<nat>)
    | Cancel(id: nat)
    | Raise(n: nat)
    | Announce
    | Mask(depth: nat)
    | Close
    | Check
    | ReadFlag
    | Reset(token: nat, deadline: bool)

  /** The tokens a cancel covers: the token itself and its descendants. */
  ghost function Covered(h: H.History, id: nat): set<nat> {
    set b: nat | b < |h.parents| && (b == id || H.Ancestor(h, id, b))
  }

  ghost predicate Enabled(s: State, e: Event) {
    match e
    case Insert(parents) => s.domain.canceller.Free? && forall p :: p in parents ==> p < |s.domain.history.parents|
    case Cancel(id) => s.domain.canceller.Free? && id < |s.domain.history.parents|
    case Raise(n) => s.domain.canceller.Raising? && n in s.domain.canceller.left
    case Announce => s.domain.canceller.Raising? && s.domain.canceller.left == {}
    case Mask(_) => s.context.phase.Resting?
    case Close => s.context.phase.Resting?
    case Check => s.context.phase.Resting?
    case ReadFlag => s.context.phase.Reading?
    case Reset(token, _) => s.context.phase.Resting? && token < |s.domain.history.parents|
  }

  /** A token born under a cancelled parent is flagged, and announced, at birth. */
  ghost function Inserted(d: Domain, parents: set<nat>): Domain
    requires H.WellFormed(d.history) && forall p :: p in parents ==> p < |d.history.parents|
  {
    var h := H.Insert(d.history, parents);
    var id := |d.history.parents|;
    if H.Cancelled(h, id) then d.(history := h, flags := d.flags + {id}, announced := d.announced[id := d.total])
    else d.(history := h)
  }

  ghost function Announced(d: Domain): Domain
    requires H.WellFormed(d.history) && d.canceller.Raising?
  {
    d.(history := H.Cancel(d.history, d.canceller.id), epoch := NextEpoch(d.epoch), total := d.total + 1, canceller := Free,
       announced := map n | n in d.flags :: if n in d.announced then d.announced[n] else d.total + 1)
  }

  /** What follows a check that found no cancellation. */
  function Fallback(c: Context): Decision {
    if c.deadline then CheckDeadline else Continue
  }

  /** As many cancels as the counter has values, or a multiple, since the context last looked. */
  ghost predicate Lapped(s: State) {
    !s.context.sticky && s.domain.total > s.context.looked && WholeLaps(s.domain.total - s.context.looked)
  }

  /** A check up to its answer, or up to the flag read if the epoch is new. */
  ghost function Checked(s: State): State {
    var c := s.context;
    var v := Verdict(H.Cancelled(s.domain.history, c.token), c.closing, !c.closing && c.masked == 0, Lapped(s), Continue);
    if c.closing then s.(verdict := v.(decision := RuntimeStopped))
    else if c.masked != 0 then s.(verdict := v)
    else if c.sticky then s.(verdict := v.(decision := Cancelled))
    else if s.domain.epoch != c.observed then
      s.(verdict := v, context := c.(observed := s.domain.epoch, looked := s.domain.total, phase := Reading))
    else s.(verdict := v.(decision := Fallback(c)))
  }

  ghost function Read(s: State): State {
    if s.context.token in s.domain.flags then
      s.(context := s.context.(phase := Resting, sticky := true), verdict := s.verdict.(decision := Cancelled))
    else
      s.(context := s.context.(phase := Resting), verdict := s.verdict.(decision := Fallback(s.context)))
  }

  ghost function After(s: State, e: Event): State
    requires H.WellFormed(s.domain.history) && Enabled(s, e)
  {
    match e
    case Insert(parents) => s.(domain := Inserted(s.domain, parents))
    case Cancel(id) => s.(domain := s.domain.(canceller := Raising(id, Covered(s.domain.history, id) - s.domain.flags)))
    case Raise(n) =>
      s.(domain := s.domain.(flags := s.domain.flags + {n},
                             canceller := Raising(s.domain.canceller.id, s.domain.canceller.left - {n})))
    case Announce => s.(domain := Announced(s.domain))
    case Mask(depth) => s.(context := s.context.(masked := depth))
    case Close => s.(context := s.context.(closing := true))
    case Check => Checked(s)
    case ReadFlag => Read(s)
    case Reset(token, deadline) => s.(context := Context(token, 0, 0, 0, false, false, deadline, Resting), verdict := UNCHECKED)
  }

  // ------------------------------------------------- the invariant

  /** Flags are the history's, plus those a cancel in progress has already raised. */
  ghost predicate Flagged(d: Domain) {
    && H.WellFormed(d.history)
    && (forall n :: n in d.flags <==> H.Cancelled(d.history, n) || Early(d, n))
    && (d.canceller.Raising? ==> d.canceller.id < |d.history.parents| && d.canceller.left <= Covered(d.history, d.canceller.id))
    && (d.canceller.Raising? ==> forall n :: n in d.canceller.left ==> n !in d.flags)
  }

  /** Raised by the cancel that holds the lock, not announced yet. */
  ghost predicate Early(d: Domain, n: nat) {
    d.canceller.Raising? && n in Covered(d.history, d.canceller.id) && n !in d.canceller.left
  }

  ghost predicate Dated(d: Domain) {
    && d.total >= 1 && d.epoch == Shown(d.total)
    && (forall n :: n in d.announced <==> H.Cancelled(d.history, n))
    && (forall n :: n in d.announced ==> 1 <= d.announced[n] <= d.total)
  }

  /** Having looked at the announcing epoch means having seen the flag. */
  ghost predicate Looked(d: Domain, c: Context) {
    && c.token < |d.history.parents|
    && c.looked <= d.total && c.observed == Shown(c.looked)
    && (c.sticky ==> c.token in d.flags)
    && (c.phase.Resting? && c.token in d.announced && c.looked >= d.announced[c.token] ==> c.sticky)
  }

  /** A check between its epoch load and its flag read. */
  ghost predicate InProgress(s: State) {
    s.context.phase.Reading? ==>
      && !s.context.closing && s.context.masked == 0 && !s.context.sticky
      && s.verdict.open && !s.verdict.closing && !s.verdict.lapped && (s.verdict.due ==> s.context.token in s.domain.flags)
  }

  /** The last finished check against a direct read of the flag. */
  ghost predicate Refined(s: State) {
    s.context.phase.Resting? ==>
      && (s.verdict.decision.Cancelled? ==> s.context.token in s.domain.flags)
      && (s.verdict.closing ==> !s.verdict.open && s.verdict.decision.RuntimeStopped?)
      && (!s.verdict.closing && !s.verdict.open ==> s.verdict.decision.Continue?)
      && (s.verdict.open && s.verdict.due ==> (s.verdict.decision.Cancelled? <==> !s.verdict.lapped))
      && (s.verdict.open && !s.verdict.decision.Cancelled? ==>
           s.verdict.decision == if s.context.deadline then CheckDeadline else Continue)
  }

  ghost predicate Invariant(s: State) {
    Flagged(s.domain) && Dated(s.domain) && Looked(s.domain, s.context) && InProgress(s) && Refined(s)
  }

  // ------------------------------------------------- what each step keeps

  lemma {:induction false} InsertedFlags(h: H.History, parents: set<nat>)
    requires H.WellFormed(h) && forall p :: p in parents ==> p < |h.parents|
    ensures H.WellFormed(H.Insert(h, parents))
    ensures forall n: nat :: n != |h.parents| ==> (H.Cancelled(H.Insert(h, parents), n) <==> H.Cancelled(h, n))
  {
  }

  lemma {:induction false} InsertKeepsDomain(d: Domain, parents: set<nat>)
    requires Flagged(d) && Dated(d) && d.canceller.Free? && forall p :: p in parents ==> p < |d.history.parents|
    ensures Flagged(Inserted(d, parents)) && Dated(Inserted(d, parents))
  {
    var t := Inserted(d, parents);
    InsertedFlags(d.history, parents);
    assert !H.Cancelled(d.history, |d.history.parents|);
    assert forall n :: !Early(d, n) && !Early(t, n);
  }

  lemma {:induction false} InsertKeeps(s: State, parents: set<nat>)
    requires Invariant(s) && Enabled(s, Insert(parents))
    ensures Invariant(After(s, Insert(parents)))
  {
    InsertKeepsDomain(s.domain, parents);
    assert s.context.token != |s.domain.history.parents|;
  }

  lemma {:induction false} AnnounceKeepsDomain(d: Domain)
    requires Flagged(d) && Dated(d) && d.canceller.Raising? && d.canceller.left == {}
    ensures Flagged(Announced(d)) && Dated(Announced(d)) && Announced(d).flags == d.flags
  {
    ShownAdvances(d.total);
    forall n: nat
      ensures H.Cancelled(Announced(d).history, n) <==> H.Cancelled(d.history, n) || n in Covered(d.history, d.canceller.id)
    {
    }
  }

  lemma {:induction false} AnnounceKeeps(s: State)
    requires Invariant(s) && Enabled(s, Announce)
    ensures Invariant(After(s, Announce))
  {
    AnnounceKeepsDomain(s.domain);
  }

  /** A cancel marks only what it covers, and starts with nothing of its own raised. */
  lemma {:induction false} CancelKeeps(s: State, e: Event)
    requires Invariant(s) && Enabled(s, e) && (e.Cancel? || e.Raise?)
    ensures Invariant(After(s, e))
  {
  }

  /** A due check whose context has not looked since either finds a new epoch or is whole laps behind. */
  lemma {:induction false} CheckKeeps(s: State)
    requires Invariant(s) && Enabled(s, Check)
    ensures Invariant(After(s, Check))
  {
    var d, c := s.domain, s.context;
    assert c.token in d.announced <==> H.Cancelled(d.history, c.token);
    assert H.Cancelled(d.history, c.token) ==> c.token in d.flags;
    if c.looked < d.total { ShownAlike(c.looked, d.total); }
  }

  lemma {:induction false} ContextKeeps(s: State, e: Event)
    requires Invariant(s) && Enabled(s, e) && (e.Mask? || e.Close? || e.ReadFlag? || e.Reset?)
    ensures Invariant(After(s, e))
  {
    assert s.context.token in s.domain.announced <==> H.Cancelled(s.domain.history, s.context.token);
  }

  lemma {:induction false} InvariantKept(s: State, e: Event)
    requires Invariant(s) && Enabled(s, e)
    ensures Invariant(After(s, e))
  {
    match e
    case Insert(parents) => InsertKeeps(s, parents);
    case Announce => AnnounceKeeps(s);
    case Cancel(_) => CancelKeeps(s, e);
    case Raise(_) => CancelKeeps(s, e);
    case Check => CheckKeeps(s);
    case Mask(_) => ContextKeeps(s, e);
    case Close => ContextKeeps(s, e);
    case ReadFlag => ContextKeeps(s, e);
    case Reset(_, _) => ContextKeeps(s, e);
  }

  // ------------------------------------------------- whole runs

  /** A fresh domain holds one root token, and a fresh context watches it. */
  ghost function Initial(deadline: bool): State {
    State(Domain(H.Insert(H.NO_HISTORY, {}), {}, 1, 1, Free, map[]), Context(0, 0, 0, 0, false, false, deadline, Resting), UNCHECKED)
  }

  lemma {:induction false} InitiallyInvariant(deadline: bool)
    ensures Invariant(Initial(deadline))
  {
    var d := Initial(deadline).domain;
    assert forall n :: !H.Cancelled(d.history, n) && !Early(d, n);
  }

  /** States linked by enabled steps, from a fresh domain. */
  ghost predicate Run(states: seq<State>, events: seq<Event>) {
    && |states| == |events| + 1 && (states[0] == Initial(true) || states[0] == Initial(false))
    && forall i :: 0 <= i < |events| ==> Follows(states[i], events[i], states[i + 1])
  }

  ghost predicate Follows(s: State, e: Event, t: State) {
    H.WellFormed(s.domain.history) && Enabled(s, e) && t == After(s, e)
  }

  lemma {:induction false} InvariantAlways(states: seq<State>, events: seq<Event>, n: nat)
    requires Run(states, events) && n <= |events|
    ensures Invariant(states[n])
  {
    if n == 0 {
      InitiallyInvariant(true);
      InitiallyInvariant(false);
    } else {
      InvariantAlways(states, events, n - 1);
      assert Follows(states[n - 1], events[n - 1], states[n - 1 + 1]);
      InvariantKept(states[n - 1], events[n - 1]);
    }
  }

  /**
   The gated check against a direct flag read, in every reachable state: it reports
   cancellation only for a raised flag, answers that the runtime stopped exactly while
   closing, and continues while masked. Any other check begun after a cancel of the token or
   an ancestor returned reports it, except exactly when the context has not reported it
   before and the cancels since it last looked fill whole laps of the counter; one that
   reports no cancellation asks for the deadline exactly if there is one.
   */
  lemma {:induction false} GatedCheckRefinesFlag(states: seq<State>, events: seq<Event>, n: nat)
    requires Run(states, events) && n <= |events| && states[n].context.phase.Resting?
    ensures var v := states[n].verdict;
            && (v.decision.Cancelled? ==> states[n].context.token in states[n].domain.flags)
            && (v.decision.RuntimeStopped? <==> v.closing)
            && (!v.closing && !v.open ==> v.decision.Continue?)
            && (v.open && v.due ==> (v.decision.Cancelled? <==> !v.lapped))
            && (v.open && !v.decision.Cancelled? ==> v.decision == if states[n].context.deadline then CheckDeadline else Continue)
  {
    InvariantAlways(states, events, n);
  }

  /** A verdict describes the context and the history at the start of its own check. */
  lemma {:induction false} VerdictIsAboutTheStart(states: seq<State>, events: seq<Event>, n: nat)
    requires Run(states, events) && n < |events| && events[n].Check?
    ensures var c, d, v := states[n].context, states[n].domain, states[n + 1].verdict;
            && (v.closing <==> c.closing) && (v.open <==> !c.closing && c.masked == 0)
            && (v.due <==> c.token in d.announced)
            && (v.lapped <==> !c.sticky && d.total > c.looked && Shown(d.total) == Shown(c.looked))
    ensures n + 1 < |events| && events[n + 1].ReadFlag? ==>
              states[n + 2].verdict == states[n + 1].verdict.(decision := states[n + 2].verdict.decision)
  {
    var s := states[n];
    assert Follows(s, events[n], states[n + 1]);
    InvariantAlways(states, events, n);
    if s.context.looked < s.domain.total { ShownAlike(s.context.looked, s.domain.total); }
    if n + 1 < |events| { assert Follows(states[n + 1], events[n + 1], states[n + 1 + 1]); }
  }

  /** With fewer cancels than the counter has values since the context last looked, none is missed. */
  lemma {:induction false} NothingMissedWithinALap(states: seq<State>, events: seq<Event>, n: nat)
    requires Run(states, events) && n < |events| && events[n].Check?
    requires states[n].domain.total - states[n].context.looked < EPOCHS
    ensures !states[n + 1].verdict.lapped
    ensures var v := states[n + 1].verdict;
            states[n + 1].context.phase.Resting? && v.open && v.due ==> v.decision.Cancelled?
  {
    assert Follows(states[n], events[n], states[n + 1]);
    InvariantAlways(states, events, n + 1);
  }

  // ------------------------------------------------- a missed cancel

  /** The root cancelled `n` times while a context that watches it has not looked yet. */
  ghost function CancelledTimes(n: nat): State {
    var s := Initial(false);
    if n == 0 then s
    else s.(domain := Domain(H.Cancel(s.domain.history, 0), {0}, Shown(1 + n), 1 + n, Free, map[0 := 2]))
  }

  /** Some run of the system ends in `s`. */
  ghost predicate Reachable(s: State) {
    exists states: seq<State>, events: seq<Event> :: Run(states, events) && states[|events|] == s
  }

  lemma {:induction false} ReachesNext(s: State, e: Event)
    requires Reachable(s) && H.WellFormed(s.domain.history) && Enabled(s, e)
    ensures Reachable(After(s, e))
  {
    var states: seq<State>, events: seq<Event> :| Run(states, events) && states[|events|] == s;
    var states', events' := states + [After(s, e)], events + [e];
    forall i | 0 <= i < |events'|
      ensures Follows(states'[i], events'[i], states'[i + 1])
    {
      if i < |events| { assert Follows(states[i], events[i], states[i + 1]); }
    }
    assert Run(states', events') && states'[|events'|] == After(s, e);
  }

  /** The first cancel of the root, from lock to announcement. */
  lemma {:induction false} FirstCancel()
    requires Reachable(CancelledTimes(0))
    ensures Reachable(CancelledTimes(1))
  {
    var s := CancelledTimes(0);
    ReachesNext(s, Cancel(0));
    var t := After(s, Cancel(0));
    assert Covered(s.domain.history, 0) == {0};
    ReachesNext(t, Raise(0));
    var u := After(t, Raise(0));
    ReachesNext(u, Announce);
    assert After(u, Announce).domain.announced == map[0 := 2];
    assert After(u, Announce) == CancelledTimes(1);
  }

  /** A further cancel finds every flag raised and only advances the epoch. */
  lemma {:induction false} AnotherCancel(n: nat)
    requires n > 0 && Reachable(CancelledTimes(n))
    ensures Reachable(CancelledTimes(n + 1))
  {
    var s := CancelledTimes(n);
    ReachesNext(s, Cancel(0));
    var t := After(s, Cancel(0));
    assert Covered(s.domain.history, 0) == {0};
    ReachesNext(t, Announce);
    ShownAdvances(1 + n);
    assert After(t, Announce).domain.announced == map[0 := 2];
    assert After(t, Announce).domain.history == s.domain.history;
    assert After(t, Announce) == CancelledTimes(n + 1);
  }

  lemma {:induction false} CancelsReach(n: nat)
    ensures Reachable(CancelledTimes(n))
  {
    if n == 0 {
      assert Run([Initial(false)], []) && [Initial(false)][0] == CancelledTimes(0);
    } else {
      CancelsReach(n - 1);
      if n == 1 { FirstCancel(); } else { AnotherCancel(n - 1); }
    }
  }

  /**
   The exception is real: after 2^64 - 1 cancels of the root the counter shows zero, and
   the first check of a context that watches the root continues.
   */
  lemma {:induction false} WrappedEpochHidesCancel()
    ensures var s := CancelledTimes(EPOCHS - 1);
            && Reachable(s) && s.domain.epoch == 0 && Enabled(s, Check)
            && var v := After(s, Check).verdict; v.open && v.due && v.decision.Continue?
  {
    CancelsReach(EPOCHS - 1);
    assert WholeLaps(EPOCHS);
  }
}
