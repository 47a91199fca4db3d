/**
 Exclusive cells, guards and linear ownership as atomic steps of any number of threads.
 A cell is named by its identity, which is never zero; a capability is a live guard, an
 `Ownership` value in some thread's hands, one lent to a call in progress, or one in a slot.
 */
module Exclusive {

  /** The state word: the LOCKED and HAS_WAITERS bits. */
  datatype Word = Word(locked: bool, waiters: bool)

  const UNLOCKED := Word(false, false)

  /** Calls that touch the word more than once. */
  datatype Call =
    | Queueing(cell: nat, observed: Word)
    | SettingWaiters(cell: nat, value: bool)
    | Unlocking(cell: nat)

  /** The cells' words, and the calls in progress by thread. */
  datatype Cells = Cells(words: map<nat, Word>, calls: map<nat, Call>)

  /**
   Live guards, ownerships in threads' hands, and ownerships in slots; zero is an empty slot.
   `lost` counts the ownerships that were forgotten: their cells stay locked for good.
   */
  datatype Hands = Hands(guards: multiset<nat>, owned: multiset<nat>, slots: map<nat, nat>, lost: multiset<nat>)

  datatype State = State(cells: Cells, hands: Hands)

  datatype Event =
    | NewCell(cell: nat)
    | NewSlot(slot: nat)
    | TryLock(cell: nat)
    | StartQueue(thread: nat, cell: nat)
    | QueueStep(thread: nat, spurious: bool)
    | Claim(cell: nat, identity: nat)
    | StartSetWaiters(thread: nat, cell: nat, identity: nat, value: bool)
    | StoreWaiters(thread: nat)
    | StartUnlock(thread: nat, cell: nat, identity: nat)
    | StoreUnlocked(thread: nat)
    | TryRelease(cell: nat)
    | DropGuard(cell: nat)
    | ForgetOwnership(identity: nat)
    | Publish(slot: nat, identity: nat)
    | Take(slot: nat)

  const INITIAL := State(Cells(map[], map[]), Hands(multiset{}, multiset{}, map[], multiset{}))

  ghost predicate Enabled(s: State, e: Event) {
    match e
    case NewCell(cell) => cell != 0 && cell !in s.cells.words
    case NewSlot(slot) => slot !in s.hands.slots
    case TryLock(cell) => cell in s.cells.words
    case StartQueue(thread, cell) => cell in s.cells.words && thread !in s.cells.calls
    case QueueStep(thread, _) => thread in s.cells.calls && s.cells.calls[thread].Queueing?
    case Claim(cell, identity) => cell in s.cells.words && identity in s.hands.owned
    case StartSetWaiters(thread, cell, identity, _) =>
      cell in s.cells.words && identity in s.hands.owned && thread !in s.cells.calls
    case StoreWaiters(thread) => thread in s.cells.calls && s.cells.calls[thread].SettingWaiters?
    case StartUnlock(thread, cell, identity) => cell in s.cells.words && identity in s.hands.owned && thread !in s.cells.calls
    case StoreUnlocked(thread) => thread in s.cells.calls && s.cells.calls[thread].Unlocking?
    case TryRelease(cell) => cell in s.hands.guards
    case DropGuard(cell) => cell in s.hands.guards
    case ForgetOwnership(identity) => identity in s.hands.owned
    case Publish(slot, identity) => slot in s.hands.slots && identity in s.hands.owned
    case Take(slot) => slot in s.hands.slots
  }

  ghost function WordOf(s: State, cell: nat): Word {
    if cell in s.cells.words then s.cells.words[cell] else UNLOCKED
  }

  function Stored(c: Cells, cell: nat, word: Word): Cells {
    c.(words := c.words[cell := word])
  }

  function Calling(c: Cells, thread: nat, call: Call): Cells {
    c.(calls := c.calls[thread := call])
  }

  function Ended(c: Cells, thread: nat): Cells {
    c.(calls := c.calls - {thread})
  }

  function Guarded(h: Hands, cell: nat): Hands {
    h.(guards := h.guards + multiset{cell})
  }

  function Unguarded(h: Hands, cell: nat): Hands {
    h.(guards := h.guards - multiset{cell})
  }

  function Owning(h: Hands, identity: nat): Hands {
    h.(owned := h.owned + multiset{identity})
  }

  function Disowned(h: Hands, identity: nat): Hands {
    h.(owned := h.owned - multiset{identity})
  }

  /** One round of the queueing loop, ending in a guard, in the queue, or with a fresh observation. */
  ghost function Queued(s: State, thread: nat, call: Call, spurious: bool): State
    requires call.Queueing?
  {
    var c, word := s.cells, WordOf(s, call.cell);
    var failed := spurious || word != call.observed;
    if call.observed.waiters then State(Ended(c, thread), s.hands)
    else if failed then State(Calling(c, thread, call.(observed := word)), s.hands)
    else if call.observed == UNLOCKED then State(Stored(Ended(c, thread), call.cell, Word(true, false)), Guarded(s.hands, call.cell))
    else State(Stored(Ended(c, thread), call.cell, word.(waiters := true)), s.hands)
  }

  /** Whether an ownership matches a locked cell. */
  ghost predicate Fits(s: State, cell: nat, identity: nat) {
    identity == cell && WordOf(s, cell).locked
  }

  ghost function After(s: State, e: Event): State {
    var c, h := s.cells, s.hands;
    match e
    case NewCell(cell) => State(Stored(c, cell, UNLOCKED), h)
    case NewSlot(slot) => State(c, h.(slots := h.slots[slot := 0]))
    case TryLock(cell) =>
      if WordOf(s, cell) == UNLOCKED then State(Stored(c, cell, Word(true, false)), Guarded(h, cell)) else s
    case StartQueue(thread, cell) => State(Calling(c, thread, Queueing(cell, WordOf(s, cell))), h)
    case QueueStep(thread, spurious) =>
      if thread in c.calls && c.calls[thread].Queueing? then Queued(s, thread, c.calls[thread], spurious) else s
    case Claim(cell, identity) =>
      if Fits(s, cell, identity) then State(c, Guarded(Disowned(h, identity), cell)) else s
    case StartSetWaiters(thread, cell, identity, value) =>
      if Fits(s, cell, identity) then State(Calling(c, thread, SettingWaiters(cell, value)), Disowned(h, identity)) else s
    case StoreWaiters(thread) =>
      if thread in c.calls then
        var call := c.calls[thread];
        State(Stored(Ended(c, thread), call.cell, Word(true, call.SettingWaiters? && call.value)), Owning(h, call.cell))
      else s
    case StartUnlock(thread, cell, identity) =>
      if Fits(s, cell, identity) then State(Calling(c, thread, Unlocking(cell)), Disowned(h, identity)) else s
    case StoreUnlocked(thread) =>
      if thread in c.calls then State(Stored(Ended(c, thread), c.calls[thread].cell, UNLOCKED), h) else s
    case TryRelease(cell) =>
      if WordOf(s, cell) == Word(true, false) then State(Stored(c, cell, UNLOCKED), Unguarded(h, cell))
      else State(c, Owning(Unguarded(h, cell), cell))
    case DropGuard(cell) => State(Stored(c, cell, UNLOCKED), Unguarded(h, cell))
    case ForgetOwnership(identity) => State(c, Disowned(h, identity).(lost := h.lost + multiset{identity}))
    case Publish(slot, identity) =>
      if slot in h.slots && h.slots[slot] == 0 then State(c, Disowned(h, identity).(slots := h.slots[slot := identity])) else s
    case Take(slot) =>
      if slot in h.slots && h.slots[slot] != 0 then State(c, Owning(h, h.slots[slot]).(slots := h.slots[slot := 0])) else s
  }

  // ------------------------------------------------- the invariant

  ghost function InSlots(slots: map<nat, nat>, cell: nat): set<nat> {
    set k | k in slots && slots[k] == cell
  }

  predicate Lends(call: Call, cell: nat) {
    (call.SettingWaiters? || call.Unlocking?) && call.cell == cell
  }

  ghost function Lent(calls: map<nat, Call>, cell: nat): set<nat> {
    set t | t in calls && Lends(calls[t], cell)
  }

  /** Every capability for a cell that exists anywhere. */
  ghost function Capabilities(s: State, cell: nat): nat {
    s.hands.guards[cell] + s.hands.owned[cell] + |Lent(s.cells.calls, cell)| + |InSlots(s.hands.slots, cell)|
  }

  /** Exactly one capability per locked cell, counting forgotten ones, and none while its word is unlocked. */
  ghost predicate Linear(s: State) {
    forall cell {:trigger Capabilities(s, cell)} :: cell != 0 ==>
      Capabilities(s, cell) + s.hands.lost[cell] == if WordOf(s, cell).locked then 1 else 0
  }

  ghost predicate Sane(w: Word) {
    w.waiters ==> w.locked
  }

  ghost predicate WordsSane(words: map<nat, Word>) {
    forall cell :: cell in words ==> cell != 0 && Sane(words[cell])
  }

  ghost predicate CallSane(words: map<nat, Word>, call: Call) {
    call.cell in words && (call.Queueing? ==> Sane(call.observed))
  }

  ghost predicate CallsSane(words: map<nat, Word>, calls: map<nat, Call>) {
    forall t :: t in calls ==> CallSane(words, calls[t])
  }

  ghost predicate NoZero(h: Hands) {
    h.guards[0] == 0 && h.owned[0] == 0
  }

  ghost predicate Wellformed(s: State) {
    WordsSane(s.cells.words) && CallsSane(s.cells.words, s.cells.calls) && NoZero(s.hands)
  }

  ghost predicate Invariant(s: State) {
    Linear(s) && Wellformed(s)
  }

  /** A capability in anyone's hands means the cell is locked and known. */
  lemma {:induction false} CapabilityMeansLocked(s: State, cell: nat)
    requires Invariant(s) && cell != 0
    requires cell in s.hands.guards || cell in s.hands.owned || Lent(s.cells.calls, cell) != {} || InSlots(s.hands.slots, cell) != {}
    ensures cell in s.cells.words && s.cells.words[cell].locked && Capabilities(s, cell) == 1 && s.hands.lost[cell] == 0
  {
    assert Capabilities(s, cell) >= 1;
  }

  lemma {:induction false} LentChanges(calls: map<nat, Call>, t: nat, call: Call, cell: nat)
    ensures t !in calls && Lends(call, cell) ==> |Lent(calls[t := call], cell)| == |Lent(calls, cell)| + 1
    ensures !Lends(call, cell) && (t !in calls || !Lends(calls[t], cell)) ==> |Lent(calls[t := call], cell)| == |Lent(calls, cell)|
    ensures t in calls && Lends(calls[t], cell) ==> |Lent(calls - {t}, cell)| + 1 == |Lent(calls, cell)|
    ensures t in calls && !Lends(calls[t], cell) ==> |Lent(calls - {t}, cell)| == |Lent(calls, cell)|
  {
    if t !in calls && Lends(call, cell) { assert Lent(calls[t := call], cell) == Lent(calls, cell) + {t}; }
    if !Lends(call, cell) && (t !in calls || !Lends(calls[t], cell)) { assert Lent(calls[t := call], cell) == Lent(calls, cell); }
    if t in calls && Lends(calls[t], cell) { assert Lent(calls - {t}, cell) == Lent(calls, cell) - {t}; }
    if t in calls && !Lends(calls[t], cell) { assert Lent(calls - {t}, cell) == Lent(calls, cell); }
  }

  lemma {:induction false} SlotChanges(slots: map<nat, nat>, k: nat, identity: nat, cell: nat)
    requires k !in slots || slots[k] != identity
    ensures |InSlots(slots[k := identity], cell)| ==
            |InSlots(slots, cell)| + (if cell == identity then 1 else 0) - (if k in slots && slots[k] == cell then 1 else 0)
  {
    var before, after := InSlots(slots, cell), InSlots(slots[k := identity], cell);
    if cell == identity {
      assert after == before + {k};
    } else if k in slots && slots[k] == cell {
      assert after == before - {k};
    } else {
      assert after == before;
    }
  }

  // ------------------------------------------------- what each step keeps

  ghost predicate Balanced(s: State, cell: nat) {
    Capabilities(s, cell) + s.hands.lost[cell] == if WordOf(s, cell).locked then 1 else 0
  }

  lemma {:induction false} LockingKeeps(s: State, e: Event, cell: nat)
    requires Invariant(s) && Enabled(s, e) && cell != 0 && (e.NewCell? || e.TryLock? || e.StartQueue?)
    ensures Balanced(After(s, e), cell)
  {
    assert Balanced(s, cell) by { assert Capabilities(s, cell) >= 0; }
    if e.StartQueue? { LentChanges(s.cells.calls, e.thread, Queueing(e.cell, WordOf(s, e.cell)), cell); }
  }

  lemma {:induction false} QueueingKeeps(s: State, e: Event, cell: nat)
    requires Invariant(s) && Enabled(s, e) && cell != 0 && e.QueueStep?
    ensures Balanced(After(s, e), cell)
  {
    assert Balanced(s, cell) by { assert Capabilities(s, cell) >= 0; }
    var call := s.cells.calls[e.thread];
    LentChanges(s.cells.calls, e.thread, call.(observed := WordOf(s, call.cell)), cell);
  }

  lemma {:induction false} LendingKeeps(s: State, e: Event, cell: nat)
    requires Invariant(s) && Enabled(s, e) && cell != 0 && (e.Claim? || e.StartSetWaiters? || e.StartUnlock?)
    ensures Balanced(After(s, e), cell)
  {
    assert Balanced(s, cell) by { assert Capabilities(s, cell) >= 0; }
    match e
    case Claim(_, _) =>
    case StartSetWaiters(t, c, _, value) => LentChanges(s.cells.calls, t, SettingWaiters(c, value), cell);
    case StartUnlock(t, c, _) => LentChanges(s.cells.calls, t, Unlocking(c), cell);
  }

  /** A call that stores into the word holds the cell's only capability. */
  lemma {:induction false} StoringKeeps(s: State, e: Event, cell: nat)
    requires Invariant(s) && Enabled(s, e) && cell != 0 && (e.StoreWaiters? || e.StoreUnlocked?)
    ensures Balanced(After(s, e), cell)
  {
    assert Balanced(s, cell) by { assert Capabilities(s, cell) >= 0; }
    var call := s.cells.calls[e.thread];
    LentChanges(s.cells.calls, e.thread, call, cell);
    assert e.thread in Lent(s.cells.calls, call.cell);
    CapabilityMeansLocked(s, call.cell);
  }

  lemma {:induction false} ReleasingKeeps(s: State, e: Event, cell: nat)
    requires Invariant(s) && Enabled(s, e) && cell != 0 && (e.TryRelease? || e.DropGuard?)
    ensures Balanced(After(s, e), cell)
  {
    assert Balanced(s, cell) by { assert Capabilities(s, cell) >= 0; }
    CapabilityMeansLocked(s, e.cell);
  }

  lemma {:induction false} ForgettingKeeps(s: State, e: Event, cell: nat)
    requires Invariant(s) && Enabled(s, e) && cell != 0 && e.ForgetOwnership?
    ensures Balanced(After(s, e), cell)
  {
    assert Balanced(s, cell) by { assert Capabilities(s, cell) >= 0; }
  }

  lemma {:induction false} SlotsKeep(s: State, e: Event, cell: nat)
    requires Invariant(s) && Enabled(s, e) && cell != 0 && (e.NewSlot? || e.Publish? || e.Take?)
    ensures Balanced(After(s, e), cell)
  {
    assert Balanced(s, cell) by { assert Capabilities(s, cell) >= 0; }
    match e
    case NewSlot(k) => SlotChanges(s.hands.slots, k, 0, cell);
    case Publish(k, identity) => if s.hands.slots[k] == 0 { SlotChanges(s.hands.slots, k, identity, cell); }
    case Take(k) => if s.hands.slots[k] != 0 { SlotChanges(s.hands.slots, k, 0, cell); }
  }

  lemma {:induction false} LinearKept(s: State, e: Event)
    requires Invariant(s) && Enabled(s, e)
    ensures Linear(After(s, e))
  {
    var t := After(s, e);
    forall cell: nat | cell != 0
      ensures Capabilities(t, cell) + t.hands.lost[cell] == if WordOf(t, cell).locked then 1 else 0
    {
      match e
      case NewCell(_) => LockingKeeps(s, e, cell);
      case TryLock(_) => LockingKeeps(s, e, cell);
      case StartQueue(_, _) => LockingKeeps(s, e, cell);
      case QueueStep(_, _) => QueueingKeeps(s, e, cell);
      case Claim(_, _) => LendingKeeps(s, e, cell);
      case StartSetWaiters(_, _, _, _) => LendingKeeps(s, e, cell);
      case StartUnlock(_, _, _) => LendingKeeps(s, e, cell);
      case StoreWaiters(_) => StoringKeeps(s, e, cell);
      case StoreUnlocked(_) => StoringKeeps(s, e, cell);
      case TryRelease(_) => ReleasingKeeps(s, e, cell);
      case DropGuard(_) => ReleasingKeeps(s, e, cell);
      case ForgetOwnership(_) => ForgettingKeeps(s, e, cell);
      case _ => SlotsKeep(s, e, cell);
    }
  }

  /** Each step leaves a word alone or stores a sane one into a known cell. */
  lemma {:induction false} WordKept(s: State, e: Event, cell: nat)
    requires Wellformed(s) && Enabled(s, e) && (e.TryRelease? || e.DropGuard? ==> e.cell in s.cells.words)
    ensures cell in s.cells.words ==> cell in After(s, e).cells.words
    ensures cell in After(s, e).cells.words && cell !in s.cells.words ==> e.NewCell? && cell == e.cell
    ensures cell in After(s, e).cells.words ==> Sane(After(s, e).cells.words[cell])
  {
  }

  lemma {:induction false} WordsKept(s: State, e: Event)
    requires Invariant(s) && Enabled(s, e)
    ensures WordsSane(After(s, e).cells.words) && s.cells.words.Keys <= After(s, e).cells.words.Keys
  {
    if e.TryRelease? || e.DropGuard? { CapabilityMeansLocked(s, e.cell); }
    forall cell: nat
      ensures cell in s.cells.words ==> cell in After(s, e).cells.words
      ensures cell in After(s, e).cells.words ==> cell != 0 && Sane(After(s, e).cells.words[cell])
    {
      WordKept(s, e, cell);
    }
  }

  /** A step adds, replaces or drops at most one call. */
  lemma {:induction false} CallKept(s: State, e: Event, t: nat)
    requires Wellformed(s) && Enabled(s, e) && t in After(s, e).cells.calls
    ensures CallSane(s.cells.words, After(s, e).cells.calls[t])
  {
    if t in s.cells.calls {
      assert CallSane(s.cells.words, s.cells.calls[t]);
    }
  }

  lemma {:induction false} CallsKept(s: State, e: Event)
    requires Invariant(s) && Enabled(s, e)
    ensures CallsSane(After(s, e).cells.words, After(s, e).cells.calls)
  {
    WordsKept(s, e);
    forall t | t in After(s, e).cells.calls
      ensures CallSane(After(s, e).cells.words, After(s, e).cells.calls[t])
    {
      CallKept(s, e, t);
    }
  }

  /** Zero is never a capability. */
  lemma {:induction false} ZeroKept(s: State, e: Event)
    requires Wellformed(s) && Enabled(s, e)
    ensures NoZero(After(s, e).hands)
  {
  }

  lemma {:induction false} InvariantKept(s: State, e: Event)
    requires Invariant(s) && Enabled(s, e)
    ensures Invariant(After(s, e))
  {
    LinearKept(s, e);
    WordsKept(s, e);
    CallsKept(s, e);
    ZeroKept(s, e);
  }

  /** The assertions of the source: a guard's cell is locked, and a marked word has an owner. */
  lemma {:induction false} AssertionsHold(s: State, e: Event)
    requires Invariant(s) && Enabled(s, e)
    ensures e.TryRelease? || e.DropGuard? ==> WordOf(s, e.cell).locked
    ensures e.QueueStep? && s.cells.calls[e.thread].observed != UNLOCKED ==> s.cells.calls[e.thread].observed.locked
    ensures e.StoreWaiters? || e.StoreUnlocked? ==> WordOf(s, s.cells.calls[e.thread].cell).locked
  {
    if e.TryRelease? || e.DropGuard? { CapabilityMeansLocked(s, e.cell); }
    if e.StoreWaiters? || e.StoreUnlocked? {
      assert e.thread in Lent(s.cells.calls, s.cells.calls[e.thread].cell);
      CapabilityMeansLocked(s, s.cells.calls[e.thread].cell);
    }
  }

  // ------------------------------------------------- whole runs

  ghost predicate Possible(s: State, run: seq<Event>)
    decreases |run|
  {
    run == [] || (Enabled(s, run[0]) && Possible(After(s, run[0]), run[1..]))
  }

  ghost function Final(s: State, run: seq<Event>): State
    decreases |run|
  {
    if run == [] then s else Final(After(s, run[0]), run[1..])
  }

  lemma {:induction false} InvariantAlways(s: State, run: seq<Event>)
    requires Invariant(s) && Possible(s, run)
    ensures Invariant(Final(s, run))
    decreases |run|
  {
    if run != [] {
      InvariantKept(s, run[0]);
      InvariantAlways(After(s, run[0]), run[1..]);
    }
  }

  lemma {:induction false} InitiallyInvariant()
    ensures Invariant(INITIAL)
  {
    forall c: nat
      ensures Capabilities(INITIAL, c) == 0
    {
      assert Lent(INITIAL.cells.calls, c) == {} && InSlots(INITIAL.hands.slots, c) == {};
    }
  }

  /**
   Over every run: a cell is locked exactly if one guard or ownership for it exists or was
   forgotten, and there are never two; the waiter bit is only on a locked word.
   */
  lemma {:induction false} OwnershipIsLinear(run: seq<Event>, cell: nat)
    requires Possible(INITIAL, run) && cell != 0
    ensures var s := Final(INITIAL, run);
            && Capabilities(s, cell) + s.hands.lost[cell] == (if WordOf(s, cell).locked then 1 else 0)
            && (WordOf(s, cell).waiters ==> WordOf(s, cell).locked)
  {
    InitiallyInvariant();
    InvariantAlways(INITIAL, run);
    assert Balanced(Final(INITIAL, run), cell);
  }

  /**
   After every run the next `try_lock` of a cell yields a guard if and only if nobody holds
   the cell: no guard, no ownership anywhere, none forgotten.
   */
  lemma {:induction false} FreeCellsLock(run: seq<Event>, cell: nat)
    requires Possible(INITIAL, run) && Enabled(Final(INITIAL, run), TryLock(cell))
    ensures var s := Final(INITIAL, run);
            var t := After(s, TryLock(cell));
            && cell != 0
            && (t.hands.guards[cell] == s.hands.guards[cell] + 1 <==> Capabilities(s, cell) == 0 && s.hands.lost[cell] == 0)
            && (t.hands.guards[cell] == s.hands.guards[cell] + 1 || t == s)
  {
    InitiallyInvariant();
    InvariantAlways(INITIAL, run);
    assert Balanced(Final(INITIAL, run), cell);
  }

  /**
   A caller that must queue has left or seen the waiter bit, so the owner's next release
   hands over; a release without that bit unlocks.
   */
  lemma {:induction false} QueuedIsMarked(s: State, thread: nat, spurious: bool)
    requires Invariant(s) && Enabled(s, QueueStep(thread, spurious))
    ensures var t, call := After(s, QueueStep(thread, spurious)), s.cells.calls[thread];
            && t.hands.owned == s.hands.owned
            && (thread !in t.cells.calls && t.hands == s.hands ==> call.observed.waiters || WordOf(t, call.cell).waiters)
            && (t.hands != s.hands ==> t.hands.guards == s.hands.guards + multiset{call.cell} && Capabilities(s, call.cell) == 0)
            && (thread in t.cells.calls ==> t.hands == s.hands && t.cells.calls[thread].observed == WordOf(s, call.cell))
  {
    var call := s.cells.calls[thread];
    assert CallSane(s.cells.words, call);
    if WordOf(s, call.cell) == UNLOCKED { assert Balanced(s, call.cell); }
  }

  lemma {:induction false} ReleaseHandsOver(s: State, cell: nat)
    requires Invariant(s) && Enabled(s, TryRelease(cell))
    ensures var t := After(s, TryRelease(cell));
            && t.hands.guards[cell] == 0
            && (if WordOf(s, cell).waiters then t.hands.owned[cell] == 1 && WordOf(t, cell) == WordOf(s, cell)
                else t.hands.owned == s.hands.owned && WordOf(t, cell) == UNLOCKED)
  {
    CapabilityMeansLocked(s, cell);
  }

  /** An ownership is accepted by its own cell, always, and by no other. */
  lemma {:induction false} OwnershipFitsItsCell(s: State, cell: nat, identity: nat, thread: nat, value: bool)
    requires Invariant(s) && Enabled(s, StartSetWaiters(thread, cell, identity, value))
    ensures var claimed := After(s, Claim(cell, identity));
            if identity == cell then claimed.hands.guards[cell] == 1 && claimed.hands.owned[cell] == 0 else claimed == s
    ensures var marking := After(s, StartSetWaiters(thread, cell, identity, value));
            if identity == cell then
              && Enabled(marking, StoreWaiters(thread))
              && var t := After(marking, StoreWaiters(thread));
                 t.hands.owned == s.hands.owned && WordOf(t, cell) == Word(true, value) && t.cells.calls == s.cells.calls
            else marking == s
    ensures var unlocking := After(s, StartUnlock(thread, cell, identity));
            if identity == cell then
              && Enabled(unlocking, StoreUnlocked(thread))
              && WordOf(After(unlocking, StoreUnlocked(thread)), cell) == UNLOCKED
            else unlocking == s
  {
    assert identity != 0;
    CapabilityMeansLocked(s, identity);
    assert s.hands.owned[identity] == 1;
    assert s.cells.calls[thread := SettingWaiters(cell, value)] - {thread} == s.cells.calls;
  }

  /** A mailbox takes an ownership if it is empty and hands the same one out once. */
  lemma {:induction false} SlotsHandOver(s: State, slot: nat, identity: nat)
    requires Invariant(s) && Enabled(s, Publish(slot, identity))
    ensures var t := After(s, Publish(slot, identity));
            if s.hands.slots[slot] != 0 then t == s
            else
              && t.hands.owned[identity] == 0 && Enabled(t, Take(slot))
              && var u := After(t, Take(slot));
                 u.hands.owned == s.hands.owned && u.hands.slots[slot] == 0 && After(u, Take(slot)) == u
  {
    assert identity != 0;
    CapabilityMeansLocked(s, identity);
    assert s.hands.owned[identity] == 1;
  }
}
