/**
 The parity mailbox as atomic steps of any number of publishers and one consumer.
 The 64-bit publication word is its set of route bits plus the sleeping bit.
 */
module WakeMailbox {
  import opened Collections

  const ROUTES: nat := 63

  /** A publication's route and, once its publisher has looked, whether it saw the sleeping bit. */
  datatype Publication = Publication(route: nat, sawSleeping: Answer)

  datatype Answer = Unasked | Yes | No

  datatype Owner = Idle | Arming(bits: set<nat>, sleeping: bool)

  datatype State = State(
    bits: set<nat>,
    sleeping: bool,
    seen: set<nat>,
    batch: set<nat>,
    owner: Owner,
    /** Every publication ever made, by serial number. */
    history: seq<Publication>,
    /** The unacknowledged publication of each route. */
    outstanding: map<nat, nat>,
    /** Routes whose payload the consumer is still copying. */
    copying: set<nat>,
    /** Publications handed out, in order, and the routes returned. */
    delivered: seq<nat>,
    popped: seq<nat>)

  datatype Event =
    | Publish(route: nat)
    | Look(publication: nat)
    | Pop
    | Release(route: nat)
    | ArmLoad
    | ArmStep(spurious: bool)
    | Disarm

  const INITIAL := State({}, false, {}, {}, Idle, [], map[], {}, [], [])

  function Flip(word: set<nat>, route: nat): set<nat> {
    if route in word then word - {route} else word + {route}
  }

  function Differ(a: set<nat>, b: set<nat>): set<nat> {
    (a - b) + (b - a)
  }

  /** The lowest set bit. */
  ghost function Lowest(s: set<nat>): (m: nat)
    requires s != {}
    ensures m in s && forall x :: x in s ==> m <= x
  {
    var x :| x in s;
    LowestExists(s, x);
    var m :| m in s && forall x :: x in s ==> m <= x;
    m
  }

  lemma {:induction false} LowestExists(s: set<nat>, x: nat)
    requires x in s
    ensures exists m :: m in s && forall y :: y in s ==> m <= y
    decreases x
  {
    if y :| y in s && y < x {
      LowestExists(s, y);
    }
  }

  /** Routes captured by the next pop. */
  ghost function Capture(s: State): set<nat> {
    if s.batch != {} then s.batch else Differ(s.bits, s.seen)
  }

  /** What the callers owe: a route reservation to publish, sole ownership for the rest. */
  ghost predicate Enabled(s: State, e: Event) {
    match e
    case Publish(route) => route < ROUTES && route !in s.outstanding && route !in s.copying
    case Look(p) => p < |s.history| && s.history[p].sawSleeping.Unasked?
    case Pop => s.owner.Idle?
    case Release(route) => route in s.copying
    case ArmLoad => s.owner.Idle?
    case ArmStep(_) => s.owner.Arming?
    case Disarm => s.owner.Idle?
  }

  ghost function After(s: State, e: Event): State {
    match e
    case Publish(route) =>
      s.(bits := Flip(s.bits, route),
         history := s.history + [Publication(route, Unasked)],
         outstanding := s.outstanding[route := |s.history|])
    case Look(p) =>
      if p < |s.history| then
        s.(history := s.history[p := s.history[p].(sawSleeping := if s.sleeping then Yes else No)])
      else s
    case Pop =>
      var batch := Capture(s);
      if batch == {} then s
      else
        var route := Lowest(batch);
        s.(batch := batch - {route},
           seen := Flip(s.seen, route),
           outstanding := s.outstanding - {route},
           copying := s.copying + {route},
           popped := s.popped + [route],
           delivered := if route in s.outstanding then s.delivered + [s.outstanding[route]] else s.delivered)
    case Release(route) => s.(copying := s.copying - {route})
    case ArmLoad => s.(owner := Arming(s.bits, s.sleeping))
    case ArmStep(spurious) =>
      if !s.owner.Arming? then s
      else if Differ(s.owner.bits, s.seen) != {} then s.(owner := Idle)
      else if s.owner.sleeping then s.(owner := Idle)
      else if !spurious && s.bits == s.owner.bits && s.sleeping == s.owner.sleeping then s.(owner := Idle, sleeping := true)
      else s.(owner := Arming(s.bits, s.sleeping))
    case Disarm => s.(sleeping := false)
  }

  ghost predicate Possible(s: State, run: seq<Event>)
    decreases |run|
  {
    run == [] || (Enabled(s, run[0]) && Possible(After(s, run[0]), run[1..]))
  }

  ghost function Final(s: State, run: seq<Event>): State
    decreases |run|
  {
    if run == [] then s else Final(After(s, run[0]), run[1..])
  }

  // ------------------------------------------------- the invariant

  ghost predicate Parity(s: State) {
    && (forall r :: r in Differ(s.bits, s.seen) <==> r in s.outstanding)
    && (forall r :: r in s.batch ==> r in s.outstanding)
    && (forall r :: r in s.outstanding ==> r < ROUTES && r !in s.copying)
  }

  /** Each publication is outstanding on its own route or was handed out, exactly once. */
  ghost predicate Accounted(s: State) {
    && (forall r :: r in s.outstanding ==> s.outstanding[r] < |s.history| && s.history[s.outstanding[r]].route == r)
    && (forall i :: 0 <= i < |s.delivered| ==> s.delivered[i] < |s.history|)
    && Distinct(s.delivered)
    && |s.popped| == |s.delivered|
    && (forall i :: 0 <= i < |s.delivered| && s.delivered[i] < |s.history| ==> s.history[s.delivered[i]].route == s.popped[i])
    && (forall p :: 0 <= p < |s.history| ==>
         (p in s.delivered <==> !(s.history[p].route in s.outstanding && s.outstanding[s.history[p].route] == p)))
  }

  /** While the sleeping bit is set, nobody who published unseen work was told to stay quiet. */
  ghost predicate Noticed(s: State) {
    && (s.sleeping ==> forall r :: r in s.outstanding && s.outstanding[r] < |s.history| ==> !s.history[s.outstanding[r]].sawSleeping.No?)
    && (s.owner.Arming? ==> s.owner.sleeping == s.sleeping)
  }

  ghost predicate Invariant(s: State) {
    Parity(s) && Accounted(s) && Noticed(s)
  }

  lemma {:induction false} ParityKept(s: State, e: Event)
    requires Invariant(s) && Enabled(s, e)
    ensures Parity(After(s, e))
  {
  }

  lemma {:induction false} PopAccounts(s: State)
    requires Invariant(s)
    ensures Accounted(After(s, Pop))
  {
    if Capture(s) != {} {
      var t := After(s, Pop);
      var route := Lowest(Capture(s));
      assert route in s.outstanding;
      var q := s.outstanding[route];
      assert q !in s.delivered && t.delivered == s.delivered + [q];
      forall p | 0 <= p < |t.history|
        ensures p in t.delivered <==> !(t.history[p].route in t.outstanding && t.outstanding[t.history[p].route] == p)
      {
        assert p in t.delivered <==> p in s.delivered || p == q;
      }
    }
  }

  lemma {:induction false} AccountsKept(s: State, e: Event)
    requires Invariant(s) && Enabled(s, e)
    ensures Accounted(After(s, e))
  {
    var t := After(s, e);
    match e
    case Publish(route) =>
      forall p | 0 <= p < |t.history|
        ensures p in t.delivered <==> !(t.history[p].route in t.outstanding && t.outstanding[t.history[p].route] == p)
      {
        if p < |s.history| { assert t.history[p] == s.history[p]; }
      }
    case Look(q) =>
      assert forall p :: 0 <= p < |s.history| ==> t.history[p].route == s.history[p].route;
    case Pop =>
      PopAccounts(s);
    case Release(_) =>
    case ArmLoad =>
    case ArmStep(_) =>
    case Disarm =>
  }

  lemma {:induction false} NoticeKept(s: State, e: Event)
    requires Invariant(s) && Enabled(s, e)
    ensures Noticed(After(s, e))
  {
    var t := After(s, e);
    if e.ArmStep? && t.sleeping && !s.sleeping {
      assert Differ(s.bits, s.seen) == {};
      assert forall r :: r !in s.outstanding;
    }
  }

  /** The invariant holds in every state any interleaving can reach. */
  lemma {:induction false} InvariantAlways(s: State, run: seq<Event>)
    requires Invariant(s) && Possible(s, run)
    ensures Invariant(Final(s, run))
    decreases |run|
  {
    if run != [] {
      ParityKept(s, run[0]);
      AccountsKept(s, run[0]);
      NoticeKept(s, run[0]);
      InvariantAlways(After(s, run[0]), run[1..]);
    }
  }

  /**
   From an empty mailbox, over every interleaving: each returned route belongs to a
   publication that was outstanding when it was popped, each publication is either
   outstanding on its route or was handed out, exactly once, and while the sleeping bit is set the
   publisher of an unacknowledged publication saw it or has not looked yet.
   */
  lemma {:induction false} EveryRunIsSound(run: seq<Event>)
    requires Possible(INITIAL, run)
    ensures var s := Final(INITIAL, run);
            && Distinct(s.delivered) && |s.popped| == |s.delivered|
            && (forall i :: 0 <= i < |s.popped| ==>
                 s.delivered[i] < |s.history| && s.history[s.delivered[i]].route == s.popped[i])
            && (forall p :: 0 <= p < |s.history| ==>
                 (p in s.delivered <==> !(s.history[p].route in s.outstanding && s.outstanding[s.history[p].route] == p)))
            && (s.sleeping ==> forall r :: r in s.outstanding ==>
                 s.outstanding[r] < |s.history| && !s.history[s.outstanding[r]].sawSleeping.No?)
  {
    assert Invariant(INITIAL);
    InvariantAlways(INITIAL, run);
  }

  // ------------------------------------------------- bounded delivery

  ghost function UpTo(batch: set<nat>, r: nat): set<nat> {
    set x | x in batch && x <= r
  }

  /** Pops until the publication on `r` is handed out, at most. */
  ghost function Rank(s: State, r: nat): nat {
    if r in s.batch then |UpTo(s.batch, r)| else |s.batch| + ROUTES
  }

  lemma {:induction false} FewRoutes(s: set<nat>, n: nat)
    requires forall x :: x in s ==> x < n
    ensures |s| <= n
    decreases n
  {
    if n == 0 {
      assert s == {};
    } else {
      FewRoutes(s - {n - 1}, n - 1);
      assert s <= (s - {n - 1}) + {n - 1};
      SmallerSet(s, (s - {n - 1}) + {n - 1});
    }
  }

  lemma {:induction false} RankIsBounded(s: State, r: nat)
    requires Parity(s) && r in s.outstanding
    ensures Rank(s, r) <= 125
  {
    if r in s.batch {
      FewRoutes(UpTo(s.batch, r), ROUTES);
    } else {
      FewRoutes(s.batch + {r}, ROUTES);
      assert |s.batch + {r}| == |s.batch| + 1;
    }
  }

  lemma RankIsPositive(s: State, r: nat)
    ensures Rank(s, r) > 0
  {
    if r in s.batch { assert r in UpTo(s.batch, r); }
  }

  /** A pop hands the publication out or brings it nearer. */
  lemma {:induction false} PopBringsNearer(s: State, r: nat)
    requires Parity(s) && r in s.outstanding
    ensures var t := After(s, Pop);
            || (r !in t.outstanding && t.delivered == s.delivered + [s.outstanding[r]])
            || (r in t.outstanding && t.outstanding[r] == s.outstanding[r] && Rank(t, r) < Rank(s, r))
  {
    var t := After(s, Pop);
    assert r in Differ(s.bits, s.seen);
    var batch := Capture(s);
    var route := Lowest(batch);
    assert route in s.outstanding;
    if route != r {
      if r in batch {
        assert UpTo(batch, r) == UpTo(t.batch, r) + {route} && route !in UpTo(t.batch, r);
        FewRoutes(UpTo(batch, r), ROUTES);
      } else {
        assert batch == t.batch + {route} && route !in t.batch;
      }
    }
  }

  /** No other step moves it. */
  lemma {:induction false} OthersKeepRank(s: State, e: Event, r: nat)
    requires Enabled(s, e) && !e.Pop? && r in s.outstanding
    ensures var t := After(s, e);
            && r in t.outstanding && t.outstanding[r] == s.outstanding[r] && Rank(t, r) == Rank(s, r)
            && t.delivered == s.delivered
  {
  }

  function Pops(run: seq<Event>): nat {
    if run == [] then 0 else (if run[0].Pop? then 1 else 0) + Pops(run[1..])
  }

  lemma {:induction false} DeliveredStays(s: State, run: seq<Event>, p: nat)
    requires p in s.delivered
    ensures p in Final(s, run).delivered
    decreases |run|
  {
    if run != [] { DeliveredStays(After(s, run[0]), run[1..], p); }
  }

  lemma {:induction false} DeliveredByRank(s: State, run: seq<Event>, r: nat)
    requires Invariant(s) && Possible(s, run) && r in s.outstanding && Pops(run) >= Rank(s, r)
    ensures s.outstanding[r] in Final(s, run).delivered
    decreases |run|
  {
    RankIsPositive(s, r);
    if run != [] {
      InvariantAlways(s, run[..1]);
      var t := After(s, run[0]);
      assert run[..1] == [run[0]] && Final(s, [run[0]]) == t;
      if run[0].Pop? {
        PopBringsNearer(s, r);
        if r !in t.outstanding {
          DeliveredStays(t, run[1..], s.outstanding[r]);
          return;
        }
      } else {
        OthersKeepRank(s, run[0], r);
      }
      DeliveredByRank(t, run[1..], r);
    }
  }

  /** Whatever else happens, a publication is handed out within 125 pops. */
  lemma {:induction false} DeliveredWithin125Pops(s: State, run: seq<Event>, r: nat)
    requires Invariant(s) && Possible(s, run) && r in s.outstanding && Pops(run) >= 125
    ensures s.outstanding[r] in Final(s, run).delivered
  {
    RankIsBounded(s, r);
    DeliveredByRank(s, run, r);
  }

  // ------------------------------------------------- arming

  /** An undisturbed `arm_wait` sets the sleeping bit if and only if nothing is outstanding. */
  lemma {:induction false} ArmsIffEmpty(s: State)
    requires Invariant(s) && s.owner.Idle?
    ensures Possible(s, [ArmLoad, ArmStep(false)])
    ensures Final(s, [ArmLoad, ArmStep(false)]) == s.(sleeping := s.sleeping || s.outstanding == map[])
  {
    var t := After(s, ArmLoad);
    assert [ArmLoad, ArmStep(false)][1..] == [ArmStep(false)];
    if r :| r in s.outstanding {
      assert r in Differ(s.bits, s.seen);
    } else {
      assert s.outstanding == map[];
      assert forall x :: x !in Differ(s.bits, s.seen);
    }
  }

  /** Until it arms again, an owner that disarmed is left alone: nobody who looks is told to notify it. */
  lemma {:induction false} AwakeIsLeftAlone(s: State, run: seq<Event>)
    requires Possible(s, run) && !s.sleeping && forall e :: e in run ==> !e.ArmStep?
    ensures !Final(s, run).sleeping && |s.history| <= |Final(s, run).history|
    ensures forall p :: 0 <= p < |Final(s, run).history| && Final(s, run).history[p].sawSleeping.Yes? ==>
              p < |s.history| && s.history[p].sawSleeping.Yes?
    decreases |run|
  {
    if run != [] {
      assert run[0] in run && forall e :: e in run[1..] ==> e in run;
      AwakeIsLeftAlone(After(s, run[0]), run[1..]);
    }
  }

  /** Nobody notifies an owner that never slept, or has disarmed. */
  lemma {:induction false} DisarmedIsLeftAlone(s: State, run: seq<Event>)
    requires run != [] && run[0].Disarm? && Possible(s, run) && forall e :: e in run[1..] ==> !e.ArmStep?
    ensures forall p :: 0 <= p < |Final(s, run).history| && Final(s, run).history[p].sawSleeping.Yes? ==>
              p < |s.history| && s.history[p].sawSleeping.Yes?
  {
    AwakeIsLeftAlone(After(s, run[0]), run[1..]);
  }
}
