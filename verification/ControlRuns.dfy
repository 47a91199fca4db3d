/** What the admission accounts guarantee to callers, over single steps and whole runs. */
module ControlRuns {
  import opened Control

  // ------------------------------------------------- admission

  /** A record an admission at the limit may push out: its outcome was observed and its task is over. */
  predicate Spent(r: Record) {
    r.held && r.observed && (r.stage.Terminal? || r.stage.ScopeRetired? || r.stage.Retired?)
  }

  /** A reservation succeeds if and only if fewer records than the limit are listed or some listed one is spent. */
  lemma {:induction false} ReservesIffRoom(s: State, task: nat, scope: nat, carrier: nat, local: bool, limits: Limits)
    requires Invariant(s, limits) && Enabled(s, Reserve(task, scope, carrier, local), limits)
    ensures var t := After(s, Reserve(task, scope, carrier, local), limits);
            && (task in t.ledger.records <==>
                 |Held(s.ledger.records)| < limits.records || exists n :: n in s.ledger.records && Spent(s.ledger.records[n]))
            && (task in t.ledger.records ==> t.ledger.records[task] == Record(scope, carrier, Reserved, false, true))
            && (task !in t.ledger.records ==>
                 t == s.(ledger := s.ledger.(rejected := s.ledger.rejected + 1)))
  {
    var gone := Evictable(s.ledger.records);
    EvictKeeps(s, limits);
    assert gone <= Held(s.ledger.records);
    forall n | n in s.ledger.records
      ensures n in gone <==> Spent(s.ledger.records[n])
    {
    }
    if gone == {} { assert Unlisted(s.ledger.records, gone) == s.ledger.records; }
  }

  /** A scope that was just begun can be reserved in, from outside as well. */
  lemma {:induction false} BegunScopesAdmit(s: State, scope: nat, task: nat, carrier: nat, local: bool, limits: Limits)
    requires Invariant(s, limits) && Enabled(s, Begin(scope), limits) && task !in s.ledger.records && carrier < |s.loads.placed|
    ensures var t := After(s, Begin(scope), limits);
            Enabled(t, Reserve(task, scope, carrier, local), limits) && t.ledger == s.ledger && t.totals.progress[scope] == Progress(0, 0)
  {
  }

  /** Why a record may leave its scope's list. */
  ghost predicate MayLeave(s: State, e: Event, limits: Limits, n: nat)
    requires n in s.ledger.records
  {
    match e
    case Finish(scope) => s.ledger.records[n].scope == scope
    case Release(task) => n == task
    case Reserve(_, _, _, _) => |Held(s.ledger.records)| >= limits.records && Spent(s.ledger.records[n])
    case _ => false
  }

  /** A listed record stays listed, unless its scope finishes, its reservation is undone, or it is spent and room is needed. */
  lemma {:induction false} RecordsAreKept(s: State, e: Event, limits: Limits, n: nat)
    requires Invariant(s, limits) && Enabled(s, e, limits) && n in s.ledger.records && s.ledger.records[n].held
    ensures var t := After(s, e, limits);
            (n in t.ledger.records && t.ledger.records[n].held) || MayLeave(s, e, limits, n)
  {
  }

  // ------------------------------------------------- closing and aborting

  ghost predicate Shut(s: State, scope: nat) {
    scope in s.totals.progress && (scope in s.totals.scopes ==> !s.totals.scopes[scope].admitting)
  }

  ghost predicate Doomed(s: State, scope: nat) {
    scope in s.totals.progress && (scope in s.totals.scopes ==> s.totals.scopes[scope].aborting)
  }

  lemma {:induction false} ShutStays(s: State, e: Event, limits: Limits, scope: nat)
    requires Enabled(s, e, limits)
    ensures Shut(s, scope) ==> Shut(After(s, e, limits), scope) && !(e.Reserve? && e.scope == scope && !e.local)
    ensures Doomed(s, scope) ==> Doomed(After(s, e, limits), scope) && !(e.Reserve? && e.scope == scope)
  {
  }

  lemma {:induction false} NothingEnters(s: State, run: seq<Event>, limits: Limits, scope: nat, i: nat)
    requires Possible(s, run, limits) && i < |run|
    ensures Shut(s, scope) ==> !(run[i].Reserve? && run[i].scope == scope && !run[i].local)
    ensures Doomed(s, scope) ==> !(run[i].Reserve? && run[i].scope == scope)
    decreases |run|
  {
    ShutStays(s, run[0], limits, scope);
    if i > 0 { NothingEnters(After(s, run[0], limits), run[1..], limits, scope, i - 1); }
  }

  /** After a scope was closed only local children enter it, and after it was aborted nothing does, ever. */
  lemma {:induction false} ClosedStaysClosed(s: State, run: seq<Event>, limits: Limits, i: nat)
    requires Invariant(s, limits) && Possible(s, run, limits) && 0 < i < |run| && run[i].Reserve?
    ensures run[0].Close? && run[0].scope == run[i].scope ==> run[i].local
    ensures !(run[0].Abort? && run[0].scope == run[i].scope)
  {
    var t := After(s, run[0], limits);
    NothingEnters(t, run[1..], limits, run[i].scope, i - 1);
  }

  // ------------------------------------------------- unlocked readers

  /** An observer between its two loads never underestimates: what it will compute is at least what is active then. */
  lemma {:induction false} ReadsNeverUnderestimate(s: State, limits: Limits, reader: nat)
    requires Invariant(s, limits) && reader in s.totals.readers
    ensures var r := s.totals.readers[reader];
            && r.scope in s.totals.progress
            && s.totals.progress[r.scope].admitted - r.retired >= |Unretired(s.ledger.records, r.scope)|
  {
    var r := s.totals.readers[reader];
    assert s.totals.progress[r.scope].admitted == s.totals.progress[r.scope].retired + |Unretired(s.ledger.records, r.scope)|;
  }

  lemma {:induction false} ReadStays(s: State, run: seq<Event>, limits: Limits, reader: nat, scope: nat, retired: nat)
    requires Possible(s, run, limits) && reader in s.totals.readers && s.totals.readers[reader] == Reader(scope, retired)
    requires scope in s.totals.progress && s.totals.progress[scope].retired == retired
    requires forall e :: e in run ==> !(e.RetireScope? && e.scope == scope) && !(e.ReadAdmitted? && e.reader == reader)
    ensures var t := Final(s, run, limits);
            && reader in t.totals.readers && t.totals.readers[reader] == Reader(scope, retired)
            && scope in t.totals.progress && t.totals.progress[scope].retired == retired
    decreases |run|
  {
    if run != [] {
      assert run[0] in run && forall e :: e in run[1..] ==> e in run;
      ReadStays(After(s, run[0], limits), run[1..], limits, reader, scope, retired);
    }
  }

  /** If the scope retires nothing between the two loads, the observer computes exactly what is active. */
  lemma {:induction false} QuietReadIsExact(s: State, run: seq<Event>, limits: Limits, reader: nat, scope: nat)
    requires Invariant(s, limits) && run != [] && run[0] == ReadRetired(reader, scope) && Possible(s, run, limits)
    requires forall e :: e in run[1..] ==> !(e.RetireScope? && e.scope == scope) && !(e.ReadAdmitted? && e.reader == reader)
    ensures var t := Final(s, run, limits);
            && reader in t.totals.readers && t.totals.readers[reader].scope == scope && scope in t.totals.progress
            && t.totals.progress[scope].admitted - t.totals.readers[reader].retired == |Unretired(t.ledger.records, scope)|
  {
    var u := After(s, run[0], limits);
    InvariantAlways(s, run, limits);
    ReadStays(u, run[1..], limits, reader, scope, s.totals.progress[scope].retired);
    var t := Final(s, run, limits);
    assert t.totals.progress[scope].admitted == t.totals.progress[scope].retired + |Unretired(t.ledger.records, scope)|;
  }

  // ------------------------------------------------- a task's life

  function Ahead(r: Record): nat {
    match r.stage
    case Reserved => 5
    case Live => 4
    case Terminal => 3
    case ScopeRetired => if r.observed then 1 else 2
    case Retired => 0
  }

  /** What is left to happen to a task's record. */
  function Life(task: nat, r: Record): seq<Event>
    decreases Ahead(r)
  {
    match r.stage
    case Reserved => [Push(task)] + Life(task, r.(stage := Live))
    case Live => [Prepare(task)] + Life(task, r.(stage := Terminal))
    case Terminal => [RetireScope({task}, r.scope)] + Life(task, r.(stage := ScopeRetired))
    case ScopeRetired =>
      if r.observed then [RetireCarrier({task}, r.carrier)] else [Observe(task)] + Life(task, r.(observed := true))
    case Retired => []
  }

  /** What one step of that does to the record; the totals move where the record leaves its scope and its carrier. */
  ghost predicate Aged(s: State, task: nat, r: Record, byScope: nat, byCarrier: nat, t: State)
    requires r.scope in s.totals.progress && r.carrier < |s.loads.retiredBy|
  {
    var p := s.totals.progress[r.scope];
    && t.ledger == s.ledger.(records := s.ledger.records[task := r])
    && t.totals.progress == s.totals.progress[r.scope := Progress(p.admitted, p.retired + byScope)]
    && t.loads == s.loads.(retiredBy := s.loads.retiredBy[r.carrier := s.loads.retiredBy[r.carrier] + byCarrier])
    && t.totals.scopes == s.totals.scopes
  }

  lemma {:induction false} AgedTwice(s: State, task: nat, r: Record, a: nat, b: nat, mid: State, r': Record, a': nat, b': nat, t: State)
    requires r'.scope == r.scope && r'.carrier == r.carrier
    requires r.scope in s.totals.progress && r.carrier < |s.loads.retiredBy| && Aged(s, task, r, a, b, mid)
    requires r.scope in mid.totals.progress && r.carrier < |mid.loads.retiredBy| && Aged(mid, task, r', a', b', t)
    ensures Aged(s, task, r', a + a', b + b', t)
  {
    assert s.ledger.records[task := r][task := r'] == s.ledger.records[task := r'];
  }

  /** The next step of a record's life is possible and ages it. */
  lemma {:induction false} LifeGoesOn(s: State, task: nat, limits: Limits) returns (e: Event, r': Record, byScope: nat, byCarrier: nat)
    requires Invariant(s, limits) && task in s.ledger.records && !s.ledger.records[task].stage.Retired?
    ensures var r := s.ledger.records[task];
            && Life(task, r) == [e] + Life(task, r') && Ahead(r') < Ahead(r) && Enabled(s, e, limits)
            && r'.scope == r.scope && r'.carrier == r.carrier && r'.held == r.held
            && (r'.stage.Retired? ==> r' == Record(r.scope, r.carrier, Retired, true, r.held))
            && r.scope in s.totals.progress && r.carrier < |s.loads.retiredBy|
            && Aged(s, task, r', byScope, byCarrier, After(s, e, limits))
            && byScope == (if Unfinished(r, r.scope) && !Unfinished(r', r.scope) then 1 else 0)
            && byCarrier == (if r'.stage.Retired? then 1 else 0)
  {
    var r := s.ledger.records[task];
    byScope, byCarrier := 0, 0;
    match r.stage
    case Reserved => e, r' := Push(task), r.(stage := Live);
    case Live => e, r' := Prepare(task), r.(stage := Terminal);
    case Terminal =>
      e, r', byScope := RetireScope({task}, r.scope), r.(stage := ScopeRetired), 1;
    case ScopeRetired =>
      if r.observed {
        e, r', byCarrier := RetireCarrier({task}, r.carrier), r.(stage := Retired), 1;
      } else {
        e, r' := Observe(task), r.(observed := true);
      }
  }

  lemma {:induction false} StepOn(s: State, e: Event, rest: seq<Event>, limits: Limits)
    requires Enabled(s, e, limits) && Possible(After(s, e, limits), rest, limits)
    ensures Possible(s, [e] + rest, limits) && Final(s, [e] + rest, limits) == Final(After(s, e, limits), rest, limits)
  {
    assert ([e] + rest)[1..] == rest;
  }

  /** An admitted task can run through all its stages, and then burdens neither its scope nor its carrier. */
  lemma {:induction false} TasksRunThrough(s: State, task: nat, limits: Limits)
    requires Invariant(s, limits) && task in s.ledger.records && !s.ledger.records[task].stage.Retired?
    ensures var r := s.ledger.records[task];
            && Possible(s, Life(task, r), limits) && r.scope in s.totals.progress && r.carrier < |s.loads.retiredBy|
            && Aged(s, task, Record(r.scope, r.carrier, Retired, true, r.held), if Unfinished(r, r.scope) then 1 else 0, 1,
                    Final(s, Life(task, r), limits))
    decreases Ahead(s.ledger.records[task])
  {
    var r := s.ledger.records[task];
    var e, r', a, b := LifeGoesOn(s, task, limits);
    var t := After(s, e, limits);
    if r'.stage.Retired? {
      StepOn(s, e, [], limits);
    } else {
      InvariantKept(s, e, limits);
      TasksRunThrough(t, task, limits);
      StepOn(s, e, Life(task, r'), limits);
      AgedTwice(s, task, r', a, b, t, Record(r.scope, r.carrier, Retired, true, r.held), if Unfinished(r', r.scope) then 1 else 0, 1,
                Final(t, Life(task, r'), limits));
    }
  }
}
