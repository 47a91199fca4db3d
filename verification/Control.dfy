/**
 Admission accounting as atomic steps. Reservation, release, eviction and scope
 transitions run under the control lock; completion batches update the scope's and the
 carrier's retirement totals without it, and observers read the totals one at a time.
 */
module Control {

  datatype Stage = Reserved | Live | Terminal | ScopeRetired | Retired

  /** `held` means the scope still lists the record. */
  datatype Record = Record(scope: nat, carrier: nat, stage: Stage, observed: bool, held: bool)

  datatype Scope = Scope(admitting: bool, aborting: bool)

  /** The totals a scope publishes; they outlive the scope. */
  datatype Progress = Progress(admitted: nat, retired: nat)

  /** An observer that has loaded a scope's retired total and not yet its admitted one. */
  datatype Reader = Reader(scope: nat, retired: nat)

  type Records = map<nat, Record>

  /** Open scopes, the totals every scope publishes, and observers between their two loads. */
  datatype Totals = Totals(scopes: map<nat, Scope>, progress: map<nat, Progress>, readers: map<nat, Reader>)

  datatype Ledger = Ledger(records: Records, recordCount: nat, rejected: nat)

  /** Per carrier: tasks placed, retirements it published, retirements placement has seen. */
  datatype Loads = Loads(placed: seq<nat>, retiredBy: seq<nat>, seen: seq<nat>)

  datatype State = State(accepting: bool, totals: Totals, ledger: Ledger, loads: Loads)

  datatype Limits = Limits(records: nat, scopes: nat)

  datatype Event =
    | Begin(scope: nat)
    | Close(scope: nat)
    | Abort(scope: nat)
    | Reserve(task: nat, scope: nat, carrier: nat, local: bool)
    | Release(task: nat)
    | Push(task: nat)
    | Prepare(task: nat)
    | RetireScope(batch: set<nat>, scope: nat)
    | RetireCarrier(batch: set<nat>, carrier: nat)
    | Observe(task: nat)
    | Finish(scope: nat)
    | Probe(carrier: nat)
    | ReadRetired(reader: nat, scope: nat)
    | ReadAdmitted(reader: nat)

  // ------------------------------------------------- counted sets

  predicate Unfinished(r: Record, scope: nat) {
    r.scope == scope && (r.stage.Reserved? || r.stage.Live? || r.stage.Terminal?)
  }

  predicate Burdens(r: Record, carrier: nat) {
    r.carrier == carrier && !r.stage.Retired?
  }

  function One(b: bool): nat {
    if b then 1 else 0
  }

  /** Tasks the scope has admitted and not retired. */
  ghost function Unretired(records: Records, scope: nat): set<nat> {
    set t | t in records && Unfinished(records[t], scope)
  }

  /** Tasks placed on a carrier that it has not retired. */
  ghost function Loaded(records: Records, carrier: nat): set<nat> {
    set t | t in records && Burdens(records[t], carrier)
  }

  ghost function Held(records: Records): set<nat> {
    set t | t in records && records[t].held
  }

  ghost function HeldBy(records: Records, scope: nat): set<nat> {
    set t | t in records && records[t].held && records[t].scope == scope
  }

  /** Records that make room when the limit is reached: terminal with an observed outcome. */
  ghost function Evictable(records: Records): set<nat> {
    set t | t in records && records[t].held && records[t].observed && !records[t].stage.Reserved? && !records[t].stage.Live?
  }

  ghost function Unlisted(records: Records, gone: set<nat>): Records {
    map t | t in records :: if t in gone then records[t].(held := false) else records[t]
  }

  ghost function Advanced(records: Records, batch: set<nat>, stage: Stage): Records {
    map t | t in records :: if t in batch then records[t].(stage := stage) else records[t]
  }

  // ------------------------------------------------- steps

  ghost predicate Enabled(s: State, e: Event, limits: Limits) {
    match e
    case Begin(scope) =>
      s.accepting && scope !in s.totals.progress && scope !in s.totals.scopes && |s.totals.scopes| < limits.scopes
    case Close(scope) => scope in s.totals.scopes
    case Abort(scope) => scope in s.totals.scopes
    case Reserve(task, scope, carrier, local) =>
      && task !in s.ledger.records && scope in s.totals.scopes && scope in s.totals.progress && carrier < |s.loads.placed|
      && (local || s.totals.scopes[scope].admitting) && s.accepting && !s.totals.scopes[scope].aborting
    case Release(task) => task in s.ledger.records && s.ledger.records[task].stage.Reserved?
    case Push(task) => task in s.ledger.records && s.ledger.records[task].stage.Reserved?
    case Prepare(task) => task in s.ledger.records && s.ledger.records[task].stage.Live?
    case RetireScope(batch, scope) =>
      var records := s.ledger.records;
      batch != {} && forall t :: t in batch ==> t in records && records[t].stage.Terminal? && records[t].scope == scope
    case RetireCarrier(batch, carrier) =>
      var records := s.ledger.records;
      batch != {} && forall t :: t in batch ==> t in records && records[t].stage.ScopeRetired? && records[t].carrier == carrier
    case Observe(task) =>
      task in s.ledger.records && !s.ledger.records[task].stage.Reserved? && !s.ledger.records[task].stage.Live?
    case Finish(scope) =>
      scope in s.totals.scopes && scope in s.totals.progress && s.totals.progress[scope].admitted == s.totals.progress[scope].retired
    case Probe(carrier) => carrier < |s.loads.seen| && carrier < |s.loads.retiredBy|
    case ReadRetired(reader, scope) => reader !in s.totals.readers && scope in s.totals.progress
    case ReadAdmitted(reader) => reader in s.totals.readers
  }

  function Less(a: nat, b: nat): nat {
    if a < b then 0 else a - b
  }

  ghost function Evicted(s: State, limits: Limits): State {
    if s.ledger.recordCount < limits.records then s
    else s.(ledger := s.ledger.(records := Unlisted(s.ledger.records, Evictable(s.ledger.records)),
                                recordCount := Less(s.ledger.recordCount, |Evictable(s.ledger.records)|)))
  }

  ghost function Admitted(s: State, task: nat, scope: nat, carrier: nat): State
    requires scope in s.totals.progress && carrier < |s.loads.placed|
  {
    var p := s.totals.progress[scope];
    s.(ledger := s.ledger.(records := s.ledger.records[task := Record(scope, carrier, Reserved, false, true)],
                           recordCount := s.ledger.recordCount + 1),
       loads := s.loads.(placed := s.loads.placed[carrier := s.loads.placed[carrier] + 1]),
       totals := s.totals.(progress := s.totals.progress[scope := Progress(p.admitted + 1, p.retired)]))
  }

  ghost function Released(s: State, task: nat): State
    requires task in s.ledger.records
    requires s.ledger.records[task].scope in s.totals.progress && s.ledger.records[task].carrier < |s.loads.placed|
  {
    var r := s.ledger.records[task];
    var p := s.totals.progress[r.scope];
    s.(ledger := s.ledger.(records := s.ledger.records - {task},
                           recordCount := Less(s.ledger.recordCount, 1),
                           rejected := s.ledger.rejected + 1),
       loads := s.loads.(placed := s.loads.placed[r.carrier := Less(s.loads.placed[r.carrier], 1)]),
       totals := s.totals.(progress := s.totals.progress[r.scope := Progress(Less(p.admitted, 1), p.retired)]))
  }

  ghost function Moved(s: State, task: nat, stage: Stage): State
    requires task in s.ledger.records
  {
    s.(ledger := s.ledger.(records := s.ledger.records[task := s.ledger.records[task].(stage := stage)]))
  }

  ghost function After(s: State, e: Event, limits: Limits): State
    requires Enabled(s, e, limits)
  {
    match e
    case Begin(scope) => s.(totals := s.totals.(scopes := s.totals.scopes[scope := Scope(true, false)],
                                                progress := s.totals.progress[scope := Progress(0, 0)]))
    case Close(scope) => s.(totals := s.totals.(scopes := s.totals.scopes[scope := s.totals.scopes[scope].(admitting := false)]))
    case Abort(scope) => s.(totals := s.totals.(scopes := s.totals.scopes[scope := Scope(false, true)]))
    case Reserve(task, scope, carrier, _) =>
      var t := Evicted(s, limits);
      if t.ledger.recordCount >= limits.records then
        t.(ledger := t.ledger.(rejected := t.ledger.rejected + 1))
      else Admitted(t, task, scope, carrier)
    case Release(task) =>
      var r := s.ledger.records[task];
      if r.scope in s.totals.progress && r.carrier < |s.loads.placed| then Released(s, task) else s
    case Push(task) => Moved(s, task, Live)
    case Prepare(task) => Moved(s, task, Terminal)
    case RetireScope(batch, scope) =>
      var p := s.totals.progress;
      s.(ledger := s.ledger.(records := Advanced(s.ledger.records, batch, ScopeRetired)),
         totals := s.totals.(progress := if scope in p then p[scope := Progress(p[scope].admitted, p[scope].retired + |batch|)] else p))
    case RetireCarrier(batch, carrier) =>
      var b := s.loads.retiredBy;
      s.(ledger := s.ledger.(records := Advanced(s.ledger.records, batch, Retired)),
         loads := s.loads.(retiredBy := if carrier < |b| then b[carrier := b[carrier] + |batch|] else b))
    case Observe(task) => s.(ledger := s.ledger.(records := s.ledger.records[task := s.ledger.records[task].(observed := true)]))
    case Finish(scope) =>
      s.(totals := s.totals.(scopes := s.totals.scopes - {scope}),
         ledger := s.ledger.(records := Unlisted(s.ledger.records, HeldBy(s.ledger.records, scope)),
                             recordCount := Less(s.ledger.recordCount, |HeldBy(s.ledger.records, scope)|)))
    case Probe(carrier) => s.(loads := s.loads.(seen := s.loads.seen[carrier := s.loads.retiredBy[carrier]]))
    case ReadRetired(reader, scope) =>
      s.(totals := s.totals.(readers := s.totals.readers[reader := Reader(scope, s.totals.progress[scope].retired)]))
    case ReadAdmitted(reader) => s.(totals := s.totals.(readers := s.totals.readers - {reader}))
  }

  // ------------------------------------------------- the invariant

  /** Every record belongs to a known scope and carrier; listed ones to an open scope. */
  ghost predicate Placed(s: State) {
    && (forall t {:trigger s.ledger.records[t]} :: t in s.ledger.records ==>
         && s.ledger.records[t].scope in s.totals.progress && s.ledger.records[t].carrier < |s.loads.placed|
         && (s.ledger.records[t].held ==> s.ledger.records[t].scope in s.totals.scopes)
         && (s.ledger.records[t].stage.Reserved? || s.ledger.records[t].stage.Live? ==> s.ledger.records[t].held))
    && (forall c :: c in s.totals.scopes ==> c in s.totals.progress)
    && |s.loads.retiredBy| == |s.loads.placed| && |s.loads.seen| == |s.loads.placed|
  }

  /** A scope's admitted total is its retired total plus its unretired tasks. */
  ghost predicate ScopesBalance(s: State) {
    forall c {:trigger Unretired(s.ledger.records, c)} :: c in s.totals.progress ==>
      s.totals.progress[c].admitted == s.totals.progress[c].retired + |Unretired(s.ledger.records, c)|
  }

  ghost predicate CarriersBalance(s: State) {
    forall c {:trigger Loaded(s.ledger.records, c)} :: 0 <= c < |s.loads.placed| && c < |s.loads.retiredBy| ==>
      s.loads.placed[c] == s.loads.retiredBy[c] + |Loaded(s.ledger.records, c)|
  }

  ghost predicate RecordsBalance(s: State, limits: Limits) {
    s.ledger.recordCount == |Held(s.ledger.records)| && s.ledger.recordCount <= limits.records && |s.totals.scopes| <= limits.scopes
  }

  /** What was read earlier never exceeds what was retired since. */
  ghost predicate ReadsLag(s: State) {
    && (forall c :: 0 <= c < |s.loads.seen| && c < |s.loads.retiredBy| ==> s.loads.seen[c] <= s.loads.retiredBy[c])
    && (forall r :: r in s.totals.readers ==>
         var reader := s.totals.readers[r];
         reader.scope in s.totals.progress && reader.retired <= s.totals.progress[reader.scope].retired)
  }

  ghost predicate Invariant(s: State, limits: Limits) {
    Placed(s) && ScopesBalance(s) && CarriersBalance(s) && RecordsBalance(s, limits) && ReadsLag(s)
  }

  // ------------------------------------------------- how single changes move the counts

  /** Replacing or adding one record. */
  lemma {:induction false} PutCounts(records: Records, t: nat, r: Record, c: nat)
    ensures |Unretired(records[t := r], c)| == |Unretired(records, c)| + One(Unfinished(r, c)) - One(t in records && Unfinished(records[t], c))
    ensures |Loaded(records[t := r], c)| == |Loaded(records, c)| + One(Burdens(r, c)) - One(t in records && Burdens(records[t], c))
  {
    PutUnretired(records, t, r, c);
    PutLoaded(records, t, r, c);
  }

  lemma {:induction false} PutUnretired(records: Records, t: nat, r: Record, c: nat)
    ensures |Unretired(records[t := r], c)| == |Unretired(records, c)| + One(Unfinished(r, c)) - One(t in records && Unfinished(records[t], c))
  {
    var u := Unretired(records, c);
    if Unfinished(r, c) {
      assert Unretired(records[t := r], c) == u + {t};
    } else {
      assert Unretired(records[t := r], c) == u - {t};
    }
  }

  lemma {:induction false} PutLoaded(records: Records, t: nat, r: Record, c: nat)
    ensures |Loaded(records[t := r], c)| == |Loaded(records, c)| + One(Burdens(r, c)) - One(t in records && Burdens(records[t], c))
  {
    var l := Loaded(records, c);
    if Burdens(r, c) {
      assert Loaded(records[t := r], c) == l + {t};
    } else {
      assert Loaded(records[t := r], c) == l - {t};
    }
  }

  lemma {:induction false} PutHeld(records: Records, t: nat, r: Record)
    ensures |Held(records[t := r])| == |Held(records)| + One(r.held) - One(t in records && records[t].held)
  {
    var h, h' := Held(records), Held(records[t := r]);
    assert h' == if r.held then h + {t} else h - {t};
  }

  lemma {:induction false} DropCounts(records: Records, t: nat, c: nat)
    requires t in records
    ensures |Unretired(records - {t}, c)| == |Unretired(records, c)| - One(Unfinished(records[t], c))
    ensures |Loaded(records - {t}, c)| == |Loaded(records, c)| - One(Burdens(records[t], c))
    ensures |Held(records - {t})| == |Held(records)| - One(records[t].held)
  {
    assert Unretired(records - {t}, c) == Unretired(records, c) - {t};
    assert Loaded(records - {t}, c) == Loaded(records, c) - {t};
    assert Held(records - {t}) == Held(records) - {t};
  }

  /** Unlisting records changes neither balance. */
  lemma {:induction false} UnlistCounts(records: Records, gone: set<nat>, c: nat)
    ensures Unretired(Unlisted(records, gone), c) == Unretired(records, c)
    ensures Loaded(Unlisted(records, gone), c) == Loaded(records, c)
  {
    var after := Unlisted(records, gone);
    assert forall t :: t in records ==> after[t].scope == records[t].scope && after[t].stage == records[t].stage && after[t].carrier == records[t].carrier;
  }

  lemma {:induction false} UnlistHeld(records: Records, gone: set<nat>)
    requires gone <= Held(records)
    ensures |gone| <= |Held(records)| && |Held(Unlisted(records, gone))| == |Held(records)| - |gone|
  {
    assert Held(Unlisted(records, gone)) == Held(records) - gone;
    assert Held(records) == Held(Unlisted(records, gone)) + gone;
  }

  lemma {:induction false} BatchLeavesScope(records: Records, batch: set<nat>, scope: nat, c: nat)
    requires forall t :: t in batch ==> t in records && records[t].stage.Terminal? && records[t].scope == scope
    ensures |Unretired(Advanced(records, batch, ScopeRetired), c)| == |Unretired(records, c)| - (if c == scope then |batch| else 0)
    ensures Loaded(Advanced(records, batch, ScopeRetired), c) == Loaded(records, c)
    ensures Held(Advanced(records, batch, ScopeRetired)) == Held(records)
  {
    var after := Advanced(records, batch, ScopeRetired);
    if c == scope {
      assert Unretired(after, c) == Unretired(records, c) - batch && batch <= Unretired(records, c);
      assert Unretired(records, c) == Unretired(after, c) + batch;
    } else {
      assert Unretired(after, c) == Unretired(records, c);
    }
  }

  lemma {:induction false} BatchLeavesCarrier(records: Records, batch: set<nat>, carrier: nat, c: nat)
    requires forall t :: t in batch ==> t in records && records[t].stage.ScopeRetired? && records[t].carrier == carrier
    ensures |Loaded(Advanced(records, batch, Retired), c)| == |Loaded(records, c)| - (if c == carrier then |batch| else 0)
    ensures Unretired(Advanced(records, batch, Retired), c) == Unretired(records, c)
    ensures Held(Advanced(records, batch, Retired)) == Held(records)
  {
    var after := Advanced(records, batch, Retired);
    if c == carrier {
      assert Loaded(after, c) == Loaded(records, c) - batch && batch <= Loaded(records, c);
      assert Loaded(records, c) == Loaded(after, c) + batch;
    } else {
      assert Loaded(after, c) == Loaded(records, c);
    }
  }

  // ------------------------------------------------- what each step keeps

  /** A state whose records carry the same counts keeps every balance. */
  lemma {:induction false} SameCounts(s: State, t: State)
    requires ScopesBalance(s) && CarriersBalance(s)
    requires t.totals.progress == s.totals.progress && t.loads.placed == s.loads.placed && t.loads.retiredBy == s.loads.retiredBy
    requires forall c :: |Unretired(t.ledger.records, c)| == |Unretired(s.ledger.records, c)|
    requires forall c :: |Loaded(t.ledger.records, c)| == |Loaded(s.ledger.records, c)|
    ensures ScopesBalance(t) && CarriersBalance(t)
  {
    forall c | c in t.totals.progress
      ensures t.totals.progress[c].admitted == t.totals.progress[c].retired + |Unretired(t.ledger.records, c)|
    {
      assert s.totals.progress[c].admitted == s.totals.progress[c].retired + |Unretired(s.ledger.records, c)|;
    }
    forall c | 0 <= c < |t.loads.placed| && c < |t.loads.retiredBy|
      ensures t.loads.placed[c] == t.loads.retiredBy[c] + |Loaded(t.ledger.records, c)|
    {
      assert s.loads.placed[c] == s.loads.retiredBy[c] + |Loaded(s.ledger.records, c)|;
    }
  }

  lemma {:induction false} EvictKeeps(s: State, limits: Limits)
    requires Invariant(s, limits)
    ensures Invariant(Evicted(s, limits), limits) && s.ledger.recordCount >= Evicted(s, limits).ledger.recordCount
    ensures Evicted(s, limits).totals.progress == s.totals.progress && Evicted(s, limits).loads.placed == s.loads.placed
    ensures s.ledger.recordCount >= limits.records ==> s.ledger.recordCount >= |Evictable(s.ledger.records)|
    ensures Evicted(s, limits).ledger.records.Keys == s.ledger.records.Keys
  {
    if s.ledger.recordCount >= limits.records {
      var t := Evicted(s, limits);
      assert Evictable(s.ledger.records) <= Held(s.ledger.records);
      UnlistHeld(s.ledger.records, Evictable(s.ledger.records));
      forall c: nat
        ensures Unretired(t.ledger.records, c) == Unretired(s.ledger.records, c) && Loaded(t.ledger.records, c) == Loaded(s.ledger.records, c)
      {
        UnlistCounts(s.ledger.records, Evictable(s.ledger.records), c);
      }
      SameCounts(s, t);
    }
  }

  lemma {:induction false} AdmitKeeps(s: State, task: nat, scope: nat, carrier: nat, limits: Limits)
    requires Invariant(s, limits) && task !in s.ledger.records && scope in s.totals.scopes && carrier < |s.loads.placed|
    requires s.ledger.recordCount < limits.records
    ensures scope in s.totals.progress && Invariant(Admitted(s, task, scope, carrier), limits)
  {
    var t := Admitted(s, task, scope, carrier);
    var r := Record(scope, carrier, Reserved, false, true);
    PutHeld(s.ledger.records, task, r);
    forall c | c in t.totals.progress
      ensures t.totals.progress[c].admitted == t.totals.progress[c].retired + |Unretired(t.ledger.records, c)|
    {
      PutUnretired(s.ledger.records, task, r, c);
      assert s.totals.progress[c].admitted == s.totals.progress[c].retired + |Unretired(s.ledger.records, c)|;
    }
    forall c | 0 <= c < |t.loads.placed| && c < |t.loads.retiredBy|
      ensures t.loads.placed[c] == t.loads.retiredBy[c] + |Loaded(t.ledger.records, c)|
    {
      PutLoaded(s.ledger.records, task, r, c);
      assert s.loads.placed[c] == s.loads.retiredBy[c] + |Loaded(s.ledger.records, c)|;
    }
  }

  lemma {:induction false} ReserveKeeps(s: State, e: Event, limits: Limits)
    requires Invariant(s, limits) && e.Reserve? && Enabled(s, e, limits)
    ensures Invariant(After(s, e, limits), limits)
  {
    var t := Evicted(s, limits);
    EvictKeeps(s, limits);
    if t.ledger.recordCount < limits.records {
      AdmitKeeps(t, e.task, e.scope, e.carrier, limits);
    }
  }

  /** A reservation counts once in its scope, its carrier and the record total. */
  lemma {:induction false} ReservedIsCounted(s: State, task: nat, limits: Limits)
    requires Invariant(s, limits) && task in s.ledger.records && s.ledger.records[task].stage.Reserved?
    ensures var r := s.ledger.records[task];
            && r.scope in s.totals.scopes && r.scope in s.totals.progress && r.carrier < |s.loads.placed|
            && s.ledger.recordCount >= 1 && s.loads.placed[r.carrier] >= 1 && s.totals.progress[r.scope].admitted >= 1
            && s.loads.placed[r.carrier] > s.loads.retiredBy[r.carrier]
            && s.totals.progress[r.scope].admitted > s.totals.progress[r.scope].retired
  {
    var r := s.ledger.records[task];
    assert task in Unretired(s.ledger.records, r.scope) && task in Loaded(s.ledger.records, r.carrier) && task in Held(s.ledger.records);
  }

  lemma {:induction false} ReleaseBalances(s: State, task: nat, limits: Limits)
    requires Invariant(s, limits) && Enabled(s, Release(task), limits)
    ensures ScopesBalance(After(s, Release(task), limits)) && CarriersBalance(After(s, Release(task), limits))
  {
    var t := After(s, Release(task), limits);
    ReservedIsCounted(s, task, limits);
    forall c | c in t.totals.progress
      ensures t.totals.progress[c].admitted == t.totals.progress[c].retired + |Unretired(t.ledger.records, c)|
    {
      DropCounts(s.ledger.records, task, c);
      assert s.totals.progress[c].admitted == s.totals.progress[c].retired + |Unretired(s.ledger.records, c)|;
    }
    forall c | 0 <= c < |t.loads.placed| && c < |t.loads.retiredBy|
      ensures t.loads.placed[c] == t.loads.retiredBy[c] + |Loaded(t.ledger.records, c)|
    {
      DropCounts(s.ledger.records, task, c);
      assert s.loads.placed[c] == s.loads.retiredBy[c] + |Loaded(s.ledger.records, c)|;
    }
  }

  lemma {:induction false} ReleaseKeeps(s: State, task: nat, limits: Limits)
    requires Invariant(s, limits) && Enabled(s, Release(task), limits)
    ensures Invariant(After(s, Release(task), limits), limits)
  {
    ReservedIsCounted(s, task, limits);
    DropCounts(s.ledger.records, task, 0);
    ReleaseBalances(s, task, limits);
  }

  lemma {:induction false} MoveKeeps(s: State, e: Event, limits: Limits)
    requires Invariant(s, limits) && Enabled(s, e, limits) && (e.Push? || e.Prepare? || e.Observe?)
    ensures Invariant(After(s, e, limits), limits)
  {
    var t := After(s, e, limits);
    var r := t.ledger.records[e.task];
    PutHeld(s.ledger.records, e.task, r);
    forall c: nat
      ensures |Unretired(t.ledger.records, c)| == |Unretired(s.ledger.records, c)| && |Loaded(t.ledger.records, c)| == |Loaded(s.ledger.records, c)|
    {
      PutCounts(s.ledger.records, e.task, r, c);
    }
    SameCounts(s, t);
  }

  /** Advancing a batch past `Terminal` moves no record between scopes or carriers. */
  lemma {:induction false} AdvancedPlaces(s: State, t: State, batch: set<nat>, stage: Stage)
    requires Placed(s) && (stage.ScopeRetired? || stage.Retired?)
    requires t.ledger.records == Advanced(s.ledger.records, batch, stage)
    requires t.totals.scopes == s.totals.scopes && t.totals.progress.Keys == s.totals.progress.Keys
    requires |t.loads.placed| == |s.loads.placed| && |t.loads.retiredBy| == |s.loads.retiredBy| && |t.loads.seen| == |s.loads.seen|
    ensures Placed(t)
  {
    forall n | n in t.ledger.records
      ensures t.ledger.records[n].scope in t.totals.progress && t.ledger.records[n].carrier < |t.loads.placed|
      ensures t.ledger.records[n].held ==> t.ledger.records[n].scope in t.totals.scopes
      ensures t.ledger.records[n].stage.Reserved? || t.ledger.records[n].stage.Live? ==> t.ledger.records[n].held
    {
      assert s.ledger.records[n].scope in s.totals.progress.Keys;
    }
    assert forall c :: c in t.totals.scopes ==> c in s.totals.progress.Keys;
  }

  lemma {:induction false} RetireScopeKeeps(s: State, batch: set<nat>, scope: nat, limits: Limits)
    requires Invariant(s, limits) && Enabled(s, RetireScope(batch, scope), limits)
    ensures Invariant(After(s, RetireScope(batch, scope), limits), limits)
  {
    var t := After(s, RetireScope(batch, scope), limits);
    var one :| one in batch;
    assert s.ledger.records[one].scope in s.totals.progress;
    AdvancedPlaces(s, t, batch, ScopeRetired);
    RetireScopeBalances(s, batch, scope, limits);
  }

  lemma {:induction false} RetireScopeBalances(s: State, batch: set<nat>, scope: nat, limits: Limits)
    requires ScopesBalance(s) && CarriersBalance(s) && scope in s.totals.progress && Enabled(s, RetireScope(batch, scope), limits)
    ensures var t := After(s, RetireScope(batch, scope), limits);
            ScopesBalance(t) && CarriersBalance(t) && Held(t.ledger.records) == Held(s.ledger.records)
  {
    var t := After(s, RetireScope(batch, scope), limits);
    BatchLeavesScope(s.ledger.records, batch, scope, 0);
    forall c | c in t.totals.progress
      ensures t.totals.progress[c].admitted == t.totals.progress[c].retired + |Unretired(t.ledger.records, c)|
    {
      BatchLeavesScope(s.ledger.records, batch, scope, c);
      assert s.totals.progress[c].admitted == s.totals.progress[c].retired + |Unretired(s.ledger.records, c)|;
    }
    forall c | 0 <= c < |t.loads.placed| && c < |t.loads.retiredBy|
      ensures t.loads.placed[c] == t.loads.retiredBy[c] + |Loaded(t.ledger.records, c)|
    {
      BatchLeavesScope(s.ledger.records, batch, scope, c);
      assert s.loads.placed[c] == s.loads.retiredBy[c] + |Loaded(s.ledger.records, c)|;
    }
  }

  lemma {:induction false} RetireCarrierKeeps(s: State, batch: set<nat>, carrier: nat, limits: Limits)
    requires Invariant(s, limits) && Enabled(s, RetireCarrier(batch, carrier), limits)
    ensures Invariant(After(s, RetireCarrier(batch, carrier), limits), limits)
  {
    var t := After(s, RetireCarrier(batch, carrier), limits);
    var one :| one in batch;
    assert s.ledger.records[one].carrier < |s.loads.placed|;
    AdvancedPlaces(s, t, batch, Retired);
    RetireCarrierBalances(s, batch, carrier, limits);
  }

  lemma {:induction false} RetireCarrierBalances(s: State, batch: set<nat>, carrier: nat, limits: Limits)
    requires ScopesBalance(s) && CarriersBalance(s) && carrier < |s.loads.retiredBy| && Enabled(s, RetireCarrier(batch, carrier), limits)
    ensures var t := After(s, RetireCarrier(batch, carrier), limits);
            ScopesBalance(t) && CarriersBalance(t) && Held(t.ledger.records) == Held(s.ledger.records)
  {
    var t := After(s, RetireCarrier(batch, carrier), limits);
    BatchLeavesCarrier(s.ledger.records, batch, carrier, 0);
    forall c | c in t.totals.progress
      ensures t.totals.progress[c].admitted == t.totals.progress[c].retired + |Unretired(t.ledger.records, c)|
    {
      BatchLeavesCarrier(s.ledger.records, batch, carrier, c);
      assert s.totals.progress[c].admitted == s.totals.progress[c].retired + |Unretired(s.ledger.records, c)|;
    }
    forall c | 0 <= c < |t.loads.placed| && c < |t.loads.retiredBy|
      ensures t.loads.placed[c] == t.loads.retiredBy[c] + |Loaded(t.ledger.records, c)|
    {
      BatchLeavesCarrier(s.ledger.records, batch, carrier, c);
      assert s.loads.placed[c] == s.loads.retiredBy[c] + |Loaded(s.ledger.records, c)|;
    }
  }

  /** A scope with nothing active holds no reservation that could later be released. */
  lemma {:induction false} FinishKeeps(s: State, scope: nat, limits: Limits)
    requires Invariant(s, limits) && Enabled(s, Finish(scope), limits)
    ensures Invariant(After(s, Finish(scope), limits), limits)
    ensures s.ledger.recordCount >= |HeldBy(s.ledger.records, scope)|
  {
    var t := After(s, Finish(scope), limits);
    var gone := HeldBy(s.ledger.records, scope);
    assert gone <= Held(s.ledger.records);
    UnlistHeld(s.ledger.records, gone);
    forall c: nat
      ensures Unretired(t.ledger.records, c) == Unretired(s.ledger.records, c) && Loaded(t.ledger.records, c) == Loaded(s.ledger.records, c)
    {
      UnlistCounts(s.ledger.records, gone, c);
    }
    SameCounts(s, t);
    assert Unretired(s.ledger.records, scope) == {};
    FinishPlaces(s, scope, limits);
    FewerScopes(s.totals.scopes, scope);
  }

  lemma FewerScopes(scopes: map<nat, Scope>, scope: nat)
    requires scope in scopes
    ensures |scopes - {scope}| < |scopes|
  {
    assert scopes.Keys == (scopes - {scope}).Keys + {scope};
  }

  lemma {:induction false} FinishPlaces(s: State, scope: nat, limits: Limits)
    requires Placed(s) && Enabled(s, Finish(scope), limits) && Unretired(s.ledger.records, scope) == {}
    ensures Placed(After(s, Finish(scope), limits))
  {
    var t := After(s, Finish(scope), limits);
    forall n | n in t.ledger.records
      ensures t.ledger.records[n].held ==> t.ledger.records[n].scope in t.totals.scopes
      ensures t.ledger.records[n].stage.Reserved? || t.ledger.records[n].stage.Live? ==> t.ledger.records[n].held
    {
      assert n !in Unretired(s.ledger.records, scope);
      assert s.ledger.records[n].scope in s.totals.progress;
    }
  }

  lemma {:induction false} BeginBalances(s: State, scope: nat, limits: Limits)
    requires Placed(s) && ScopesBalance(s) && Enabled(s, Begin(scope), limits)
    ensures ScopesBalance(After(s, Begin(scope), limits))
  {
    var t := After(s, Begin(scope), limits);
    forall n | n in s.ledger.records
      ensures s.ledger.records[n].scope != scope
    {
      assert s.ledger.records[n].scope in s.totals.progress;
    }
    assert Unretired(s.ledger.records, scope) == {};
    forall c | c in t.totals.progress
      ensures t.totals.progress[c].admitted == t.totals.progress[c].retired + |Unretired(t.ledger.records, c)|
    {
      assert c in s.totals.progress ==> s.totals.progress[c].admitted == s.totals.progress[c].retired + |Unretired(s.ledger.records, c)|;
    }
  }

  lemma {:induction false} BeginKeeps(s: State, scope: nat, limits: Limits)
    requires Invariant(s, limits) && Enabled(s, Begin(scope), limits)
    ensures Invariant(After(s, Begin(scope), limits), limits)
  {
    var t := After(s, Begin(scope), limits);
    BeginBalances(s, scope, limits);
    forall c | 0 <= c < |t.loads.placed| && c < |t.loads.retiredBy|
      ensures t.loads.placed[c] == t.loads.retiredBy[c] + |Loaded(t.ledger.records, c)|
    {
      assert s.loads.placed[c] == s.loads.retiredBy[c] + |Loaded(s.ledger.records, c)|;
    }
    OneMoreScope(s.totals.scopes, scope);
  }

  lemma OneMoreScope(scopes: map<nat, Scope>, scope: nat)
    requires scope !in scopes
    ensures |scopes[scope := Scope(true, false)]| == |scopes| + 1
  {
    assert scopes[scope := Scope(true, false)].Keys == scopes.Keys + {scope};
  }

  lemma {:induction false} FlagKeeps(s: State, e: Event, limits: Limits)
    requires Invariant(s, limits) && Enabled(s, e, limits) && (e.Close? || e.Abort?)
    ensures Invariant(After(s, e, limits), limits)
  {
    var t := After(s, e, limits);
    assert t.totals.scopes.Keys == s.totals.scopes.Keys;
    SameCounts(s, t);
  }

  lemma {:induction false} ReadKeeps(s: State, e: Event, limits: Limits)
    requires Invariant(s, limits) && Enabled(s, e, limits) && (e.Probe? || e.ReadRetired? || e.ReadAdmitted?)
    ensures Invariant(After(s, e, limits), limits)
  {
    SameCounts(s, After(s, e, limits));
  }

  lemma {:induction false} InvariantKept(s: State, e: Event, limits: Limits)
    requires Invariant(s, limits) && Enabled(s, e, limits)
    ensures Invariant(After(s, e, limits), limits)
  {
    match e
    case Begin(scope) => BeginKeeps(s, scope, limits);
    case Close(_) => FlagKeeps(s, e, limits);
    case Abort(_) => FlagKeeps(s, e, limits);
    case Reserve(_, _, _, _) => ReserveKeeps(s, e, limits);
    case Release(task) => ReleaseKeeps(s, task, limits);
    case Push(_) => MoveKeeps(s, e, limits);
    case Prepare(_) => MoveKeeps(s, e, limits);
    case Observe(_) => MoveKeeps(s, e, limits);
    case RetireScope(batch, scope) => RetireScopeKeeps(s, batch, scope, limits);
    case RetireCarrier(batch, carrier) => RetireCarrierKeeps(s, batch, carrier, limits);
    case Finish(scope) => FinishKeeps(s, scope, limits);
    case Probe(_) => ReadKeeps(s, e, limits);
    case ReadRetired(_, _) => ReadKeeps(s, e, limits);
    case ReadAdmitted(_) => ReadKeeps(s, e, limits);
  }

  // ------------------------------------------------- whole runs

  ghost function Initial(carriers: nat): State {
    var none := seq(carriers, _ => 0);
    State(true, Totals(map[], map[], map[]), Ledger(map[], 0, 0), Loads(none, none, none))
  }

  ghost predicate Possible(s: State, run: seq<Event>, limits: Limits)
    decreases |run|
  {
    run == [] || (Enabled(s, run[0], limits) && Possible(After(s, run[0], limits), run[1..], limits))
  }

  ghost function Final(s: State, run: seq<Event>, limits: Limits): State
    requires Possible(s, run, limits)
    decreases |run|
  {
    if run == [] then s else Final(After(s, run[0], limits), run[1..], limits)
  }

  lemma {:induction false} InvariantAlways(s: State, run: seq<Event>, limits: Limits)
    requires Invariant(s, limits) && Possible(s, run, limits)
    ensures Invariant(Final(s, run, limits), limits)
    decreases |run|
  {
    if run != [] {
      InvariantKept(s, run[0], limits);
      InvariantAlways(After(s, run[0], limits), run[1..], limits);
    }
  }

  lemma {:induction false} InitiallyInvariant(carriers: nat, limits: Limits)
    ensures Invariant(Initial(carriers), limits)
  {
    var s := Initial(carriers);
    assert Held(s.ledger.records) == {};
    forall c: nat
      ensures Loaded(s.ledger.records, c) == {}
    {
    }
  }

  /**
   Over every run: the record count is the number of records listed by scopes and within
   its limit, and no scope or carrier has ever retired more than it was given.
   */
  lemma {:induction false} AccountsBalance(carriers: nat, run: seq<Event>, limits: Limits)
    requires Possible(Initial(carriers), run, limits)
    ensures var s := Final(Initial(carriers), run, limits);
            && s.ledger.recordCount == |Held(s.ledger.records)| <= limits.records && |s.totals.scopes| <= limits.scopes
            && (forall c :: c in s.totals.progress ==> s.totals.progress[c].retired <= s.totals.progress[c].admitted)
            && (forall c :: 0 <= c < |s.loads.placed| ==>
                 && c < |s.loads.retiredBy| && c < |s.loads.seen|
                 && s.loads.seen[c] <= s.loads.retiredBy[c] <= s.loads.placed[c])
  {
    InitiallyInvariant(carriers, limits);
    InvariantAlways(Initial(carriers), run, limits);
    var s := Final(Initial(carriers), run, limits);
    forall c | c in s.totals.progress
      ensures s.totals.progress[c].retired <= s.totals.progress[c].admitted
    {
      assert s.totals.progress[c].admitted == s.totals.progress[c].retired + |Unretired(s.ledger.records, c)|;
    }
    forall c | 0 <= c < |s.loads.placed|
      ensures s.loads.retiredBy[c] <= s.loads.placed[c]
    {
      assert s.loads.placed[c] == s.loads.retiredBy[c] + |Loaded(s.ledger.records, c)|;
    }
  }

  /** No checked subtraction fails, even where the operands were read at different times. */
  lemma {:induction false} SubtractionsAreSafe(s: State, e: Event, limits: Limits)
    requires Invariant(s, limits) && Enabled(s, e, limits)
    ensures e.Release? ==>
              var r := s.ledger.records[e.task];
              && s.ledger.recordCount >= 1 && r.carrier < |s.loads.placed| && s.loads.placed[r.carrier] >= 1
              && r.scope in s.totals.scopes && r.scope in s.totals.progress && s.totals.progress[r.scope].admitted >= 1
    ensures e.ReadAdmitted? ==>
              var r := s.totals.readers[e.reader];
              r.scope in s.totals.progress && s.totals.progress[r.scope].admitted >= r.retired
    ensures e.Reserve? && s.ledger.recordCount >= limits.records ==> s.ledger.recordCount >= |Evictable(s.ledger.records)|
    ensures e.Finish? ==> s.ledger.recordCount >= |HeldBy(s.ledger.records, e.scope)|
    ensures forall c :: 0 <= c < |s.loads.placed| && c < |s.loads.seen| ==> s.loads.placed[c] >= s.loads.seen[c]
  {
    if e.Release? { ReservedIsCounted(s, e.task, limits); }
    if e.ReadAdmitted? {
      var r := s.totals.readers[e.reader];
      assert s.totals.progress[r.scope].admitted == s.totals.progress[r.scope].retired + |Unretired(s.ledger.records, r.scope)|;
    }
    if e.Reserve? { EvictKeeps(s, limits); }
    if e.Finish? { FinishKeeps(s, e.scope, limits); }
    forall c | 0 <= c < |s.loads.placed| && c < |s.loads.seen|
      ensures s.loads.placed[c] >= s.loads.seen[c]
    {
      assert s.loads.placed[c] == s.loads.retiredBy[c] + |Loaded(s.ledger.records, c)|;
    }
  }
}
