/**
 The compressed cancellation graph, updated in place. Its ghost `history` is the
 uncompressed reference it must agree with on every token that is still present.
 */
module CancellationGraph {
  import opened Bits
  import opened Collections
  import opened Options
  import opened Signature
  import opened CancellationTopology
  import opened CancellationCompaction
  import opened CancellationSteps
  import opened CancellationOperations
  import H = CancellationHistory

  // ------------------------------------------------- views of the signatures

  /** The set each entry's signature denotes. */
  ghost function Denoted(nodes: Entries): Stored {
    map n | n in nodes :: Elements(nodes[n].signature)
  }

  ghost function Keyed(nodes: Entries): Fingerprints {
    map n | n in nodes :: Fingerprint(nodes[n].signature)
  }

  ghost predicate Signed(nodes: Entries) {
    && (forall n {:trigger nodes[n].signature} :: n in nodes ==> Valid(nodes[n].signature))
    && (forall n {:trigger nodes[n].signature} :: n in nodes && nodes[n].kind.Token? ==> nodes[n].signature == Singleton(n))
  }

  /** `nodes'` is `nodes` without `id`, with kinds and signatures unchanged. */
  ghost predicate Survive(nodes: Entries, nodes': Entries, id: nat) {
    && nodes'.Keys == nodes.Keys - {id}
    && forall n :: n in nodes' ==> nodes'[n].kind == nodes[n].kind && nodes'[n].signature == nodes[n].signature
  }

  lemma {:induction false} SurvivorsKeepViews(nodes: Entries, nodes': Entries, id: nat)
    requires Survive(nodes, nodes', id)
    ensures Denoted(nodes') == Denoted(nodes) - {id}
    ensures Keyed(nodes') == Keyed(nodes) - {id}
    ensures Signed(nodes) ==> Signed(nodes')
  {
    if Signed(nodes) {
      assert forall n :: n in nodes' ==> nodes'[n].signature == nodes[n].signature;
    }
  }

  lemma {:induction false} ErasedSurvive(nodes: Entries, id: nat, splice: bool)
    requires id in nodes
    ensures Survive(nodes, Erased(nodes, id, splice), id)
  {
  }

  lemma {:induction false} MergedSurvive(nodes: Entries, keep: nat, remove: nat)
    requires keep in nodes && remove in nodes
    ensures Survive(nodes, Merged(nodes, keep, remove), remove)
  {
  }

  lemma {:induction false} DenotedTokens(nodes: Entries)
    requires Signed(nodes)
    ensures TokensSigned(nodes, Denoted(nodes))
  {
    forall n | n in nodes && nodes[n].kind.Token?
      ensures Denoted(nodes)[n] == {n}
    {
      assert nodes[n].signature == Singleton(n);
    }
  }

  /** Recomputing from the parents' entries is the union of their denoted signatures. */
  lemma {:induction false} JoinedAtParents(nodes: Entries, id: nat)
    requires Linked(nodes) && id in nodes
    ensures Joined(nodes, Denoted(nodes), id) == set p, t | p in nodes[id].parents && t in Elements(nodes[p].signature) :: t
  {
    var stored := Denoted(nodes);
    assert forall p :: p in nodes[id].parents ==> p in stored && stored[p] == Elements(nodes[p].signature);
  }

  lemma {:induction false} ResignedViews(nodes: Entries, id: nat, signature: Signature)
    requires Signed(nodes) && IsRelay(nodes, id) && Valid(signature)
    ensures var nodes' := nodes[id := nodes[id].(signature := signature)];
            && Signed(nodes') && SameShape(nodes, nodes')
            && Denoted(nodes') == Denoted(nodes)[id := Elements(signature)]
            && Keyed(nodes') == Keyed(nodes)[id := Fingerprint(signature)]
            && forall n :: n in nodes ==> nodes'[n].cancelled == nodes[n].cancelled
  {
    var nodes' := nodes[id := nodes[id].(signature := signature)];
    assert forall n :: n in nodes && n != id ==> nodes'[n] == nodes[n];
    forall n | n in nodes'
      ensures Valid(nodes'[n].signature)
      ensures nodes'[n].kind.Token? ==> nodes'[n].signature == Singleton(n)
    {
      assert n == id || nodes'[n].signature == nodes[n].signature;
    }
  }

  lemma {:induction false} DemotedViews(nodes: Entries, id: nat, inherited: bool, signature: Signature)
    requires Signed(nodes) && id in nodes && Valid(signature)
    ensures var nodes' := Demoted(nodes, id, inherited, signature);
            && Signed(nodes')
            && Denoted(nodes') == Denoted(nodes)[id := Elements(signature)]
            && Keyed(nodes') == Keyed(nodes)[id := Fingerprint(signature)]
  {
    var nodes' := Demoted(nodes, id, inherited, signature);
    forall n | n in nodes'
      ensures Valid(nodes'[n].signature)
      ensures nodes'[n].kind.Token? ==> nodes'[n].signature == Singleton(n)
    {
      assert n == id || nodes'[n].signature == nodes[n].signature;
    }
  }

  lemma {:induction false} GrownViews(nodes: Entries, id: nat, parents: set<nat>, cancelled: bool)
    requires Signed(nodes) && id !in nodes && id < WORD
    ensures var nodes' := Grown(nodes, id, parents, cancelled, Singleton(id));
            && Signed(nodes')
            && Denoted(nodes') == Denoted(nodes)[id := {id}]
            && Keyed(nodes') == Keyed(nodes)[id := Fingerprint(Singleton(id))]
  {
    var nodes' := Grown(nodes, id, parents, cancelled, Singleton(id));
    forall n | n in nodes'
      ensures Valid(nodes'[n].signature)
      ensures nodes'[n].kind.Token? ==> nodes'[n].signature == Singleton(n)
    {
      assert n == id || nodes'[n].signature == nodes[n].signature;
    }
  }

  /** Views do not depend on flags. */
  lemma {:induction false} FlaggedViews(nodes: Entries, nodes': Entries)
    requires Signed(nodes) && nodes'.Keys == nodes.Keys
    requires forall n :: n in nodes ==> nodes'[n].kind == nodes[n].kind && nodes'[n].signature == nodes[n].signature
    ensures Signed(nodes') && Denoted(nodes') == Denoted(nodes) && Keyed(nodes') == Keyed(nodes)
  {
    forall n | n in nodes'
      ensures Valid(nodes'[n].signature)
      ensures nodes'[n].kind.Token? ==> nodes'[n].signature == Singleton(n)
    {
      assert nodes'[n].signature == nodes[n].signature;
    }
  }

  // ------------------------------------------------- outcomes of the compaction steps

  ghost predicate Running(nodes: Entries, index: RelayIndex, relays: nat, pending: Pending, x: nat, above: set<nat>) {
    Signed(nodes) && Consistent(nodes, Denoted(nodes), Keyed(nodes), index, relays, pending, x, above)
  }

  lemma {:induction false} EraseOutcome(nodes: Entries, index: RelayIndex, relays: nat, pending: Pending,
                                        nodes': Entries, index': RelayIndex, relays': nat, pending': Pending,
                                        x: nat, above: set<nat>, id: nat, state: SignatureState)
    requires Running(nodes, index, relays, pending[id := state], x, above) && IsRelay(nodes, id)
    requires Enqueued(pending, pending',
               if state.Dirty? then RelayWork(nodes[id].parents, nodes[id].children)
               else RelayWork(nodes[id].parents + nodes[id].children, {}))
    requires nodes' == Erased(nodes, id, true) && relays' == relays - 1
    requires Keyed(nodes)[id] in index && index' == Removed(index, Keyed(nodes)[id], id)
    ensures Running(nodes', index', relays', pending', x, above)
    ensures SameTokens(nodes, nodes') && nodes'.Keys <= nodes.Keys
  {
    ErasedSurvive(nodes, id, true);
    SurvivorsKeepViews(nodes, nodes', id);
    EraseStep(nodes, Denoted(nodes), Keyed(nodes), index, relays, pending,
              nodes', Denoted(nodes'), Keyed(nodes'), index', relays', pending', x, above, id, state);
  }

  lemma {:induction false} MergeOutcome(nodes: Entries, index: RelayIndex, relays: nat, pending: Pending,
                                        nodes': Entries, index': RelayIndex, relays': nat, pending': Pending,
                                        x: nat, above: set<nat>, id: nat, keep: nat, remove: nat)
    requires Running(nodes, index, relays, pending[id := Known], x, above)
    requires keep < remove && Duplicates(nodes, Denoted(nodes), keep, remove) && (id == keep || id == remove)
    requires Enqueued(pending, pending', RelayWork(nodes[remove].parents + nodes[remove].children + {keep}, {}))
    requires nodes' == Merged(nodes, keep, remove) && relays' == relays - 1
    requires Keyed(nodes)[remove] in index && index' == Removed(index, Keyed(nodes)[remove], remove)
    ensures Running(nodes', index', relays', pending', x, above)
    ensures SameTokens(nodes, nodes') && nodes'.Keys <= nodes.Keys
  {
    MergedSurvive(nodes, keep, remove);
    SurvivorsKeepViews(nodes, nodes', remove);
    MergeStep(nodes, Denoted(nodes), Keyed(nodes), index, relays, pending,
              nodes', Denoted(nodes'), Keyed(nodes'), index', relays', pending', x, above, id, keep, remove);
  }

  lemma {:induction false} RefreshOutcome(nodes: Entries, index: RelayIndex, relays: nat, pending: Pending,
                                          nodes': Entries, index': RelayIndex, pending': Pending, x: nat, above: set<nat>, id: nat, signature: Signature, key: Candidate)
    requires Running(nodes, index, relays, pending[id := Dirty], x, above) && IsRelay(nodes, id)
    requires forall m :: m in pending ==> id < m
    requires Valid(signature) && Elements(signature) == Joined(nodes, Denoted(nodes), id) && key == Fingerprint(signature)
    requires Denoted(nodes)[id] != Joined(nodes, Denoted(nodes), id)
    requires Enqueued(pending, pending', RelayWork({}, nodes[id].children))
    requires nodes' == nodes[id := nodes[id].(signature := signature)]
    requires Keyed(nodes)[id] in index && index' == Inserted(Removed(index, Keyed(nodes)[id], id), key, id)
    ensures Running(nodes', index', relays, pending'[id := Known], x, above)
    ensures SameTokens(nodes, nodes') && SameShape(nodes, nodes')
    ensures Naming(Denoted(nodes'), x) < Naming(Denoted(nodes), x)
  {
    ResignedViews(nodes, id, signature);
    RefreshStep(nodes, Denoted(nodes), Keyed(nodes), index, relays, pending,
                nodes', Denoted(nodes'), Keyed(nodes'), index', pending', x, above, id, key);
  }

  /** A visit that found nothing to do. */
  lemma {:induction false} IdleOutcome(nodes: Entries, index: RelayIndex, relays: nat, pending: Pending, x: nat, above: set<nat>,
                                       id: nat, state: SignatureState)
    requires Running(nodes, index, relays, pending[id := state], x, above)
    requires IsRelay(nodes, id) ==> state.Known? && !Thin(nodes[id]) && forall b :: !Duplicates(nodes, Denoted(nodes), id, b)
    ensures Running(nodes, index, relays, pending, x, above)
  {
    VisitedKeepsCovered(nodes, Denoted(nodes), pending, id, state);
  }

  lemma {:induction false} CleanOutcome(nodes: Entries, index: RelayIndex, relays: nat, pending: Pending, x: nat, above: set<nat>, id: nat)
    requires Running(nodes, index, relays, pending[id := Dirty], x, above) && IsRelay(nodes, id)
    requires Denoted(nodes)[id] == Joined(nodes, Denoted(nodes), id)
    ensures Running(nodes, index, relays, pending[id := Known], x, above)
  {
    CleanKeepsCovered(nodes, Denoted(nodes), pending, id);
  }

  // ------------------------------------------------- outcomes of the public operations

  /** Links, flags, signatures and index are right, and the graph is in normal form. */
  ghost predicate Compact(nodes: Entries, index: RelayIndex, relays: nat) {
    && Linked(nodes) && Inherited(nodes) && Signed(nodes)
    && Indexed(nodes, Keyed(nodes), index) && relays == |RelayIds(nodes)|
    && Normal(nodes, Denoted(nodes))
  }

  /** The graph knows no identity beyond the history, and agrees with it. */
  ghost predicate Refines(nodes: Entries, h: H.History) {
    H.WellFormed(h) && (forall n :: n in nodes ==> n < |h.parents|) && Agrees(nodes, h)
  }

  /** What holds between public operations. */
  ghost predicate Sound(nodes: Entries, index: RelayIndex, relays: nat, h: H.History, next: nat) {
    match h
    case History(parents, _) =>
      && Compact(nodes, index, relays) && NoEmptyBuckets(index)
      && Refines(nodes, h)
      && |parents| == next && next < WORD
  }

  /** The live tokens. */
  ghost function Tokens(nodes: Entries): set<nat> {
    set n | n in nodes && IsToken(nodes, n)
  }

  ghost predicate LosesToken(nodes: Entries, nodes': Entries, id: nat) {
    Tokens(nodes') == Tokens(nodes) - {id}
  }

  lemma {:induction false} TokensAre(nodes: Entries, nodes': Entries)
    requires forall n :: IsToken(nodes', n) <==> IsToken(nodes, n)
    ensures Tokens(nodes') == Tokens(nodes)
  {
  }

  lemma {:induction false} InsertStaysCompact(nodes: Entries, index: RelayIndex, relays: nat, id: nat, parents: set<nat>, cancelled: bool)
    requires Compact(nodes, index, relays) && Fresh(nodes, id, parents) && id < WORD
    requires cancelled <==> exists p :: p in parents && p in nodes && nodes[p].cancelled
    ensures Compact(Grown(nodes, id, parents, cancelled, Singleton(id)), index, relays)
  {
    GrownViews(nodes, id, parents, cancelled);
    GrownLinks(nodes, id, parents, cancelled, Singleton(id));
    GrownIsNormal(nodes, Denoted(nodes), id, parents, cancelled, Singleton(id));
    GrownIsIndexed(nodes, Keyed(nodes), index, id, parents, cancelled, Singleton(id), Fingerprint(Singleton(id)));
  }

  lemma {:induction false} InsertRefines(nodes: Entries, h: H.History, parents: set<nat>, cancelled: bool)
    requires Refines(nodes, h) && forall p :: p in parents ==> IsToken(nodes, p)
    requires cancelled <==> exists p :: p in parents && p in nodes && nodes[p].cancelled
    ensures H.WellFormed(H.Insert(h, parents)) && H.Insert(h, parents).cancelled[|h.parents|] == cancelled
    ensures Refines(Grown(nodes, |h.parents|, parents, cancelled, Singleton(|h.parents|)), H.Insert(h, parents))
  {
    GrownAgrees(nodes, h, parents, cancelled, Singleton(|h.parents|));
    assert forall p :: p in parents ==> IsToken(nodes, p);
  }

  lemma {:induction false} GrownTokens(nodes: Entries, id: nat, parents: set<nat>, cancelled: bool, signature: Signature)
    ensures forall n :: IsToken(Grown(nodes, id, parents, cancelled, signature), n) <==> IsToken(nodes, n) || n == id
  {
    var nodes' := Grown(nodes, id, parents, cancelled, signature);
    forall n
      ensures IsToken(nodes', n) <==> IsToken(nodes, n) || n == id
    {
      if n != id && n in nodes { assert nodes'[n].kind == nodes[n].kind; }
    }
  }

  lemma {:induction false} InsertOutcome(nodes: Entries, index: RelayIndex, relays: nat, h: H.History,
                                         nodes': Entries, h': H.History, id: nat, parents: set<nat>, cancelled: bool)
    requires Sound(nodes, index, relays, h, id) && id + 1 < WORD
    requires forall p :: p in parents ==> IsToken(nodes, p)
    requires cancelled <==> exists p :: p in parents && p in nodes && nodes[p].cancelled
    requires nodes' == Grown(nodes, id, parents, cancelled, Singleton(id)) && h' == H.Insert(h, parents)
    ensures id < |h'.cancelled| && h'.cancelled[id] == cancelled
    ensures Sound(nodes', index, relays, h', id + 1)
    ensures forall n :: IsToken(nodes', n) <==> IsToken(nodes, n) || n == id
  {
    InsertStaysCompact(nodes, index, relays, id, parents, cancelled);
    InsertRefines(nodes, h, parents, cancelled);
    GrownTokens(nodes, id, parents, cancelled, Singleton(id));
  }

  lemma {:induction false} LeafStaysCompact(nodes: Entries, index: RelayIndex, relays: nat, id: nat)
    requires Compact(nodes, index, relays)
    requires IsToken(nodes, id) && nodes[id].children == {} && forall p :: p in nodes[id].parents ==> IsToken(nodes, p)
    ensures Compact(Erased(nodes, id, true), index, relays)
  {
    LeafRemovalIsNormal(nodes, Denoted(nodes), id);
    EraseKeepsLinks(nodes, id);
    ErasedInherits(nodes, id);
    ErasedIsIndexed(nodes, Keyed(nodes), index, id, true);
    ErasedSurvive(nodes, id, true);
    SurvivorsKeepViews(nodes, Erased(nodes, id, true), id);
  }

  lemma {:induction false} EraseRefines(nodes: Entries, h: H.History, id: nat)
    requires Linked(nodes) && Refines(nodes, h) && IsToken(nodes, id)
    ensures Refines(Erased(nodes, id, true), h) && LosesToken(nodes, Erased(nodes, id, true), id)
  {
    ErasedAgrees(nodes, id, h);
  }

  lemma {:induction false} LeafOutcome(nodes: Entries, index: RelayIndex, relays: nat, h: H.History, next: nat, id: nat)
    requires Sound(nodes, index, relays, h, next)
    requires IsToken(nodes, id) && nodes[id].children == {} && forall p :: p in nodes[id].parents ==> IsToken(nodes, p)
    ensures Sound(Erased(nodes, id, true), index, relays, h, next) && LosesToken(nodes, Erased(nodes, id, true), id)
  {
    LeafStaysCompact(nodes, index, relays, id);
    EraseRefines(nodes, h, id);
  }

  lemma {:induction false} DemoteOutcome(nodes: Entries, index: RelayIndex, relays: nat, nodes': Entries, index': RelayIndex, relays': nat,
                                         id: nat, inherited: bool, signature: Signature, key: Candidate)
    requires Compact(nodes, index, relays) && IsToken(nodes, id) && !Thin(nodes[id])
    requires inherited <==> exists p :: p in nodes[id].parents && p in nodes && nodes[p].cancelled
    requires Valid(signature) && Elements(signature) == Above(nodes, id) && key == Fingerprint(signature)
    requires nodes' == Demoted(nodes, id, inherited, signature) && index' == Inserted(index, key, id) && relays' == relays + 1
    ensures Running(nodes', index', relays', Initial(RelayWork({id}, nodes[id].children)), id, Above(nodes, id))
  {
    DemotedViews(nodes, id, inherited, signature);
    DenotedTokens(nodes);
    DemotionStarts(nodes, Denoted(nodes), Keyed(nodes), index, relays, id, inherited, signature, key);
  }

  lemma {:induction false} DemoteRefines(nodes: Entries, h: H.History, nodes': Entries, id: nat, inherited: bool, signature: Signature)
    requires Linked(nodes) && Refines(nodes, h) && IsToken(nodes, id) && nodes' == Demoted(nodes, id, inherited, signature)
    ensures Refines(nodes', h) && LosesToken(nodes, nodes', id)
  {
    DemotedAgrees(nodes, id, inherited, signature, h);
  }

  lemma {:induction false} EraseTokenOutcome(nodes: Entries, index: RelayIndex, relays: nat, id: nat)
    requires Compact(nodes, index, relays) && IsToken(nodes, id)
    ensures Running(Erased(nodes, id, true), index, relays, Initial(RelayWork(nodes[id].parents, nodes[id].children)), id, Above(nodes, id))
  {
    DenotedTokens(nodes);
    ErasureStarts(nodes, Denoted(nodes), Keyed(nodes), index, relays, id);
    ErasedSurvive(nodes, id, true);
    SurvivorsKeepViews(nodes, Erased(nodes, id, true), id);
  }

  /** Flags below `id` are raised, no signature changed, and newly flagged relays are listed. */
  ghost predicate Marked(nodes: Entries, nodes': Entries, id: nat, changed: set<nat>) {
    && Spread(nodes, nodes', id) && Inherited(nodes')
    && (forall n :: n in nodes' ==> n in nodes && nodes'[n].signature == nodes[n].signature)
    && (forall n :: IsRelay(nodes', n) && !nodes[n].cancelled && nodes'[n].cancelled ==> n in changed)
  }

  lemma {:induction false} SpreadRuns(nodes: Entries, index: RelayIndex, relays: nat, next: nat,
                                      nodes': Entries, changed: set<nat>, id: nat)
    requires Compact(nodes, index, relays) && forall n :: n in nodes ==> n < next
    requires Marked(nodes, nodes', id, changed)
    ensures Running(nodes', index, relays, Initial(RelayWork(changed, {})), next, {})
  {
    FlaggedViews(nodes, nodes');
    DenotedTokens(nodes);
    SpreadStarts(nodes, Denoted(nodes), Keyed(nodes), index, relays, nodes', changed, next);
  }

  lemma {:induction false} SpreadRefines(nodes: Entries, h: H.History, nodes': Entries, h': H.History, id: nat)
    requires Refines(nodes, h) && IsToken(nodes, id) && Spread(nodes, nodes', id) && h' == H.Cancel(h, id)
    ensures Refines(nodes', h') && |h'.parents| == |h.parents|
    ensures forall n :: IsToken(nodes', n) <==> IsToken(nodes, n)
  {
    SpreadAgrees(nodes, nodes', id, h);
  }

  lemma {:induction false} SpreadReport(nodes: Entries, h: H.History, nodes': Entries, id: nat, n: nat)
    requires Refines(nodes, h) && IsToken(nodes, id) && Spread(nodes, nodes', id)
    ensures IsToken(nodes', n) && !nodes[n].cancelled && nodes'[n].cancelled <==>
            IsToken(nodes, n) && !H.Cancelled(h, n) && H.Cancelled(H.Cancel(h, id), n)
  {
    SpreadAgrees(nodes, nodes', id, h);
    if n in nodes {
      assert IsToken(nodes', n) <==> IsToken(nodes, n);
    }
  }

  /** The newly flagged live handles. */
  ghost predicate Reported(nodes: Entries, nodes': Entries, live: set<nat>, cancelled: seq<nat>) {
    forall n :: n in cancelled <==> IsToken(nodes', n) && n in nodes && n in live && !nodes[n].cancelled && nodes'[n].cancelled
  }

  /** The live handles a cancellation newly reaches in the history. */
  ghost predicate Reached(nodes: Entries, h: H.History, h': H.History, live: set<nat>, cancelled: seq<nat>) {
    forall n :: n in cancelled <==> IsToken(nodes, n) && n in live && !H.Cancelled(h, n) && H.Cancelled(h', n)
  }

  /** The newly flagged tokens are those the history newly cancels. */
  lemma {:induction false} SpreadReports(nodes: Entries, h: H.History, nodes': Entries, h': H.History, id: nat, live: set<nat>, cancelled: seq<nat>)
    requires Refines(nodes, h) && IsToken(nodes, id) && Spread(nodes, nodes', id) && h' == H.Cancel(h, id)
    requires Reported(nodes, nodes', live, cancelled)
    ensures Reached(nodes, h, h', live, cancelled)
  {
    forall n
      ensures n in cancelled <==> IsToken(nodes, n) && n in live && !H.Cancelled(h, n) && H.Cancelled(h', n)
    {
      SpreadReport(nodes, h, nodes', id, n);
    }
  }

  /** Raising flags below `id` is the history's cancellation, with some relays left to revisit. */
  lemma {:induction false} SpreadOutcome(nodes: Entries, index: RelayIndex, relays: nat, h: H.History, next: nat,
                                         nodes': Entries, h': H.History, changed: set<nat>, cancelled: seq<nat>, id: nat, live: set<nat>)
    requires Sound(nodes, index, relays, h, next) && IsToken(nodes, id)
    requires Marked(nodes, nodes', id, changed) && Reported(nodes, nodes', live, cancelled) && h' == H.Cancel(h, id)
    ensures Running(nodes', index, relays, Initial(RelayWork(changed, {})), next, {})
    ensures Refines(nodes', h') && |h'.parents| == next && Reached(nodes, h, h', live, cancelled)
    ensures Tokens(nodes') == Tokens(nodes)
  {
    SpreadReports(nodes, h, nodes', h', id, live, cancelled);
    SpreadRuns(nodes, index, relays, next, nodes', changed, id);
    SpreadRefines(nodes, h, nodes', h', id);
    TokensAre(nodes, nodes');
  }

  /** Compaction changes nothing the history can observe. */
  lemma {:induction false} CompactionRefines(nodes: Entries, nodes': Entries, h: H.History)
    requires Refines(nodes, h) && SameTokens(nodes, nodes') && nodes'.Keys <= nodes.Keys
    ensures Refines(nodes', h)
  {
    SameTokensAgree(nodes, nodes', h);
  }

  // ------------------------------------------------- partially applied rewrites

  /** `base` after the entries in `done` forgot child `id`. */
  function WithoutChild(base: Entries, id: nat, done: set<nat>): Entries {
    map n | n in base :: if n in done then base[n].(children := base[n].children - {id}) else base[n]
  }

  function WithoutParent(base: Entries, id: nat, done: set<nat>): Entries {
    map n | n in base :: if n in done then base[n].(parents := base[n].parents - {id}) else base[n]
  }

  /** `base` after the entries in `done` exchanged parent `remove` for `keep`. */
  function WithParent(base: Entries, keep: nat, remove: nat, done: set<nat>): Entries {
    map n | n in base :: if n in done then base[n].(parents := base[n].parents - {remove} + {keep}) else base[n]
  }

  lemma {:induction false} DetachSteps(nodes: Entries, id: nat)
    requires Linked(nodes) && id in nodes
    ensures WithoutParent(WithoutChild(nodes - {id}, id, nodes[id].parents), id, nodes[id].children) == Detached(nodes, id)
  {
    var steps := WithoutParent(WithoutChild(nodes - {id}, id, nodes[id].parents), id, nodes[id].children);
    forall n | n in nodes && n != id
      ensures steps[n] == Detached(nodes, id)[n]
    {
      if n !in nodes[id].parents { assert id !in nodes[n].children; }
      if n !in nodes[id].children { assert id !in nodes[n].parents; }
    }
  }

  lemma {:induction false} MergeSteps(nodes: Entries, keep: nat, remove: nat)
    requires Linked(nodes) && keep in nodes && remove in nodes && keep < remove
    ensures keep in nodes - {remove}
    ensures var steps := WithParent(WithoutChild(nodes - {remove}, remove, nodes[remove].parents), keep, remove, nodes[remove].children);
            steps[keep := steps[keep].(children := steps[keep].children + nodes[remove].children)] == Merged(nodes, keep, remove)
  {
    var steps := WithParent(WithoutChild(nodes - {remove}, remove, nodes[remove].parents), keep, remove, nodes[remove].children);
    var merged := steps[keep := steps[keep].(children := steps[keep].children + nodes[remove].children)];
    forall n | n in nodes && n != remove
      ensures merged[n] == Merged(nodes, keep, remove)[n]
    {
      if n !in nodes[remove].parents { assert remove !in nodes[n].children; }
      if n !in nodes[remove].children { assert remove !in nodes[n].parents; }
      assert nodes[n].children - {remove} + {} == nodes[n].children - {remove};
    }
  }

  ghost predicate SameFields(a: Entry, b: Entry) {
    && a.kind == b.kind && a.cancelled == b.cancelled && a.signature == b.signature
    && a.parents == b.parents && a.children == b.children
  }

  lemma {:induction false} SameEntries(a: Entries, b: Entries)
    requires a.Keys == b.Keys
    requires forall n :: n in a ==> SameFields(a[n], b[n])
    ensures a == b
  {
    forall n | n in a
      ensures a[n] == b[n]
    {
      assert SameFields(a[n], b[n]);
    }
  }

  lemma {:induction false} SpliceNothing(base: Entries, parents: set<nat>, children: set<nat>)
    requires parents == {} || children == {}
    ensures Spliced(base, parents, children) == base
  {
    var spliced := Spliced(base, parents, children);
    forall n | n in base
      ensures SameFields(spliced[n], base[n])
    {
      assert base[n].children + {} == base[n].children && base[n].parents + {} == base[n].parents;
    }
    SameEntries(spliced, base);
  }

  /** `now` with one more edge, unless it is there. */
  function Linking(now: Entries, parent: nat, c: nat): Entries
    requires parent in now && c in now
  {
    if c in now[parent].children then now
    else now[parent := now[parent].(children := now[parent].children + {c})]
            [c := now[c].(parents := now[c].parents + {parent})]
  }

  lemma {:induction false} SpliceOneMoreAt(base: Entries, parent: nat, done: set<nat>, c: nat, n: nat)
    requires parent in base && c in base && parent != c && parent !in done && c !in done && n in base
    requires c in base[parent].children <==> parent in base[c].parents
    ensures SameFields(Spliced(base, {parent}, done + {c})[n], Linking(Spliced(base, {parent}, done), parent, c)[n])
  {
    if n == parent {
      assert base[n].children + (done + {c}) == base[n].children + done + {c};
    } else if n == c {
      assert c in base[parent].children ==> base[c].parents + {parent} == base[c].parents;
    }
  }

  /** One more child below one parent. */
  lemma {:induction false} SpliceOneMore(base: Entries, parent: nat, done: set<nat>, c: nat)
    requires parent in base && c in base && parent != c && parent !in done && c !in done
    requires c in base[parent].children <==> parent in base[c].parents
    ensures Spliced(base, {parent}, done + {c}) == Linking(Spliced(base, {parent}, done), parent, c)
  {
    var then', step := Spliced(base, {parent}, done + {c}), Linking(Spliced(base, {parent}, done), parent, c);
    forall n | n in base
      ensures SameFields(then'[n], step[n])
    {
      SpliceOneMoreAt(base, parent, done, c, n);
    }
    SameEntries(then', step);
  }

  lemma {:induction false} SpliceOneParent(base: Entries, done: set<nat>, p: nat, children: set<nat>)
    requires p in base
    ensures Spliced(Spliced(base, done, children), {p}, children) == Spliced(base, done + {p}, children)
  {
    var both := Spliced(Spliced(base, done, children), {p}, children);
    var once := Spliced(base, done + {p}, children);
    forall n | n in base
      ensures SameFields(both[n], once[n])
    {
      assert base[n].parents + (done + {p}) == base[n].parents + done + {p};
      assert base[n].children + children + children == base[n].children + children;
    }
    SameEntries(both, once);
  }

  class Graph {
    var next: nat
    var relays: nat
    var nodes: Entries
    var relayIndex: RelayIndex
    ghost var history: H.History

    ghost predicate Counted()
      reads this
    {
      relays == |RelayIds(nodes)| && Indexed(nodes, Keyed(nodes), relayIndex) && NoEmptyBuckets(relayIndex)
    }

    ghost predicate Invariant()
      reads this
    {
      Sound(nodes, relayIndex, relays, history, next)
    }

    ghost predicate Compacting(pending: Pending, x: nat, above: set<nat>)
      reads this
    {
      Running(nodes, relayIndex, relays, pending, x, above) && NoEmptyBuckets(relayIndex)
    }

    constructor ()
      ensures Invariant()
      ensures nodes == map[] && next == 0 && history == H.NO_HISTORY
    {
      next, relays, nodes, relayIndex := 0, 0, map[], map[];
      history := H.NO_HISTORY;
    }

    method IndexRelay(id: nat)
      requires IsRelay(nodes, id) && NoEmptyBuckets(relayIndex)
      modifies `relayIndex
      ensures relayIndex == Inserted(old(relayIndex), Fingerprint(nodes[id].signature), id)
      ensures NoEmptyBuckets(relayIndex)
    {
      var c := Fingerprint(nodes[id].signature);
      BucketsStayFull(relayIndex, c, id);
      var ids := if c in relayIndex then relayIndex[c] else {};
      relayIndex := relayIndex[c := ids + {id}];
    }

    method UnindexRelay(id: nat)
      requires IsRelay(nodes, id) && Indexed(nodes, Keyed(nodes), relayIndex) && NoEmptyBuckets(relayIndex)
      modifies `relayIndex
      ensures Keyed(nodes)[id] in old(relayIndex)
      ensures relayIndex == Removed(old(relayIndex), Keyed(nodes)[id], id)
      ensures NoEmptyBuckets(relayIndex)
    {
      var c := Fingerprint(nodes[id].signature);
      assert Keyed(nodes)[id] == c;
      assert c in relayIndex && id in relayIndex[c];
      BucketsStayFull(relayIndex, c, id);
      var ids := relayIndex[c] - {id};
      relayIndex := relayIndex[c := ids];
      if ids == {} {
        relayIndex := relayIndex - {c};
      }
    }

    method ForgetChild(id: nat, parents: set<nat>)
      requires parents <= nodes.Keys
      modifies `nodes
      ensures nodes == WithoutChild(old(nodes), id, parents)
    {
      var todo := parents;
      assert nodes == WithoutChild(old(nodes), id, {});
      while todo != {}
        invariant todo <= parents <= nodes.Keys
        invariant nodes == WithoutChild(old(nodes), id, parents - todo)
        decreases todo
      {
        var p :| p in todo;
        nodes := nodes[p := nodes[p].(children := nodes[p].children - {id})];
        todo := todo - {p};
      }
      assert parents - {} == parents;
    }

    method ForgetParent(id: nat, children: set<nat>)
      requires children <= nodes.Keys
      modifies `nodes
      ensures nodes == WithoutParent(old(nodes), id, children)
    {
      var todo := children;
      assert nodes == WithoutParent(old(nodes), id, {});
      while todo != {}
        invariant todo <= children <= nodes.Keys
        invariant nodes == WithoutParent(old(nodes), id, children - todo)
        decreases todo
      {
        var c :| c in todo;
        nodes := nodes[c := nodes[c].(parents := nodes[c].parents - {id})];
        todo := todo - {c};
      }
      assert children - {} == children;
    }

    /** Links one parent to every child, skipping edges that already exist. */
    method LinkChildren(parent: nat, children: set<nat>)
      requires parent in nodes && children <= nodes.Keys && parent !in children
      requires forall c :: c in children ==> (c in nodes[parent].children <==> parent in nodes[c].parents)
      modifies `nodes
      ensures nodes == Spliced(old(nodes), {parent}, children)
    {
      ghost var base := nodes;
      var todo := children;
      SpliceNothing(base, {parent}, {});
      assert children - children == {};
      while todo != {}
        invariant todo <= children
        invariant nodes == Spliced(base, {parent}, children - todo)
        decreases todo
      {
        var c :| c in todo;
        SpliceOneMore(base, parent, children - todo, c);
        if c !in nodes[parent].children {
          nodes := nodes[parent := nodes[parent].(children := nodes[parent].children + {c})];
          nodes := nodes[c := nodes[c].(parents := nodes[c].parents + {parent})];
        }
        assert children - (todo - {c}) == children - todo + {c};
        todo := todo - {c};
      }
      assert children - {} == children;
    }

    method Splice(parents: set<nat>, children: set<nat>)
      requires Linked(nodes) && parents <= nodes.Keys && children <= nodes.Keys
      requires parents !! children
      modifies `nodes
      ensures nodes == Spliced(old(nodes), parents, children)
    {
      ghost var base := nodes;
      var todo := parents;
      SpliceNothing(base, {}, children);
      assert parents - parents == {};
      while todo != {}
        invariant todo <= parents
        invariant nodes == Spliced(base, parents - todo, children)
        decreases todo
      {
        var p :| p in todo;
        ghost var done := parents - todo;
        assert nodes[p].children == base[p].children;
        LinkChildren(p, children);
        todo := todo - {p};
        SpliceOneParent(base, done, p, children);
        assert parents - todo == done + {p};
      }
      assert parents - {} == parents;
    }

    /** Removes an entry and every edge to it. */
    method Detach(id: nat)
      requires Linked(nodes) && id in nodes
      modifies `nodes
      ensures nodes == Detached(old(nodes), id)
    {
      var entry := nodes[id];
      nodes := nodes - {id};
      ForgetChild(id, entry.parents);
      ForgetParent(id, entry.children);
      DetachSteps(old(nodes), id);
    }

    /** Removes an entry, optionally joining its parents to its children. */
    method Erase(id: nat, splice: bool, descendantsDirty: bool) returns (work: RelayWork)
      requires Linked(nodes) && id in nodes && Counted()
      modifies `nodes, `relays, `relayIndex
      ensures nodes == Erased(old(nodes), id, splice)
      ensures old(nodes[id].kind.Token?) ==> relayIndex == old(relayIndex) && relays == old(relays)
      ensures NoEmptyBuckets(relayIndex)
      ensures old(nodes[id].kind.Relay?) ==>
                && Keyed(old(nodes))[id] in old(relayIndex)
                && relayIndex == Removed(old(relayIndex), Keyed(old(nodes))[id], id)
                && relays == old(relays) - 1
      ensures work == if descendantsDirty then RelayWork(old(nodes[id].parents), old(nodes[id].children))
                      else RelayWork(old(nodes[id].parents + nodes[id].children), {})
    {
      var entry := nodes[id];
      assert entry.kind.Relay? ==> id in RelayIds(nodes);
      if entry.kind.Relay? {
        UnindexRelay(id);
        relays := relays - 1;
      }
      Detach(id);
      if splice {
        Splice(entry.parents, entry.children);
      }
      work := if descendantsDirty then RelayWork(entry.parents, entry.children)
              else RelayWork(entry.parents + entry.children, {});
    }

    method AdoptChildren(keep: nat, remove: nat, children: set<nat>)
      requires children <= nodes.Keys
      modifies `nodes
      ensures nodes == WithParent(old(nodes), keep, remove, children)
    {
      var todo := children;
      assert nodes == WithParent(old(nodes), keep, remove, {});
      while todo != {}
        invariant todo <= children <= nodes.Keys
        invariant nodes == WithParent(old(nodes), keep, remove, children - todo)
        decreases todo
      {
        var c :| c in todo;
        nodes := nodes[c := nodes[c].(parents := nodes[c].parents - {remove} + {keep})];
        todo := todo - {c};
      }
      assert children - {} == children;
    }

    /** Folds relay `remove` into the equivalent relay `keep`. */
    method MergeRelays(keep: nat, remove: nat) returns (work: RelayWork)
      requires Linked(nodes) && Counted()
      requires keep < remove && Duplicates(nodes, Denoted(nodes), keep, remove)
      modifies `nodes, `relays, `relayIndex
      ensures nodes == Merged(old(nodes), keep, remove)
      ensures Keyed(old(nodes))[remove] in old(relayIndex)
      ensures relayIndex == Removed(old(relayIndex), Keyed(old(nodes))[remove], remove)
      ensures relays == old(relays) - 1 && NoEmptyBuckets(relayIndex)
      ensures work == RelayWork(old(nodes[remove].parents + nodes[remove].children + {keep}), {})
    {
      ghost var before := nodes;
      var entry := nodes[remove];
      assert remove in RelayIds(nodes);
      UnindexRelay(remove);
      relays := relays - 1;
      nodes := nodes - {remove};
      ForgetChild(remove, entry.parents);
      AdoptChildren(keep, remove, entry.children);
      nodes := nodes[keep := nodes[keep].(children := nodes[keep].children + entry.children)];
      MergeSteps(before, keep, remove);
      work := RelayWork(entry.parents + entry.children + {keep}, {});
    }

    /** The union of the signatures stored at `parents`. */
    method SignatureFor(parents: set<nat>) returns (signature: Signature)
      requires parents <= nodes.Keys && forall n :: n in nodes ==> Valid(nodes[n].signature)
      ensures Valid(signature)
      ensures Elements(signature) == set p, t | p in parents && t in Elements(nodes[p].signature) :: t
    {
      signature := Empty;
      var todo := parents;
      while todo != {}
        invariant todo <= parents
        invariant Valid(signature)
        invariant Elements(signature) == set p, t | p in parents - todo && t in Elements(nodes[p].signature) :: t
        decreases todo
      {
        var p :| p in todo;
        var sameArc, compareArc := *, *;
        signature := Union(signature, nodes[p].signature, sameArc, compareArc);
        assert parents - (todo - {p}) == parents - todo + {p};
        todo := todo - {p};
      }
      assert parents - {} == parents;
    }

    /** Some other relay with the same flag and exactly the same signature, if there is one. */
    method EquivalentRelay(id: nat) returns (matched: Option<nat>)
      requires IsRelay(nodes, id) && Indexed(nodes, Keyed(nodes), relayIndex)
      requires forall n :: n in nodes ==> Valid(nodes[n].signature)
      ensures matched.Some? ==> Duplicates(nodes, Denoted(nodes), id, matched.value)
      ensures matched.None? ==> forall b :: !Duplicates(nodes, Denoted(nodes), id, b)
    {
      var entry := nodes[id];
      var c := Fingerprint(entry.signature);
      assert Keyed(nodes)[id] == c && c in relayIndex;
      var todo := if c in relayIndex then relayIndex[c] else {};
      while todo != {}
        invariant todo <= relayIndex[c]
        invariant forall b :: b in relayIndex[c] - todo ==> !Duplicates(nodes, Denoted(nodes), id, b)
        decreases todo
      {
        var other :| other in todo;
        assert other in relayIndex[c] && IsRelay(nodes, other);
        todo := todo - {other};
        if other != id && nodes[other].cancelled == entry.cancelled {
          var sameArc := *;
          if SameSet(entry.signature, nodes[other].signature, sameArc) {
            return Some(other);
          }
        }
      }
      forall b
        ensures !Duplicates(nodes, Denoted(nodes), id, b)
      {
        assert b in relayIndex[c] ==> b in relayIndex[c] - {};
        if IsRelay(nodes, b) {
          SignatureIsCanonical(entry.signature, nodes[b].signature);
          assert Keyed(nodes)[b] == Fingerprint(nodes[b].signature);
        }
      }
      matched := None;
    }

    /** Visits a relay that one edge can replace. */
    method VisitThin(id: nat, state: SignatureState, pending: Pending, ghost x: nat, ghost above: set<nat>) returns (r: Pending)
      requires IsRelay(nodes, id) && Compacting(pending[id := state], x, above)
      modifies `nodes, `relays, `relayIndex
      ensures Compacting(r, x, above)
      ensures nodes.Keys <= old(nodes.Keys) && SameTokens(old(nodes), nodes)
      ensures relays < old(relays)
    {
      var affected := Erase(id, true, state.Dirty?);
      r := EnqueueAll(pending, affected);
      EraseOutcome(old(nodes), old(relayIndex), old(relays), pending, nodes, relayIndex, relays, r, x, above, id, state);
    }

    /** Recomputes a dirty relay's signature and dirties its children if it changed. */
    method RefreshSignature(id: nat, pending: Pending, ghost x: nat, ghost above: set<nat>) returns (r: Pending)
      requires IsRelay(nodes, id) && Compacting(pending[id := Dirty], x, above)
      requires forall m :: m in pending ==> id < m
      modifies `nodes, `relayIndex
      ensures Compacting(r[id := Known], x, above)
      ensures SameTokens(old(nodes), nodes) && SameShape(old(nodes), nodes)
      ensures (nodes == old(nodes) && r == pending) || Naming(Denoted(nodes), x) < Naming(Denoted(old(nodes)), x)
    {
      var parents := nodes[id].parents;
      var signature := SignatureFor(parents);
      JoinedAtParents(nodes, id);
      var previous := nodes[id].signature;
      var sameArc := *;
      if SameSet(previous, signature, sameArc) {
        CleanOutcome(nodes, relayIndex, relays, pending, x, above, id);
        r := pending;
        return;
      }
      r := StoreSignature(id, signature, pending, x, above);
    }

    /** Replaces a stale signature by the exact one and dirties the children. */
    method StoreSignature(id: nat, signature: Signature, pending: Pending, ghost x: nat, ghost above: set<nat>) returns (r: Pending)
      requires IsRelay(nodes, id) && Compacting(pending[id := Dirty], x, above)
      requires forall m :: m in pending ==> id < m
      requires Valid(signature) && Elements(signature) == Joined(nodes, Denoted(nodes), id)
      requires Denoted(nodes)[id] != Joined(nodes, Denoted(nodes), id)
      modifies `nodes, `relayIndex
      ensures Compacting(r[id := Known], x, above)
      ensures SameTokens(old(nodes), nodes) && SameShape(old(nodes), nodes)
      ensures Naming(Denoted(nodes), x) < Naming(Denoted(old(nodes)), x)
    {
      var children := nodes[id].children;
      Resign(id, signature);
      r := EnqueueAll(pending, RelayWork({}, children));
      RefreshOutcome(old(nodes), old(relayIndex), relays, pending, nodes, relayIndex, r, x, above, id, signature, Fingerprint(signature));
    }

    /** Stores a new signature and moves the relay to its bucket. */
    method Resign(id: nat, signature: Signature)
      requires IsRelay(nodes, id) && Indexed(nodes, Keyed(nodes), relayIndex) && NoEmptyBuckets(relayIndex)
      modifies `nodes, `relayIndex
      ensures nodes == old(nodes)[id := old(nodes)[id].(signature := signature)]
      ensures Keyed(old(nodes))[id] in old(relayIndex)
      ensures relayIndex == Inserted(Removed(old(relayIndex), Keyed(old(nodes))[id], id), Fingerprint(signature), id)
      ensures NoEmptyBuckets(relayIndex)
    {
      UnindexRelay(id);
      nodes := nodes[id := nodes[id].(signature := signature)];
      IndexRelay(id);
    }

    /** Folds the younger of two equivalent relays into the older one. */
    method Fold(id: nat, other: nat, pending: Pending, ghost x: nat, ghost above: set<nat>) returns (r: Pending)
      requires Compacting(pending[id := Known], x, above) && Duplicates(nodes, Denoted(nodes), id, other)
      modifies `nodes, `relays, `relayIndex
      ensures Compacting(r, x, above)
      ensures SameTokens(old(nodes), nodes) && nodes.Keys <= old(nodes.Keys) && relays < old(relays)
    {
      var keep, remove := if id < other then id else other, if id < other then other else id;
      var affected := MergeRelays(keep, remove);
      r := EnqueueAll(pending, affected);
      MergeOutcome(old(nodes), old(relayIndex), old(relays), pending, nodes, relayIndex, relays, r, x, above, id, keep, remove);
    }

    /** Looks for an equivalent relay and merges with it. */
    method VisitDuplicate(id: nat, pending: Pending, ghost x: nat, ghost above: set<nat>) returns (r: Pending)
      requires IsRelay(nodes, id) && !Thin(nodes[id]) && Compacting(pending[id := Known], x, above)
      modifies `nodes, `relays, `relayIndex
      ensures Compacting(r, x, above)
      ensures SameTokens(old(nodes), nodes) && nodes.Keys <= old(nodes.Keys)
      ensures (nodes == old(nodes) && relays == old(relays) && r == pending) || relays < old(relays)
    {
      var other := EquivalentRelay(id);
      if other.None? {
        IdleOutcome(nodes, relayIndex, relays, pending, x, above, id, Known);
        r := pending;
      } else {
        r := Fold(id, other.value, pending, x, above);
      }
    }

    /** One visit: whatever it does, it makes lexicographic progress. */
    method Visit(id: nat, state: SignatureState, pending: Pending, ghost x: nat, ghost above: set<nat>) returns (r: Pending)
      requires Compacting(pending[id := state], x, above)
      requires forall m :: m in pending ==> id < m
      modifies `nodes, `relays, `relayIndex
      ensures Compacting(r, x, above)
      ensures SameTokens(old(nodes), nodes) && nodes.Keys <= old(nodes.Keys)
      ensures
        || relays < old(relays)
        || (relays == old(relays) && Naming(Denoted(nodes), x) < Naming(Denoted(old(nodes)), x))
        || (relays == old(relays) && nodes == old(nodes) && r == pending)
    {
      r := pending;
      if id !in nodes || nodes[id].kind.Token? {
        IdleOutcome(nodes, relayIndex, relays, pending, x, above, id, state);
      } else if Thin(nodes[id]) {
        r := VisitThin(id, state, pending, x, above);
      } else {
        r := VisitThick(id, state, pending, x, above);
      }
    }

    /** Brings a relay that no edge can replace up to date, then looks for its duplicates. */
    method VisitThick(id: nat, state: SignatureState, pending: Pending, ghost x: nat, ghost above: set<nat>) returns (r: Pending)
      requires IsRelay(nodes, id) && !Thin(nodes[id]) && Compacting(pending[id := state], x, above)
      requires forall m :: m in pending ==> id < m
      modifies `nodes, `relays, `relayIndex
      ensures Compacting(r, x, above)
      ensures SameTokens(old(nodes), nodes) && nodes.Keys <= old(nodes.Keys)
      ensures
        || relays < old(relays)
        || (relays == old(relays) && Naming(Denoted(nodes), x) < Naming(Denoted(old(nodes)), x))
        || (relays == old(relays) && nodes == old(nodes) && r == pending)
    {
      r := pending;
      if state.Dirty? {
        r := RefreshSignature(id, pending, x, above);
      }
      r := VisitDuplicate(id, r, x, above);
    }

    /**
     Restores the normal form from any state whose violations are accounted for.
     `x` is the token being removed (or any unused identity) and `above` the tokens above it.
     */
    method Normalize(initial: RelayWork, ghost x: nat, ghost above: set<nat>)
      requires Compacting(Initial(initial), x, above)
      modifies `nodes, `relays, `relayIndex
      ensures Compact(nodes, relayIndex, relays) && NoEmptyBuckets(relayIndex)
      ensures SameTokens(old(nodes), nodes) && nodes.Keys <= old(nodes.Keys)
    {
      var pending := EnqueueAll(map[], initial);
      assert pending == Initial(initial);
      Drain(pending, x, above);
      NothingPendingIsNormal(nodes, Denoted(nodes), x, above);
    }

    /** Visits pending relays, oldest first, until none is left. */
    method Drain(initial: Pending, ghost x: nat, ghost above: set<nat>)
      requires Compacting(initial, x, above)
      modifies `nodes, `relays, `relayIndex
      ensures Compacting(map[], x, above)
      ensures SameTokens(old(nodes), nodes) && nodes.Keys <= old(nodes.Keys)
    {
      var pending := initial;
      while pending != map[]
        invariant Compacting(pending, x, above)
        invariant SameTokens(old(nodes), nodes) && nodes.Keys <= old(nodes.Keys)
        decreases relays, |Naming(Denoted(nodes), x)|, |pending|
      {
        var id := First(pending);
        var state := pending[id];
        ghost var whole, names := pending, Naming(Denoted(nodes), x);
        PopAndRestore(pending, id);
        pending := pending - {id};
        pending := Visit(id, state, pending, x, above);
        SmallerNaming(Naming(Denoted(nodes), x), names);
        PoppedIsSmaller(whole, id);
      }
    }

    // ----------------------------------------------- public operations

    method GainChild(id: nat, parents: set<nat>) returns (cancelled: bool)
      requires parents <= nodes.Keys && id !in nodes
      modifies `nodes
      ensures nodes == WithChild(old(nodes), id, parents)
      ensures cancelled <==> exists p :: p in parents && p in old(nodes) && old(nodes)[p].cancelled
    {
      cancelled := false;
      var todo := parents;
      assert nodes == WithChild(old(nodes), id, {});
      while todo != {}
        invariant todo <= parents <= nodes.Keys
        invariant nodes == WithChild(old(nodes), id, parents - todo)
        invariant cancelled <==> exists p :: p in parents - todo && old(nodes)[p].cancelled
        decreases todo
      {
        var p :| p in todo;
        cancelled := cancelled || nodes[p].cancelled;
        nodes := nodes[p := nodes[p].(children := nodes[p].children + {id})];
        todo := todo - {p};
      }
      assert parents - {} == parents;
    }

    /** Adds a childless token entry. */
    method Grow(id: nat, parents: set<nat>) returns (cancelled: bool)
      requires parents <= nodes.Keys && id !in nodes
      modifies `nodes
      ensures nodes == Grown(old(nodes), id, parents, cancelled, Singleton(id))
      ensures cancelled <==> exists p :: p in parents && p in old(nodes) && old(nodes)[p].cancelled
    {
      cancelled := GainChild(id, parents);
      nodes := nodes[id := Entry(Token, cancelled, parents, {}, Singleton(id))];
    }

    /** Adds the entry and records the new token in the history. */
    method Extend(id: nat, parents: set<nat>) returns (cancelled: bool)
      requires parents <= nodes.Keys && id !in nodes
      requires H.WellFormed(history) && forall p :: p in parents ==> p < |history.parents|
      modifies `nodes, `next, `history
      ensures nodes == Grown(old(nodes), id, parents, cancelled, Singleton(id))
      ensures cancelled <==> exists p :: p in parents && p in old(nodes) && old(nodes)[p].cancelled
      ensures next == id + 1 && history == H.Insert(old(history), parents)
    {
      cancelled := Grow(id, parents);
      next := id + 1;
      history := H.Insert(history, parents);
    }

    /** Creates the next token below `parents`; it inherits a parent's cancellation. */
    method Insert(parents: set<nat>) returns (id: nat, cancelled: bool)
      requires Invariant() && next + 1 < WORD
      requires forall p :: p in parents ==> IsToken(nodes, p)
      modifies this
      ensures Invariant()
      ensures id == old(next) && next == id + 1
      ensures history == H.Insert(old(history), parents) && cancelled == history.cancelled[id]
      ensures forall n :: IsToken(nodes, n) <==> IsToken(old(nodes), n) || n == id
    {
      id := next;
      cancelled := Extend(id, parents);
      InsertOutcome(old(nodes), relayIndex, relays, old(history), nodes, history, id, parents, cancelled);
    }

    /** Drops a token whose only neighbours are token parents. */
    method RemoveLeaf(id: nat)
      requires Invariant() && IsToken(nodes, id) && nodes[id].children == {}
      requires forall p :: p in nodes[id].parents ==> IsToken(nodes, p)
      modifies `nodes
      ensures Invariant() && LosesToken(old(nodes), nodes, id)
    {
      Unhook(id);
      LeafOutcome(old(nodes), relayIndex, relays, history, next, id);
    }

    /** Removes a childless entry without touching the index. */
    method Unhook(id: nat)
      requires Linked(nodes) && id in nodes && nodes[id].children == {}
      modifies `nodes
      ensures nodes == Erased(old(nodes), id, true)
    {
      var entry := nodes[id];
      nodes := nodes - {id};
      ForgetChild(id, entry.parents);
      LeafErased(old(nodes), id);
    }

    method InheritedFlag(parents: set<nat>) returns (inherited: bool)
      requires parents <= nodes.Keys
      ensures inherited <==> exists p :: p in parents && p in nodes && nodes[p].cancelled
    {
      inherited := exists p :: p in parents && nodes[p].cancelled;
    }

    /** Turns a token into a relay that carries the signature of its parents. */
    method BecomeRelay(id: nat, inherited: bool, signature: Signature)
      requires Invariant() && IsToken(nodes, id) && !Thin(nodes[id])
      requires inherited <==> exists p :: p in nodes[id].parents && p in nodes && nodes[p].cancelled
      requires Valid(signature) && Elements(signature) == Above(nodes, id)
      modifies `nodes, `relays, `relayIndex
      ensures Compacting(Initial(RelayWork({id}, old(nodes[id].children))), id, Above(old(nodes), id))
      ensures Refines(nodes, history) && LosesToken(old(nodes), nodes, id)
    {
      Relabel(id, inherited, signature);
      DemoteOutcome(old(nodes), old(relayIndex), old(relays), nodes, relayIndex, relays, id, inherited, signature, Fingerprint(signature));
      DemoteRefines(old(nodes), history, nodes, id, inherited, signature);
    }

    method Relabel(id: nat, inherited: bool, signature: Signature)
      requires IsToken(nodes, id) && NoEmptyBuckets(relayIndex)
      modifies `nodes, `relays, `relayIndex
      ensures nodes == Demoted(old(nodes), id, inherited, signature)
      ensures relays == old(relays) + 1
      ensures relayIndex == Inserted(old(relayIndex), Fingerprint(signature), id) && NoEmptyBuckets(relayIndex)
    {
      nodes := nodes[id := nodes[id].(kind := Relay, cancelled := inherited, signature := signature)];
      relays := relays + 1;
      IndexRelay(id);
    }

    /** What a token hands on when it is dropped: its parents' flag and signature. */
    method Inheritance(id: nat) returns (inherited: bool, signature: Signature)
      requires Compact(nodes, relayIndex, relays) && IsToken(nodes, id)
      ensures inherited <==> exists p :: p in nodes[id].parents && p in nodes && nodes[p].cancelled
      ensures Valid(signature) && Elements(signature) == Above(nodes, id)
    {
      inherited := InheritedFlag(nodes[id].parents);
      signature := SignatureFor(nodes[id].parents);
      JoinedAtParents(nodes, id);
      NormalIsJoined(nodes, Denoted(nodes), id);
    }

    /** Restores the invariant from pending work. */
    method Settle(initial: RelayWork, ghost x: nat, ghost above: set<nat>)
      requires Compacting(Initial(initial), x, above)
      requires Refines(nodes, history) && |history.parents| == next && next < WORD
      modifies `nodes, `relays, `relayIndex
      ensures Invariant() && Tokens(nodes) == Tokens(old(nodes))
    {
      Normalize(initial, x, above);
      CompactionRefines(old(nodes), nodes, history);
      TokensAre(old(nodes), nodes);
    }

    /** Keeps a token's ancestry as a relay. */
    method Demote(id: nat)
      requires Invariant() && IsToken(nodes, id) && !Thin(nodes[id])
      modifies `nodes, `relays, `relayIndex
      ensures Invariant() && LosesToken(old(nodes), nodes, id)
    {
      var children := nodes[id].children;
      var inherited, signature := Inheritance(id);
      BecomeRelay(id, inherited, signature);
      Settle(RelayWork({id}, children), id, Above(old(nodes), id));
    }

    /** Drops a token, joining its parents to its children. */
    method EraseToken(id: nat)
      requires Invariant() && IsToken(nodes, id)
      modifies `nodes, `relays, `relayIndex
      ensures Invariant() && LosesToken(old(nodes), nodes, id)
    {
      var affected := Drop(id);
      Settle(affected, id, Above(old(nodes), id));
    }

    method Drop(id: nat) returns (affected: RelayWork)
      requires Invariant() && IsToken(nodes, id)
      modifies `nodes, `relays, `relayIndex
      ensures Compacting(Initial(affected), id, Above(old(nodes), id))
      ensures Refines(nodes, history) && LosesToken(old(nodes), nodes, id)
    {
      affected := Erase(id, true, true);
      EraseTokenOutcome(old(nodes), old(relayIndex), old(relays), id);
      EraseRefines(old(nodes), history, id);
    }

    /** Forgets a dropped token without changing what the remaining ones inherit. */
    method Remove(id: nat)
      requires Invariant() && IsToken(nodes, id)
      modifies `nodes, `relays, `relayIndex
      ensures Invariant() && LosesToken(old(nodes), nodes, id)
    {
      var entry := nodes[id];
      if entry.children == {} && forall p :: p in entry.parents ==> nodes[p].kind.Token? {
        RemoveLeaf(id);
      } else if |entry.parents| > 1 && |entry.children| > 1 {
        Demote(id);
      } else {
        EraseToken(id);
      }
    }

    /** Raises the flag of `id` and of everything below it, and reports what changed. */
    method MarkBelow(id: nat, live: set<nat>) returns (changed: set<nat>, cancelled: seq<nat>)
      requires Linked(nodes) && Inherited(nodes) && id in nodes
      modifies `nodes
      ensures Marked(old(nodes), nodes, id, changed) && Distinct(cancelled)
      ensures Reported(old(nodes), nodes, live, cancelled)
    {
      ghost var marked;
      changed, cancelled, marked := VisitBelow(id, live);
      MarkedIsSpread(old(nodes), marked, id);
    }

    /** The depth-first walk over entries that are not cancelled yet. */
    method VisitBelow(id: nat, live: set<nat>) returns (changed: set<nat>, cancelled: seq<nat>, ghost marked: set<nat>)
      requires Linked(nodes) && Inherited(nodes) && id in nodes
      modifies `nodes
      ensures nodes == Flagged(old(nodes), marked) && Marking(old(nodes), id, marked, [])
      ensures forall n :: n in marked && old(nodes)[n].kind.Relay? ==> n in changed
      ensures Distinct(cancelled)
      ensures forall n :: n in cancelled <==> n in marked && old(nodes)[n].kind.Token? && n in live
    {
      ghost var base := nodes;
      marked := {};
      var pending := [id];
      changed, cancelled := {}, [];
      MarkingStarts(base, id);
      while pending != []
        invariant nodes == Flagged(base, marked)
        invariant Marking(base, id, marked, pending)
        invariant forall n :: n in marked && base[n].kind.Relay? ==> n in changed
        invariant Distinct(cancelled)
        invariant forall n :: n in cancelled <==> n in marked && base[n].kind.Token? && n in live
        decreases base.Keys - marked, |pending|
      {
        var n := pending[|pending| - 1];
        assert pending == pending[..|pending| - 1] + [n];
        pending := pending[..|pending| - 1];
        if nodes[n].cancelled {
          MarkingSkips(base, id, marked, pending, n);
        } else {
          FlagOneMore(base, marked, n);
          nodes := nodes[n := nodes[n].(cancelled := true)];
          if nodes[n].kind.Relay? {
            changed := changed + {n};
          } else if n in live {
            cancelled := cancelled + [n];
          }
          var children := Listed(nodes[n].children);
          MarkingSteps(base, id, marked, pending, n, children);
          pending := pending + children;
          marked := marked + {n};
        }
      }
    }

    /** Cancels a token and everything below it; returns the handles that changed. */
    method CancelNodes(id: nat, live: set<nat>) returns (cancelled: seq<nat>)
      requires Invariant() && IsToken(nodes, id)
      modifies `nodes, `relays, `relayIndex, `history
      ensures Invariant() && history == H.Cancel(old(history), id) && Tokens(nodes) == Tokens(old(nodes))
      ensures Distinct(cancelled) && Reached(old(nodes), old(history), history, live, cancelled)
    {
      var changed;
      changed, cancelled := SpreadFlags(id, live);
      Settle(RelayWork(changed, {}), next, {});
    }

    method SpreadFlags(id: nat, live: set<nat>) returns (changed: set<nat>, cancelled: seq<nat>)
      requires Invariant() && IsToken(nodes, id)
      modifies `nodes, `history
      ensures Compacting(Initial(RelayWork(changed, {})), next, {})
      ensures Refines(nodes, history) && |history.parents| == next && history == H.Cancel(old(history), id)
      ensures Tokens(nodes) == Tokens(old(nodes))
      ensures Distinct(cancelled) && Reached(old(nodes), old(history), history, live, cancelled)
    {
      changed, cancelled := RaiseFlags(id, live);
      SpreadOutcome(old(nodes), relayIndex, relays, old(history), next, nodes, history, changed, cancelled, id, live);
    }

    /** Raises the flags and records the cancellation in the history. */
    method RaiseFlags(id: nat, live: set<nat>) returns (changed: set<nat>, cancelled: seq<nat>)
      requires Linked(nodes) && Inherited(nodes) && id in nodes && H.WellFormed(history)
      modifies `nodes, `history
      ensures Marked(old(nodes), nodes, id, changed) && Reported(old(nodes), nodes, live, cancelled) && Distinct(cancelled)
      ensures history == H.Cancel(old(history), id)
    {
      changed, cancelled := MarkBelow(id, live);
      history := H.Cancel(history, id);
    }
  }

  // ------------------------------------------------- what the invariant means

  /** Without live tokens the graph is empty: an oldest relay would have no parents. */
  lemma {:induction false} NoTokensNoNodes(nodes: Entries, index: RelayIndex, relays: nat, h: H.History, next: nat)
    requires Sound(nodes, index, relays, h, next) && forall n :: !IsToken(nodes, n)
    ensures nodes == map[] && relays == 0 && index == map[]
  {
    forall n
      ensures n !in nodes
    {
      OldestIsToken(nodes, Denoted(nodes), n);
    }
    assert nodes.Keys == {} && RelayIds(nodes) == {};
    BucketsHoldRelays(nodes, Keyed(nodes), index);
    assert index.Keys == {};
  }

  /**
   Between public operations: tokens have the history's ancestry and flags, every relay has
   several parents and children and an exact signature, no two relays share flag and
   ancestry, and the index holds exactly the relays.
   */
  lemma {:induction false} InvariantMeans(nodes: Entries, index: RelayIndex, relays: nat, h: H.History, next: nat, a: nat, b: nat)
    requires Sound(nodes, index, relays, h, next)
    ensures IsToken(nodes, a) && IsToken(nodes, b) ==> (Reaches(nodes, a, b) <==> H.Ancestor(h, a, b))
    ensures IsToken(nodes, a) ==> (nodes[a].cancelled <==> H.Cancelled(h, a))
    ensures IsRelay(nodes, a) ==> |nodes[a].parents| >= 2 && |nodes[a].children| >= 2 && Elements(nodes[a].signature) == Above(nodes, a)
    ensures IsRelay(nodes, a) && IsRelay(nodes, b) && a != b && nodes[a].cancelled == nodes[b].cancelled ==> Above(nodes, a) != Above(nodes, b)
    ensures IsRelay(nodes, a) <==> exists c :: c in index && a in index[c]
  {
    var stored := Denoted(nodes);
    if IsRelay(nodes, a) {
      assert stored[a] == Nearest(nodes, a);
      var c := Keyed(nodes)[a];
      assert c in index && a in index[c];
    }
    if IsRelay(nodes, b) {
      assert stored[b] == Nearest(nodes, b);
    }
    assert !Duplicates(nodes, stored, a, b);
  }

  lemma {:induction false} BucketsHoldRelays(nodes: Entries, keys: Fingerprints, index: RelayIndex)
    requires Indexed(nodes, keys, index) && NoEmptyBuckets(index)
    ensures index.Keys != {} ==> exists n :: IsRelay(nodes, n)
  {
    if index.Keys != {} {
      var c :| c in index;
      var n :| n in index[c];
      assert IsRelay(nodes, n);
    }
  }

  lemma {:induction false} OldestIsToken(nodes: Entries, stored: Stored, n: nat)
    requires Linked(nodes) && stored.Keys == nodes.Keys && Normal(nodes, stored) && forall m :: !IsToken(nodes, m)
    ensures n !in nodes
    decreases n
  {
    if n in nodes {
      assert !IsToken(nodes, n) && IsRelay(nodes, n);
      var p :| p in nodes[n].parents;
      OldestIsToken(nodes, stored, p);
    }
  }

  /** The elements of a set in some order. */
  method Listed(ids: set<nat>) returns (r: seq<nat>)
    ensures forall n :: n in ids <==> n in r
  {
    r := [];
    var todo := ids;
    while todo != {}
      invariant todo <= ids && forall n :: n in ids - todo <==> n in r
      decreases todo
    {
      var n :| n in todo;
      r := r + [n];
      todo := todo - {n};
    }
  }

  lemma {:induction false} LeafErased(nodes: Entries, id: nat)
    requires Linked(nodes) && id in nodes && nodes[id].children == {}
    ensures WithoutChild(nodes - {id}, id, nodes[id].parents) == Erased(nodes, id, true)
  {
    DetachSteps(nodes, id);
    SpliceNothing(Detached(nodes, id), nodes[id].parents, {});
    var left := WithoutChild(nodes - {id}, id, nodes[id].parents);
    assert WithoutParent(left, id, {}) == left;
  }

  lemma {:induction false} SmallerNaming(a: set<nat>, b: set<nat>)
    ensures a < b ==> |a| < |b|
  {
    if a < b {
      assert b == a + (b - a);
      assert |b - a| > 0;
    }
  }

  lemma {:induction false} PopAndRestore(pending: Pending, id: nat)
    requires id in pending && forall m :: m in pending ==> id <= m
    ensures (pending - {id})[id := pending[id]] == pending
    ensures forall m :: m in pending - {id} ==> id < m
  {
  }

  lemma {:induction false} PoppedIsSmaller(pending: Pending, id: nat)
    requires id in pending
    ensures |pending - {id}| < |pending|
  {
    assert pending.Keys == (pending - {id}).Keys + {id};
  }
}
