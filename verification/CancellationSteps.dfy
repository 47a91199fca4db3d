/**
 One compaction step at a time: what erasing, merging and re-signing a relay do to the
 whole accounting (links, flags, index, approximate signatures, pending work).
 Signatures appear only as the sets they denote and the fingerprints they carry.
 */
module CancellationSteps {
  import opened Signature
  import opened CancellationTopology
  import opened CancellationCompaction

  type RelayIndex = map<Candidate, set<nat>>

  type Fingerprints = map<nat, Candidate>

  /** A cancelled parent has only cancelled children. */
  ghost predicate Inherited(nodes: Entries) {
    forall n, p {:trigger p in nodes[n].parents} ::
      n in nodes && p in nodes[n].parents && p in nodes && nodes[p].cancelled ==> nodes[n].cancelled
  }

  ghost function RelayIds(nodes: Entries): set<nat> {
    set n | n in nodes && nodes[n].kind.Relay?
  }

  /** The index lists each relay under its own fingerprint, and nothing else. */
  ghost predicate Indexed(nodes: Entries, keys: Fingerprints, index: RelayIndex) {
    && keys.Keys == nodes.Keys
    && (forall c, n {:trigger n in index[c]} :: c in index && n in index[c] ==> IsRelay(nodes, n) && keys[n] == c)
    && (forall n :: IsRelay(nodes, n) ==> keys[n] in index && n in index[keys[n]])
  }

  /** A fingerprint with no relays has no bucket. */
  ghost predicate NoEmptyBuckets(index: RelayIndex) {
    forall c :: c in index ==> index[c] != {}
  }

  // ------------------------------------------------- the index

  function Inserted(index: RelayIndex, c: Candidate, id: nat): RelayIndex {
    index[c := (if c in index then index[c] else {}) + {id}]
  }

  function Removed(index: RelayIndex, c: Candidate, id: nat): RelayIndex
    requires c in index
  {
    var ids := index[c] - {id};
    if ids == {} then index - {c} else index[c := ids]
  }

  lemma {:induction false} BucketsStayFull(index: RelayIndex, c: Candidate, id: nat)
    requires NoEmptyBuckets(index)
    ensures NoEmptyBuckets(Inserted(index, c, id))
    ensures c in index ==> NoEmptyBuckets(Removed(index, c, id))
  {
    var index' := Inserted(index, c, id);
    assert id in index'[c];
  }

  /** `nodes'` has the relays of `nodes` except `id`. */
  ghost predicate LosesRelay(nodes: Entries, nodes': Entries, id: nat) {
    forall n :: IsRelay(nodes', n) <==> IsRelay(nodes, n) && n != id
  }

  lemma {:induction false} RemovedIsIndexed(nodes: Entries, keys: Fingerprints, index: RelayIndex, nodes': Entries, keys': Fingerprints, id: nat)
    requires Indexed(nodes, keys, index) && IsRelay(nodes, id)
    requires LosesRelay(nodes, nodes', id) && keys'.Keys == nodes'.Keys
    requires forall n :: IsRelay(nodes', n) ==> keys'[n] == keys[n]
    ensures keys[id] in index && Indexed(nodes', keys', Removed(index, keys[id], id))
  {
    var c := keys[id];
    var index' := Removed(index, c, id);
    forall d, n | d in index' && n in index'[d]
      ensures IsRelay(nodes', n) && keys'[n] == d
    {
      assert d in index && n in index[d];
      assert n != id;
    }
    forall n | IsRelay(nodes', n)
      ensures keys'[n] in index' && n in index'[keys'[n]]
    {
      assert IsRelay(nodes, n);
      var d := keys[n];
      assert d in index && n in index[d];
      if d == c { assert n in index[c] - {id}; }
    }
  }

  lemma {:induction false} InsertedIsIndexed(nodes: Entries, keys: Fingerprints, index: RelayIndex, nodes': Entries, keys': Fingerprints, id: nat)
    requires Indexed(nodes, keys, index) && IsRelay(nodes', id)
    requires LosesRelay(nodes', nodes, id) && keys'.Keys == nodes'.Keys
    requires forall n :: IsRelay(nodes, n) ==> n in keys' && keys'[n] == keys[n]
    ensures Indexed(nodes', keys', Inserted(index, keys'[id], id))
  {
    var c := keys'[id];
    var index' := Inserted(index, c, id);
    forall d, n | d in index' && n in index'[d]
      ensures IsRelay(nodes', n) && keys'[n] == d
    {
      if n != id || d != c {
        assert d in index && n in index[d];
      }
    }
  }

  lemma {:induction false} RelaysShrink(nodes: Entries, nodes': Entries, id: nat)
    requires IsRelay(nodes, id) && LosesRelay(nodes, nodes', id)
    ensures |RelayIds(nodes)| > 0 && |RelayIds(nodes')| == |RelayIds(nodes)| - 1
  {
    assert forall n :: n in RelayIds(nodes) <==> IsRelay(nodes, n);
    assert forall n :: n in RelayIds(nodes') <==> IsRelay(nodes', n);
    assert RelayIds(nodes') == RelayIds(nodes) - {id};
  }

  /** The index stays right while the same entries are relays under the same keys. */
  lemma {:induction false} IndexStays(nodes: Entries, keys: Fingerprints, index: RelayIndex, nodes': Entries, keys': Fingerprints)
    requires Indexed(nodes, keys, index) && keys'.Keys == nodes'.Keys
    requires forall n :: IsRelay(nodes', n) <==> IsRelay(nodes, n)
    requires forall n :: IsRelay(nodes, n) ==> n in keys' && keys'[n] == keys[n]
    ensures Indexed(nodes', keys', index) && RelayIds(nodes') == RelayIds(nodes)
  {
    forall c, n | c in index && n in index[c]
      ensures IsRelay(nodes', n) && keys'[n] == c
    {
      assert IsRelay(nodes, n);
    }
    forall n
      ensures n in RelayIds(nodes') <==> n in RelayIds(nodes)
    {
      assert IsRelay(nodes', n) <==> IsRelay(nodes, n);
    }
  }

  /** Erasing keeps the index exact; it loses the entry only if that was a relay. */
  lemma {:induction false} ErasedIsIndexed(nodes: Entries, keys: Fingerprints, index: RelayIndex, id: nat, splice: bool)
    requires Indexed(nodes, keys, index) && id in nodes
    ensures nodes[id].kind.Token? ==>
              && Indexed(Erased(nodes, id, splice), keys - {id}, index)
              && |RelayIds(Erased(nodes, id, splice))| == |RelayIds(nodes)|
    ensures nodes[id].kind.Relay? ==>
              && keys[id] in index && |RelayIds(nodes)| > 0
              && Indexed(Erased(nodes, id, splice), keys - {id}, Removed(index, keys[id], id))
              && |RelayIds(Erased(nodes, id, splice))| == |RelayIds(nodes)| - 1
  {
    var nodes' := Erased(nodes, id, splice);
    assert nodes'.Keys == nodes.Keys - {id};
    assert forall n :: n in nodes' ==> nodes'[n].kind == nodes[n].kind;
    if nodes[id].kind.Relay? {
      RelaysShrink(nodes, nodes', id);
      RemovedIsIndexed(nodes, keys, index, nodes', keys - {id}, id);
    } else {
      IndexStays(nodes, keys, index, nodes', keys - {id});
    }
  }

  // ------------------------------------------------- what compaction leaves alone

  /** The same tokens, with the same flags and the same tokens above them. */
  ghost predicate SameTokens(nodes: Entries, nodes': Entries) {
    && (forall n :: IsToken(nodes, n) <==> IsToken(nodes', n))
    && (forall n {:trigger Above(nodes, n)} {:trigger Above(nodes', n)} {:trigger nodes'[n].cancelled} ::
         IsToken(nodes, n) ==> nodes'[n].cancelled == nodes[n].cancelled && Above(nodes', n) == Above(nodes, n))
  }

  lemma {:induction false} ErasedRelaySameTokens(nodes: Entries, id: nat)
    requires Linked(nodes) && IsRelay(nodes, id)
    ensures SameTokens(nodes, Erased(nodes, id, true))
  {
    forall n | IsToken(nodes, n)
      ensures Above(Erased(nodes, id, true), n) == Above(nodes, n)
    {
      EraseRelayNearest(nodes, id, n);
    }
  }

  lemma {:induction false} MergedSameTokens(nodes: Entries, keep: nat, remove: nat)
    requires Linked(nodes) && IsRelay(nodes, keep) && IsRelay(nodes, remove) && keep < remove
    requires Nearest(nodes, keep) == Nearest(nodes, remove)
    ensures SameTokens(nodes, Merged(nodes, keep, remove))
  {
    forall n | IsToken(nodes, n)
      ensures Above(Merged(nodes, keep, remove), n) == Above(nodes, n)
    {
      MergeNearest(nodes, keep, remove, n);
    }
  }

  /** `nodes'` differs from `nodes` in flags and signatures only. */
  ghost predicate SameShape(nodes: Entries, nodes': Entries) {
    && nodes'.Keys == nodes.Keys
    && forall n :: n in nodes ==>
         nodes'[n].kind == nodes[n].kind && nodes'[n].parents == nodes[n].parents && nodes'[n].children == nodes[n].children
  }

  lemma {:induction false} SameShapeNearest(nodes: Entries, nodes': Entries, n: nat)
    requires SameShape(nodes, nodes')
    ensures Above(nodes', n) == Above(nodes, n) && Nearest(nodes', n) == Nearest(nodes, n)
    decreases n
  {
    if n in nodes {
      forall p | p in nodes[n].parents && p < n
        ensures Nearest(nodes', p) == Nearest(nodes, p)
      {
        SameShapeNearest(nodes, nodes', p);
      }
      assert nodes'[n].parents == nodes[n].parents;
      forall t
        ensures t in Above(nodes', n) <==> t in Above(nodes, n)
      {
        if t in Above(nodes', n) {
          var p :| p in nodes'[n].parents && p < n && t in Nearest(nodes', p);
          NearestInAbove(nodes, n, p);
        }
        if t in Above(nodes, n) {
          var p :| p in nodes[n].parents && p < n && t in Nearest(nodes, p);
          NearestInAbove(nodes', n, p);
        }
      }
    }
  }

  lemma {:induction false} SameShapeReaches(nodes: Entries, nodes': Entries, a: nat, b: nat)
    requires SameShape(nodes, nodes')
    ensures Reaches(nodes', a, b) <==> Reaches(nodes, a, b)
    decreases b
  {
    if b in nodes {
      forall p | p in nodes[b].parents && p < b
        ensures Reaches(nodes', a, p) <==> Reaches(nodes, a, p)
      {
        SameShapeReaches(nodes, nodes', a, p);
      }
      assert nodes'[b].parents == nodes[b].parents;
    }
  }

  lemma {:induction false} ErasedInherits(nodes: Entries, id: nat)
    requires Linked(nodes) && Inherited(nodes) && id in nodes
    ensures Inherited(Erased(nodes, id, true))
  {
    var nodes' := Erased(nodes, id, true);
    forall n, p | n in nodes' && p in nodes'[n].parents && p in nodes' && nodes'[p].cancelled
      ensures nodes'[n].cancelled
    {
      if p !in nodes[n].parents {
        assert p in nodes[id].parents && id in nodes[n].parents;
      }
    }
  }

  lemma {:induction false} MergedInherits(nodes: Entries, keep: nat, remove: nat)
    requires Linked(nodes) && Inherited(nodes) && keep in nodes && remove in nodes
    requires nodes[keep].cancelled == nodes[remove].cancelled
    ensures Inherited(Merged(nodes, keep, remove))
  {
    var nodes' := Merged(nodes, keep, remove);
    forall n, p | n in nodes' && p in nodes'[n].parents && p in nodes' && nodes'[p].cancelled
      ensures nodes'[n].cancelled
    {
      assert p in nodes[n].parents || (p == keep && remove in nodes[n].parents);
    }
  }

  /** Entries whose stored signature still names `x`. */
  ghost function Naming(stored: Stored, x: nat): set<nat> {
    set n | n in stored && x in stored[n]
  }

  // ------------------------------------------------- steps

  /** The state of a running compaction of the removal of `x`. */
  ghost predicate Consistent(nodes: Entries, stored: Stored, keys: Fingerprints, index: RelayIndex, relays: nat,
                             pending: Pending, x: nat, above: set<nat>)
  {
    && Linked(nodes) && Inherited(nodes)
    && Indexed(nodes, keys, index) && relays == |RelayIds(nodes)|
    && Approximate(nodes, stored, x, above) && TokensSigned(nodes, stored)
    && Covered(nodes, stored, pending)
  }

  lemma {:induction false} EraseStep(nodes: Entries, stored: Stored, keys: Fingerprints, index: RelayIndex, relays: nat, pending: Pending,
                                     nodes': Entries, stored': Stored, keys': Fingerprints, index': RelayIndex, relays': nat, pending': Pending,
                                     x: nat, above: set<nat>, id: nat, state: SignatureState)
    requires Consistent(nodes, stored, keys, index, relays, pending[id := state], x, above) && IsRelay(nodes, id)
    requires Enqueued(pending, pending',
               if state.Dirty? then RelayWork(nodes[id].parents, nodes[id].children)
               else RelayWork(nodes[id].parents + nodes[id].children, {}))
    requires nodes' == Erased(nodes, id, true) && stored' == stored - {id} && keys' == keys - {id}
    requires keys[id] in index && index' == Removed(index, keys[id], id) && relays' == relays - 1
    ensures Consistent(nodes', stored', keys', index', relays', pending', x, above)
    ensures SameTokens(nodes, nodes')
  {
    EraseKeepsLinks(nodes, id);
    ErasedInherits(nodes, id);
    ErasedIsIndexed(nodes, keys, index, id, true);
    EraseKeepsApproximate(nodes, stored, x, above, id);
    EraseKeepsSigned(nodes, stored, id);
    EraseKeepsCovered(nodes, stored, pending, pending', id, state);
    ErasedRelaySameTokens(nodes, id);
  }

  lemma {:induction false} MergeStep(nodes: Entries, stored: Stored, keys: Fingerprints, index: RelayIndex, relays: nat, pending: Pending,
                                     nodes': Entries, stored': Stored, keys': Fingerprints, index': RelayIndex, relays': nat, pending': Pending,
                                     x: nat, above: set<nat>, id: nat, keep: nat, remove: nat)
    requires Consistent(nodes, stored, keys, index, relays, pending[id := Known], x, above)
    requires keep < remove && Duplicates(nodes, stored, keep, remove) && (id == keep || id == remove)
    requires Enqueued(pending, pending', RelayWork(nodes[remove].parents + nodes[remove].children + {keep}, {}))
    requires nodes' == Merged(nodes, keep, remove) && stored' == stored - {remove} && keys' == keys - {remove}
    requires keys[remove] in index && index' == Removed(index, keys[remove], remove) && relays' == relays - 1
    ensures Consistent(nodes', stored', keys', index', relays', pending', x, above)
    ensures SameTokens(nodes, nodes')
  {
    MergeKeepsLinks(nodes, keep, remove);
    MergedInherits(nodes, keep, remove);
    MergedIsIndexed(nodes, keys, index, keep, remove);
    MergeKeepsApproximate(nodes, stored, x, above, keep, remove);
    MergeKeepsSigned(nodes, stored, keep, remove);
    MergeKeepsCovered(nodes, stored, pending, pending', id, keep, remove);
    EqualStoredEqualNearest(nodes, stored, x, above, keep, remove);
    MergedSameTokens(nodes, keep, remove);
  }

  lemma {:induction false} MergedIsIndexed(nodes: Entries, keys: Fingerprints, index: RelayIndex, keep: nat, remove: nat)
    requires Indexed(nodes, keys, index) && IsRelay(nodes, keep) && IsRelay(nodes, remove) && keep != remove
    ensures keys[remove] in index && |RelayIds(nodes)| > 0
    ensures Indexed(Merged(nodes, keep, remove), keys - {remove}, Removed(index, keys[remove], remove))
    ensures |RelayIds(Merged(nodes, keep, remove))| == |RelayIds(nodes)| - 1
  {
    var nodes' := Merged(nodes, keep, remove);
    assert nodes'.Keys == nodes.Keys - {remove};
    assert forall n :: n in nodes' ==> nodes'[n].kind == nodes[n].kind;
    RelaysShrink(nodes, nodes', remove);
    RemovedIsIndexed(nodes, keys, index, nodes', keys - {remove}, remove);
  }

  lemma {:induction false} MergeKeepsSigned(nodes: Entries, stored: Stored, keep: nat, remove: nat)
    requires TokensSigned(nodes, stored) && keep in nodes && remove in nodes
    ensures TokensSigned(Merged(nodes, keep, remove), stored - {remove})
  {
  }

  lemma {:induction false} EraseKeepsSigned(nodes: Entries, stored: Stored, id: nat)
    requires TokensSigned(nodes, stored) && id in nodes
    ensures TokensSigned(Erased(nodes, id, true), stored - {id})
  {
  }

  lemma {:induction false} ResignKeepsSigned(nodes: Entries, stored: Stored, nodes': Entries, id: nat, exact: set<nat>)
    requires TokensSigned(nodes, stored) && IsRelay(nodes, id) && SameShape(nodes, nodes')
    ensures TokensSigned(nodes', stored[id := exact])
  {
  }

  lemma {:induction false} ResignedIsIndexed(nodes: Entries, keys: Fingerprints, index: RelayIndex, nodes': Entries, id: nat, key: Candidate)
    requires Indexed(nodes, keys, index) && IsRelay(nodes, id) && SameShape(nodes, nodes')
    ensures keys[id] in index
    ensures Indexed(nodes', keys[id := key], Inserted(Removed(index, keys[id], id), key, id))
    ensures RelayIds(nodes') == RelayIds(nodes)
  {
    var without := nodes - {id};
    RemovedIsIndexed(nodes, keys, index, without, keys - {id}, id);
    InsertedIsIndexed(without, keys - {id}, Removed(index, keys[id], id), nodes', keys[id := key], id);
  }

  lemma {:induction false} ResignedIsApproximate(nodes: Entries, stored: Stored, nodes': Entries, x: nat, above: set<nat>, id: nat, exact: set<nat>)
    requires Approximate(nodes, stored, x, above) && IsRelay(nodes, id) && SameShape(nodes, nodes')
    requires exact == Nearest(nodes, id) && x !in exact
    ensures Approximate(nodes', stored[id := exact], x, above)
  {
    forall n | n in nodes'
      ensures Nearest(nodes', n) == Subst(x, above, stored[id := exact][n])
    {
      SameShapeNearest(nodes, nodes', n);
    }
  }

  lemma {:induction false} SameShapeSameTokens(nodes: Entries, nodes': Entries)
    requires SameShape(nodes, nodes')
    requires forall n :: IsToken(nodes, n) ==> nodes'[n].cancelled == nodes[n].cancelled
    ensures SameTokens(nodes, nodes')
  {
    forall n | IsToken(nodes, n)
      ensures Above(nodes', n) == Above(nodes, n)
    {
      SameShapeNearest(nodes, nodes', n);
    }
  }

  lemma {:induction false} RefreshStep(nodes: Entries, stored: Stored, keys: Fingerprints, index: RelayIndex, relays: nat, pending: Pending,
                                       nodes': Entries, stored': Stored, keys': Fingerprints, index': RelayIndex, pending': Pending,
                                       x: nat, above: set<nat>, id: nat, key: Candidate)
    requires Consistent(nodes, stored, keys, index, relays, pending[id := Dirty], x, above) && IsRelay(nodes, id)
    requires forall m :: m in pending ==> id < m
    requires SameShape(nodes, nodes') && forall n :: n in nodes ==> nodes'[n].cancelled == nodes[n].cancelled
    requires stored[id] != Joined(nodes, stored, id)
    requires Enqueued(pending, pending', RelayWork({}, nodes[id].children))
    requires stored' == stored[id := Joined(nodes, stored, id)] && keys' == keys[id := key]
    requires keys[id] in index && index' == Inserted(Removed(index, keys[id], id), key, id)
    ensures Consistent(nodes', stored', keys', index', relays, pending'[id := Known], x, above)
    ensures SameTokens(nodes, nodes')
    ensures Naming(stored', x) < Naming(stored, x)
  {
    var exact := Joined(nodes, stored, id);
    RecomputedIsExact(nodes, stored, x, above, pending[id := Dirty], id);
    ResignedIsIndexed(nodes, keys, index, nodes', id, key);
    ResignedIsApproximate(nodes, stored, nodes', x, above, id, exact);
    ResignKeepsSigned(nodes, stored, nodes', id, exact);
    ResignedLinks(nodes, nodes');
    RefreshKeepsCovered(nodes, nodes', stored, pending, pending', id);
    SameShapeSameTokens(nodes, nodes');
    NamingShrinks(stored, id, exact, x);
  }

  lemma {:induction false} ResignedLinks(nodes: Entries, nodes': Entries)
    requires Linked(nodes) && Inherited(nodes) && SameShape(nodes, nodes')
    requires forall n :: n in nodes ==> nodes'[n].cancelled == nodes[n].cancelled
    ensures Linked(nodes') && Inherited(nodes')
  {
  }

  lemma {:induction false} NamingShrinks(stored: Stored, id: nat, exact: set<nat>, x: nat)
    requires id in stored && x in stored[id] && x !in exact
    ensures Naming(stored[id := exact], x) < Naming(stored, x)
  {
    assert id in Naming(stored, x) && id !in Naming(stored[id := exact], x);
  }

  lemma {:induction false} CleanKeepsCovered(nodes: Entries, stored: Stored, pending: Pending, id: nat)
    requires stored.Keys == nodes.Keys && IsRelay(nodes, id) && stored[id] == Joined(nodes, stored, id)
    requires Covered(nodes, stored, pending[id := Dirty])
    ensures Covered(nodes, stored, pending[id := Known])
  {
  }
}
