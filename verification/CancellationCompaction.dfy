/**
 The bookkeeping of incremental compaction: signatures that may still name the token
 being removed, and the pending work that accounts for everything not yet normal.
 `stored` gives, for each entry, the set its signature denotes.
 */
module CancellationCompaction {
  import opened CancellationTopology

  datatype SignatureState = Known | Dirty

  type Pending = map<nat, SignatureState>

  type Stored = map<nat, set<nat>>

  /** Relays to revisit, in no particular order. */
  datatype RelayWork = RelayWork(known: set<nat>, dirty: set<nat>)

  /** A relay that a plain edge can replace. */
  predicate Thin(e: Entry) {
    |e.parents| <= 1 || |e.children| <= 1
  }

  /** The union of the signatures stored at the parents. */
  ghost function Joined(nodes: Entries, stored: Stored, n: nat): set<nat>
    requires n in nodes
  {
    set p, t | p in nodes[n].parents && p in stored && t in stored[p] :: t
  }

  /** Two relays that carry the same flag and signature. */
  ghost predicate Duplicates(nodes: Entries, stored: Stored, a: nat, b: nat)
    requires stored.Keys == nodes.Keys
  {
    && a != b && IsRelay(nodes, a) && IsRelay(nodes, b)
    && nodes[a].cancelled == nodes[b].cancelled
    && stored[a] == stored[b]
  }

  /** A stored signature is exact up to the removed token `x`, which it may still name. */
  ghost predicate Approximate(nodes: Entries, stored: Stored, x: nat, above: set<nat>) {
    && stored.Keys == nodes.Keys
    && x !in above
    && !IsToken(nodes, x)
    && forall n {:trigger Nearest(nodes, n)} :: n in nodes ==> Nearest(nodes, n) == Subst(x, above, stored[n])
  }

  /** Every token's signature is its own identity. */
  ghost predicate TokensSigned(nodes: Entries, stored: Stored) {
    forall n {:trigger stored[n]} :: n in nodes && n in stored && nodes[n].kind.Token? ==> stored[n] == {n}
  }

  /** Whatever still violates the normal form is awaiting a visit. */
  ghost predicate Covered(nodes: Entries, stored: Stored, pending: Pending)
    requires stored.Keys == nodes.Keys
  {
    && (forall n :: IsRelay(nodes, n) && Thin(nodes[n]) ==> n in pending)
    && (forall n :: IsRelay(nodes, n) && stored[n] != Joined(nodes, stored, n) ==> n in pending && pending[n].Dirty?)
    && (forall a, b :: Duplicates(nodes, stored, a, b) ==> a in pending || b in pending)
  }

  /** The normal form every public operation restores. */
  ghost predicate Normal(nodes: Entries, stored: Stored)
    requires stored.Keys == nodes.Keys
  {
    && (forall n :: IsRelay(nodes, n) ==> !Thin(nodes[n]))
    && (forall n {:trigger Nearest(nodes, n)} :: n in nodes ==> stored[n] == Nearest(nodes, n))
    && (forall a, b :: !Duplicates(nodes, stored, a, b))
  }

  ghost predicate Enqueued(pending: Pending, pending': Pending, work: RelayWork) {
    && pending'.Keys == pending.Keys + work.known + work.dirty
    && forall n :: n in pending' ==>
         (pending'[n].Dirty? <==> n in work.dirty || (n in pending && pending[n].Dirty?))
  }

  /** A worklist as the visits it asks for. */
  function Initial(work: RelayWork): Pending {
    map n | n in work.known + work.dirty :: if n in work.dirty then Dirty else Known
  }

  /** Adds one visit; a dirty one is never weakened. */
  function Enqueue(pending: Pending, id: nat, state: SignatureState): Pending {
    pending[id := if id in pending && pending[id].Dirty? then Dirty else state]
  }

  method EnqueueAll(pending: Pending, work: RelayWork) returns (r: Pending)
    ensures Enqueued(pending, r, work)
  {
    r := pending;
    var known := work.known;
    while known != {}
      invariant known <= work.known
      invariant Enqueued(pending, r, RelayWork(work.known - known, {}))
      decreases known
    {
      var id :| id in known;
      r := Enqueue(r, id, Known);
      known := known - {id};
    }
    var dirty := work.dirty;
    assert work.known - {} == work.known;
    while dirty != {}
      invariant dirty <= work.dirty
      invariant Enqueued(pending, r, RelayWork(work.known, work.dirty - dirty))
      decreases dirty
    {
      var id :| id in dirty;
      r := Enqueue(r, id, Dirty);
      dirty := dirty - {id};
    }
    assert work.dirty - {} == work.dirty;
  }

  /** The smallest pending identity. */
  method First(pending: Pending) returns (id: nat)
    requires pending != map[]
    ensures id in pending && forall m :: m in pending ==> id <= m
  {
    var rest := pending.Keys;
    assert rest == {} ==> pending == map[];
    id :| id in rest;
    rest := rest - {id};
    while rest != {}
      invariant id in pending && rest <= pending.Keys
      invariant forall m :: m in pending && m !in rest ==> id <= m
      decreases rest
    {
      var m :| m in rest;
      if m < id { id := m; }
      rest := rest - {m};
    }
  }

  // ------------------------------------------------- exactness

  lemma {:induction false} NotNamedBelow(nodes: Entries, stored: Stored, x: nat, above: set<nat>, pending: Pending, bound: nat, n: nat)
    requires Linked(nodes) && Approximate(nodes, stored, x, above) && TokensSigned(nodes, stored)
    requires Covered(nodes, stored, pending)
    requires forall m :: m in pending ==> bound <= m
    requires n in nodes && n < bound
    ensures x !in stored[n]
    decreases n
  {
    if nodes[n].kind.Relay? {
      assert stored[n] == Joined(nodes, stored, n);
      if x in stored[n] {
        var p :| p in nodes[n].parents && p in stored && x in stored[p];
        NotNamedBelow(nodes, stored, x, above, pending, bound, p);
      }
    }
  }

  /** With nothing pending, every stored signature is exact. */
  lemma {:induction false} NothingPendingIsNormal(nodes: Entries, stored: Stored, x: nat, above: set<nat>)
    requires Linked(nodes) && Approximate(nodes, stored, x, above) && TokensSigned(nodes, stored)
    requires Covered(nodes, stored, map[])
    ensures Normal(nodes, stored)
  {
    forall n | n in nodes
      ensures stored[n] == Nearest(nodes, n)
    {
      NotNamedBelow(nodes, stored, x, above, map[], n + 1, n);
    }
  }

  /** Substitution distributes over the union of the parents' signatures. */
  lemma {:induction false} JoinedIsApproximate(nodes: Entries, stored: Stored, x: nat, above: set<nat>, id: nat)
    requires Linked(nodes) && Approximate(nodes, stored, x, above) && id in nodes
    ensures Above(nodes, id) == Subst(x, above, Joined(nodes, stored, id))
  {
    var joined := Joined(nodes, stored, id);
    forall t | t in Above(nodes, id)
      ensures t in Subst(x, above, joined)
    {
      var p :| p in nodes[id].parents && p < id && t in Nearest(nodes, p);
      assert t in Subst(x, above, stored[p]);
      JoinedContains(nodes, stored, id, p);
    }
    forall t | t in Subst(x, above, joined)
      ensures t in Above(nodes, id)
    {
      var named := if t in joined && t != x then t else x;
      var p :| p in nodes[id].parents && p in stored && named in stored[p];
      assert t in Nearest(nodes, p);
      NearestInAbove(nodes, id, p);
    }
  }

  lemma {:induction false} JoinedContains(nodes: Entries, stored: Stored, n: nat, p: nat)
    requires n in nodes && p in nodes[n].parents && p in stored
    ensures stored[p] <= Joined(nodes, stored, n)
  {
  }

  /**
   Visiting in identity order makes a recomputed signature exact at once; it differs
   from the stored one only if that one still named the removed token.
   */
  lemma {:induction false} RecomputedIsExact(nodes: Entries, stored: Stored, x: nat, above: set<nat>, pending: Pending, id: nat)
    requires Linked(nodes) && Approximate(nodes, stored, x, above) && TokensSigned(nodes, stored)
    requires Covered(nodes, stored, pending)
    requires IsRelay(nodes, id) && forall m :: m in pending ==> id <= m
    ensures Joined(nodes, stored, id) == Nearest(nodes, id)
    ensures x !in Joined(nodes, stored, id)
    ensures stored[id] != Joined(nodes, stored, id) ==> x in stored[id]
  {
    JoinedIsApproximate(nodes, stored, x, above, id);
    var joined := Joined(nodes, stored, id);
    if x in joined {
      var p :| p in nodes[id].parents && p in stored && x in stored[p];
      NotNamedBelow(nodes, stored, x, above, pending, id, p);
    }
  }

  // ------------------------------------------------- steps keep the accounting

  /** Two relays with equal stored signatures have equal nearest tokens. */
  lemma {:induction false} EqualStoredEqualNearest(nodes: Entries, stored: Stored, x: nat, above: set<nat>, a: nat, b: nat)
    requires Approximate(nodes, stored, x, above)
    requires a in nodes && b in nodes && stored[a] == stored[b]
    ensures Nearest(nodes, a) == Nearest(nodes, b)
  {
  }

  lemma {:induction false} EraseKeepsApproximate(nodes: Entries, stored: Stored, x: nat, above: set<nat>, id: nat)
    requires Linked(nodes) && IsRelay(nodes, id) && Approximate(nodes, stored, x, above)
    ensures Approximate(Erased(nodes, id, true), stored - {id}, x, above)
  {
    var nodes' := Erased(nodes, id, true);
    forall n | n in nodes'
      ensures Nearest(nodes', n) == Subst(x, above, stored[n])
    {
      EraseRelayNearest(nodes, id, n);
    }
  }

  lemma {:induction false} MergeKeepsApproximate(nodes: Entries, stored: Stored, x: nat, above: set<nat>, keep: nat, remove: nat)
    requires Linked(nodes) && Approximate(nodes, stored, x, above)
    requires keep < remove && Duplicates(nodes, stored, keep, remove)
    ensures Approximate(Merged(nodes, keep, remove), stored - {remove}, x, above)
  {
    var nodes' := Merged(nodes, keep, remove);
    forall n | n in nodes'
      ensures Nearest(nodes', n) == Subst(x, above, stored[n])
    {
      MergeNearest(nodes, keep, remove, n);
    }
  }

  /** `before` has work for every surviving entry that `after` has lost. */
  ghost predicate WorkKept(nodes': Entries, before: Pending, after: Pending) {
    forall n :: n in nodes' && n in before ==>
      n in after && (before[n].Dirty? ==> after[n].Dirty?)
  }

  ghost predicate SameNeighbours(nodes: Entries, nodes': Entries, n: nat) {
    n in nodes && n in nodes' && nodes'[n].parents == nodes[n].parents && nodes'[n].children == nodes[n].children
  }

  /** Surviving entries keep kind, flag and stored signature; only `touched` ones change neighbours. */
  ghost predicate Rewired(nodes: Entries, nodes': Entries, stored: Stored, stored': Stored, touched: set<nat>) {
    && stored.Keys == nodes.Keys && stored'.Keys == nodes'.Keys && nodes'.Keys <= nodes.Keys
    && (forall n :: n in nodes' ==> nodes'[n].kind == nodes[n].kind && nodes'[n].cancelled == nodes[n].cancelled)
    && (forall n :: n in nodes' ==> stored'[n] == stored[n])
    && (forall n :: n in nodes' && n !in touched ==> SameNeighbours(nodes, nodes', n))
  }

  /** Rewiring keeps the accounting if what it touched is pending and dirty where its union changed. */
  lemma {:induction false} RewiredKeepsCovered(nodes: Entries, nodes': Entries, stored: Stored, stored': Stored,
                                               before: Pending, after: Pending, touched: set<nat>)
    requires Rewired(nodes, nodes', stored, stored', touched)
    requires Covered(nodes, stored, before) && WorkKept(nodes', before, after)
    requires touched <= after.Keys
    requires forall n :: n in nodes' ==>
      Joined(nodes', stored', n) == Joined(nodes, stored, n) || (n in after && after[n].Dirty?)
    ensures Covered(nodes', stored', after)
  {
    forall n | IsRelay(nodes', n) && Thin(nodes'[n])
      ensures n in after
    {
      if n !in touched { assert SameNeighbours(nodes, nodes', n); }
      assert IsRelay(nodes, n);
    }
    forall n | IsRelay(nodes', n) && stored'[n] != Joined(nodes', stored', n)
      ensures n in after && after[n].Dirty?
    {
      assert IsRelay(nodes, n);
    }
    forall a, b | Duplicates(nodes', stored', a, b)
      ensures a in after || b in after
    {
      assert Duplicates(nodes, stored, a, b);
    }
  }

  lemma {:induction false} SameJoined(nodes: Entries, nodes': Entries, stored: Stored, stored': Stored, n: nat)
    requires n in nodes && n in nodes' && nodes'[n].parents == nodes[n].parents
    requires forall p :: p in nodes[n].parents ==> p in stored && p in stored' && stored'[p] == stored[p]
    ensures Joined(nodes', stored', n) == Joined(nodes, stored, n)
  {
    forall t
      ensures t in Joined(nodes', stored', n) <==> t in Joined(nodes, stored, n)
    {
      if t in Joined(nodes', stored', n) {
        var p :| p in nodes'[n].parents && p in stored' && t in stored'[p];
        JoinedContains(nodes, stored, n, p);
      }
      if t in Joined(nodes, stored, n) {
        var p :| p in nodes[n].parents && p in stored && t in stored[p];
        JoinedContains(nodes', stored', n, p);
      }
    }
  }

  lemma {:induction false} ErasedIsRewired(nodes: Entries, stored: Stored, id: nat)
    requires Linked(nodes) && id in nodes && stored.Keys == nodes.Keys
    ensures Rewired(nodes, Erased(nodes, id, true), stored, stored - {id}, nodes[id].parents + nodes[id].children)
  {
  }

  lemma {:induction false} MergedIsRewired(nodes: Entries, stored: Stored, keep: nat, remove: nat)
    requires Linked(nodes) && keep in nodes && remove in nodes && stored.Keys == nodes.Keys
    ensures Rewired(nodes, Merged(nodes, keep, remove), stored, stored - {remove},
                    nodes[remove].parents + nodes[remove].children + {keep})
  {
    var nodes' := Merged(nodes, keep, remove);
    forall n | n in nodes' && n !in nodes[remove].parents + nodes[remove].children + {keep}
      ensures SameNeighbours(nodes, nodes', n)
    {
      assert remove !in nodes[n].parents && remove !in nodes[n].children;
    }
  }

  /** Erasing a thin relay leaves only its neighbours to revisit. */
  lemma {:induction false} EraseKeepsCovered(nodes: Entries, stored: Stored, pending: Pending, pending': Pending, id: nat, state: SignatureState)
    requires Linked(nodes) && IsRelay(nodes, id) && stored.Keys == nodes.Keys
    requires Covered(nodes, stored, pending[id := state])
    requires Enqueued(pending, pending',
               if state.Dirty? then RelayWork(nodes[id].parents, nodes[id].children)
               else RelayWork(nodes[id].parents + nodes[id].children, {}))
    ensures Covered(Erased(nodes, id, true), stored - {id}, pending')
  {
    var nodes' := Erased(nodes, id, true);
    ErasedIsRewired(nodes, stored, id);
    forall n | n in nodes'
      ensures Joined(nodes', stored - {id}, n) == Joined(nodes, stored, n) || (n in pending' && pending'[n].Dirty?)
    {
      EraseKeepsJoined(nodes, stored, id, n);
    }
    RewiredKeepsCovered(nodes, nodes', stored, stored - {id}, pending[id := state], pending',
                        nodes[id].parents + nodes[id].children);
  }

  lemma {:induction false} EraseKeepsJoined(nodes: Entries, stored: Stored, id: nat, n: nat)
    requires Linked(nodes) && IsRelay(nodes, id) && stored.Keys == nodes.Keys
    requires n in nodes && n != id
    ensures id !in nodes[n].parents || stored[id] == Joined(nodes, stored, id)
            ==> Joined(Erased(nodes, id, true), stored - {id}, n) == Joined(nodes, stored, n)
  {
    var nodes' := Erased(nodes, id, true);
    var stored' := stored - {id};
    if id !in nodes[n].parents {
      SameJoined(nodes, nodes', stored, stored', n);
    } else if stored[id] == Joined(nodes, stored, id) {
      assert nodes'[n].parents == nodes[n].parents - {id} + nodes[id].parents;
      JoinedContains(nodes, stored, n, id);
      forall t | t in Joined(nodes', stored', n)
        ensures t in Joined(nodes, stored, n)
      {
        var p :| p in nodes'[n].parents && p in stored' && t in stored'[p];
        if p in nodes[n].parents {
          JoinedContains(nodes, stored, n, p);
        } else {
          JoinedContains(nodes, stored, id, p);
        }
      }
      forall t | t in Joined(nodes, stored, n)
        ensures t in Joined(nodes', stored', n)
      {
        var p :| p in nodes[n].parents && p in stored && t in stored[p];
        if p == id {
          p :| p in nodes[id].parents && p in stored && t in stored[p];
        }
        JoinedContains(nodes', stored', n, p);
      }
    }
  }

  /** Merging leaves the neighbours of the removed relay, and the kept one, to revisit. */
  lemma {:induction false} MergeKeepsCovered(nodes: Entries, stored: Stored, pending: Pending, pending': Pending, id: nat, keep: nat, remove: nat)
    requires Linked(nodes) && stored.Keys == nodes.Keys
    requires keep < remove && Duplicates(nodes, stored, keep, remove) && (id == keep || id == remove)
    requires Covered(nodes, stored, pending[id := Known])
    requires Enqueued(pending, pending', RelayWork(nodes[remove].parents + nodes[remove].children + {keep}, {}))
    ensures Covered(Merged(nodes, keep, remove), stored - {remove}, pending')
  {
    var nodes' := Merged(nodes, keep, remove);
    MergedIsRewired(nodes, stored, keep, remove);
    forall n | n in nodes'
      ensures Joined(nodes', stored - {remove}, n) == Joined(nodes, stored, n)
    {
      MergeKeepsJoined(nodes, stored, keep, remove, n);
    }
    RewiredKeepsCovered(nodes, nodes', stored, stored - {remove}, pending[id := Known], pending',
                        nodes[remove].parents + nodes[remove].children + {keep});
  }

  lemma {:induction false} MergeKeepsJoined(nodes: Entries, stored: Stored, keep: nat, remove: nat, n: nat)
    requires Linked(nodes) && stored.Keys == nodes.Keys
    requires keep < remove && Duplicates(nodes, stored, keep, remove)
    requires n in nodes && n != remove
    ensures Joined(Merged(nodes, keep, remove), stored - {remove}, n) == Joined(nodes, stored, n)
  {
    var nodes' := Merged(nodes, keep, remove);
    var stored' := stored - {remove};
    if remove in nodes[n].parents {
      forall t | t in Joined(nodes', stored', n)
        ensures t in Joined(nodes, stored, n)
      {
        var p :| p in nodes'[n].parents && p in stored' && t in stored'[p];
        JoinedContains(nodes, stored, n, if p in nodes[n].parents then p else remove);
      }
      forall t | t in Joined(nodes, stored, n)
        ensures t in Joined(nodes', stored', n)
      {
        var p :| p in nodes[n].parents && p in stored && t in stored[p];
        JoinedContains(nodes', stored', n, if p == remove then keep else p);
      }
    } else {
      SameJoined(nodes, nodes', stored, stored', n);
    }
  }

  /** The same links, kinds and flags, whatever the signatures. */
  ghost predicate SameBut(nodes: Entries, nodes': Entries) {
    && nodes'.Keys == nodes.Keys
    && forall n :: n in nodes ==>
         && nodes'[n].parents == nodes[n].parents && nodes'[n].children == nodes[n].children
         && nodes'[n].kind == nodes[n].kind && nodes'[n].cancelled == nodes[n].cancelled
  }

  lemma {:induction false} RefreshLeavesStale(nodes: Entries, nodes': Entries, stored: Stored, pending: Pending, pending': Pending, id: nat, n: nat)
    requires Linked(nodes) && IsRelay(nodes, id) && stored.Keys == nodes.Keys && SameBut(nodes, nodes')
    requires Covered(nodes, stored, pending[id := Dirty])
    requires Enqueued(pending, pending', RelayWork({}, nodes[id].children))
    requires IsRelay(nodes', n)
    requires var stored' := stored[id := Joined(nodes, stored, id)]; stored'[n] != Joined(nodes', stored', n)
    ensures var pending'' := pending'[id := Known]; n in pending'' && pending''[n].Dirty?
  {
    assert id !in nodes[id].children;
    if id !in nodes[n].parents {
      SameJoined(nodes, nodes', stored, stored[id := Joined(nodes, stored, id)], n);
    }
  }

  /** Replacing one relay's stored signature dirties only its children. */
  lemma {:induction false} RefreshKeepsCovered(nodes: Entries, nodes': Entries, stored: Stored, pending: Pending, pending': Pending, id: nat)
    requires Linked(nodes) && IsRelay(nodes, id) && stored.Keys == nodes.Keys && SameBut(nodes, nodes')
    requires Covered(nodes, stored, pending[id := Dirty])
    requires Enqueued(pending, pending', RelayWork({}, nodes[id].children))
    ensures Covered(nodes', stored[id := Joined(nodes, stored, id)], pending'[id := Known])
  {
    var joined := Joined(nodes, stored, id);
    var stored' := stored[id := joined];
    var pending'' := pending'[id := Known];
    forall n | IsRelay(nodes', n) && stored'[n] != Joined(nodes', stored', n)
      ensures n in pending'' && pending''[n].Dirty?
    {
      RefreshLeavesStale(nodes, nodes', stored, pending, pending', id, n);
    }
    forall a, b | Duplicates(nodes', stored', a, b)
      ensures a in pending'' || b in pending''
    {
      if a != id && b != id { assert Duplicates(nodes, stored, a, b); }
    }
  }

  /** An entry that was visited and found normal no longer needs a visit. */
  lemma {:induction false} VisitedKeepsCovered(nodes: Entries, stored: Stored, pending: Pending, id: nat, state: SignatureState)
    requires stored.Keys == nodes.Keys
    requires Covered(nodes, stored, pending[id := state])
    requires IsRelay(nodes, id) ==> state.Known? && !Thin(nodes[id]) && forall b :: !Duplicates(nodes, stored, id, b)
    ensures Covered(nodes, stored, pending)
  {
    forall a, b | Duplicates(nodes, stored, a, b)
      ensures a in pending || b in pending
    {
      assert Duplicates(nodes, stored, b, a);
    }
  }

  // ------------------------------------------------- entry points of a removal

  /** Signatures that were exact name the removed token exactly where they are now stale. */
  lemma {:induction false} DemotedIsApproximate(nodes: Entries, stored: Stored, id: nat, nodes': Entries, inherited: bool)
    requires Linked(nodes) && IsToken(nodes, id) && stored.Keys == nodes.Keys
    requires forall n :: n in nodes ==> stored[n] == Nearest(nodes, n)
    requires exists signature :: nodes' == Demoted(nodes, id, inherited, signature)
    ensures Approximate(nodes', stored[id := Above(nodes, id)], id, Above(nodes, id))
  {
    var signature :| nodes' == Demoted(nodes, id, inherited, signature);
    var above := Above(nodes, id);
    NearestAreTokens(nodes, id);
    forall n | n in nodes'
      ensures Nearest(nodes', n) == Subst(id, above, stored[id := above][n])
    {
      DemoteNearest(nodes, id, inherited, signature, n);
      if n == id { assert Subst(id, above, {id}) == above; }
    }
  }

  lemma {:induction false} ErasedIsApproximate(nodes: Entries, stored: Stored, id: nat)
    requires Linked(nodes) && IsToken(nodes, id) && stored.Keys == nodes.Keys
    requires forall n :: n in nodes ==> stored[n] == Nearest(nodes, n)
    ensures Approximate(Erased(nodes, id, true), stored - {id}, id, Above(nodes, id))
  {
    var nodes' := Erased(nodes, id, true);
    NearestAreTokens(nodes, id);
    forall n | n in nodes'
      ensures Nearest(nodes', n) == Subst(id, Above(nodes, id), stored[n])
    {
      EraseNearest(nodes, id, n);
    }
  }

  /** In normal form, an entry's exact signature is the union of its parents' ones. */
  lemma {:induction false} NormalIsJoined(nodes: Entries, stored: Stored, n: nat)
    requires Linked(nodes) && stored.Keys == nodes.Keys && n in nodes
    requires forall m :: m in nodes ==> stored[m] == Nearest(nodes, m)
    ensures Joined(nodes, stored, n) == Above(nodes, n)
  {
    forall t | t in Joined(nodes, stored, n)
      ensures t in Above(nodes, n)
    {
      var p :| p in nodes[n].parents && p in stored && t in stored[p];
      NearestInAbove(nodes, n, p);
    }
    forall t | t in Above(nodes, n)
      ensures t in Joined(nodes, stored, n)
    {
      var p :| p in nodes[n].parents && p < n && t in Nearest(nodes, p);
      JoinedContains(nodes, stored, n, p);
    }
  }

  lemma {:induction false} DemotedIsCovered(nodes: Entries, stored: Stored, id: nat, nodes': Entries, pending: Pending)
    requires Linked(nodes) && IsToken(nodes, id) && stored.Keys == nodes.Keys
    requires Normal(nodes, stored) && !Thin(nodes[id])
    requires exists inherited, signature :: nodes' == Demoted(nodes, id, inherited, signature)
    requires Enqueued(map[], pending, RelayWork({id}, nodes[id].children))
    ensures Covered(nodes', stored[id := Above(nodes, id)], pending)
  {
    var inherited, signature :| nodes' == Demoted(nodes, id, inherited, signature);
    var stored' := stored[id := Above(nodes, id)];
    forall n | IsRelay(nodes', n) && stored'[n] != Joined(nodes', stored', n)
      ensures n in pending && pending[n].Dirty?
    {
      NormalIsJoined(nodes, stored, n);
      if id !in nodes[n].parents {
        SameJoined(nodes, nodes', stored, stored', n);
      }
    }
    forall a, b | Duplicates(nodes', stored', a, b)
      ensures a in pending || b in pending
    {
      if a != id && b != id { assert Duplicates(nodes, stored, a, b); }
    }
  }

  /** Erasing an entry changes what its children inherit, and nothing else. */
  lemma {:induction false} ErasedJoined(nodes: Entries, stored: Stored, id: nat, pending: Pending, n: nat)
    requires Linked(nodes) && id in nodes && stored.Keys == nodes.Keys && n in Erased(nodes, id, true)
    requires Enqueued(map[], pending, RelayWork(nodes[id].parents, nodes[id].children))
    ensures Joined(Erased(nodes, id, true), stored - {id}, n) == Joined(nodes, stored, n) || (n in pending && pending[n].Dirty?)
  {
    ErasedIsRewired(nodes, stored, id);
    if id !in nodes[n].parents { SameJoined(nodes, Erased(nodes, id, true), stored, stored - {id}, n); }
  }

  lemma {:induction false} ErasedIsCovered(nodes: Entries, stored: Stored, id: nat, pending: Pending)
    requires Linked(nodes) && IsToken(nodes, id) && stored.Keys == nodes.Keys
    requires Normal(nodes, stored)
    requires Enqueued(map[], pending, RelayWork(nodes[id].parents, nodes[id].children))
    ensures Covered(Erased(nodes, id, true), stored - {id}, pending)
  {
    var nodes' := Erased(nodes, id, true);
    NormalIsCovered(nodes, stored);
    ErasedIsRewired(nodes, stored, id);
    forall n | n in nodes'
      ensures Joined(nodes', stored - {id}, n) == Joined(nodes, stored, n) || (n in pending && pending[n].Dirty?)
    {
      ErasedJoined(nodes, stored, id, pending, n);
    }
    RewiredKeepsCovered(nodes, nodes', stored, stored - {id}, map[], pending, nodes[id].parents + nodes[id].children);
  }

  lemma {:induction false} NormalIsCovered(nodes: Entries, stored: Stored)
    requires Linked(nodes) && stored.Keys == nodes.Keys && Normal(nodes, stored)
    ensures Covered(nodes, stored, map[])
  {
    forall n | IsRelay(nodes, n)
      ensures stored[n] == Joined(nodes, stored, n)
    {
      NormalIsJoined(nodes, stored, n);
    }
  }
}
