/**
 What inserting, removing and cancelling a token do to the graph as a value, and why
 the result still agrees with the uncompressed history.
 */
module CancellationOperations {
  import opened Signature
  import opened CancellationTopology
  import opened CancellationCompaction
  import opened CancellationSteps
  import H = CancellationHistory

  /** Present tokens have the ancestry and the flags of the full history. */
  ghost predicate Agrees(nodes: Entries, h: H.History) {
    && (forall a: nat, b: nat :: IsToken(nodes, a) && IsToken(nodes, b) ==> (Reaches(nodes, a, b) <==> H.Ancestor(h, a, b)))
    && (forall n: nat :: IsToken(nodes, n) ==> n < |h.cancelled| && nodes[n].cancelled == h.cancelled[n])
  }

  lemma {:induction false} SameTokensAgree(nodes: Entries, nodes': Entries, h: H.History)
    requires Agrees(nodes, h) && SameTokens(nodes, nodes')
    ensures Agrees(nodes', h)
  {
    forall a: nat, b: nat | IsToken(nodes', a) && IsToken(nodes', b)
      ensures Reaches(nodes', a, b) <==> H.Ancestor(h, a, b)
    {
      assert IsToken(nodes, a) && IsToken(nodes, b);
      assert forall n :: IsToken(nodes, n) ==> Above(nodes, n) == Above(nodes', n);
      if Reaches(nodes', a, b) { SameAboveReaches(nodes', nodes, a, b); }
      if Reaches(nodes, a, b) { SameAboveReaches(nodes, nodes', a, b); }
    }
  }

  // ------------------------------------------------- removal

  lemma {:induction false} SubstitutedAgrees(nodes: Entries, nodes': Entries, x: nat, h: H.History)
    requires Agrees(nodes, h) && Substituted(nodes, nodes', x)
    requires forall n :: IsToken(nodes', n) ==> nodes'[n].cancelled == nodes[n].cancelled
    ensures Agrees(nodes', h)
  {
    forall a: nat, b: nat | IsToken(nodes', a) && IsToken(nodes', b)
      ensures Reaches(nodes', a, b) <==> H.Ancestor(h, a, b)
    {
      SubstitutedSameReach(nodes, nodes', x, a, b);
      assert IsToken(nodes, a) && IsToken(nodes, b);
    }
  }

  lemma {:induction false} ErasedAgrees(nodes: Entries, id: nat, h: H.History)
    requires Linked(nodes) && IsToken(nodes, id) && Agrees(nodes, h)
    ensures Agrees(Erased(nodes, id, true), h)
    ensures forall n :: IsToken(Erased(nodes, id, true), n) <==> IsToken(nodes, n) && n != id
  {
    var nodes' := Erased(nodes, id, true);
    forall n | IsToken(nodes', n)
      ensures Above(nodes', n) == Subst(id, Above(nodes, id), Above(nodes, n))
    {
      EraseNearest(nodes, id, n);
    }
    SubstitutedAgrees(nodes, nodes', id, h);
  }

  lemma {:induction false} DemotedAgrees(nodes: Entries, id: nat, inherited: bool, signature: Signature, h: H.History)
    requires Linked(nodes) && IsToken(nodes, id) && Agrees(nodes, h)
    ensures Agrees(Demoted(nodes, id, inherited, signature), h)
    ensures forall n :: IsToken(Demoted(nodes, id, inherited, signature), n) <==> IsToken(nodes, n) && n != id
  {
    var nodes' := Demoted(nodes, id, inherited, signature);
    forall n | IsToken(nodes', n)
      ensures Above(nodes', n) == Subst(id, Above(nodes, id), Above(nodes, n))
    {
      DemoteNearest(nodes, id, inherited, signature, n);
    }
    SubstitutedAgrees(nodes, nodes', id, h);
  }

  /** A childless token is nearest to nothing but itself. */
  lemma {:induction false} LeafIsNotNearest(nodes: Entries, id: nat, n: nat)
    requires Linked(nodes) && IsToken(nodes, id) && nodes[id].children == {} && n in nodes && n != id
    ensures id !in Nearest(nodes, n) && id !in Above(nodes, n)
    decreases n
  {
    if id in Above(nodes, n) {
      var p :| p in nodes[n].parents && p < n && id in Nearest(nodes, p);
      if p != id { LeafIsNotNearest(nodes, id, p); }
    }
  }

  /** Dropping a leaf that hangs below tokens only needs no compaction. */
  lemma {:induction false} LeafRemovalIsNormal(nodes: Entries, stored: Stored, id: nat)
    requires Linked(nodes) && IsToken(nodes, id) && nodes[id].children == {}
    requires forall p :: p in nodes[id].parents ==> IsToken(nodes, p)
    requires stored.Keys == nodes.Keys && Normal(nodes, stored)
    ensures Normal(Erased(nodes, id, true), stored - {id})
  {
    var nodes' := Erased(nodes, id, true);
    ErasedIsRewired(nodes, stored, id);
    forall n | n in nodes'
      ensures (stored - {id})[n] == Nearest(nodes', n)
    {
      EraseNearest(nodes, id, n);
      LeafIsNotNearest(nodes, id, n);
      assert stored[n] == Nearest(nodes, n);
    }
    RewiredAroundTokens(nodes, stored, nodes', stored - {id}, nodes[id].parents + nodes[id].children);
  }

  /** Rewiring tokens only cannot thin a relay or make two of them equal. */
  lemma {:induction false} RewiredAroundTokens(nodes: Entries, stored: Stored, nodes': Entries, stored': Stored, touched: set<nat>)
    requires Rewired(nodes, nodes', stored, stored', touched)
    requires forall p :: p in touched ==> !IsRelay(nodes, p)
    requires Normal(nodes, stored)
    ensures forall n :: IsRelay(nodes', n) ==> !Thin(nodes'[n])
    ensures forall a, b :: !Duplicates(nodes', stored', a, b)
  {
    forall n | IsRelay(nodes', n)
      ensures !Thin(nodes'[n])
    {
      assert IsRelay(nodes, n) && SameNeighbours(nodes, nodes', n);
    }
    forall a, b
      ensures !Duplicates(nodes', stored', a, b)
    {
      assert !Duplicates(nodes, stored, a, b);
    }
  }

  lemma {:induction false} DemotedLinks(nodes: Entries, id: nat, signature: Signature, inherited: bool)
    requires Linked(nodes) && Inherited(nodes) && IsToken(nodes, id)
    requires inherited <==> exists p :: p in nodes[id].parents && p in nodes && nodes[p].cancelled
    ensures Linked(Demoted(nodes, id, inherited, signature)) && Inherited(Demoted(nodes, id, inherited, signature))
  {
    var nodes' := Demoted(nodes, id, inherited, signature);
    assert forall n :: n in nodes ==> nodes'[n].parents == nodes[n].parents && nodes'[n].children == nodes[n].children;
    forall n, p | n in nodes' && p in nodes'[n].parents && p in nodes' && nodes'[p].cancelled
      ensures nodes'[n].cancelled
    {
      if p == id {
        var q :| q in nodes[id].parents && q in nodes && nodes[q].cancelled;
        assert nodes[id].cancelled;
      }
    }
  }

  lemma {:induction false} DemotedIsIndexed(nodes: Entries, keys: Fingerprints, index: RelayIndex, id: nat, inherited: bool, signature: Signature, key: Candidate)
    requires Indexed(nodes, keys, index) && IsToken(nodes, id)
    ensures var nodes' := Demoted(nodes, id, inherited, signature);
            && Indexed(nodes', keys[id := key], Inserted(index, key, id))
            && |RelayIds(nodes')| == |RelayIds(nodes)| + 1
  {
    var nodes' := Demoted(nodes, id, inherited, signature);
    InsertedIsIndexed(nodes, keys, index, nodes', keys[id := key], id);
    RelaysShrink(nodes', nodes, id);
  }

  /** A token with several parents and children starts its compaction as a relay. */
  lemma {:induction false} DemotionStarts(nodes: Entries, stored: Stored, keys: Fingerprints, index: RelayIndex, relays: nat,
                                          id: nat, inherited: bool, signature: Signature, key: Candidate)
    requires Linked(nodes) && Inherited(nodes) && Indexed(nodes, keys, index) && relays == |RelayIds(nodes)|
    requires stored.Keys == nodes.Keys && Normal(nodes, stored) && TokensSigned(nodes, stored)
    requires IsToken(nodes, id) && !Thin(nodes[id])
    requires inherited <==> exists p :: p in nodes[id].parents && p in nodes && nodes[p].cancelled
    ensures var nodes' := Demoted(nodes, id, inherited, signature);
            Consistent(nodes', stored[id := Above(nodes, id)], keys[id := key], Inserted(index, key, id), relays + 1,
                       Initial(RelayWork({id}, nodes[id].children)), id, Above(nodes, id))
  {
    var nodes' := Demoted(nodes, id, inherited, signature);
    var work := RelayWork({id}, nodes[id].children);
    DemotedLinks(nodes, id, signature, inherited);
    DemotedIsIndexed(nodes, keys, index, id, inherited, signature, key);
    DemotedIsApproximate(nodes, stored, id, nodes', inherited);
    InitialIsEnqueued(work);
    DemotedIsCovered(nodes, stored, id, nodes', Initial(work));
    DemotedIsSigned(nodes, stored, id, inherited, signature);
  }

  lemma {:induction false} DemotedIsSigned(nodes: Entries, stored: Stored, id: nat, inherited: bool, signature: Signature)
    requires TokensSigned(nodes, stored) && IsToken(nodes, id)
    ensures TokensSigned(Demoted(nodes, id, inherited, signature), stored[id := Above(nodes, id)])
  {
  }

  lemma {:induction false} InitialIsEnqueued(work: RelayWork)
    ensures Enqueued(map[], Initial(work), work)
  {
  }

  /** Any other token starts its compaction erased. */
  lemma {:induction false} ErasureStarts(nodes: Entries, stored: Stored, keys: Fingerprints, index: RelayIndex, relays: nat, id: nat)
    requires Linked(nodes) && Inherited(nodes) && Indexed(nodes, keys, index) && relays == |RelayIds(nodes)|
    requires stored.Keys == nodes.Keys && Normal(nodes, stored) && TokensSigned(nodes, stored)
    requires IsToken(nodes, id)
    ensures Consistent(Erased(nodes, id, true), stored - {id}, keys - {id}, index, relays,
                       Initial(RelayWork(nodes[id].parents, nodes[id].children)), id, Above(nodes, id))
  {
    var work := RelayWork(nodes[id].parents, nodes[id].children);
    EraseKeepsLinks(nodes, id);
    ErasedInherits(nodes, id);
    ErasedIsIndexed(nodes, keys, index, id, true);
    ErasedIsApproximate(nodes, stored, id);
    EraseKeepsSigned(nodes, stored, id);
    InitialIsEnqueued(work);
    ErasedIsCovered(nodes, stored, id, Initial(work));
  }

  // ------------------------------------------------- insertion

  /** `base` after the entries in `done` gained child `id`. */
  function WithChild(base: Entries, id: nat, done: set<nat>): Entries {
    map n | n in base :: if n in done then base[n].(children := base[n].children + {id}) else base[n]
  }

  function Grown(nodes: Entries, id: nat, parents: set<nat>, cancelled: bool, signature: Signature): Entries {
    WithChild(nodes, id, parents)[id := Entry(Token, cancelled, parents, {}, signature)]
  }

  ghost predicate Fresh(nodes: Entries, id: nat, parents: set<nat>) {
    && (forall n :: n in nodes ==> n < id)
    && (forall p :: p in parents ==> IsToken(nodes, p))
  }

  lemma {:induction false} GrownLinks(nodes: Entries, id: nat, parents: set<nat>, cancelled: bool, signature: Signature)
    requires Linked(nodes) && Inherited(nodes) && Fresh(nodes, id, parents)
    requires cancelled <==> exists p :: p in parents && p in nodes && nodes[p].cancelled
    ensures Linked(Grown(nodes, id, parents, cancelled, signature)) && Inherited(Grown(nodes, id, parents, cancelled, signature))
  {
  }

  lemma {:induction false} GrownNearest(nodes: Entries, id: nat, parents: set<nat>, cancelled: bool, signature: Signature, n: nat)
    requires Fresh(nodes, id, parents) && n < id
    ensures var nodes' := Grown(nodes, id, parents, cancelled, signature);
            Above(nodes', n) == Above(nodes, n) && Nearest(nodes', n) == Nearest(nodes, n)
    decreases n
  {
    var nodes' := Grown(nodes, id, parents, cancelled, signature);
    if n in nodes {
      forall p | p in nodes[n].parents && p < n
        ensures Nearest(nodes', p) == Nearest(nodes, p)
      {
        GrownNearest(nodes, id, parents, cancelled, signature, p);
      }
      assert nodes'[n].parents == nodes[n].parents && nodes'[n].kind == nodes[n].kind;
      forall t
        ensures t in Above(nodes', n) <==> t in Above(nodes, n)
      {
        if t in Above(nodes', n) {
          var p :| p in nodes'[n].parents && p < n && t in Nearest(nodes', p);
          NearestInAbove(nodes, n, p);
        }
        if t in Above(nodes, n) {
          var p :| p in nodes[n].parents && p < n && t in Nearest(nodes, p);
          NearestInAbove(nodes', n, p);
        }
      }
    }
  }

  lemma {:induction false} GrownIsNormal(nodes: Entries, stored: Stored, id: nat, parents: set<nat>, cancelled: bool, signature: Signature)
    requires Fresh(nodes, id, parents) && stored.Keys == nodes.Keys && Normal(nodes, stored)
    ensures Normal(Grown(nodes, id, parents, cancelled, signature), stored[id := {id}])
  {
    var nodes' := Grown(nodes, id, parents, cancelled, signature);
    forall n | IsRelay(nodes', n)
      ensures !Thin(nodes'[n])
    {
      assert IsRelay(nodes, n) && n !in parents;
      assert nodes'[n] == nodes[n];
    }
    forall n | n in nodes'
      ensures stored[id := {id}][n] == Nearest(nodes', n)
    {
      if n != id {
        GrownNearest(nodes, id, parents, cancelled, signature, n);
        assert stored[n] == Nearest(nodes, n);
      }
    }
    var stored' := stored[id := {id}];
    forall a, b
      ensures !Duplicates(nodes', stored', a, b)
    {
      assert !Duplicates(nodes, stored, a, b);
    }
  }

  lemma {:induction false} GrownIsIndexed(nodes: Entries, keys: Fingerprints, index: RelayIndex, id: nat, parents: set<nat>,
                                          cancelled: bool, signature: Signature, key: Candidate)
    requires Fresh(nodes, id, parents) && Indexed(nodes, keys, index)
    ensures var nodes' := Grown(nodes, id, parents, cancelled, signature);
            Indexed(nodes', keys[id := key], index) && RelayIds(nodes') == RelayIds(nodes)
  {
    var nodes' := Grown(nodes, id, parents, cancelled, signature);
    forall n
      ensures IsRelay(nodes', n) <==> IsRelay(nodes, n)
    {
      if n in nodes { assert nodes'[n].kind == nodes[n].kind; }
    }
    IndexStays(nodes, keys, index, nodes', keys[id := key]);
  }

  lemma {:induction false} GrownReaches(nodes: Entries, id: nat, parents: set<nat>, cancelled: bool, signature: Signature, a: nat, b: nat)
    requires Fresh(nodes, id, parents) && b < id
    ensures Reaches(Grown(nodes, id, parents, cancelled, signature), a, b) <==> Reaches(nodes, a, b)
    decreases b
  {
    var nodes' := Grown(nodes, id, parents, cancelled, signature);
    if b in nodes {
      assert nodes'[b].parents == nodes[b].parents;
      forall p | p in nodes[b].parents && p < b
        ensures Reaches(nodes', a, p) <==> Reaches(nodes, a, p)
      {
        GrownReaches(nodes, id, parents, cancelled, signature, a, p);
      }
    }
  }

  lemma {:induction false} GrownAgrees(nodes: Entries, h: H.History, parents: set<nat>, cancelled: bool, signature: Signature)
    requires H.WellFormed(h) && Agrees(nodes, h) && Fresh(nodes, |h.parents|, parents)
    requires cancelled <==> exists p :: p in parents && p in nodes && nodes[p].cancelled
    ensures H.WellFormed(H.Insert(h, parents))
    ensures Agrees(Grown(nodes, |h.parents|, parents, cancelled, signature), H.Insert(h, parents))
  {
    var id := |h.parents|;
    var nodes' := Grown(nodes, id, parents, cancelled, signature);
    var h' := H.Insert(h, parents);
    forall a: nat, b: nat | IsToken(nodes', a) && IsToken(nodes', b)
      ensures Reaches(nodes', a, b) <==> H.Ancestor(h', a, b)
    {
      if b < id {
        GrownReaches(nodes, id, parents, cancelled, signature, a, b);
        H.InsertKeepsAncestry(h, parents, a, b);
        OldAncestry(nodes, h, a, b);
      } else {
        H.InsertAncestry(h, parents, a);
        forall p | p in parents
          ensures Reaches(nodes', a, p) <==> H.Ancestor(h, a, p)
        {
          GrownReaches(nodes, id, parents, cancelled, signature, a, p);
          OldAncestry(nodes, h, a, p);
        }
      }
    }
    forall n: nat | IsToken(nodes', n)
      ensures n < |h'.cancelled| && nodes'[n].cancelled == h'.cancelled[n]
    {
      assert n != id ==> IsToken(nodes, n);
      assert forall p :: p in parents ==> IsToken(nodes, p);
    }
  }

  /** Ancestry of a present token, for any start that is present or not yet created. */
  lemma {:induction false} OldAncestry(nodes: Entries, h: H.History, a: nat, b: nat)
    requires H.WellFormed(h) && Agrees(nodes, h) && IsToken(nodes, b)
    requires forall n :: n in nodes ==> n < |h.parents|
    requires IsToken(nodes, a) || a >= |h.parents|
    ensures Reaches(nodes, a, b) <==> H.Ancestor(h, a, b)
  {
    if a >= |h.parents| {
      if Reaches(nodes, a, b) { ReachesIsOlder(nodes, a, b); }
      if H.Ancestor(h, a, b) { H.AncestorIsOlder(h, a, b); }
    }
  }

  lemma {:induction false} ReachesIsOlder(nodes: Entries, a: nat, b: nat)
    requires Reaches(nodes, a, b)
    ensures a < b
    decreases b
  {
    var p :| p in nodes[b].parents && p < b && (a == p || Reaches(nodes, a, p));
    if a != p { ReachesIsOlder(nodes, a, p); }
  }

  // ------------------------------------------------- cancellation

  /** Flags after cancelling `id`: it and everything it reaches. */
  ghost predicate Spread(nodes: Entries, nodes': Entries, id: nat) {
    && SameShape(nodes, nodes')
    && forall n :: n in nodes ==> (nodes'[n].cancelled <==> nodes[n].cancelled || n == id || Reaches(nodes, id, n))
  }

  /** `base` with the flags in `marked` raised. */
  function Flagged(base: Entries, marked: set<nat>): Entries {
    map n | n in base :: if n in marked then base[n].(cancelled := true) else base[n]
  }

  lemma {:induction false} FlagOneMore(base: Entries, marked: set<nat>, n: nat)
    requires n in base
    ensures var nodes := Flagged(base, marked);
            nodes[n := nodes[n].(cancelled := true)] == Flagged(base, marked + {n})
  {
    var nodes := Flagged(base, marked);
    var then' := nodes[n := nodes[n].(cancelled := true)];
    forall m | m in base
      ensures then'[m] == Flagged(base, marked + {n})[m]
    {
    }
  }

  /** A cancelled entry, before or after the flags in `marked` were raised. */
  ghost predicate Set(base: Entries, marked: set<nat>, n: nat) {
    n in base && (base[n].cancelled || n in marked)
  }

  /** Every child of a cancelled entry is cancelled or still to be visited. */
  ghost predicate Closing(base: Entries, marked: set<nat>, pending: seq<nat>) {
    forall n, c {:trigger c in base[n].children} ::
      n in base && c in base[n].children && Set(base, marked, n) ==> Set(base, marked, c) || c in pending
  }

  /** Only `id` and what it reaches is visited. */
  ghost predicate Below(base: Entries, id: nat, visited: set<nat>) {
    forall n :: n in visited ==> n in base && (n == id || Reaches(base, id, n))
  }

  /** Marking one more entry leaves its children to be visited. */
  lemma {:induction false} ClosingStep(base: Entries, marked: set<nat>, pending: seq<nat>, n: nat, children: seq<nat>)
    requires n in base && forall c :: c in base[n].children ==> c in children
    requires Closing(base, marked, pending + [n])
    ensures Closing(base, marked + {n}, pending + children)
  {
    forall m, c | m in base && c in base[m].children && Set(base, marked + {n}, m)
      ensures Set(base, marked + {n}, c) || c in pending + children
    {
      if m != n {
        assert Set(base, marked, m);
        assert Set(base, marked, c) || c in pending + [n];
      }
    }
  }

  /** An entry that is already cancelled needs no visit. */
  lemma {:induction false} ClosingSkip(base: Entries, marked: set<nat>, pending: seq<nat>, n: nat)
    requires Closing(base, marked, pending + [n]) && Set(base, marked, n)
    ensures Closing(base, marked, pending)
  {
    forall m, c | m in base && c in base[m].children && Set(base, marked, m)
      ensures Set(base, marked, c) || c in pending
    {
      assert Set(base, marked, c) || c in pending + [n];
    }
  }

  /** A half-done spread: what is marked, and what must still be visited. */
  ghost predicate Marking(base: Entries, id: nat, marked: set<nat>, pending: seq<nat>) {
    && (Set(base, marked, id) || id in pending)
    && Closing(base, marked, pending)
    && Below(base, id, marked) && (forall n :: n in pending ==> n in base && (n == id || Reaches(base, id, n)))
    && (forall n :: n in marked ==> n in base && !base[n].cancelled)
  }

  lemma {:induction false} MarkingStarts(base: Entries, id: nat)
    requires Linked(base) && Inherited(base) && id in base
    ensures Marking(base, id, {}, [id])
  {
    forall n, c | n in base && c in base[n].children && Set(base, {}, n)
      ensures Set(base, {}, c)
    {
      assert n in base[c].parents;
    }
  }

  lemma {:induction false} MarkingSkips(base: Entries, id: nat, marked: set<nat>, pending: seq<nat>, n: nat)
    requires Marking(base, id, marked, pending + [n]) && Set(base, marked, n)
    ensures Marking(base, id, marked, pending)
  {
    ClosingSkip(base, marked, pending, n);
    assert forall m :: m in pending ==> m in pending + [n];
  }

  lemma {:induction false} MarkingSteps(base: Entries, id: nat, marked: set<nat>, pending: seq<nat>, n: nat, children: seq<nat>)
    requires Linked(base) && Marking(base, id, marked, pending + [n])
    requires n in base && !base[n].cancelled && forall c :: c in base[n].children <==> c in children
    ensures Marking(base, id, marked + {n}, pending + children)
  {
    ClosingStep(base, marked, pending, n, children);
    assert n in pending + [n];
    assert forall m :: m in pending ==> m in pending + [n];
    forall c | c in children
      ensures c in base && Reaches(base, id, c)
    {
      assert n in base[c].parents;
    }
  }

  lemma {:induction false} MarkedIsSpread(base: Entries, marked: set<nat>, id: nat)
    requires Linked(base) && Marking(base, id, marked, [])
    ensures Spread(base, Flagged(base, marked), id) && Inherited(Flagged(base, marked))
  {
    var nodes := Flagged(base, marked);
    assert SameShape(base, nodes);
    forall n, p | n in nodes && p in nodes[n].parents && p in nodes && nodes[p].cancelled
      ensures nodes[n].cancelled
    {
      assert n in base[p].children && Set(base, marked, p);
    }
    forall n | n in base && Reaches(base, id, n)
      ensures nodes[n].cancelled
    {
      ClosedCoversReach(base, nodes, id, n);
    }
  }

  /** Flags that are closed below `id` cover everything it reaches. */
  lemma {:induction false} ClosedCoversReach(nodes: Entries, nodes': Entries, id: nat, b: nat)
    requires Linked(nodes) && SameShape(nodes, nodes') && Inherited(nodes') && id in nodes && nodes'[id].cancelled
    requires b in nodes && Reaches(nodes, id, b)
    ensures nodes'[b].cancelled
    decreases b
  {
    var p :| p in nodes[b].parents && p < b && (id == p || Reaches(nodes, id, p));
    if p != id { ClosedCoversReach(nodes, nodes', id, p); }
    assert p in nodes'[b].parents;
  }

  lemma {:induction false} SpreadAgrees(nodes: Entries, nodes': Entries, id: nat, h: H.History)
    requires H.WellFormed(h) && Agrees(nodes, h) && Spread(nodes, nodes', id) && IsToken(nodes, id)
    ensures H.WellFormed(H.Cancel(h, id)) && Agrees(nodes', H.Cancel(h, id))
  {
    var h' := H.Cancel(h, id);
    forall a: nat, b: nat | IsToken(nodes', a) && IsToken(nodes', b)
      ensures Reaches(nodes', a, b) <==> H.Ancestor(h', a, b)
    {
      SameShapeReaches(nodes, nodes', a, b);
      H.CancelKeepsAncestry(h, id, a, b);
      assert IsToken(nodes, a) && IsToken(nodes, b);
    }
    forall n: nat | IsToken(nodes', n)
      ensures n < |h'.cancelled| && nodes'[n].cancelled == h'.cancelled[n]
    {
      assert IsToken(nodes, n);
    }
  }

  /** After new flags, only relays whose flag changed can have become duplicates. */
  lemma {:induction false} SpreadStarts(nodes: Entries, stored: Stored, keys: Fingerprints, index: RelayIndex, relays: nat,
                                        nodes': Entries, changed: set<nat>, x: nat)
    requires Linked(nodes) && Inherited(nodes') && Indexed(nodes, keys, index) && relays == |RelayIds(nodes)|
    requires stored.Keys == nodes.Keys && Normal(nodes, stored) && TokensSigned(nodes, stored)
    requires SameShape(nodes, nodes') && forall n :: n in nodes ==> n < x
    requires forall n :: IsRelay(nodes, n) && nodes'[n].cancelled != nodes[n].cancelled ==> n in changed
    ensures Consistent(nodes', stored, keys, index, relays, Initial(RelayWork(changed, {})), x, {})
  {
    assert Linked(nodes');
    assert RelayIds(nodes') == RelayIds(nodes);
    assert forall n :: IsRelay(nodes', n) <==> IsRelay(nodes, n);
    forall n | n in nodes'
      ensures Nearest(nodes', n) == Subst(x, {}, stored[n])
    {
      SameShapeNearest(nodes, nodes', n);
      NearestAreTokens(nodes, n);
      assert stored[n] == Nearest(nodes, n);
    }
    SpreadIsCovered(nodes, stored, nodes', changed);
  }

  lemma {:induction false} SpreadIsCovered(nodes: Entries, stored: Stored, nodes': Entries, changed: set<nat>)
    requires Linked(nodes) && stored.Keys == nodes.Keys && Normal(nodes, stored) && SameShape(nodes, nodes')
    requires forall n :: IsRelay(nodes, n) && nodes'[n].cancelled != nodes[n].cancelled ==> n in changed
    ensures Covered(nodes', stored, Initial(RelayWork(changed, {})))
  {
    var pending := Initial(RelayWork(changed, {}));
    assert forall n :: n in changed ==> n in pending;
    forall n | IsRelay(nodes', n)
      ensures !Thin(nodes'[n]) && stored[n] == Joined(nodes', stored, n)
    {
      assert IsRelay(nodes, n);
      assert stored[n] == Nearest(nodes, n);
      NormalIsJoined(nodes, stored, n);
      SameJoined(nodes, nodes', stored, stored, n);
    }
    forall a, b | Duplicates(nodes', stored, a, b)
      ensures a in pending || b in pending
    {
      assert !Duplicates(nodes, stored, a, b);
      assert IsRelay(nodes, a) && IsRelay(nodes, b);
    }
  }
}
