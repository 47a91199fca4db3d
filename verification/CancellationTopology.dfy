/**
 Entries of the compressed cancellation graph as values, the rewrites applied to
 them, and what each rewrite does to ancestry between live tokens.
 */
module CancellationTopology {
  import opened Signature

  datatype Kind = Token | Relay

  datatype Entry = Entry(
    kind: Kind,
    cancelled: bool,
    parents: set<nat>,
    children: set<nat>,
    signature: Signature)

  type Entries = map<nat, Entry>

  /** Both adjacency directions agree, and every edge leads to a larger identity. */
  ghost predicate Linked(nodes: Entries) {
    && (forall n, p {:trigger p in nodes[n].parents} :: n in nodes && p in nodes[n].parents ==> p in nodes && p < n && n in nodes[p].children)
    && (forall n, c {:trigger c in nodes[n].children} :: n in nodes && c in nodes[n].children ==> c in nodes && n < c && n in nodes[c].parents)
  }

  ghost predicate IsToken(nodes: Entries, n: nat) {
    n in nodes && nodes[n].kind.Token?
  }

  ghost predicate IsRelay(nodes: Entries, n: nat) {
    n in nodes && nodes[n].kind.Relay?
  }

  /** `a` reaches `b` along at least one edge. */
  ghost predicate Reaches(nodes: Entries, a: nat, b: nat)
    decreases b
  {
    b in nodes && exists p :: p in nodes[b].parents && p < b && (a == p || Reaches(nodes, a, p))
  }

  // ------------------------------------------------- nearest live tokens

  /** The token itself, or for a relay the tokens that reach it through relays only. */
  ghost function Nearest(nodes: Entries, n: nat): set<nat>
    decreases n, 1
  {
    if n !in nodes then {} else if nodes[n].kind.Token? then {n} else Above(nodes, n)
  }

  /** The nearest tokens strictly above an entry. */
  ghost function Above(nodes: Entries, n: nat): set<nat>
    decreases n, 0
  {
    if n !in nodes then {}
    else set p, t | p in nodes[n].parents && p < n && t in Nearest(nodes, p) :: t
  }

  /** What a set of tokens becomes once `x` is replaced by the tokens above it. */
  function Subst(x: nat, above: set<nat>, s: set<nat>): set<nat> {
    if x in s then s - {x} + above else s
  }

  lemma {:induction false} NearestAreTokens(nodes: Entries, n: nat)
    ensures forall t :: t in Nearest(nodes, n) ==> t <= n && IsToken(nodes, t)
    ensures forall t :: t in Above(nodes, n) ==> t < n && IsToken(nodes, t)
    decreases n
  {
    if n in nodes {
      forall t | t in Above(nodes, n)
        ensures t < n && IsToken(nodes, t)
      {
        var p :| p in nodes[n].parents && p < n && t in Nearest(nodes, p);
        NearestAreTokens(nodes, p);
      }
    }
  }

  /** A path from a token passes one of the nearest tokens above its end. */
  lemma {:induction false} LastTokenOnPath(nodes: Entries, a: nat, b: nat) returns (s: nat)
    requires IsToken(nodes, a) && Reaches(nodes, a, b)
    ensures s in Above(nodes, b) && (a == s || Reaches(nodes, a, s))
    decreases b
  {
    var p :| p in nodes[b].parents && p < b && (a == p || Reaches(nodes, a, p));
    if IsToken(nodes, p) {
      s := p;
      assert s in Nearest(nodes, p);
    } else {
      s := LastTokenOnPath(nodes, a, p);
      assert s in Nearest(nodes, p);
    }
  }

  lemma {:induction false} ReachesTransitive(nodes: Entries, a: nat, s: nat, b: nat)
    requires s in Above(nodes, b)
    requires a == s || Reaches(nodes, a, s)
    ensures Reaches(nodes, a, b)
    decreases b
  {
    var p :| p in nodes[b].parents && p < b && s in Nearest(nodes, p);
    if !IsToken(nodes, p) { ReachesTransitive(nodes, a, s, p); }
  }

  // ------------------------------------------------- rewrites

  /** The graph without `id`, whose neighbours forget it. */
  function Detached(nodes: Entries, id: nat): Entries {
    map n | n in nodes && n != id ::
      nodes[n].(parents := nodes[n].parents - {id}, children := nodes[n].children - {id})
  }

  /** Every parent linked to every child. */
  function Spliced(nodes: Entries, parents: set<nat>, children: set<nat>): Entries {
    map n | n in nodes ::
      nodes[n].(parents := if n in children then nodes[n].parents + parents else nodes[n].parents,
                children := if n in parents then nodes[n].children + children else nodes[n].children)
  }

  function Erased(nodes: Entries, id: nat, splice: bool): Entries
    requires id in nodes
  {
    var rest := Detached(nodes, id);
    if splice then Spliced(rest, nodes[id].parents, nodes[id].children) else rest
  }

  /** The children of `remove` handed to `keep`. */
  function Merged(nodes: Entries, keep: nat, remove: nat): Entries
    requires keep in nodes && remove in nodes
  {
    map n | n in nodes && n != remove ::
      nodes[n].(parents := if remove in nodes[n].parents then nodes[n].parents - {remove} + {keep} else nodes[n].parents,
                children := (nodes[n].children - {remove}) + (if n == keep then nodes[remove].children else {}))
  }

  /** A dropped token kept as an anonymous relay. */
  function Demoted(nodes: Entries, id: nat, inherited: bool, signature: Signature): Entries
    requires id in nodes
  {
    nodes[id := nodes[id].(kind := Relay, cancelled := inherited, signature := signature)]
  }

  lemma {:induction false} EraseKeepsLinks(nodes: Entries, id: nat)
    requires Linked(nodes) && id in nodes
    ensures Linked(Erased(nodes, id, true))
  {
  }

  lemma {:induction false} MergeKeepsLinks(nodes: Entries, keep: nat, remove: nat)
    requires Linked(nodes) && keep in nodes && remove in nodes && keep < remove
    ensures Linked(Merged(nodes, keep, remove))
  {
  }

  // ------------------------------------------------- what rewrites preserve

  /** Erasing any entry substitutes the tokens above it for its own identity. */
  lemma {:induction false} EraseNearest(nodes: Entries, id: nat, n: nat)
    requires Linked(nodes) && id in nodes && n in nodes && n != id
    ensures Above(Erased(nodes, id, true), n) == Subst(id, Above(nodes, id), Above(nodes, n))
    ensures Nearest(Erased(nodes, id, true), n) == Subst(id, Above(nodes, id), Nearest(nodes, n))
    decreases n
  {
    var nodes' := Erased(nodes, id, true);
    var above := Above(nodes, id);
    NearestAreTokens(nodes, id);
    forall p | p in nodes[n].parents && p != id
      ensures Nearest(nodes', p) == Subst(id, above, Nearest(nodes, p))
    {
      EraseNearest(nodes, id, p);
    }
    if id in nodes[n].parents {
      forall p | p in nodes[id].parents
        ensures Nearest(nodes', p) == Nearest(nodes, p)
      {
        EraseNearest(nodes, id, p);
        NearestAreTokens(nodes, p);
      }
      EraseAboveOfChild(nodes, id, n);
    } else {
      EraseAboveElsewhere(nodes, id, n);
    }
  }

  lemma {:induction false} EraseAboveElsewhere(nodes: Entries, id: nat, n: nat)
    requires Linked(nodes) && id in nodes && n in nodes && n != id && id !in nodes[n].parents
    requires forall p :: p in nodes[n].parents ==>
      Nearest(Erased(nodes, id, true), p) == Subst(id, Above(nodes, id), Nearest(nodes, p))
    ensures Above(Erased(nodes, id, true), n) == Subst(id, Above(nodes, id), Above(nodes, n))
  {
    var nodes' := Erased(nodes, id, true);
    var above := Above(nodes, id);
    assert nodes'[n].parents == nodes[n].parents;
    forall t | t in Above(nodes', n)
      ensures t in Subst(id, above, Above(nodes, n))
    {
      var p :| p in nodes[n].parents && p < n && t in Nearest(nodes', p);
      NearestInAbove(nodes, n, p);
      NearestAreTokens(nodes, id);
    }
    forall t | t in Subst(id, above, Above(nodes, n))
      ensures t in Above(nodes', n)
    {
      if t in Above(nodes, n) && t != id {
        var p :| p in nodes[n].parents && p < n && t in Nearest(nodes, p);
        NearestInAbove(nodes', n, p);
      } else {
        var p :| p in nodes[n].parents && p < n && id in Nearest(nodes, p);
        NearestInAbove(nodes', n, p);
      }
    }
  }

  lemma {:induction false} EraseAboveOfChild(nodes: Entries, id: nat, n: nat)
    requires Linked(nodes) && id in nodes && n in nodes && id in nodes[n].parents
    requires forall p :: p in nodes[n].parents && p != id ==>
      Nearest(Erased(nodes, id, true), p) == Subst(id, Above(nodes, id), Nearest(nodes, p))
    requires forall p :: p in nodes[id].parents ==> Nearest(Erased(nodes, id, true), p) == Nearest(nodes, p)
    ensures Above(Erased(nodes, id, true), n) == Subst(id, Above(nodes, id), Above(nodes, n))
  {
    var nodes' := Erased(nodes, id, true);
    var above := Above(nodes, id);
    NearestAreTokens(nodes, id);
    NearestAreTokens(nodes, n);
    assert nodes'[n].parents == nodes[n].parents - {id} + nodes[id].parents;
    NearestInAbove(nodes, n, id);
    forall t | t in Above(nodes', n)
      ensures t in Subst(id, above, Above(nodes, n))
    {
      var p :| p in nodes'[n].parents && p < n && t in Nearest(nodes', p);
      if p in nodes[n].parents && p != id {
        NearestInAbove(nodes, n, p);
      } else {
        NearestInAbove(nodes, id, p);
      }
    }
    forall t | t in Subst(id, above, Above(nodes, n))
      ensures t in Above(nodes', n)
    {
      if t in above {
        var p :| p in nodes[id].parents && p < id && t in Nearest(nodes, p);
        NearestInAbove(nodes', n, p);
      } else {
        var p :| p in nodes[n].parents && p < n && t in Nearest(nodes, p);
        assert p != id;
        NearestInAbove(nodes', n, p);
      }
    }
  }

  lemma {:induction false} NearestInAbove(nodes: Entries, n: nat, p: nat)
    requires n in nodes && p in nodes[n].parents && p < n
    ensures Nearest(nodes, p) <= Above(nodes, n)
  {
  }

  /** Demoting a token to a relay makes the same substitution as erasing it. */
  lemma {:induction false} DemoteNearest(nodes: Entries, id: nat, inherited: bool, signature: Signature, n: nat)
    requires Linked(nodes) && IsToken(nodes, id) && n in nodes
    ensures Above(Demoted(nodes, id, inherited, signature), n) == Subst(id, Above(nodes, id), Above(nodes, n))
    ensures Nearest(Demoted(nodes, id, inherited, signature), n) == Subst(id, Above(nodes, id), Nearest(nodes, n))
    decreases n
  {
    var nodes' := Demoted(nodes, id, inherited, signature);
    var above := Above(nodes, id);
    assert nodes'[n].parents == nodes[n].parents;
    forall p | p in nodes[n].parents
      ensures p < n && Nearest(nodes', p) == Subst(id, above, Nearest(nodes, p))
    {
      DemoteNearest(nodes, id, inherited, signature, p);
    }
    forall t | t in Above(nodes', n)
      ensures t in Subst(id, above, Above(nodes, n))
    {
      var p :| p in nodes[n].parents && p < n && t in Nearest(nodes', p);
      NearestInAbove(nodes, n, p);
      NearestAreTokens(nodes, id);
    }
    forall t | t in Subst(id, above, Above(nodes, n))
      ensures t in Above(nodes', n)
    {
      if t in Above(nodes, n) && t != id {
        var p :| p in nodes[n].parents && p < n && t in Nearest(nodes, p);
        NearestInAbove(nodes', n, p);
      } else {
        var p :| p in nodes[n].parents && p < n && id in Nearest(nodes, p);
        NearestInAbove(nodes', n, p);
      }
    }
    if n == id {
      NearestAreTokens(nodes, id);
      assert Subst(id, above, {id}) == above;
      assert Subst(id, above, Above(nodes, n)) == above;
    }
  }

  /** Erasing a relay leaves every other entry's nearest tokens alone. */
  lemma {:induction false} EraseRelayNearest(nodes: Entries, id: nat, n: nat)
    requires Linked(nodes) && IsRelay(nodes, id) && n in nodes && n != id
    ensures Above(Erased(nodes, id, true), n) == Above(nodes, n)
    ensures Nearest(Erased(nodes, id, true), n) == Nearest(nodes, n)
  {
    EraseNearest(nodes, id, n);
    NearestAreTokens(nodes, n);
  }

  /** Merging relays with equal nearest tokens leaves every other entry's alone. */
  lemma {:induction false} MergeNearest(nodes: Entries, keep: nat, remove: nat, n: nat)
    requires Linked(nodes) && IsRelay(nodes, keep) && IsRelay(nodes, remove) && keep < remove
    requires Nearest(nodes, keep) == Nearest(nodes, remove)
    requires n in nodes && n != remove
    ensures Above(Merged(nodes, keep, remove), n) == Above(nodes, n)
    ensures Nearest(Merged(nodes, keep, remove), n) == Nearest(nodes, n)
    decreases n
  {
    var nodes' := Merged(nodes, keep, remove);
    forall p | p in nodes[n].parents && p != remove
      ensures Nearest(nodes', p) == Nearest(nodes, p)
    {
      MergeNearest(nodes, keep, remove, p);
    }
    if remove in nodes[n].parents {
      MergeNearest(nodes, keep, remove, keep);
      assert nodes'[n].parents == nodes[n].parents - {remove} + {keep};
      forall t | t in Above(nodes', n)
        ensures t in Above(nodes, n)
      {
        var p :| p in nodes'[n].parents && p < n && t in Nearest(nodes', p);
        NearestInAbove(nodes, n, if p in nodes[n].parents then p else remove);
      }
      forall t | t in Above(nodes, n)
        ensures t in Above(nodes', n)
      {
        var p :| p in nodes[n].parents && p < n && t in Nearest(nodes, p);
        NearestInAbove(nodes', n, if p == remove then keep else p);
      }
    } else {
      assert nodes'[n].parents == nodes[n].parents;
      assert Above(nodes', n) == Above(nodes, n);
    }
  }

  // ------------------------------------------------- reachability between tokens

  /** Rewrites that keep the nearest tokens keep reachability between tokens. */
  lemma {:induction false} SameAboveReaches(nodes: Entries, nodes': Entries, a: nat, b: nat)
    requires forall n :: IsToken(nodes, n) <==> IsToken(nodes', n)
    requires forall n :: IsToken(nodes, n) ==> Above(nodes, n) == Above(nodes', n)
    requires IsToken(nodes, a) && IsToken(nodes, b) && Reaches(nodes, a, b)
    ensures Reaches(nodes', a, b)
    decreases b
  {
    NearestAreTokens(nodes, b);
    var s := LastTokenOnPath(nodes, a, b);
    if a != s { SameAboveReaches(nodes, nodes', a, s); }
    ReachesTransitive(nodes', a, s, b);
  }

  /** `nodes'` lost token `x`: each remaining token has the tokens above `x` in its place. */
  ghost predicate Substituted(nodes: Entries, nodes': Entries, x: nat) {
    && IsToken(nodes, x)
    && (forall n :: IsToken(nodes', n) <==> IsToken(nodes, n) && n != x)
    && (forall n :: IsToken(nodes', n) ==> Above(nodes', n) == Subst(x, Above(nodes, x), Above(nodes, n)))
  }

  lemma {:induction false} SubstitutedReaches(nodes: Entries, nodes': Entries, x: nat, a: nat, b: nat)
    requires Substituted(nodes, nodes', x) && IsToken(nodes', a) && IsToken(nodes', b)
    requires Reaches(nodes', a, b)
    ensures Reaches(nodes, a, b)
    decreases b
  {
    NearestAreTokens(nodes', b);
    var s := LastTokenOnPath(nodes', a, b);
    if a != s { SubstitutedReaches(nodes, nodes', x, a, s); }
    if s in Above(nodes, b) {
      ReachesTransitive(nodes, a, s, b);
    } else {
      ReachesTransitive(nodes, a, s, x);
      ReachesTransitive(nodes, a, x, b);
    }
  }

  lemma {:induction false} SubstitutedStillReaches(nodes: Entries, nodes': Entries, x: nat, a: nat, b: nat)
    requires Substituted(nodes, nodes', x) && IsToken(nodes', a) && IsToken(nodes', b)
    requires Reaches(nodes, a, b)
    ensures Reaches(nodes', a, b)
    decreases b
  {
    NearestAreTokens(nodes, b);
    var s := LastTokenOnPath(nodes, a, b);
    if s == x {
      NearestAreTokens(nodes, x);
      s := LastTokenOnPath(nodes, a, x);
    }
    if a != s { SubstitutedStillReaches(nodes, nodes', x, a, s); }
    ReachesTransitive(nodes', a, s, b);
  }

  /** Dropping a token keeps reachability among the others. */
  lemma {:induction false} SubstitutedSameReach(nodes: Entries, nodes': Entries, x: nat, a: nat, b: nat)
    requires Substituted(nodes, nodes', x) && IsToken(nodes', a) && IsToken(nodes', b)
    ensures Reaches(nodes, a, b) <==> Reaches(nodes', a, b)
  {
    if Reaches(nodes', a, b) { SubstitutedReaches(nodes, nodes', x, a, b); }
    if Reaches(nodes, a, b) { SubstitutedStillReaches(nodes, nodes', x, a, b); }
  }
}
