/**
 The uncompressed reference for cancellation: every token ever created, with the
 parents it was created under and whether cancellation has reached it.
 */
module CancellationHistory {

  datatype History = History(parents: seq<set<nat>>, cancelled: seq<bool>)

  const NO_HISTORY := History([], [])

  ghost predicate WellFormed(h: History) {
    && |h.parents| == |h.cancelled|
    && forall b :: 0 <= b < |h.parents| ==> forall p :: p in h.parents[b] ==> p < b
  }

  ghost predicate Cancelled(h: History, n: nat) {
    n < |h.cancelled| && h.cancelled[n]
  }

  /** `a` is a proper ancestor of `b`. */
  ghost predicate Ancestor(h: History, a: nat, b: nat)
    decreases b
  {
    b < |h.parents| && exists p :: p in h.parents[b] && p < b && (a == p || Ancestor(h, a, p))
  }

  /** A new token is born cancelled exactly when one of its parents is. */
  ghost function Insert(h: History, parents: set<nat>): History
    requires WellFormed(h)
    requires forall p :: p in parents ==> p < |h.parents|
  {
    History(h.parents + [parents], h.cancelled + [exists p :: p in parents && h.cancelled[p]])
  }

  /** Cancelling marks the token and every descendant. */
  ghost function Cancel(h: History, id: nat): History
    requires WellFormed(h)
  {
    History(h.parents, seq(|h.cancelled|, b requires 0 <= b < |h.cancelled| =>
      h.cancelled[b] || b == id || Ancestor(h, id, b)))
  }

  lemma {:induction false} InsertKeepsAncestry(h: History, parents: set<nat>, a: nat, b: nat)
    requires WellFormed(h)
    requires forall p :: p in parents ==> p < |h.parents|
    requires b < |h.parents|
    ensures Ancestor(Insert(h, parents), a, b) <==> Ancestor(h, a, b)
    decreases b
  {
    var h' := Insert(h, parents);
    assert h'.parents[b] == h.parents[b];
    forall p | p in h.parents[b] && p < b
      ensures Ancestor(h', a, p) <==> Ancestor(h, a, p)
    {
      InsertKeepsAncestry(h, parents, a, p);
    }
  }

  /** Ancestors of the new token: its parents and theirs. */
  lemma InsertAncestry(h: History, parents: set<nat>, a: nat)
    requires WellFormed(h)
    requires forall p :: p in parents ==> p < |h.parents|
    ensures Ancestor(Insert(h, parents), a, |h.parents|)
            <==> exists p :: p in parents && (a == p || Ancestor(h, a, p))
  {
    forall p | p in parents
      ensures Ancestor(Insert(h, parents), a, p) <==> Ancestor(h, a, p)
    {
      InsertKeepsAncestry(h, parents, a, p);
    }
  }

  lemma {:induction false} CancelKeepsAncestry(h: History, id: nat, a: nat, b: nat)
    requires WellFormed(h)
    ensures Ancestor(Cancel(h, id), a, b) <==> Ancestor(h, a, b)
    decreases b
  {
    if b < |h.parents| {
      forall p | p in h.parents[b] && p < b
        ensures Ancestor(Cancel(h, id), a, p) <==> Ancestor(h, a, p)
      {
        CancelKeepsAncestry(h, id, a, p);
      }
    }
  }

  lemma {:induction false} AncestorIsOlder(h: History, a: nat, b: nat)
    requires Ancestor(h, a, b)
    ensures a < b
    decreases b
  {
    var p :| p in h.parents[b] && p < b && (a == p || Ancestor(h, a, p));
    if a != p { AncestorIsOlder(h, a, p); }
  }

  /** No token is spared under a cancelled parent. */
  ghost predicate Inherited(h: History) {
    forall b: nat, p :: b < |h.parents| && p in h.parents[b] && Cancelled(h, p) ==> Cancelled(h, b)
  }

  /** Cancellation is inherited at birth and spread to everything below; nothing else is cancelled. */
  lemma {:induction false} InheritanceKept(h: History, parents: set<nat>, id: nat)
    requires WellFormed(h) && Inherited(h) && (forall p :: p in parents ==> p < |h.parents|) && id < |h.parents|
    ensures WellFormed(Insert(h, parents)) && Inherited(Insert(h, parents))
    ensures WellFormed(Cancel(h, id)) && Inherited(Cancel(h, id))
    ensures Cancelled(Cancel(h, id), id) && forall n: nat :: Cancelled(Cancel(h, id), n) && n < id ==> Cancelled(h, n)
  {
    var t := Cancel(h, id);
    forall b: nat, p | b < |t.parents| && p in t.parents[b] && Cancelled(t, p)
      ensures Cancelled(t, b)
    {
      assert p < b && p in h.parents[b];
      if Cancelled(h, p) { assert Cancelled(h, b); } else { assert Ancestor(h, id, b); }
    }
    forall n: nat | Cancelled(t, n) && n < id
      ensures Cancelled(h, n)
    {
      if Ancestor(h, id, n) { AncestorIsOlder(h, id, n); }
    }
    var u := Insert(h, parents);
    forall b: nat, p | b < |u.parents| && p in u.parents[b] && Cancelled(u, p)
      ensures Cancelled(u, b)
    {
      if b < |h.parents| { assert u.parents[b] == h.parents[b] && p in h.parents[b] && Cancelled(h, p); }
    }
  }

  /** Being above is transitive. */
  lemma {:induction false} AncestryChains(h: History, a: nat, b: nat, c: nat)
    requires Ancestor(h, a, b) && Ancestor(h, b, c)
    ensures Ancestor(h, a, c)
    decreases c
  {
    var p :| p in h.parents[c] && p < c && (b == p || Ancestor(h, b, p));
    if b != p { AncestryChains(h, a, b, p); }
  }
}
