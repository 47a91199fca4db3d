/** Least-loaded placement from cached admission and retirement totals, which are those of `Control`. */
module Placement {
  import opened Options
  import C = Control

  const U64_MAX: nat := 0xffff_ffff_ffff_ffff

  /** The carriers in scanning order from `cursor`, wrapping around once. */
  function Nth(cursor: nat, offset: nat, carriers: nat): (c: nat)
    requires cursor < carriers && offset < carriers
    ensures c < carriers
  {
    if cursor + offset < carriers then cursor + offset else cursor + offset - carriers
  }

  /** Scanning visits every carrier. */
  lemma {:induction false} NthReaches(cursor: nat, carriers: nat, c: nat) returns (offset: nat)
    requires cursor < carriers && c < carriers
    ensures offset < carriers && Nth(cursor, offset, carriers) == c
  {
    offset := if c >= cursor then c - cursor else c + carriers - cursor;
  }

  /** No carrier has been seen to retire more than it was given. */
  ghost predicate Cached(totals: seq<nat>, observed: seq<nat>) {
    && |observed| == |totals|
    && forall c :: 0 <= c < |totals| ==> observed[c] <= totals[c] <= U64_MAX
  }

  /** Published retirement totals lie between what was observed and what was placed. */
  ghost predicate Published(retired: seq<nat>, totals: seq<nat>, observed: seq<nat>) {
    && |retired| == |totals| == |observed|
    && forall c :: 0 <= c < |totals| ==> observed[c] <= retired[c] <= totals[c]
  }

  /**
   The totals of the admission accounts, in any state their invariant describes, are what
   placement needs: for a selection, whose refresh is the accounts' probe, and for taking a
   released reservation back.
   */
  lemma {:induction false} AccountsFeedPlacement(s: C.State, e: C.Event, limits: C.Limits)
    requires C.Invariant(s, limits) && C.Enabled(s, e, limits)
    requires forall c :: 0 <= c < |s.loads.placed| ==> s.loads.placed[c] <= U64_MAX
    ensures Cached(s.loads.placed, s.loads.seen) && Published(s.loads.retiredBy, s.loads.placed, s.loads.seen)
    ensures e.Probe? ==> C.After(s, e, limits).loads == s.loads.(seen := s.loads.seen[e.carrier := s.loads.retiredBy[e.carrier]])
    ensures e.Release? ==>
              var c := s.ledger.records[e.task].carrier;
              && c < |s.loads.placed| && s.loads.placed[c] > s.loads.seen[c]
              && C.After(s, e, limits).loads == s.loads.(placed := s.loads.placed[c := s.loads.placed[c] - 1])
  {
    if e.Release? { C.ReservedIsCounted(s, e.task, limits); }
    forall c | 0 <= c < |s.loads.placed|
      ensures s.loads.seen[c] <= s.loads.retiredBy[c] <= s.loads.placed[c]
    {
      assert s.loads.placed[c] == s.loads.retiredBy[c] + |C.Loaded(s.ledger.records, c)|;
    }
  }

  class CarrierLoads {
    var totals: seq<nat>
    var observedRetired: seq<nat>
    var probe: nat

    ghost predicate Valid()
      reads this
    {
      |totals| > 0 && probe < |totals| && Cached(totals, observedRetired)
    }

    function Load(c: nat): nat
      reads this
      requires Valid() && c < |totals|
    {
      totals[c] - observedRetired[c]
    }

    constructor (carriers: nat)
      requires carriers != 0
      ensures Valid() && |totals| == carriers
    {
      totals := seq(carriers, _ => 0);
      observedRetired := seq(carriers, _ => 0);
      probe := 0;
    }

    ghost predicate AllFull()
      reads this
      requires Valid()
    {
      forall c :: 0 <= c < |totals| ==> Load(c) == U64_MAX
    }

    /** No carrier accepts, up to those whose load is the largest 64-bit number. */
    ghost predicate NoneFits(cursor: nat, accepts: seq<bool>)
      reads this
      requires Valid() && cursor < |totals| && |accepts| == |totals|
    {
      (forall c :: 0 <= c < |totals| && accepts[c] ==> Load(c) == U64_MAX) && !(accepts[cursor] && AllFull())
    }

    /**
     Refreshes one carrier's retirement total, then picks an accepting carrier with the
     least cached load; among equals, the first in scanning order. A carrier whose load is
     the largest 64-bit number is only picked where the scan starts, if all are that loaded.
     */
    method Select(cursor: nat, retired: seq<nat>, accepts: seq<bool>) returns (owner: Option<nat>, ghost at: nat)
      requires Valid() && cursor < |totals| && |accepts| == |totals| && Published(retired, totals, observedRetired)
      modifies `observedRetired, `probe
      ensures Valid() && observedRetired == old(observedRetired)[old(probe) := retired[old(probe)]]
      ensures probe == if old(probe) + 1 == |totals| then 0 else old(probe) + 1
      ensures owner.None? <==> NoneFits(cursor, accepts)
      ensures owner.Some? ==>
                && owner.value < |totals| && accepts[owner.value]
                && (forall c :: 0 <= c < |totals| && accepts[c] ==> Load(owner.value) <= Load(c))
                && at < |totals| && owner.value == Nth(cursor, at, |totals|)
                && forall o :: 0 <= o < at && accepts[Nth(cursor, o, |totals|)] ==> Load(owner.value) < Load(Nth(cursor, o, |totals|))
    {
      // The retirement total never moves backward.
      assert retired[probe] >= observedRetired[probe];
      observedRetired := observedRetired[probe := retired[probe]];
      probe := if probe + 1 == |totals| then 0 else probe + 1;
      owner, at := Pick(cursor, accepts);
    }

    method Pick(cursor: nat, accepts: seq<bool>) returns (owner: Option<nat>, ghost at: nat)
      requires Valid() && cursor < |totals| && |accepts| == |totals|
      ensures owner.None? <==> NoneFits(cursor, accepts)
      ensures owner.Some? ==>
                && owner.value < |totals| && accepts[owner.value]
                && (forall c :: 0 <= c < |totals| && accepts[c] ==> Load(owner.value) <= Load(c))
                && at < |totals| && owner.value == Nth(cursor, at, |totals|)
                && forall o :: 0 <= o < at && accepts[Nth(cursor, o, |totals|)] ==> Load(owner.value) < Load(Nth(cursor, o, |totals|))
    {
      var candidate;
      candidate, at := Least(cursor);
      FullCandidate(cursor, candidate, at);
      if accepts[candidate] {
        owner := Some(candidate);
        return;
      }
      owner, at := LeastAccepting(cursor, candidate, accepts);
    }

    /** A least loaded carrier is full only if all are, and then the scan has not moved. */
    lemma FullCandidate(cursor: nat, candidate: nat, at: nat)
      requires Valid() && cursor < |totals| && at < |totals| && candidate == Nth(cursor, at, |totals|)
      requires forall c :: 0 <= c < |totals| ==> Load(candidate) <= Load(c)
      requires forall o :: 0 <= o < at ==> Load(candidate) < Load(Nth(cursor, o, |totals|))
      ensures Load(candidate) == U64_MAX <==> AllFull()
      ensures AllFull() ==> candidate == cursor
    {
      forall c | 0 <= c < |totals|
        ensures Load(c) <= U64_MAX
      {
      }
      if at > 0 {
        assert Load(candidate) < Load(Nth(cursor, 0, |totals|)) <= U64_MAX;
      }
    }

    method Least(cursor: nat) returns (candidate: nat, ghost at: nat)
      requires Valid() && cursor < |totals|
      ensures candidate < |totals| && forall c :: 0 <= c < |totals| ==> Load(candidate) <= Load(c)
      ensures at < |totals| && candidate == Nth(cursor, at, |totals|)
      ensures forall o :: 0 <= o < at ==> Load(candidate) < Load(Nth(cursor, o, |totals|))
    {
      candidate, at := Nth(cursor, 0, |totals|), 0;
      for offset := 1 to |totals|
        invariant at < offset && candidate == Nth(cursor, at, |totals|)
        invariant forall o :: 0 <= o < at ==> Load(candidate) < Load(Nth(cursor, o, |totals|))
        invariant forall o :: 0 <= o < offset ==> Load(candidate) <= Load(Nth(cursor, o, |totals|))
      {
        var c := Nth(cursor, offset, |totals|);
        if Load(c) < Load(candidate) {
          candidate, at := c, offset;
        }
      }
      forall c: nat | c < |totals|
        ensures Load(candidate) <= Load(c)
      {
        var o := NthReaches(cursor, |totals|, c);
      }
    }

    method LeastAccepting(cursor: nat, candidate: nat, accepts: seq<bool>) returns (owner: Option<nat>, ghost at: nat)
      requires Valid() && cursor < |totals| && |accepts| == |totals| && candidate < |totals| && !accepts[candidate]
      ensures owner.None? <==> forall c :: 0 <= c < |totals| && accepts[c] ==> Load(c) == U64_MAX
      ensures owner.Some? ==>
                && owner.value < |totals| && accepts[owner.value]
                && (forall c :: 0 <= c < |totals| && accepts[c] ==> Load(owner.value) <= Load(c))
                && at < |totals| && owner.value == Nth(cursor, at, |totals|)
                && forall o :: 0 <= o < at && accepts[Nth(cursor, o, |totals|)] ==> Load(owner.value) < Load(Nth(cursor, o, |totals|))
    {
      owner, at := None, 0;
      var minimum := U64_MAX;
      for offset := 0 to |totals|
        invariant owner.None? ==>
                    && minimum == U64_MAX
                    && forall o :: 0 <= o < offset && accepts[Nth(cursor, o, |totals|)] ==> Load(Nth(cursor, o, |totals|)) == U64_MAX
        invariant owner.Some? ==>
                    && owner.value < |totals| && accepts[owner.value] && minimum == Load(owner.value) < U64_MAX
                    && at < offset && owner.value == Nth(cursor, at, |totals|)
                    && (forall o :: 0 <= o < at && accepts[Nth(cursor, o, |totals|)] ==> minimum < Load(Nth(cursor, o, |totals|)))
                    && forall o :: 0 <= o < offset && accepts[Nth(cursor, o, |totals|)] ==> minimum <= Load(Nth(cursor, o, |totals|))
      {
        var c := Nth(cursor, offset, |totals|);
        if c == candidate || !accepts[c] {
          continue;
        }
        var load := Load(c);
        if load < minimum {
          minimum := load;
          owner, at := Some(c), offset;
        }
      }
      forall c: nat | c < |totals|
        ensures owner.None? && accepts[c] ==> Load(c) == U64_MAX
        ensures owner.Some? && accepts[c] ==> Load(owner.value) <= Load(c)
      {
        var o := NthReaches(cursor, |totals|, c);
      }
    }

    method Increment(c: nat)
      requires Valid() && c < |totals| && totals[c] < U64_MAX
      modifies `totals
      ensures Valid() && totals == old(totals)[c := old(totals)[c] + 1]
    {
      totals := totals[c := totals[c] + 1];
    }

    /** Undoes a placement that never reached its carrier. */
    method Decrement(c: nat)
      requires Valid() && c < |totals| && totals[c] > observedRetired[c]
      modifies `totals
      ensures Valid() && totals == old(totals)[c := old(totals)[c] - 1]
    {
      totals := totals[c := totals[c] - 1];
    }
  }
}
