/**
 What passes over notices do to single tasks, spelled out on the park records, the wake
 lane and the timers: who leaves its park record, who is deferred, and when a pass faults.
 */
module KernelWakes {
  import opened Options
  import opened Collections
  import opened Tasks
  import opened KernelState
  import opened KernelSpec

  /** The notice is about the wait that `k` is parked on. */
  ghost predicate Names(tasks: Table, parked: Parks, n: Notice, k: TaskKey) {
    n.route == k && k in parked && k in tasks && n.task == tasks[k].id && n.token == parked[k].token
  }

  /** A notice for the wait of `k`, about which that wait says `p`. */
  ghost predicate Says(tasks: Table, parked: Parks, a: Arrival, k: TaskKey, p: Publication) {
    Names(tasks, parked, a.notice, k) && a.publication == p
  }

  // ------------------------------------------------- one notice

  /**
   A published notice takes its task out of its park record to the front of the wake lane,
   with its timer and its deferred notice; one in flight defers the task, once; a stale one,
   one for a retired wait, and one that names no parked wait do nothing.
   */
  lemma {:induction false} OneNotice(tasks: Table, w: Waking, n: Notice, p: Publication)
    requires n.route in w.parked ==> n.route in tasks
    ensures var k, v := n.route, WakeOne(tasks, w, n, p);
            if !Names(tasks, w.parked, n, k) || w.parked[k].retired || p.Stale? then v == w
            else if p.Published? then
              && v.parked == w.parked - {k} && v.wakes == [k] + w.wakes
              && v.timers == (if w.parked[k].hasDeadline then w.timers - {n.token} else w.timers)
              && forall m :: m in v.notices <==> m in w.notices && m.route != k
            else
              && v.parked == w.parked[k := w.parked[k].(deferred := true)] && v.wakes == w.wakes && v.timers == w.timers
              && v.notices == if w.parked[k].deferred then w.notices else w.notices + {n}
  {
    var k := n.route;
    if k in w.parked && w.parked[k].deferred {
      assert w.parked[k := w.parked[k].(deferred := true)] == w.parked;
    }
  }

  /** Notices leave other tasks alone. */
  lemma {:induction false} OtherNotice(tasks: Table, w: Waking, n: Notice, p: Publication, k: TaskKey)
    requires n.route != k
    ensures var v := WakeOne(tasks, w, n, p);
            && (k in v.parked <==> k in w.parked) && (k in w.parked ==> v.parked[k] == w.parked[k])
            && (k in v.wakes <==> k in w.wakes)
  {
  }

  /** A record that is still there is the same wait, and nobody is parked anew. */
  lemma {:induction false} SameWait(tasks: Table, w: Waking, n: Notice, p: Publication, k: TaskKey)
    ensures var v := WakeOne(tasks, w, n, p);
            && (k in v.parked ==> k in w.parked && v.parked[k] == w.parked[k].(deferred := v.parked[k].deferred))
            && (k in w.wakes ==> k in v.wakes) && (k in w.parked && k !in v.parked ==> k in v.wakes) && v.timers <= w.timers
  {
  }

  // ------------------------------------------------- a pass over arriving notices

  lemma {:induction false} WakesKeep(tasks: Table, w: Waking, arrivals: seq<Arrival>, k: TaskKey)
    ensures var v := WakeAll(tasks, w, arrivals);
            && (k in v.parked ==> k in w.parked && v.parked[k] == w.parked[k].(deferred := v.parked[k].deferred))
            && (k in w.wakes ==> k in v.wakes) && (k in w.parked && k !in v.parked ==> k in v.wakes) && v.timers <= w.timers
    decreases |arrivals|
  {
    if arrivals != [] && !Foreign(tasks, w.parked, arrivals[0].notice) {
      var n, p := arrivals[0].notice, arrivals[0].publication;
      SameWait(tasks, w, n, p, k);
      WakesKeep(tasks, WakeOne(tasks, w, n, p), arrivals[1..], k);
    }
  }

  /** What a notice that is no fault does to the record of `k`. */
  lemma {:induction false} FirstNotice(tasks: Table, w: Waking, a: Arrival, k: TaskKey)
    requires k in w.parked && k in tasks && !Foreign(tasks, w.parked, a.notice)
    ensures var u, park := WakeOne(tasks, w, a.notice, a.publication), w.parked[k];
            && (k in u.parked <==> park.retired || !Says(tasks, w.parked, a, k, Published))
            && (k in u.parked ==> u.parked[k] == park.(deferred := park.deferred || (!park.retired && Says(tasks, w.parked, a, k, InFlight))))
            && (k !in u.parked ==> k in u.wakes && (park.hasDeadline ==> park.token !in u.timers))
  {
    if a.notice.route == k { OneNotice(tasks, w, a.notice, a.publication); } else { OtherNotice(tasks, w, a.notice, a.publication, k); }
  }

  ghost predicate SomeSays(tasks: Table, parked: Parks, arrivals: seq<Arrival>, k: TaskKey, p: Publication) {
    exists a :: a in arrivals && Says(tasks, parked, a, k, p)
  }

  lemma {:induction false} SomeSaysFirst(tasks: Table, parked: Parks, arrivals: seq<Arrival>, k: TaskKey, p: Publication)
    requires arrivals != []
    ensures SomeSays(tasks, parked, arrivals, k, p) <==> Says(tasks, parked, arrivals[0], k, p) || SomeSays(tasks, parked, arrivals[1..], k, p)
  {
    assert forall b :: b in arrivals <==> b == arrivals[0] || b in arrivals[1..];
  }

  lemma {:induction false} SameSayings(tasks: Table, parked: Parks, parked': Parks, arrivals: seq<Arrival>, k: TaskKey, p: Publication)
    requires k in parked && k in parked' && parked'[k].token == parked[k].token
    ensures SomeSays(tasks, parked', arrivals, k, p) <==> SomeSays(tasks, parked, arrivals, k, p)
  {
    assert forall b :: Says(tasks, parked', b, k, p) <==> Says(tasks, parked, b, k, p);
  }

  /**
   A parked task leaves its record if and only if its wait is not retired and some arriving
   notice for it is published; otherwise it is deferred if it was, or if one is in flight.
   */
  lemma {:induction false} WakesExactly(tasks: Table, w: Waking, arrivals: seq<Arrival>, k: TaskKey)
    requires k in w.parked && k in tasks && !WakeFaults(tasks, w, arrivals)
    ensures var v, park := WakeAll(tasks, w, arrivals), w.parked[k];
            && (k in v.parked <==> park.retired || !SomeSays(tasks, w.parked, arrivals, k, Published))
            && (k in v.parked ==>
                 v.parked[k] == park.(deferred := park.deferred || (!park.retired && SomeSays(tasks, w.parked, arrivals, k, InFlight))))
            && (k !in v.parked ==> k in v.wakes && (park.hasDeadline ==> park.token !in v.timers))
    decreases |arrivals|
  {
    if arrivals != [] {
      var a, rest := arrivals[0], arrivals[1..];
      var u := WakeOne(tasks, w, a.notice, a.publication);
      FirstNotice(tasks, w, a, k);
      SomeSaysFirst(tasks, w.parked, arrivals, k, Published);
      SomeSaysFirst(tasks, w.parked, arrivals, k, InFlight);
      if k in u.parked {
        SameSayings(tasks, w.parked, u.parked, rest, k, Published);
        SameSayings(tasks, w.parked, u.parked, rest, k, InFlight);
        WakesExactly(tasks, u, rest, k);
      } else {
        WakesKeep(tasks, u, rest, k);
      }
    }
  }

  /** The tasks that leave their records join the front of the wake lane, each once; only their timers go. */
  lemma {:induction false} WokenJoinFront(tasks: Table, w: Waking, arrivals: seq<Arrival>) returns (front: seq<TaskKey>)
    ensures var v := WakeAll(tasks, w, arrivals);
            && v.wakes == front + w.wakes && Distinct(front)
            && (forall k :: k in front <==> k in w.parked && k !in v.parked)
            && forall t :: t in w.timers && t !in v.timers ==> exists k :: k in front && w.parked[k].hasDeadline && w.parked[k].token == t
    decreases |arrivals|
  {
    front := [];
    if arrivals != [] && !Foreign(tasks, w.parked, arrivals[0].notice) {
      var n, p := arrivals[0].notice, arrivals[0].publication;
      var u := WakeOne(tasks, w, n, p);
      var rest := WokenJoinFront(tasks, u, arrivals[1..]);
      var v := WakeAll(tasks, u, arrivals[1..]);
      front := rest + if u.wakes == w.wakes then [] else [n.route];
      forall k | k in v.parked
        ensures k in u.parked
      {
        WakesKeep(tasks, u, arrivals[1..], k);
      }
      FrontGrows(tasks, w, n, p, rest, v, front);
    }
  }

  lemma {:induction false} FrontGrows(tasks: Table, w: Waking, n: Notice, p: Publication, rest: seq<TaskKey>, v: Waking, front: seq<TaskKey>)
    requires var u := WakeOne(tasks, w, n, p);
             && v.wakes == rest + u.wakes && Distinct(rest) && front == rest + (if u.wakes == w.wakes then [] else [n.route])
             && (forall k :: k in rest <==> k in u.parked && k !in v.parked) && (forall k :: k in v.parked ==> k in u.parked)
             && forall t :: t in u.timers && t !in v.timers ==> exists k :: k in rest && u.parked[k].hasDeadline && u.parked[k].token == t
    ensures v.wakes == front + w.wakes && Distinct(front)
    ensures forall k :: k in front <==> k in w.parked && k !in v.parked
    ensures forall t :: t in w.timers && t !in v.timers ==> exists k :: k in front && w.parked[k].hasDeadline && w.parked[k].token == t
  {
    var u := WakeOne(tasks, w, n, p);
    assert [n.route] + w.wakes != w.wakes by { assert |[n.route] + w.wakes| == |w.wakes| + 1; }
    Associates(rest, [n.route], w.wakes);
    assert rest + [] == rest;
    forall t | t in w.timers && t !in v.timers
      ensures exists k :: k in front && w.parked[k].hasDeadline && w.parked[k].token == t
    {
      if t in u.timers {
        var k :| k in rest && u.parked[k].hasDeadline && u.parked[k].token == t;
        SameWait(tasks, w, n, p, k);
        assert k in front;
      } else {
        assert n.route in front;
      }
    }
  }

  /** The arrival at `i` names another task than the one parked on its route, which has not left by then. */
  ghost predicate FaultAt(tasks: Table, w: Waking, arrivals: seq<Arrival>, i: nat) {
    i < |arrivals| &&
    var k := arrivals[i].notice.route;
    && k in w.parked && k in tasks && tasks[k].id != arrivals[i].notice.task
    && (w.parked[k].retired || forall j :: 0 <= j < i ==> !Says(tasks, w.parked, arrivals[j], k, Published))
  }

  lemma {:induction false} FaultShifts(tasks: Table, w: Waking, arrivals: seq<Arrival>, i: nat)
    requires arrivals != [] && !FaultAt(tasks, w, arrivals, 0) && i < |arrivals| - 1
    requires forall k :: k in w.parked ==> k in tasks
    ensures FaultAt(tasks, w, arrivals, i + 1) <==>
            FaultAt(tasks, WakeOne(tasks, w, arrivals[0].notice, arrivals[0].publication), arrivals[1..], i)
  {
    var a, rest := arrivals[0], arrivals[1..];
    var u := WakeOne(tasks, w, a.notice, a.publication);
    var k := arrivals[i + 1].notice.route;
    assert rest[i] == arrivals[i + 1];
    OneNotice(tasks, w, a.notice, a.publication);
    if a.notice.route != k { OtherNotice(tasks, w, a.notice, a.publication, k); }
    SameWait(tasks, w, a.notice, a.publication, k);
    if k in u.parked {
      assert forall b :: Says(tasks, u.parked, b, k, Published) <==> Says(tasks, w.parked, b, k, Published);
      if FaultAt(tasks, u, rest, i) && !w.parked[k].retired {
        forall j | 0 <= j < i + 1
          ensures !Says(tasks, w.parked, arrivals[j], k, Published)
        {
          if j > 0 { assert rest[j - 1] == arrivals[j]; }
        }
      }
      if FaultAt(tasks, w, arrivals, i + 1) && !w.parked[k].retired {
        forall j | 0 <= j < i
          ensures !Says(tasks, u.parked, rest[j], k, Published)
        {
          assert rest[j] == arrivals[j + 1];
        }
      }
    }
  }

  /** A pass faults if and only if a notice names another task than the one parked on its route by then. */
  lemma {:induction false} FaultsExactly(tasks: Table, w: Waking, arrivals: seq<Arrival>)
    requires forall k :: k in w.parked ==> k in tasks
    ensures WakeFaults(tasks, w, arrivals) <==> exists i: nat :: FaultAt(tasks, w, arrivals, i)
    decreases |arrivals|
  {
    if arrivals != [] {
      var a, rest := arrivals[0], arrivals[1..];
      var u := WakeOne(tasks, w, a.notice, a.publication);
      assert Foreign(tasks, w.parked, a.notice) <==> FaultAt(tasks, w, arrivals, 0);
      if !Foreign(tasks, w.parked, a.notice) {
        forall k | k in u.parked
          ensures k in tasks
        {
          SameWait(tasks, w, a.notice, a.publication, k);
        }
        FaultsExactly(tasks, u, rest);
        if i: nat :| FaultAt(tasks, u, rest, i) { FaultShifts(tasks, w, arrivals, i); }
        if i: nat :| FaultAt(tasks, w, arrivals, i) { FaultShifts(tasks, w, arrivals, i - 1); }
      }
    }
  }

  // ------------------------------------------------- the pass over deferred notices

  /** What the invariant says of deferred notices: each is about its own parked task, and no two share a route. */
  ghost predicate Owned(tasks: Table, parked: Parks, notices: seq<Notice>, left: nat) {
    && left <= |notices|
    && (forall i {:trigger notices[i]} :: 0 <= i < left ==> Names(tasks, parked, notices[i], notices[i].route))
    && forall i, j :: 0 <= i < j < left ==> notices[i].route != notices[j].route
  }

  lemma {:induction false} TwiceRouted(notices: seq<Notice>, i: nat, j: nat)
    requires i < j < |notices| && notices[i].route == notices[j].route
    ensures RouteCount(notices, notices[i].route) >= 2
  {
    var routes := Routes(notices);
    assert routes == routes[..j] + routes[j..];
    assert routes[..j][i] in multiset(routes[..j]) && routes[j..][0] in multiset(routes[j..]);
  }

  lemma {:induction false} DeferredAreOwned(tasks: Table, parked: Parks, notices: seq<Notice>)
    requires Matched(parked, notices) && Addressed(tasks, notices) && forall k :: k in parked ==> k in tasks
    ensures Owned(tasks, parked, notices, |notices|)
  {
    forall i | 0 <= i < |notices|
      ensures Names(tasks, parked, notices[i], notices[i].route)
    {
      assert notices[i] in notices;
    }
    forall i, j | 0 <= i < j < |notices|
      ensures notices[i].route != notices[j].route
    {
      if notices[i].route == notices[j].route { TwiceRouted(notices, i, j); }
    }
  }

  /** The answer about the deferred notice at `i`. */
  ghost function Verdict(parked: Parks, notices: seq<Notice>, answers: map<nat, Publication>, i: nat): Publication
    requires i < |notices| && notices[i].route in parked
  {
    if parked[notices[i].route].retired then Stale else if i in answers then answers[i] else Published
  }

  /** The tasks whose publication has finished, in the order their notices were deferred. */
  ghost function Finished(tasks: Table, parked: Parks, notices: seq<Notice>, answers: map<nat, Publication>, left: nat): seq<TaskKey>
    requires Owned(tasks, parked, notices, left)
  {
    if left == 0 then []
    else Finished(tasks, parked, notices, answers, left - 1)
         + if Verdict(parked, notices, answers, left - 1).Published? then [notices[left - 1].route] else []
  }

  ghost predicate Routed(notices: seq<Notice>, left: nat, k: TaskKey) {
    exists i :: 0 <= i < left && i < |notices| && notices[i].route == k
  }

  /** What one deferred notice does, once its record's mark is cleared. */
  lemma {:induction false} OneDeferred(tasks: Table, w: Waking, n: Notice, p: Publication)
    requires Names(tasks, w.parked, n, n.route)
    ensures var k := n.route;
            var answer := if w.parked[k].retired then Stale else p;
            var v := WakeOne(tasks, Cleared(w, k), n, p);
            && !Foreign(tasks, Cleared(w, k).parked, n)
            && v.parked == (if answer.Published? then w.parked - {k} else w.parked[k := w.parked[k].(deferred := answer.InFlight?)])
            && v.wakes == (if answer.Published? then [k] + w.wakes else w.wakes)
            && forall m :: m in v.notices <==> (m in w.notices && m.route != k) || (m == n && answer.InFlight?)
  {
    var k := n.route;
    var cleared := Cleared(w, k);
    OneNotice(tasks, cleared, n, p);
    assert w.parked[k := w.parked[k].(deferred := false)] - {k} == w.parked - {k};
  }

  /** What a pass over `notices[..left]` has to do with the records, from `parked` to `parked'`. */
  ghost predicate Settles(tasks: Table, parked: Parks, notices: seq<Notice>, answers: map<nat, Publication>, left: nat, parked': Parks)
    requires Owned(tasks, parked, notices, left)
  {
    && (forall i {:trigger Verdict(parked, notices, answers, i)} :: 0 <= i < left ==>
         var k, answer := notices[i].route, Verdict(parked, notices, answers, i);
         if answer.Published? then k !in parked' else k in parked' && parked'[k] == parked[k].(deferred := answer.InFlight?))
    && (forall k {:trigger Routed(notices, left, k)} :: !Routed(notices, left, k) ==>
         (k in parked' <==> k in parked) && (k in parked ==> parked'[k] == parked[k]))
  }

  /** The newest notice first, then the others. */
  lemma {:induction false} SettlesOneMore(tasks: Table, parked: Parks, notices: seq<Notice>, answers: map<nat, Publication>, left: nat, mid: Parks, parked': Parks)
    requires 0 < left <= |notices| && Owned(tasks, parked, notices, left) && Owned(tasks, mid, notices, left - 1)
    requires var k, answer := notices[left - 1].route, Verdict(parked, notices, answers, left - 1);
             mid == if answer.Published? then parked - {k} else parked[k := parked[k].(deferred := answer.InFlight?)]
    requires Settles(tasks, mid, notices, answers, left - 1, parked')
    ensures Settles(tasks, parked, notices, answers, left, parked')
  {
    var last := notices[left - 1].route;
    assert !Routed(notices, left - 1, last);
    forall i | 0 <= i < left
      ensures var k, answer := notices[i].route, Verdict(parked, notices, answers, i);
              if answer.Published? then k !in parked' else k in parked' && parked'[k] == parked[k].(deferred := answer.InFlight?)
    {
      if i < left - 1 {
        assert notices[i].route != last;
        assert Verdict(mid, notices, answers, i) == Verdict(parked, notices, answers, i);
      }
    }
    forall k | !Routed(notices, left, k)
      ensures (k in parked' <==> k in parked) && (k in parked ==> parked'[k] == parked[k])
    {
      assert notices[left - 1].route != k && !Routed(notices, left - 1, k);
    }
  }

  /**
   A pass over the deferred notices: a task whose publication has finished leaves its record,
   one whose publication is still in flight stays deferred, one whose notice is stale stays
   parked without it; nobody else is touched, and nothing is a fault.
   */
  lemma {:induction false} RevisitsExactly(tasks: Table, w: Waking, notices: seq<Notice>, answers: map<nat, Publication>, left: nat)
    requires Owned(tasks, w.parked, notices, left)
    ensures !RevisitFaults(tasks, w, notices, answers, left)
    ensures Settles(tasks, w.parked, notices, answers, left, RevisitAll(tasks, w, notices, answers, left).parked)
    ensures RevisitAll(tasks, w, notices, answers, left).wakes == Finished(tasks, w.parked, notices, answers, left) + w.wakes
    decreases left
  {
    if left > 0 {
      var n, p := notices[left - 1], AnswerAt(answers, left - 1);
      OneDeferred(tasks, w, n, p);
      var u := WakeOne(tasks, Cleared(w, n.route), n, p);
      StillOwned(tasks, w.parked, notices, left, u.parked);
      RevisitsExactly(tasks, u, notices, answers, left - 1);
      SettlesOneMore(tasks, w.parked, notices, answers, left, u.parked, RevisitAll(tasks, u, notices, answers, left - 1).parked);
      SameFinished(tasks, w.parked, u.parked, notices, answers, left - 1);
      var front := Finished(tasks, w.parked, notices, answers, left - 1);
      Associates(front, [n.route], w.wakes);
      assert front + [] == front;
    } else {
      assert [] + w.wakes == w.wakes;
    }
  }

  lemma {:induction false} RevisitKeeps(tasks: Table, w: Waking, notices: seq<Notice>, answers: map<nat, Publication>, left: nat, k: TaskKey)
    requires left <= |notices|
    ensures var v := RevisitAll(tasks, w, notices, answers, left);
            && (k in v.parked ==> k in w.parked && v.parked[k] == w.parked[k].(deferred := v.parked[k].deferred))
            && (k in w.wakes ==> k in v.wakes) && (k in w.parked && k !in v.parked ==> k in v.wakes) && v.timers <= w.timers
    decreases left
  {
    if left > 0 {
      var n, p := notices[left - 1], AnswerAt(answers, left - 1);
      var cleared := Cleared(w, n.route);
      if !Foreign(tasks, cleared.parked, n) {
        SameWait(tasks, cleared, n, p, k);
        RevisitKeeps(tasks, WakeOne(tasks, cleared, n, p), notices, answers, left - 1, k);
      }
    }
  }

  lemma {:induction false} StillOwned(tasks: Table, parked: Parks, notices: seq<Notice>, left: nat, parked': Parks)
    requires 0 < left <= |notices| && Owned(tasks, parked, notices, left)
    requires forall k :: k in parked && k != notices[left - 1].route ==> k in parked' && parked'[k] == parked[k]
    ensures Owned(tasks, parked', notices, left - 1)
    ensures forall i :: 0 <= i < left - 1 ==> parked'[notices[i].route] == parked[notices[i].route]
  {
    forall i | 0 <= i < left - 1
      ensures Names(tasks, parked', notices[i], notices[i].route) && parked'[notices[i].route] == parked[notices[i].route]
    {
      assert Names(tasks, parked, notices[i], notices[i].route) && notices[i].route != notices[left - 1].route;
    }
  }

  lemma {:induction false} SameFinished(tasks: Table, parked: Parks, parked': Parks, notices: seq<Notice>, answers: map<nat, Publication>, left: nat)
    requires Owned(tasks, parked, notices, left) && Owned(tasks, parked', notices, left)
    requires forall i :: 0 <= i < left ==> parked'[notices[i].route] == parked[notices[i].route]
    ensures Finished(tasks, parked', notices, answers, left) == Finished(tasks, parked, notices, answers, left)
    decreases left
  {
    if left > 0 { SameFinished(tasks, parked, parked', notices, answers, left - 1); }
  }
}
