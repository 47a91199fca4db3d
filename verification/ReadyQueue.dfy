/**
 The carrier-local runnable queue: two lanes served in cohorts of at most two newest
 wakes, one normal head, then one oldest wake. Newest wakes are at the front.
 */
module ReadyQueue {
  import opened Options
  import opened Collections
  import opened Tasks

  const WAKE_BURST: nat := 2

  datatype Queue = Queue(normal: seq<TaskKey>, wakes: seq<TaskKey>, streak: nat) {
    predicate Empty() {
      normal == [] && wakes == []
    }
  }

  /** The entry the cohort policy serves next, and the queue it leaves. */
  function Popped(q: Queue): (Option<TaskKey>, Queue) {
    if q.wakes == [] then
      if q.normal == [] then (None, q.(streak := 0))
      else (Some(q.normal[0]), q.(normal := q.normal[1..], streak := 0))
    else if q.streak < WAKE_BURST then
      (Some(q.wakes[0]), q.(wakes := q.wakes[1..], streak := q.streak + 1))
    else if q.streak == WAKE_BURST && q.normal != [] then
      (Some(q.normal[0]), q.(normal := q.normal[1..], streak := q.streak + 1))
    else
      (Some(q.wakes[|q.wakes| - 1]), q.(wakes := q.wakes[..|q.wakes| - 1], streak := 0))
  }

  // ------------------------------------------------- fairness over runs

  /** What can happen to the queue between and at selections. */
  datatype Event = PushBack(task: TaskKey) | PushWake(task: TaskKey) | Select

  function After(q: Queue, e: Event): Queue {
    match e
    case PushBack(task) => q.(normal := q.normal + [task])
    case PushWake(task) => q.(wakes := [task] + q.wakes)
    case Select => Popped(q).1
  }

  /** The tasks selected during a run, in order. */
  function Served(q: Queue, run: seq<Event>): seq<TaskKey>
    decreases |run|
  {
    if run == [] then []
    else
      var rest := Served(After(q, run[0]), run[1..]);
      if run[0].Select? && Popped(q).0.Some? then [Popped(q).0.value] + rest else rest
  }

  function Selections(run: seq<Event>): nat {
    if run == [] then 0 else (if run[0].Select? then 1 else 0) + Selections(run[1..])
  }

  /** Selections until the next normal head, at most. */
  function NormalDelay(streak: nat): nat {
    if streak <= WAKE_BURST then WAKE_BURST + 1 - streak else WAKE_BURST + 2
  }

  /** Selections until the next oldest wake, at most. */
  function WakeDelay(streak: nat): nat {
    if streak <= WAKE_BURST then WAKE_BURST + 2 - streak else 1
  }

  /** A normal entry with `older` entries before it is served within four selections each. */
  lemma {:induction false} NormalEntryIsServed(q: Queue, older: nat, run: seq<Event>)
    requires older < |q.normal|
    requires Selections(run) >= 4 * older + NormalDelay(q.streak)
    ensures q.normal[older] in Served(q, run)
    decreases |run|
  {
    var next := After(q, run[0]);
    match run[0]
    case PushBack(_) => NormalEntryIsServed(next, older, run[1..]);
    case PushWake(_) => NormalEntryIsServed(next, older, run[1..]);
    case Select =>
      if |next.normal| == |q.normal| {
        NormalEntryIsServed(next, older, run[1..]);
      } else if older > 0 {
        NormalEntryIsServed(next, older - 1, run[1..]);
      }
  }

  /** One selection serves a wake or brings it nearer. */
  lemma {:induction false} WakeComesNearer(q: Queue, older: nat) returns (left: nat)
    requires older < |q.wakes|
    ensures var task, next := q.wakes[|q.wakes| - 1 - older], Popped(q).1;
            || Popped(q).0 == Some(task)
            || (&& left < |next.wakes| && next.wakes[|next.wakes| - 1 - left] == task
                && 4 * left + WakeDelay(next.streak) < 4 * older + WakeDelay(q.streak))
  {
    var oldestFirst := q.streak > WAKE_BURST || (q.streak == WAKE_BURST && q.normal == []);
    left := if oldestFirst && older > 0 then older - 1 else older;
  }

  /** A wake with `older` entries behind it is served within four selections each. */
  lemma {:induction false} WakeEntryIsServed(q: Queue, older: nat, run: seq<Event>)
    requires older < |q.wakes|
    requires Selections(run) >= 4 * older + WakeDelay(q.streak)
    ensures q.wakes[|q.wakes| - 1 - older] in Served(q, run)
    decreases |run|
  {
    var next := After(q, run[0]);
    match run[0]
    case PushBack(_) => WakeEntryIsServed(next, older, run[1..]);
    case PushWake(_) => WakeEntryIsServed(next, older, run[1..]);
    case Select =>
      var left := WakeComesNearer(q, older);
      if Popped(q).0 != Some(q.wakes[|q.wakes| - 1 - older]) {
        WakeEntryIsServed(next, left, run[1..]);
      }
  }

  /** The documented bounds, from any cohort position. */
  lemma {:induction false} EveryEntryIsServed(q: Queue, older: nat, run: seq<Event>)
    requires Selections(run) >= 4 * (older + 1)
    ensures older < |q.normal| ==> q.normal[older] in Served(q, run)
    ensures older < |q.wakes| ==> q.wakes[|q.wakes| - 1 - older] in Served(q, run)
  {
    if older < |q.normal| { NormalEntryIsServed(q, older, run); }
    if older < |q.wakes| { WakeEntryIsServed(q, older, run); }
  }

  /** Four is exact: three selections can leave either head waiting. */
  lemma FourSelectionsAreNeeded(a: TaskKey, b: TaskKey, c: TaskKey, d: TaskKey)
    requires a != b && a != c && a != d && b != c && b != d && c != d
    ensures a !in Served(Queue([a], [b, c, d], 3), [Select, Select, Select])
    ensures d !in Served(Queue([a], [b, c, d], 0), [Select, Select, Select])
  {
    var q := Queue([a], [b, c, d], 3);
    var run := [Select, Select, Select];
    assert run[1..] == [Select, Select] && run[1..][1..] == [Select] && run[1..][1..][1..] == [];
    var q1 := After(q, Select);
    assert q1 == Queue([a], [b, c], 0);
    var q2 := After(q1, Select);
    assert q2 == Queue([a], [c], 1);
    var q3 := After(q2, Select);
    assert q3 == Queue([a], [], 2);
    assert Served(q3, []) == [];
    assert Served(q2, [Select]) == [c];
    assert Served(q1, [Select, Select]) == [b, c];
    assert Served(q, run) == [d, b, c];
    var p := Queue([a], [b, c, d], 0);
    var p1 := After(p, Select);
    assert p1 == Queue([a], [c, d], 1);
    var p2 := After(p1, Select);
    assert p2 == Queue([a], [d], 2);
    var p3 := After(p2, Select);
    assert p3 == Queue([], [d], 3);
    assert Served(p3, []) == [];
    assert Served(p2, [Select]) == [a];
    assert Served(p1, [Select, Select]) == [c, a];
    assert Served(p, run) == [b, c, a];
  }

  lemma {:induction false} ServedFirst(q: Queue, rest: seq<Event>)
    requires Popped(q).0.Some?
    ensures Served(q, [Select] + rest) == [Popped(q).0.value] + Served(Popped(q).1, rest)
  {
    assert ([Select] + rest)[1..] == rest;
  }

  /** A whole cohort: the two newest wakes, newest first, then the normal head, then the oldest wake. */
  lemma {:induction false} CohortOrder(q: Queue)
    requires q.streak == 0 && |q.wakes| >= 3 && q.normal != []
    ensures Served(q, [Select, Select, Select, Select]) == [q.wakes[0], q.wakes[1], q.normal[0], q.wakes[|q.wakes| - 1]]
  {
    var one := [Select] + [];
    var q1 := Popped(q).1;
    var q2 := Popped(q1).1;
    var q3 := Popped(q2).1;
    assert q1.wakes[0] == q.wakes[1] && q3.wakes[|q3.wakes| - 1] == q.wakes[|q.wakes| - 1];
    ServedFirst(q, [Select] + ([Select] + one));
    ServedFirst(q1, [Select] + one);
    ServedFirst(q2, one);
    ServedFirst(q3, []);
    assert [Select] + ([Select] + ([Select] + one)) == [Select, Select, Select, Select];
  }

  /** Once the wake lane was found empty the next wake is served at once, and the cohort restarts after its oldest wake. */
  lemma {:induction false} FreshWakeIsNext(q: Queue, task: TaskKey)
    requires q.wakes == [] || q.streak > WAKE_BURST
    ensures Popped(After(After(q, Select), PushWake(task))).0 == Some(task)
  {
  }

  // ------------------------------------------------- the eligible sub-queue

  function Eligible(q: Queue, p: TaskKey -> bool): Queue {
    Queue(Kept(q.normal, p), Kept(q.wakes, p), q.streak)
  }

  /** `i` is the first eligible position of `s`, or `|s|` if there is none. */
  ghost predicate IsFirst(s: seq<TaskKey>, p: TaskKey -> bool, i: nat) {
    && i <= |s|
    && (i < |s| ==> p(s[i]))
    && forall j :: 0 <= j < i ==> !p(s[j])
  }

  ghost predicate IsLast(s: seq<TaskKey>, p: TaskKey -> bool, i: nat) {
    && i < |s| && p(s[i])
    && forall j :: i < j < |s| ==> !p(s[j])
  }

  lemma {:induction false} FirstKept(s: seq<TaskKey>, p: TaskKey -> bool, i: nat)
    requires IsFirst(s, p, i)
    ensures i == |s| ==> Kept(s, p) == []
    ensures i < |s| ==>
              && Kept(s, p) != [] && Kept(s, p)[0] == s[i] && Kept(s, p)[1..] == Kept(Without(s, i), p)
              && Kept(Without(s, i), Not(p)) == Kept(s, Not(p))
  {
    KeptNothing(s[..i], p);
    if i == |s| {
      assert s[..i] == s;
    } else {
      var front, back := Kept(s[..i], p), Kept(s[i + 1..], p);
      KeptAt(s, i, p);
      assert front + back == back && front + [s[i]] + back == [s[i]] + back;
      assert ([s[i]] + back)[1..] == back;
      KeptOthers(s, i, p);
    }
  }

  lemma {:induction false} LastKept(s: seq<TaskKey>, p: TaskKey -> bool, i: nat)
    requires IsLast(s, p, i)
    ensures Kept(s, p) != [] && Kept(s, p)[|Kept(s, p)| - 1] == s[i]
    ensures Kept(s, p)[..|Kept(s, p)| - 1] == Kept(Without(s, i), p)
    ensures Kept(Without(s, i), Not(p)) == Kept(s, Not(p))
  {
    var front, back := Kept(s[..i], p), Kept(s[i + 1..], p);
    KeptAt(s, i, p);
    assert back == [] by { KeptNothing(s[i + 1..], p); }
    assert front + back == front && front + [s[i]] + back == front + [s[i]];
    assert (front + [s[i]])[..|front|] == front;
    KeptOthers(s, i, p);
  }

  /** `q'` is `q` without one entry that keeps every other entry in place. */
  ghost predicate LosesOne(q: Queue, q': Queue, task: TaskKey) {
    || (q'.wakes == q.wakes && Drops(q.normal, q'.normal, task))
    || (q'.normal == q.normal && Drops(q.wakes, q'.wakes, task))
  }

  ghost predicate Drops(s: seq<TaskKey>, s': seq<TaskKey>, task: TaskKey) {
    exists i: nat :: i < |s| && s[i] == task && s' == Without(s, i)
  }

  // ------------------------------------------------- inspection

  /** Entries of each lane that an inspection has not looked at yet. */
  datatype Inspection = Inspection(normal: nat, wakes: nat)

  /** What a lane becomes once the inspection has finished with it. */
  function Retained(lane: seq<TaskKey>, remaining: nat, p: TaskKey -> bool): seq<TaskKey>
    requires remaining <= |lane|
  {
    lane[remaining..] + Kept(lane[..remaining], Not(p))
  }

  /** The matches the inspection still has to yield. */
  function Outstanding(q: Queue, i: Inspection, p: TaskKey -> bool): seq<TaskKey>
    requires i.normal <= |q.normal| && i.wakes <= |q.wakes|
  {
    Kept(q.normal[..i.normal], p) + Kept(q.wakes[..i.wakes], p)
  }

  lemma {:induction false} RotateOne(lane: seq<TaskKey>, remaining: nat, p: TaskKey -> bool)
    requires 0 < remaining <= |lane|
    ensures !p(lane[0]) ==>
              var lane' := lane[1..] + [lane[0]];
              && Retained(lane', remaining - 1, p) == Retained(lane, remaining, p)
              && Kept(lane'[..remaining - 1], p) == Kept(lane[..remaining], p)
    ensures p(lane[0]) ==>
              && Retained(lane[1..], remaining - 1, p) == Retained(lane, remaining, p)
              && Kept(lane[..remaining], p) == [lane[0]] + Kept(lane[1..][..remaining - 1], p)
  {
    var unseen := lane[..remaining];
    assert unseen[1..] == lane[1..][..remaining - 1];
    if !p(lane[0]) {
      var lane' := lane[1..] + [lane[0]];
      assert lane'[..remaining - 1] == unseen[1..];
      assert lane'[remaining - 1..] == lane[remaining..] + [lane[0]];
      assert Kept(unseen, Not(p)) == [lane[0]] + Kept(unseen[1..], Not(p));
    } else {
      assert lane[1..][remaining - 1..] == lane[remaining..];
    }
  }

  /** Every entry of both lanes, with multiplicity. */
  ghost function Held(q: Queue): multiset<TaskKey> {
    multiset(q.normal) + multiset(q.wakes)
  }

  ghost function Taken(task: Option<TaskKey>): multiset<TaskKey> {
    if task.Some? then multiset{task.value} else multiset{}
  }

  lemma {:induction false} KeptSplits(s: seq<TaskKey>, p: TaskKey -> bool)
    ensures multiset(s) == multiset(Kept(s, p)) + multiset(Kept(s, Not(p)))
  {
    if s != [] {
      KeptSplits(s[1..], p);
      assert s == [s[0]] + s[1..];
    }
  }

  lemma {:induction false} RetainedSplits(lane: seq<TaskKey>, remaining: nat, p: TaskKey -> bool)
    requires remaining <= |lane|
    ensures multiset(lane) == multiset(Retained(lane, remaining, p)) + multiset(Kept(lane[..remaining], p))
  {
    KeptSplits(lane[..remaining], p);
    assert lane == lane[..remaining] + lane[remaining..];
  }

  /** One yield of an inspection takes exactly the yielded entry out of the queue. */
  lemma {:induction false} YieldIsTaken(q: Queue, i: Inspection, q': Queue, j: Inspection, p: TaskKey -> bool, task: Option<TaskKey>)
    requires i.normal <= |q.normal| && i.wakes <= |q.wakes| && j.normal <= |q'.normal| && j.wakes <= |q'.wakes|
    requires Retained(q.normal, i.normal, p) == Retained(q'.normal, j.normal, p)
    requires Retained(q.wakes, i.wakes, p) == Retained(q'.wakes, j.wakes, p)
    requires Outstanding(q, i, p) == (if task.Some? then [task.value] else []) + Outstanding(q', j, p)
    ensures Held(q) == Held(q') + Taken(task)
  {
    HeldSplits(q, i, p);
    HeldSplits(q', j, p);
    assert multiset(Outstanding(q, i, p)) == Taken(task) + multiset(Outstanding(q', j, p));
    Regroup(multiset(Retained(q.normal, i.normal, p)), multiset(Retained(q.wakes, i.wakes, p)), Taken(task), multiset(Outstanding(q', j, p)));
  }

  lemma {:induction false} HeldSplits(q: Queue, i: Inspection, p: TaskKey -> bool)
    requires i.normal <= |q.normal| && i.wakes <= |q.wakes|
    ensures Held(q) == multiset(Retained(q.normal, i.normal, p)) + multiset(Retained(q.wakes, i.wakes, p)) + multiset(Outstanding(q, i, p))
  {
    RetainedSplits(q.normal, i.normal, p);
    RetainedSplits(q.wakes, i.wakes, p);
    var a, b := Kept(q.normal[..i.normal], p), Kept(q.wakes[..i.wakes], p);
    assert multiset(a + b) == multiset(a) + multiset(b);
    Interleave(multiset(Retained(q.normal, i.normal, p)), multiset(a), multiset(Retained(q.wakes, i.wakes, p)), multiset(b));
  }

  lemma Interleave(a: multiset<TaskKey>, b: multiset<TaskKey>, c: multiset<TaskKey>, d: multiset<TaskKey>)
    ensures (a + b) + (c + d) == a + c + (b + d)
  {
  }

  lemma Regroup(a: multiset<TaskKey>, b: multiset<TaskKey>, c: multiset<TaskKey>, d: multiset<TaskKey>)
    ensures a + b + (c + d) == a + b + d + c
  {
  }

  // ------------------------------------------------- the queue in place

  class ReadyQueue {
    var normal: seq<TaskKey>
    var wakes: seq<TaskKey>
    var wakeStreak: nat

    function View(): Queue
      reads this
    {
      Queue(normal, wakes, wakeStreak)
    }

    constructor ()
      ensures View() == Queue([], [], 0)
    {
      normal, wakes, wakeStreak := [], [], 0;
    }

    method PushBack(task: TaskKey)
      modifies `normal
      ensures normal == old(normal) + [task]
    {
      normal := normal + [task];
    }

    method PushFront(task: TaskKey)
      modifies `normal
      ensures normal == [task] + old(normal)
    {
      normal := [task] + normal;
    }

    method PushWake(task: TaskKey)
      modifies `wakes
      ensures wakes == [task] + old(wakes)
    {
      wakes := [task] + wakes;
    }

    method PopFront() returns (task: Option<TaskKey>)
      modifies this
      ensures (task, View()) == Popped(old(View()))
    {
      if wakes == [] {
        wakeStreak := 0;
        if normal == [] {
          return None;
        }
        task, normal := Some(normal[0]), normal[1..];
        return;
      }
      if wakeStreak < WAKE_BURST {
        wakeStreak := wakeStreak + 1;
        task, wakes := Some(wakes[0]), wakes[1..];
        return;
      }
      if wakeStreak == WAKE_BURST {
        wakeStreak := wakeStreak + 1;
        if normal != [] {
          task, normal := Some(normal[0]), normal[1..];
          return;
        }
      }
      wakeStreak := 0;
      task, wakes := Some(wakes[|wakes| - 1]), wakes[..|wakes| - 1];
    }

    /**
     Applies the cohort policy to the eligible entries only: the same task and cohort
     position as `PopFront` on the eligible sub-queue, with every skipped entry in place.
     */
    method PopMatching(p: TaskKey -> bool) returns (task: Option<TaskKey>)
      modifies this
      ensures task.None? <==> Eligible(old(View()), p).Empty()
      ensures task.None? ==> View() == old(View())
      ensures task.Some? ==>
                && (task, Eligible(View(), p)) == Popped(Eligible(old(View()), p))
                && Eligible(View(), Not(p)) == Eligible(old(View()), Not(p)).(streak := wakeStreak)
                && LosesOne(old(View()), View(), task.value)
    {
      var first := Position(normal, p);
      var newest, oldest := Extremes(wakes, p);
      FirstKept(normal, p, first);
      FirstKept(wakes, p, newest);
      if newest == |wakes| {
        if first == |normal| {
          return None;
        }
        wakeStreak := 0;
        task, normal := Some(normal[first]), Without(normal, first);
        return;
      }
      if wakeStreak < WAKE_BURST {
        wakeStreak := wakeStreak + 1;
        task, wakes := Some(wakes[newest]), Without(wakes, newest);
        return;
      }
      if wakeStreak == WAKE_BURST && first < |normal| {
        wakeStreak := wakeStreak + 1;
        task, normal := Some(normal[first]), Without(normal, first);
        return;
      }
      LastKept(wakes, p, oldest);
      wakeStreak := 0;
      task, wakes := Some(wakes[oldest]), Without(wakes, oldest);
    }

    /** Removes the next match in lane order; retained entries rotate within their lane. */
    method RemoveMatching(i: Inspection, p: TaskKey -> bool) returns (task: Option<TaskKey>, j: Inspection)
      requires i.normal <= |normal| && i.wakes <= |wakes|
      modifies `normal, `wakes
      ensures j.normal <= |normal| && j.wakes <= |wakes|
      ensures Retained(normal, j.normal, p) == old(Retained(normal, i.normal, p))
      ensures Retained(wakes, j.wakes, p) == old(Retained(wakes, i.wakes, p))
      ensures task.Some? ==> p(task.value) && old(Outstanding(View(), i, p)) == [task.value] + Outstanding(View(), j, p)
      ensures task.None? ==> old(Outstanding(View(), i, p)) == [] && j == Inspection(0, 0)
      ensures j.normal + j.wakes <= i.normal + i.wakes && (task.Some? ==> j.normal + j.wakes < i.normal + i.wakes)
    {
      j := i;
      var remaining;
      task, normal, remaining := Scan(normal, i.normal, p);
      j := j.(normal := remaining);
      if task.Some? {
        return;
      }
      task, wakes, remaining := Scan(wakes, i.wakes, p);
      j := j.(wakes := remaining);
    }

    /** A whole inspection: yields each match once and filters both lanes in order. */
    method RemoveAll(p: TaskKey -> bool) returns (removed: seq<TaskKey>)
      modifies `normal, `wakes
      ensures removed == Kept(old(normal), p) + Kept(old(wakes), p)
      ensures View() == Eligible(old(View()), Not(p))
    {
      var i := Inspection(|normal|, |wakes|);
      assert normal[..|normal|] == normal && wakes[..|wakes|] == wakes;
      assert Retained(normal, i.normal, p) == Kept(normal, Not(p)) && Retained(wakes, i.wakes, p) == Kept(wakes, Not(p));
      removed := [];
      var more := true;
      while more
        invariant i.normal <= |normal| && i.wakes <= |wakes| && wakeStreak == old(wakeStreak)
        invariant Retained(normal, i.normal, p) == Kept(old(normal), Not(p))
        invariant Retained(wakes, i.wakes, p) == Kept(old(wakes), Not(p))
        invariant removed + Outstanding(View(), i, p) == Kept(old(normal), p) + Kept(old(wakes), p)
        invariant !more ==> i == Inspection(0, 0)
        decreases i.normal + i.wakes, more
      {
        var task;
        task, i := RemoveMatching(i, p);
        if task.Some? {
          removed := removed + [task.value];
        } else {
          more := false;
        }
      }
    }

    /** Removes the first occurrence of a task, looking at the normal lane first. */
    method Remove(task: TaskKey) returns (found: bool)
      modifies `normal, `wakes
      ensures found <==> task in old(normal) + old(wakes)
      ensures if found then LosesOne(old(View()), View(), task) else View() == old(View())
      ensures found && old(normal) != [] && old(normal)[0] == task ==> normal == old(normal)[1..] && wakes == old(wakes)
    {
      var same := (t: TaskKey) => t == task;
      var i := Position(normal, same);
      if i < |normal| {
        normal := Without(normal, i);
        return true;
      }
      i := Position(wakes, same);
      if i < |wakes| {
        wakes := Without(wakes, i);
        return true;
      }
      found := false;
    }
  }

  /** Looks through the unseen part of a lane for its first match. */
  method Scan(lane: seq<TaskKey>, unseen: nat, p: TaskKey -> bool) returns (task: Option<TaskKey>, rest: seq<TaskKey>, remaining: nat)
    requires unseen <= |lane|
    ensures remaining <= unseen && remaining <= |rest|
    ensures Retained(rest, remaining, p) == Retained(lane, unseen, p)
    ensures task.None? ==> remaining == 0 && Kept(lane[..unseen], p) == []
    ensures task.Some? ==>
              && remaining < unseen && p(task.value)
              && Kept(lane[..unseen], p) == [task.value] + Kept(rest[..remaining], p)
  {
    rest, remaining := lane, unseen;
    while remaining != 0
      invariant remaining <= unseen && remaining <= |rest|
      invariant Retained(rest, remaining, p) == Retained(lane, unseen, p)
      invariant Kept(rest[..remaining], p) == Kept(lane[..unseen], p)
      decreases remaining
    {
      RotateOne(rest, remaining, p);
      remaining := remaining - 1;
      var head := rest[0];
      rest := rest[1..];
      if p(head) {
        return Some(head), rest, remaining;
      }
      rest := rest + [head];
    }
    task := None;
  }

  method Position(s: seq<TaskKey>, p: TaskKey -> bool) returns (i: nat)
    ensures IsFirst(s, p, i)
  {
    i := 0;
    while i < |s| && !p(s[i])
      invariant i <= |s| && forall j :: 0 <= j < i ==> !p(s[j])
    {
      i := i + 1;
    }
  }

  /** The first and last eligible positions in one pass. */
  method Extremes(s: seq<TaskKey>, p: TaskKey -> bool) returns (first: nat, last: nat)
    ensures IsFirst(s, p, first) && (first < |s| ==> IsLast(s, p, last))
  {
    first, last := |s|, |s|;
    for i := 0 to |s|
      invariant first == |s| ==> forall j :: 0 <= j < i ==> !p(s[j])
      invariant first < |s| ==> first <= last < i && IsFirst(s, p, first) && p(s[last])
      invariant first < |s| ==> forall j :: last < j < i ==> !p(s[j])
      invariant first <= |s|
    {
      if p(s[i]) {
        if first == |s| {
          first := i;
        }
        last := i;
      }
    }
  }
}
