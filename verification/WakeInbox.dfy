/**
 The routing inbox as atomic steps: any number of producers, each with its own reserved
 slot, and one owner. Low routes go through a mailbox; the others through a linked list
 of slots whose newest entry is the head. Slot 0 doubles as the end marker.
 */
module WakeInbox {
  import opened Collections

  const ROUTES: nat := 63

  datatype Packet = Packet(route: nat, task: nat, wait: nat, selection: nat)

  /** A producer's position between reserving its slot and publishing it. */
  datatype Writer = Reserved | Loaded(head: nat, sleeping: bool) | Stored(head: nat, sleeping: bool)

  /** The slot whose payload the owner is copying. */
  datatype Hand = Empty | Holding(route: nat)

  /** The owner's position in `arm_wait` and `disarm_wait`. */
  datatype Owner = Awake | LowArmed | HeadLoaded(head: nat, sleeping: bool) | Asleep | Disarming

  /** The overflow list, with the slots its two links reach: newest first, and oldest first. */
  datatype Links = Links(next: seq<nat>, head: nat, consumer: nat, pending: seq<nat>, captured: seq<nat>)

  /** Where a reserved slot may be besides the list. */
  datatype Places = Places(writers: map<nat, Writer>, low: set<nat>, hand: Hand)

  /**
   The payload of each reserved slot (a zero task field is an empty one), the accepted
   packet it carries, and the packets returned, by serial number and as copied.
   */
  datatype Cargo = Cargo(payload: map<nat, Packet>, held: map<nat, nat>, accepted: seq<Packet>, popped: seq<nat>, returned: seq<Packet>)

  /** Accepted packets in the order their head exchange succeeded, and as they were unlinked. */
  datatype Trail = Trail(linked: seq<nat>, unlinked: seq<nat>)

  /**
   Low packets whose publisher has yet to look at the sleeping bit, and what `push`
   answered: whether the publisher has to notify the owner.
   */
  datatype Notes = Notes(lookers: set<nat>, answers: map<nat, bool>)

  datatype State = State(
    list: Links,
    places: Places,
    cargo: Cargo,
    trail: Trail,
    notes: Notes,
    sleeping: bool,
    lowSleeping: bool,
    owner: Owner)

  datatype Event =
    | Accept(packet: Packet)
    | PublishLow(route: nat)
    | LookLow(serial: nat)
    | LoadHead(route: nat)
    | StoreNext(route: nat)
    | Exchange(route: nat, spurious: bool)
    | TakeBatch
    | Unlink
    | TakeLow(route: nat)
    | Copy
    | ArmLow
    | ArmLoad
    | ArmStep(spurious: bool)
    | Resume
    | DisarmLow
    | DisarmHead

  function Initial(slots: nat): State {
    State(Links(seq(slots, _ => 0), 0, 0, [], []), Places(map[], {}, Empty), Cargo(map[], map[], [], [], []),
          Trail([], []), Notes({}, map[]), false, false, Awake)
  }

  // ------------------------------------------------- linked lists in an array

  /** The entry after position `i`, or the end marker. */
  function Follower(list: seq<nat>, i: nat): nat {
    if i + 1 < |list| then list[i + 1] else 0
  }

  /** Following `next` from `first` visits exactly `list`. */
  ghost predicate Chain(next: seq<nat>, first: nat, list: seq<nat>) {
    && (first == if list == [] then 0 else list[0])
    && (forall i {:trigger Follower(list, i)} :: 0 <= i < |list| ==> 0 < list[i] < |next| && next[list[i]] == Follower(list, i))
  }

  lemma ChainAt(next: seq<nat>, first: nat, list: seq<nat>, i: nat)
    requires Chain(next, first, list) && i < |list|
    ensures 0 < list[i] < |next| && next[list[i]] == Follower(list, i)
  {
    var follower := Follower(list, i);
  }

  lemma ChainEnds(next: seq<nat>, first: nat, list: seq<nat>)
    requires Chain(next, first, list)
    ensures first == 0 <==> list == []
  {
    if list != [] { ChainAt(next, first, list, 0); }
  }

  /** The array after reversing the links of `list` in place onto `onto`. */
  function Relinked(next: seq<nat>, list: seq<nat>, onto: nat): (r: seq<nat>)
    ensures |r| == |next|
    decreases |list|
  {
    if list == [] then next
    else Relinked(if list[0] < |next| then next[list[0] := onto] else next, list[1..], list[0])
  }

  /** A list and its reversal hold the same slots, each once. */
  lemma {:induction false} BackwardElements(s: seq<nat>)
    ensures forall x :: x in Backward(s) <==> x in s
    ensures Distinct(s) ==> Distinct(Backward(s))
  {
    forall x | x in s
      ensures x in Backward(s)
    {
      var i :| 0 <= i < |s| && s[i] == x;
      assert Backward(s)[|s| - 1 - i] == x;
    }
  }

  lemma {:induction false} BackwardMoves(list: seq<nat>, done: seq<nat>)
    requires list != []
    ensures Backward(list[1..]) + ([list[0]] + done) == Backward(list) + done
  {
  }

  /** Slots outside the list keep their links. */
  lemma {:induction false} RelinkedElsewhere(next: seq<nat>, list: seq<nat>, onto: nat, k: nat)
    requires k < |next| && k !in list
    ensures Relinked(next, list, onto)[k] == next[k]
    decreases |list|
  {
    if list != [] {
      var after := if list[0] < |next| then next[list[0] := onto] else next;
      RelinkedElsewhere(after, list[1..], list[0], k);
    }
  }

  /** Relinking the first slot moves it from one chain to the other. */
  lemma {:induction false} HeadMoves(next: seq<nat>, list: seq<nat>, onto: nat, done: seq<nat>)
    requires list != [] && Chain(next, list[0], list) && Chain(next, onto, done) && Distinct(list + done)
    ensures list[0] < |next|
    ensures var after := next[list[0] := onto];
            && Chain(after, if list[1..] == [] then 0 else list[1..][0], list[1..])
            && Chain(after, list[0], [list[0]] + done)
  {
    var first, rest := list[0], list[1..];
    ChainAt(next, first, list, 0);
    var after := next[first := onto];
    assert first == (list + done)[0];
    forall i | 0 <= i < |rest|
      ensures 0 < rest[i] < |after| && after[rest[i]] == Follower(rest, i)
    {
      assert rest[i] == (list + done)[i + 1] && rest[i] == list[i + 1];
      ChainAt(next, first, list, i + 1);
    }
    var grown := [first] + done;
    forall i | 0 <= i < |grown|
      ensures 0 < grown[i] < |after| && after[grown[i]] == Follower(grown, i)
    {
      if i > 0 {
        assert done[i - 1] == (list + done)[|list| + i - 1];
        ChainAt(next, onto, done, i - 1);
      }
    }
  }

  /** Reversal turns the chain around, onto whatever chain was built already. */
  lemma {:induction false} RelinkedChain(next: seq<nat>, list: seq<nat>, onto: nat, done: seq<nat>)
    requires Chain(next, if list == [] then 0 else list[0], list) && Chain(next, onto, done) && Distinct(list + done)
    ensures Chain(Relinked(next, list, onto), LastOr(list, onto), Backward(list) + done)
    decreases |list|
  {
    if list == [] {
      assert Backward(list) + done == done;
    } else {
      var first, rest := list[0], list[1..];
      HeadMoves(next, list, onto, done);
      MoveHead(list, done);
      RelinkedChain(next[first := onto], rest, first, [first] + done);
      BackwardMoves(list, done);
    }
  }

  lemma {:induction false} MoveHead(list: seq<nat>, done: seq<nat>)
    requires list != [] && Distinct(list + done)
    ensures Distinct(list[1..] + ([list[0]] + done))
  {
    var s, t := list + done, list[1..] + ([list[0]] + done);
    forall i, j | 0 <= i < j < |t|
      ensures t[i] != t[j]
    {
      var i' := if i < |list| - 1 then i + 1 else if i == |list| - 1 then 0 else i;
      var j' := if j < |list| - 1 then j + 1 else if j == |list| - 1 then 0 else j;
      assert t[i] == s[i'] && t[j] == s[j'] && i' != j';
    }
  }

  function LastOr(list: seq<nat>, otherwise: nat): nat {
    if list == [] then otherwise else list[|list| - 1]
  }

  lemma {:induction false} ReverseStep(links: seq<nat>, rest: seq<nat>, head: nat, reversed: nat)
    requires Chain(links, head, rest) && Distinct(rest) && head != 0
    ensures rest != [] && head < |links|
    ensures Chain(links[head := reversed], links[head], rest[1..]) && Distinct(rest[1..])
    ensures Relinked(links, rest, reversed) == Relinked(links[head := reversed], rest[1..], head)
    ensures LastOr(rest, reversed) == LastOr(rest[1..], head)
  {
    ChainEnds(links, head, rest);
    ChainAt(links, head, rest, 0);
    var after := links[head := reversed];
    forall i | 0 <= i < |rest[1..]|
      ensures 0 < rest[1..][i] < |links| && after[rest[1..][i]] == Follower(rest[1..], i)
    {
      ChainAt(links, head, rest, i + 1);
      assert rest[0] != rest[i + 1];
    }
  }

  /** The in-place reversal. */
  method Reverse(next: array<nat>, first: nat, ghost list: seq<nat>) returns (reversed: nat)
    requires Chain(next[..], first, list) && Distinct(list)
    modifies next
    ensures next[..] == Relinked(old(next[..]), list, 0)
    ensures Chain(next[..], reversed, Backward(list))
  {
    reversed := Relink(next, first, list);
    assert list + [] == list && Backward(list) + [] == Backward(list);
    RelinkedChain(old(next[..]), list, 0, []);
  }

  method Relink(next: array<nat>, first: nat, ghost list: seq<nat>) returns (reversed: nat)
    requires Chain(next[..], first, list) && Distinct(list)
    modifies next
    ensures next[..] == Relinked(old(next[..]), list, 0)
    ensures reversed == LastOr(list, 0)
  {
    ghost var goal, rest := Relinked(next[..], list, 0), list;
    var head := first;
    reversed := 0;
    while head != 0
      invariant Chain(next[..], head, rest) && Distinct(rest)
      invariant Relinked(next[..], rest, reversed) == goal && LastOr(rest, reversed) == LastOr(list, 0)
      decreases |rest|
    {
      ReverseStep(next[..], rest, head, reversed);
      ghost var links := next[..];
      var following := next[head];
      next[head] := reversed;
      assert next[..] == links[head := reversed];
      reversed := head;
      head := following;
      rest := rest[1..];
    }
    ChainEnds(next[..], head, rest);
  }

  // ------------------------------------------------- steps

  /** Callers exclude concurrent producers of one route; the owner does one thing at a time. */
  ghost predicate Enabled(s: State, e: Event) {
    match e
    case Accept(p) => p.route < |s.list.next| && p.task != 0 && p.route !in s.cargo.payload
    case PublishLow(r) => r < ROUTES && r in s.places.writers && s.places.writers[r].Reserved?
    case LookLow(p) => p in s.notes.lookers
    case LoadHead(r) => r >= ROUTES && r in s.places.writers && s.places.writers[r].Reserved?
    case StoreNext(r) => r in s.places.writers && s.places.writers[r].Loaded?
    case Exchange(r, _) => r in s.places.writers && s.places.writers[r].Stored?
    case TakeBatch => s.owner.Awake? && s.places.hand.Empty? && s.list.consumer == 0 && s.list.head != 0
    case Unlink => s.owner.Awake? && s.places.hand.Empty? && s.list.consumer != 0
    case TakeLow(r) => s.owner.Awake? && s.places.hand.Empty? && r in s.places.low
    case Copy => s.places.hand.Holding?
    case ArmLow => s.owner.Awake? && s.places.hand.Empty?
    case ArmLoad => s.owner.LowArmed?
    case ArmStep(_) => s.owner.HeadLoaded?
    case Resume => s.owner.Asleep?
    case DisarmLow => s.places.hand.Empty? && (s.owner.Awake? || s.owner.Asleep?)
    case DisarmHead => s.owner.Disarming?
  }

  /** A successful head exchange, which answers with the sleeping bit it replaced. */
  ghost function Swapped(s: State, r: nat): State
    requires r in s.cargo.held
  {
    s.(list := s.list.(head := r, pending := [r] + s.list.pending),
       places := s.places.(writers := s.places.writers - {r}),
       trail := s.trail.(linked := s.trail.linked + [s.cargo.held[r]]),
       notes := s.notes.(answers := s.notes.answers[s.cargo.held[r] := s.sleeping]),
       sleeping := false)
  }

  /** Takes the whole pending list and turns it around. */
  ghost function Batched(s: State): State {
    s.(list := Links(Relinked(s.list.next, s.list.pending, 0), 0, LastOr(s.list.pending, 0), [], Backward(s.list.pending)),
       sleeping := false)
  }

  ghost function Unlinked(s: State): State
    requires s.list.consumer < |s.list.next| && s.list.consumer in s.cargo.held && s.list.captured != []
  {
    s.(list := s.list.(consumer := s.list.next[s.list.consumer], captured := s.list.captured[1..]),
       places := s.places.(hand := Holding(s.list.consumer)),
       trail := s.trail.(unlinked := s.trail.unlinked + [s.cargo.held[s.list.consumer]]))
  }

  /** Copies one payload out and releases its slot. */
  ghost function Copied(s: State, r: nat): State
    requires r in s.cargo.held && r in s.cargo.payload
  {
    s.(places := s.places.(hand := Empty),
       cargo := s.cargo.(payload := s.cargo.payload - {r}, held := s.cargo.held - {r},
                         popped := s.cargo.popped + [s.cargo.held[r]], returned := s.cargo.returned + [s.cargo.payload[r]]))
  }

  /** The owner's final look at the head before it may block. */
  ghost function Armed(s: State, spurious: bool): State
    requires s.owner.HeadLoaded?
  {
    if s.owner.head != 0 then s.(owner := Awake)
    else if s.owner.sleeping then s.(owner := Asleep)
    else if !spurious && s.list.head == s.owner.head && s.sleeping == s.owner.sleeping then s.(sleeping := true, owner := Asleep)
    else s.(owner := HeadLoaded(s.list.head, s.sleeping))
  }

  ghost function After(s: State, e: Event): State {
    match e
    case Accept(p) =>
      s.(places := s.places.(writers := s.places.writers[p.route := Reserved]),
         cargo := s.cargo.(payload := s.cargo.payload[p.route := p],
                           held := s.cargo.held[p.route := |s.cargo.accepted|],
                           accepted := s.cargo.accepted + [p]))
    case PublishLow(r) =>
      if r !in s.cargo.held then s
      else s.(places := s.places.(writers := s.places.writers - {r}, low := s.places.low + {r}),
              notes := s.notes.(lookers := s.notes.lookers + {s.cargo.held[r]}))
    case LookLow(p) => s.(notes := s.notes.(lookers := s.notes.lookers - {p}, answers := s.notes.answers[p := s.lowSleeping]))
    case LoadHead(r) => s.(places := s.places.(writers := s.places.writers[r := Loaded(s.list.head, s.sleeping)]))
    case StoreNext(r) =>
      if r !in s.places.writers || !s.places.writers[r].Loaded? || r >= |s.list.next| then s
      else s.(places := s.places.(writers := s.places.writers[r := Stored(s.places.writers[r].head, s.places.writers[r].sleeping)]),
              list := s.list.(next := s.list.next[r := s.places.writers[r].head]))
    case Exchange(r, spurious) =>
      if r !in s.places.writers || !s.places.writers[r].Stored? || r !in s.cargo.held then s
      else if !spurious && s.list.head == s.places.writers[r].head && s.sleeping == s.places.writers[r].sleeping then Swapped(s, r)
      else s.(places := s.places.(writers := s.places.writers[r := Loaded(s.list.head, s.sleeping)]))
    case TakeBatch => Batched(s)
    case Unlink =>
      if s.list.consumer < |s.list.next| && s.list.consumer in s.cargo.held && s.list.captured != [] then Unlinked(s) else s
    case TakeLow(r) => s.(places := s.places.(low := s.places.low - {r}, hand := Holding(r)))
    case Copy =>
      var hand := s.places.hand;
      if hand.Holding? && hand.route in s.cargo.held && hand.route in s.cargo.payload then Copied(s, hand.route) else s
    case ArmLow => if s.places.low != {} then s else s.(lowSleeping := true, owner := LowArmed)
    case ArmLoad => s.(owner := if s.list.consumer != 0 then Awake else HeadLoaded(s.list.head, s.sleeping))
    case ArmStep(spurious) => if s.owner.HeadLoaded? then Armed(s, spurious) else s
    case Resume => s.(owner := Awake)
    case DisarmLow => s.(lowSleeping := false, owner := Disarming)
    case DisarmHead => s.(sleeping := false, owner := Awake)
  }

  // ------------------------------------------------- the invariant

  ghost function One(b: bool): nat {
    if b then 1 else 0
  }

  /** How many places hold route `r`: a producer, a lane, a list or the owner's hand. */
  ghost function Roles(s: State, r: nat): nat {
    One(r in s.places.writers) + One(r in s.places.low) + One(s.places.hand == Holding(r))
    + One(r in s.list.pending) + One(r in s.list.captured)
  }

  /** Each reserved slot has exactly one role, and a free slot none. */
  ghost predicate OneRole(s: State) {
    && (forall r {:trigger Roles(s, r)} :: Roles(s, r) == One(r in s.cargo.held))
    && (forall r :: r in s.cargo.held ==> r < |s.list.next|)
    && s.cargo.payload.Keys == s.cargo.held.Keys
  }

  /** Both lists are chains in the array and share no slot. */
  ghost predicate Lists(s: State) {
    && Chain(s.list.next, s.list.head, s.list.pending) && Chain(s.list.next, s.list.consumer, s.list.captured)
    && Distinct(s.list.pending) && Distinct(s.list.captured)
    && (s.sleeping ==> s.list.pending == [])
    && (forall r :: r in s.places.writers && s.places.writers[r].Stored? ==>
         r < |s.list.next| && s.list.next[r] == s.places.writers[r].head)
  }

  /** Low routes use the mailbox, the others the list. */
  ghost predicate Lanes(s: State) {
    && (forall r :: r in s.places.low ==> r < ROUTES)
    && (forall r :: r in s.list.pending ==> r >= ROUTES)
    && (forall r :: r in s.list.captured ==> r >= ROUTES)
    && (forall r :: r in s.places.writers && !s.places.writers[r].Reserved? ==> r >= ROUTES)
  }

  /** A reserved slot carries its accepted packet; every accepted packet is held or was returned once. */
  ghost predicate Accounts(c: Cargo) {
    && (forall r :: r in c.held && r in c.payload ==>
         c.held[r] < |c.accepted| && c.payload[r] == c.accepted[c.held[r]] && c.payload[r].route == r)
    && |c.returned| == |c.popped| && Distinct(c.popped)
    && (forall i :: 0 <= i < |c.popped| ==> c.popped[i] < |c.accepted| && c.returned[i] == c.accepted[c.popped[i]])
    && (forall p {:trigger c.accepted[p]} :: 0 <= p < |c.accepted| ==>
         (p in c.popped <==> !(c.accepted[p].route in c.held && c.held[c.accepted[p].route] == p)))
  }

  ghost function Serials(held: map<nat, nat>, list: seq<nat>): seq<nat> {
    seq(|list|, i requires 0 <= i < |list| => if list[i] in held then held[list[i]] else 0)
  }

  /** Overflow packets leave the lists in the order their head exchange succeeded. */
  ghost predicate Ordered(s: State) {
    s.trail.linked == s.trail.unlinked + Serials(s.cargo.held, s.list.captured) + Backward(Serials(s.cargo.held, s.list.pending))
  }

  /** The accepted packets with the given serial numbers. */
  function Packets(accepted: seq<Packet>, serials: seq<nat>): seq<Packet> {
    seq(|serials|, i requires 0 <= i < |serials| => if serials[i] < |accepted| then accepted[serials[i]] else Packet(0, 0, 0, 0))
  }

  function Overflows(packet: Packet): bool {
    packet.route >= ROUTES
  }

  /** The overflow packet the owner is copying, if any. */
  ghost function InHand(s: State): seq<Packet> {
    var hand := s.places.hand;
    if hand.Holding? && hand.route in s.cargo.payload && hand.route >= ROUTES then [s.cargo.payload[hand.route]] else []
  }

  /** What was unlinked has been returned, in the same order, up to the packet in hand. */
  ghost predicate Handed(s: State) {
    && Packets(s.cargo.accepted, s.trail.unlinked) == Kept(s.cargo.returned, Overflows) + InHand(s)
    && (forall i :: 0 <= i < |s.trail.unlinked| ==> s.trail.unlinked[i] < |s.cargo.accepted|)
  }

  /** Publishers have no answer before they publish; afterwards they have one or are looking. */
  ghost predicate Asked(s: State) {
    && (forall p :: p in s.notes.lookers ==> p < |s.cargo.accepted|)
    && (forall p :: p in s.notes.answers ==> p < |s.cargo.accepted|)
    && (forall r :: r in s.places.writers && r in s.cargo.held ==>
         s.cargo.held[r] !in s.notes.lookers && s.cargo.held[r] !in s.notes.answers)
    && (forall r :: r in s.places.low && r in s.cargo.held ==>
         s.cargo.held[r] in s.notes.lookers || s.cargo.held[r] in s.notes.answers)
  }

  /** The publisher of packet `p` was told to notify the owner. */
  ghost predicate Told(s: State, p: nat) {
    p in s.notes.answers && s.notes.answers[p]
  }

  /** Nothing to take from the list, or the oldest exchange since was told to notify. */
  ghost predicate HeadWatched(s: State) {
    if s.list.pending == [] then s.sleeping
    else var r := s.list.pending[|s.list.pending| - 1]; r in s.cargo.held && Told(s, s.cargo.held[r])
  }

  ghost predicate LowWatched(s: State) {
    forall r :: r in s.places.low && r in s.cargo.held && s.cargo.held[r] in s.notes.answers ==> s.notes.answers[s.cargo.held[r]]
  }

  /** What the owner knows at each point of arming. */
  ghost predicate Watched(s: State) {
    && (s.lowSleeping ==> LowWatched(s))
    && (s.owner.LowArmed? || s.owner.HeadLoaded? || s.owner.Asleep? ==> s.lowSleeping && s.places.hand.Empty?)
    && (s.owner.HeadLoaded? || s.owner.Asleep? ==> s.list.captured == [])
    && (s.owner.HeadLoaded? && s.owner.head == 0 && s.owner.sleeping ==> HeadWatched(s))
    && (s.owner.Asleep? ==> HeadWatched(s))
  }

  ghost predicate Invariant(s: State) {
    OneRole(s) && Lists(s) && Lanes(s) && Accounts(s.cargo) && Ordered(s) && Handed(s) && Asked(s) && Watched(s)
  }

  lemma {:induction false} HasRole(s: State, r: nat)
    requires OneRole(s)
    requires r in s.places.writers || r in s.places.low || s.places.hand == Holding(r) || r in s.list.pending || r in s.list.captured
    ensures r in s.cargo.held && r in s.cargo.payload && r < |s.list.next| && Roles(s, r) == 1
  {
    assert Roles(s, r) >= 1;
    assert r in s.cargo.payload.Keys;
  }

  lemma {:induction false} ConsumerHasRole(s: State)
    requires OneRole(s) && Lists(s) && s.list.consumer != 0
    ensures s.list.captured != [] && s.list.captured[0] == s.list.consumer && s.list.consumer in s.list.captured
    ensures s.list.consumer in s.cargo.held && s.list.consumer in s.cargo.payload && s.list.consumer < |s.list.next|
    ensures Chain(s.list.next, s.list.next[s.list.consumer], s.list.captured[1..]) && Distinct(s.list.captured[1..])
    ensures s.list.consumer !in s.list.captured[1..]
    ensures forall r :: r in s.list.captured <==> r == s.list.consumer || r in s.list.captured[1..]
  {
    ChainEnds(s.list.next, s.list.consumer, s.list.captured);
    HasRole(s, s.list.captured[0]);
    ChainTail(s.list.next, s.list.consumer, s.list.captured);
    assert s.list.captured == [s.list.captured[0]] + s.list.captured[1..];
  }

  // ------------------------------------------------- chains

  /** Writing a slot outside a list leaves its chain alone. */
  lemma {:induction false} ChainKept(next: seq<nat>, next': seq<nat>, first: nat, list: seq<nat>)
    requires Chain(next, first, list) && |next'| == |next|
    requires forall i :: 0 <= i < |list| && list[i] < |next| ==> next'[list[i]] == next[list[i]]
    ensures Chain(next', first, list)
  {
    forall i | 0 <= i < |list|
      ensures 0 < list[i] < |next'| && next'[list[i]] == Follower(list, i)
    {
      ChainAt(next, first, list, i);
    }
  }

  lemma {:induction false} ChainPushed(next: seq<nat>, first: nat, list: seq<nat>, r: nat)
    requires Chain(next, first, list) && 0 < r < |next| && next[r] == first && r !in list && Distinct(list)
    ensures Chain(next, r, [r] + list) && Distinct([r] + list)
  {
    var grown := [r] + list;
    forall i | 0 <= i < |grown|
      ensures 0 < grown[i] < |next| && next[grown[i]] == Follower(grown, i)
    {
      if i > 0 { ChainAt(next, first, list, i - 1); }
    }
  }

  lemma {:induction false} ChainTail(next: seq<nat>, first: nat, list: seq<nat>)
    requires Chain(next, first, list) && list != [] && Distinct(list)
    ensures first < |next| && Chain(next, next[first], list[1..]) && Distinct(list[1..]) && first !in list[1..]
  {
    ChainAt(next, first, list, 0);
    var rest := list[1..];
    forall i | 0 <= i < |rest|
      ensures 0 < rest[i] < |next| && next[rest[i]] == Follower(rest, i) && rest[i] != first
    {
      ChainAt(next, first, list, i + 1);
      assert list[0] != list[i + 1];
    }
  }

  // ------------------------------------------------- what a step leaves alone

  lemma {:induction false} SameRoles(s: State, t: State)
    requires OneRole(s) && |t.list.next| == |s.list.next| && t.cargo.payload == s.cargo.payload && t.cargo.held == s.cargo.held
    requires forall r {:trigger Roles(t, r)} :: Roles(t, r) == Roles(s, r)
    ensures OneRole(t)
  {
  }

  lemma {:induction false} SameOrder(s: State, t: State)
    requires Ordered(s) && Handed(s)
    requires t.trail == s.trail && t.cargo == s.cargo && InHand(t) == InHand(s)
    requires t.list.captured == s.list.captured && t.list.pending == s.list.pending
    ensures Ordered(t) && Handed(t)
  {
  }

  /** A step that only changes sleep bits, answers or the owner's position moves no packet. */
  lemma {:induction false} Unmoved(s: State, t: State)
    requires Invariant(s)
    requires t == s.(sleeping := t.sleeping,
                     lowSleeping := t.lowSleeping,
                     owner := t.owner,
                     notes := s.notes.(lookers := t.notes.lookers, answers := t.notes.answers))
    requires t.sleeping ==> s.sleeping || s.list.pending == []
    ensures OneRole(t) && Lists(t) && Lanes(t) && Accounts(t.cargo) && Ordered(t) && Handed(t)
  {
    forall r
      ensures Roles(t, r) == Roles(s, r)
    {
    }
    SameRoles(s, t);
    SameOrder(s, t);
  }

  // ------------------------------------------------- producers

  lemma {:induction false} AcceptRoles(s: State, packet: Packet)
    requires OneRole(s) && Enabled(s, Accept(packet))
    ensures packet.route !in s.cargo.held && Roles(s, packet.route) == 0
    ensures OneRole(After(s, Accept(packet)))
  {
    var t, k := After(s, Accept(packet)), packet.route;
    assert k !in s.cargo.payload.Keys;
    assert Roles(s, k) == 0;
    forall r
      ensures Roles(t, r) == One(r in t.cargo.held)
    {
      assert Roles(s, r) == One(r in s.cargo.held);
    }
    assert t.cargo.held.Keys == s.cargo.held.Keys + {k} && t.cargo.payload.Keys == s.cargo.payload.Keys + {k};
  }

  lemma {:induction false} AcceptAccounts(s: State, packet: Packet)
    requires Invariant(s) && packet.route !in s.cargo.held
    ensures Accounts(After(s, Accept(packet)).cargo)
  {
    var t := After(s, Accept(packet));
    forall p | 0 <= p < |t.cargo.accepted|
      ensures p in t.cargo.popped <==> !(t.cargo.accepted[p].route in t.cargo.held && t.cargo.held[t.cargo.accepted[p].route] == p)
    {
      if p < |s.cargo.accepted| { assert t.cargo.accepted[p] == s.cargo.accepted[p]; }
    }
  }

  lemma {:induction false} AcceptOrder(s: State, packet: Packet)
    requires Invariant(s) && Roles(s, packet.route) == 0
    ensures Ordered(After(s, Accept(packet))) && Handed(After(s, Accept(packet)))
  {
    OrderElsewhere(s, After(s, Accept(packet)).cargo.held, packet.route);
    PacketsGrow(s.cargo.accepted, s.trail.unlinked, packet);
  }

  lemma {:induction false} AcceptKept(s: State, packet: Packet)
    requires Invariant(s) && Enabled(s, Accept(packet))
    ensures Invariant(After(s, Accept(packet)))
  {
    AcceptRoles(s, packet);
    AcceptAccounts(s, packet);
    AcceptOrder(s, packet);
  }

  /** Two slots never carry the same packet. */
  lemma {:induction false} OwnPacket(s: State, r: nat)
    requires OneRole(s) && Accounts(s.cargo) && r in s.cargo.held
    ensures forall k :: k in s.cargo.held && k != r ==> s.cargo.held[k] != s.cargo.held[r]
  {
    forall k | k in s.cargo.held && k != r
      ensures s.cargo.held[k] != s.cargo.held[r]
    {
      assert k in s.cargo.payload.Keys && r in s.cargo.payload.Keys;
    }
  }

  lemma {:induction false} PublishAsks(s: State, r: nat)
    requires OneRole(s) && Accounts(s.cargo) && Asked(s) && Enabled(s, PublishLow(r))
    ensures Asked(After(s, PublishLow(r)))
  {
    HasRole(s, r);
    OwnPacket(s, r);
  }

  lemma {:induction false} PublishKept(s: State, r: nat)
    requires Invariant(s) && Enabled(s, PublishLow(r))
    ensures Invariant(After(s, PublishLow(r)))
  {
    var t := After(s, PublishLow(r));
    HasRole(s, r);
    PublishAsks(s, r);
    forall k
      ensures Roles(t, k) == Roles(s, k)
    {
    }
    SameRoles(s, t);
    SameOrder(s, t);
  }

  lemma {:induction false} LookKept(s: State, p: nat)
    requires Invariant(s) && Enabled(s, LookLow(p))
    ensures Invariant(After(s, LookLow(p)))
  {
    Unmoved(s, After(s, LookLow(p)));
  }

  lemma {:induction false} WriterLists(s: State, r: nat, writer: Writer, next: seq<nat>)
    requires OneRole(s) && Lists(s) && r in s.places.writers && r < |s.list.next|
    requires !writer.Reserved? && next == if writer.Stored? then s.list.next[r := writer.head] else s.list.next
    ensures Lists(s.(places := s.places.(writers := s.places.writers[r := writer]), list := s.list.(next := next)))
  {
    HasRole(s, r);
    ChainKept(s.list.next, next, s.list.head, s.list.pending);
    ChainKept(s.list.next, next, s.list.consumer, s.list.captured);
  }

  /** A producer's own progress on a reserved overflow slot. */
  lemma {:induction false} WriterKept(s: State, r: nat, writer: Writer, next: seq<nat>)
    requires Invariant(s) && r in s.places.writers && r >= ROUTES && r < |s.list.next|
    requires !writer.Reserved? && next == if writer.Stored? then s.list.next[r := writer.head] else s.list.next
    ensures Invariant(s.(places := s.places.(writers := s.places.writers[r := writer]), list := s.list.(next := next)))
  {
    var t := s.(places := s.places.(writers := s.places.writers[r := writer]), list := s.list.(next := next));
    forall k
      ensures Roles(t, k) == Roles(s, k)
    {
    }
    SameRoles(s, t);
    SameOrder(s, t);
    WriterLists(s, r, writer, next);
  }

  lemma {:induction false} LoadKept(s: State, r: nat)
    requires Invariant(s) && Enabled(s, LoadHead(r))
    ensures Invariant(After(s, LoadHead(r)))
  {
    HasRole(s, r);
    WriterKept(s, r, Loaded(s.list.head, s.sleeping), s.list.next);
  }

  lemma {:induction false} StoreKept(s: State, r: nat)
    requires Invariant(s) && Enabled(s, StoreNext(r))
    ensures Invariant(After(s, StoreNext(r)))
  {
    HasRole(s, r);
    var w := s.places.writers[r];
    WriterKept(s, r, Stored(w.head, w.sleeping), s.list.next[r := w.head]);
  }

  lemma {:induction false} SwapMoves(s: State, r: nat)
    requires Invariant(s) && r in s.places.writers && s.places.writers[r].Stored? && s.list.head == s.places.writers[r].head
    ensures r in s.cargo.held && OneRole(Swapped(s, r)) && Lists(Swapped(s, r)) && Lanes(Swapped(s, r))
  {
    HasRole(s, r);
    var t := Swapped(s, r);
    forall k
      ensures Roles(t, k) == Roles(s, k)
    {
    }
    SameRoles(s, t);
    ChainPushed(s.list.next, s.list.head, s.list.pending, r);
  }

  lemma {:induction false} SwapOrder(s: State, r: nat)
    requires Invariant(s) && r in s.cargo.held
    ensures Ordered(Swapped(s, r)) && Handed(Swapped(s, r))
  {
    var serials := Serials(s.cargo.held, s.list.pending);
    assert Serials(s.cargo.held, [r] + s.list.pending) == [s.cargo.held[r]] + serials;
    assert Backward([s.cargo.held[r]] + serials) == Backward(serials) + [s.cargo.held[r]];
  }

  /** The first exchange onto an armed head is told; later ones leave that answer alone. */
  lemma {:induction false} SwapAnswers(s: State, r: nat)
    requires Invariant(s) && r in s.places.writers && r in s.cargo.held
    ensures Asked(Swapped(s, r)) && Watched(Swapped(s, r))
  {
    var t := Swapped(s, r);
    OwnPacket(s, r);
    HasRole(s, r);
    if s.list.pending != [] {
      assert t.list.pending[|t.list.pending| - 1] == s.list.pending[|s.list.pending| - 1];
      assert s.list.pending[|s.list.pending| - 1] in s.list.pending;
    }
  }

  lemma {:induction false} ExchangeKept(s: State, r: nat, spurious: bool)
    requires Invariant(s) && Enabled(s, Exchange(r, spurious))
    ensures Invariant(After(s, Exchange(r, spurious)))
  {
    HasRole(s, r);
    if !spurious && s.list.head == s.places.writers[r].head && s.sleeping == s.places.writers[r].sleeping {
      SwapMoves(s, r);
      SwapOrder(s, r);
      SwapAnswers(s, r);
    } else {
      WriterKept(s, r, Loaded(s.list.head, s.sleeping), s.list.next);
    }
  }

  // ------------------------------------------------- the owner takes packets

  lemma {:induction false} BatchLists(s: State)
    requires Invariant(s) && Enabled(s, TakeBatch)
    ensures Lists(Batched(s))
  {
    ChainEnds(s.list.next, s.list.head, s.list.pending);
    assert s.list.pending + [] == s.list.pending && Backward(s.list.pending) + [] == Backward(s.list.pending);
    RelinkedChain(s.list.next, s.list.pending, 0, []);
    BackwardElements(s.list.pending);
    forall r | r in s.places.writers && s.places.writers[r].Stored?
      ensures Relinked(s.list.next, s.list.pending, 0)[r] == s.list.next[r]
    {
      HasRole(s, r);
      RelinkedElsewhere(s.list.next, s.list.pending, 0, r);
    }
  }

  lemma {:induction false} BatchOrder(s: State)
    requires Invariant(s) && s.list.captured == []
    ensures Ordered(Batched(s))
  {
    SerialsBackward(s.cargo.held, s.list.pending);
    assert Serials(s.cargo.held, []) == [] && Backward<nat>([]) == [];
  }

  lemma {:induction false} BatchKept(s: State)
    requires Invariant(s) && Enabled(s, TakeBatch)
    ensures Invariant(After(s, TakeBatch))
  {
    var t := Batched(s);
    ChainEnds(s.list.next, s.list.consumer, s.list.captured);
    BackwardElements(s.list.pending);
    forall k
      ensures Roles(t, k) == Roles(s, k)
    {
    }
    SameRoles(s, t);
    BatchLists(s);
    BatchOrder(s);
  }

  lemma {:induction false} UnlinkRoles(s: State)
    requires OneRole(s) && Lists(s) && Enabled(s, Unlink)
    ensures OneRole(After(s, Unlink))
  {
    var t := After(s, Unlink);
    ConsumerHasRole(s);
    HasRole(s, s.list.consumer);
    forall k
      ensures Roles(t, k) == Roles(s, k)
    {
    }
    SameRoles(s, t);
  }

  lemma {:induction false} SerialsStep(held: map<nat, nat>, list: seq<nat>)
    requires list != [] && list[0] in held
    ensures Serials(held, list) == [held[list[0]]] + Serials(held, list[1..])
  {
  }

  lemma {:induction false} UnlinkOrder(s: State)
    requires OneRole(s) && Lists(s) && Ordered(s) && Enabled(s, Unlink)
    ensures Ordered(After(s, Unlink))
  {
    ConsumerHasRole(s);
    SerialsStep(s.cargo.held, s.list.captured);
    Associates(s.trail.unlinked, [s.cargo.held[s.list.consumer]], Serials(s.cargo.held, s.list.captured[1..]));
  }

  lemma {:induction false} UnlinkHands(s: State)
    requires OneRole(s) && Lists(s) && Lanes(s) && Accounts(s.cargo) && Handed(s) && Enabled(s, Unlink)
    ensures Handed(After(s, Unlink))
  {
    ConsumerHasRole(s);
    PacketsAppend(s.cargo.accepted, s.trail.unlinked, s.cargo.held[s.list.consumer]);
    assert Kept(s.cargo.returned, Overflows) + [] == Kept(s.cargo.returned, Overflows);
  }

  lemma {:induction false} UnlinkKept(s: State)
    requires Invariant(s) && Enabled(s, Unlink)
    ensures Invariant(After(s, Unlink))
  {
    ConsumerHasRole(s);
    UnlinkRoles(s);
    UnlinkOrder(s);
    UnlinkHands(s);
  }

  lemma {:induction false} TakeLowKept(s: State, r: nat)
    requires Invariant(s) && Enabled(s, TakeLow(r))
    ensures Invariant(After(s, TakeLow(r)))
  {
    var t := After(s, TakeLow(r));
    HasRole(s, r);
    forall k
      ensures Roles(t, k) == Roles(s, k)
    {
    }
    SameRoles(s, t);
    SameOrder(s, t);
  }

  lemma {:induction false} CopyRoles(s: State)
    requires OneRole(s) && Enabled(s, Copy)
    ensures OneRole(After(s, Copy))
  {
    var t, k := After(s, Copy), s.places.hand.route;
    HasRole(s, k);
    forall r
      ensures Roles(t, r) == One(r in t.cargo.held)
    {
      assert Roles(s, r) == One(r in s.cargo.held);
    }
    assert t.cargo.held.Keys == s.cargo.held.Keys - {k} && t.cargo.payload.Keys == s.cargo.payload.Keys - {k};
  }

  lemma {:induction false} DistinctGrows(s: seq<nat>, x: nat)
    requires Distinct(s) && x !in s
    ensures Distinct(s + [x])
  {
  }

  lemma {:induction false} CopyAccounts(s: State, r: nat)
    requires Invariant(s) && r in s.cargo.held && r in s.cargo.payload
    ensures Accounts(Copied(s, r).cargo)
  {
    var t, q := Copied(s, r), s.cargo.held[r];
    assert s.cargo.accepted[q].route == r && q !in s.cargo.popped;
    DistinctGrows(s.cargo.popped, q);
    forall p | 0 <= p < |t.cargo.accepted|
      ensures p in t.cargo.popped <==> !(t.cargo.accepted[p].route in t.cargo.held && t.cargo.held[t.cargo.accepted[p].route] == p)
    {
      assert t.cargo.accepted[p] == s.cargo.accepted[p];
      assert p in t.cargo.popped <==> p in s.cargo.popped || p == q;
    }
  }

  lemma {:induction false} CopyOrder(s: State, r: nat)
    requires Invariant(s) && s.places.hand == Holding(r)
    ensures r in s.cargo.held && r in s.cargo.payload && Ordered(Copied(s, r)) && Handed(Copied(s, r))
  {
    HasRole(s, r);
    OrderElsewhere(s, s.cargo.held - {r}, r);
    var packet := s.cargo.payload[r];
    KeptAppend(s.cargo.returned, [packet], Overflows);
    assert Kept([packet], Overflows) == if Overflows(packet) then [packet] else [];
    var kept := Kept(s.cargo.returned + [packet], Overflows);
    assert kept + [] == kept;
  }

  lemma {:induction false} CopyKept(s: State)
    requires Invariant(s) && Enabled(s, Copy)
    ensures Invariant(After(s, Copy))
  {
    var r := s.places.hand.route;
    CopyRoles(s);
    CopyOrder(s, r);
    CopyAccounts(s, r);
    HasRole(s, r);
  }

  // ------------------------------------------------- order

  lemma {:induction false} SameSerials(held: map<nat, nat>, held': map<nat, nat>, list: seq<nat>)
    requires forall i :: 0 <= i < |list| ==>
               (list[i] in held' <==> list[i] in held) && (list[i] in held ==> held'[list[i]] == held[list[i]])
    ensures Serials(held', list) == Serials(held, list)
  {
  }

  lemma {:induction false} SerialsBackward(held: map<nat, nat>, list: seq<nat>)
    ensures Serials(held, Backward(list)) == Backward(Serials(held, list))
  {
  }

  /** Slots without a list role may change hands. */
  lemma {:induction false} OrderElsewhere(s: State, held': map<nat, nat>, r: nat)
    requires r !in s.list.pending && r !in s.list.captured
    requires forall k :: k != r ==> (k in held' <==> k in s.cargo.held) && (k in s.cargo.held ==> held'[k] == s.cargo.held[k])
    ensures Serials(held', s.list.captured) == Serials(s.cargo.held, s.list.captured)
    ensures Serials(held', s.list.pending) == Serials(s.cargo.held, s.list.pending)
  {
    SameSerials(s.cargo.held, held', s.list.captured);
    SameSerials(s.cargo.held, held', s.list.pending);
  }

  lemma {:induction false} PacketsGrow(accepted: seq<Packet>, serials: seq<nat>, packet: Packet)
    requires forall i :: 0 <= i < |serials| ==> serials[i] < |accepted|
    ensures Packets(accepted + [packet], serials) == Packets(accepted, serials)
  {
  }

  lemma {:induction false} PacketsAppend(accepted: seq<Packet>, serials: seq<nat>, p: nat)
    requires p < |accepted|
    ensures Packets(accepted, serials + [p]) == Packets(accepted, serials) + [accepted[p]]
  {
  }

  // ------------------------------------------------- the owner arms and disarms

  lemma {:induction false} SleepKept(s: State, e: Event)
    requires Invariant(s) && Enabled(s, e)
    requires e.ArmLow? || e.ArmLoad? || e.Resume? || e.DisarmLow? || e.DisarmHead?
    ensures Invariant(After(s, e))
  {
    var t := After(s, e);
    ChainEnds(s.list.next, s.list.head, s.list.pending);
    ChainEnds(s.list.next, s.list.consumer, s.list.captured);
    Unmoved(s, t);
  }

  /** The owner may block only behind a head that is watched. */
  lemma {:induction false} ArmWatches(s: State, spurious: bool)
    requires Lists(s) && Watched(s) && Enabled(s, ArmStep(spurious))
    ensures Watched(Armed(s, spurious))
  {
    ChainEnds(s.list.next, s.list.head, s.list.pending);
  }

  lemma {:induction false} ArmKept(s: State, spurious: bool)
    requires Invariant(s) && Enabled(s, ArmStep(spurious))
    ensures Invariant(After(s, ArmStep(spurious)))
  {
    var t := Armed(s, spurious);
    ArmWatches(s, spurious);
    ChainEnds(s.list.next, s.list.head, s.list.pending);
    Unmoved(s, t);
  }

  // ------------------------------------------------- whole runs

  /** Every atomic step of every producer and of the owner keeps the invariant. */
  lemma {:induction false} InvariantKept(s: State, e: Event)
    requires Invariant(s) && Enabled(s, e)
    ensures Invariant(After(s, e))
  {
    match e
    case Accept(p) => AcceptKept(s, p);
    case PublishLow(r) => PublishKept(s, r);
    case LookLow(p) => LookKept(s, p);
    case LoadHead(r) => LoadKept(s, r);
    case StoreNext(r) => StoreKept(s, r);
    case Exchange(r, spurious) => ExchangeKept(s, r, spurious);
    case TakeBatch => BatchKept(s);
    case Unlink => UnlinkKept(s);
    case TakeLow(r) => TakeLowKept(s, r);
    case Copy => CopyKept(s);
    case ArmStep(spurious) => ArmKept(s, spurious);
    case _ => SleepKept(s, e);
  }

  lemma {:induction false} InitiallyUnused(slots: nat)
    ensures OneRole(Initial(slots)) && Lanes(Initial(slots)) && Accounts(Initial(slots).cargo)
    ensures Asked(Initial(slots)) && Watched(Initial(slots))
  {
    var s := Initial(slots);
    forall r
      ensures Roles(s, r) == 0
    {
    }
  }

  lemma {:induction false} InitiallyInvariant(slots: nat)
    ensures Invariant(Initial(slots))
  {
    InitiallyUnused(slots);
  }

  ghost predicate Possible(s: State, run: seq<Event>)
    decreases |run|
  {
    run == [] || (Enabled(s, run[0]) && Possible(After(s, run[0]), run[1..]))
  }

  ghost function Final(s: State, run: seq<Event>): State
    decreases |run|
  {
    if run == [] then s else Final(After(s, run[0]), run[1..])
  }

  lemma {:induction false} InvariantAlways(s: State, run: seq<Event>)
    requires Invariant(s) && Possible(s, run)
    ensures Invariant(Final(s, run))
    decreases |run|
  {
    if run != [] {
      InvariantKept(s, run[0]);
      InvariantAlways(After(s, run[0]), run[1..]);
    }
  }

  /**
   From an empty inbox, every interleaving returns accepted packets at most once and
   unchanged, returns overflow packets in exchange order, and keeps both lists apart.
   */
  lemma {:induction false} EveryRunDelivers(slots: nat, run: seq<Event>)
    requires Possible(Initial(slots), run)
    ensures var s := Final(Initial(slots), run);
            && Distinct(s.cargo.popped) && |s.cargo.returned| == |s.cargo.popped|
            && (forall i :: 0 <= i < |s.cargo.popped| ==>
                 s.cargo.popped[i] < |s.cargo.accepted| && s.cargo.returned[i] == s.cargo.accepted[s.cargo.popped[i]])
            && Kept(s.cargo.returned, Overflows) <= Packets(s.cargo.accepted, s.trail.linked)
            && (forall r :: r in s.list.pending ==> r !in s.list.captured)
  {
    InitiallyInvariant(slots);
    InvariantAlways(Initial(slots), run);
    InvariantDelivers(Final(Initial(slots), run));
  }

  lemma {:induction false} PrefixesFollow(accepted: seq<Packet>, a: seq<nat>, b: seq<nat>)
    requires a <= b
    ensures Packets(accepted, a) <= Packets(accepted, b)
  {
  }

  lemma {:induction false} InvariantDelivers(s: State)
    requires Invariant(s)
    ensures Kept(s.cargo.returned, Overflows) <= Packets(s.cargo.accepted, s.trail.linked)
    ensures forall r :: r in s.list.pending ==> r !in s.list.captured
  {
    Associates(s.trail.unlinked, Serials(s.cargo.held, s.list.captured), Backward(Serials(s.cargo.held, s.list.pending)));
    PrefixesFollow(s.cargo.accepted, s.trail.unlinked, s.trail.linked);
    forall r | r in s.list.pending
      ensures r !in s.list.captured
    {
      HasRole(s, r);
    }
  }

  /** Once no slot is reserved, every accepted packet has been returned. */
  lemma {:induction false} QuietMeansAllReturned(slots: nat, run: seq<Event>)
    requires Possible(Initial(slots), run) && Final(Initial(slots), run).cargo.payload == map[]
    ensures var s := Final(Initial(slots), run);
            forall p :: 0 <= p < |s.cargo.accepted| ==> p in s.cargo.popped
  {
    InitiallyInvariant(slots);
    InvariantAlways(Initial(slots), run);
    var s := Final(Initial(slots), run);
    assert s.cargo.held.Keys == {};
    forall p | 0 <= p < |s.cargo.accepted|
      ensures p in s.cargo.popped
    {
      assert s.cargo.accepted[p].route !in s.cargo.held.Keys;
    }
  }

  /**
   No wake is lost over both lanes: once `arm_wait` has told the owner to block, whatever
   is published has a publisher that was told to notify, or, in the mailbox, has yet to
   look and will find the sleeping bit set.
   */
  lemma {:induction false} NoWakeIsLost(slots: nat, run: seq<Event>)
    requires Possible(Initial(slots), run) && Final(Initial(slots), run).owner.Asleep?
    ensures var s := Final(Initial(slots), run);
            && s.list.captured == [] && s.places.hand.Empty? && s.lowSleeping
            && (forall r :: r in s.places.low ==> r in s.cargo.held && (Told(s, s.cargo.held[r]) || s.cargo.held[r] in s.notes.lookers))
            && (s.list.pending == [] ==> s.sleeping)
            && (s.list.pending != [] ==> exists r :: r in s.list.pending && r in s.cargo.held && Told(s, s.cargo.held[r]))
  {
    InitiallyInvariant(slots);
    InvariantAlways(Initial(slots), run);
    var s := Final(Initial(slots), run);
    forall r | r in s.places.low
      ensures r in s.cargo.held && (Told(s, s.cargo.held[r]) || s.cargo.held[r] in s.notes.lookers)
    {
      HasRole(s, r);
    }
    if s.list.pending != [] {
      assert s.list.pending[|s.list.pending| - 1] in s.list.pending;
    }
  }

  // ------------------------------------------------- arming

  /** An undisturbed `arm_wait`, up to the first lane that holds something. */
  function Arming(s: State): seq<Event> {
    [ArmLow] + if s.places.low != {} then [] else [ArmLoad] + if s.list.consumer != 0 then [] else [ArmStep(false)] + []
  }

  lemma {:induction false} StepOn(s: State, e: Event, rest: seq<Event>)
    ensures Possible(s, [e] + rest) <==> Enabled(s, e) && Possible(After(s, e), rest)
    ensures Final(s, [e] + rest) == Final(After(s, e), rest)
  {
    assert ([e] + rest)[1..] == rest;
  }

  /** The owner falls asleep if and only if both lanes are empty. */
  lemma {:induction false} SleepsIffEmpty(s: State)
    requires Invariant(s) && s.owner.Awake? && s.places.hand.Empty?
    ensures Possible(s, Arming(s))
    ensures Final(s, Arming(s)).owner ==
            if s.places.low == {} && s.list.captured == [] && s.list.pending == [] then Asleep else Awake
    ensures Final(s, Arming(s)).cargo == s.cargo && Final(s, Arming(s)).list == s.list && Final(s, Arming(s)).places == s.places
  {
    ChainEnds(s.list.next, s.list.consumer, s.list.captured);
    ChainEnds(s.list.next, s.list.head, s.list.pending);
    var s1 := After(s, ArmLow);
    var s2 := After(s1, ArmLoad);
    if s.places.low != {} {
      StepOn(s, ArmLow, []);
    } else if s.list.consumer != 0 {
      StepOn(s, ArmLow, [ArmLoad] + []);
      StepOn(s1, ArmLoad, []);
    } else {
      StepOn(s, ArmLow, [ArmLoad] + ([ArmStep(false)] + []));
      StepOn(s1, ArmLoad, [ArmStep(false)] + []);
      StepOn(s2, ArmStep(false), []);
    }
  }

  lemma {:induction false} AwakeStep(s: State, e: Event, p: nat)
    requires Enabled(s, e) && !s.sleeping && !s.lowSleeping && !e.ArmLow? && !e.ArmStep?
    ensures !After(s, e).sleeping && !After(s, e).lowSleeping && (Told(After(s, e), p) ==> Told(s, p))
  {
  }

  /** Until it arms again, an owner that disarmed is left alone: no push is told to notify it. */
  lemma {:induction false} AwakeIsLeftAlone(s: State, run: seq<Event>, p: nat)
    requires Possible(s, run) && !s.sleeping && !s.lowSleeping && forall e :: e in run ==> !e.ArmLow? && !e.ArmStep?
    ensures Told(Final(s, run), p) ==> Told(s, p)
    decreases |run|
  {
    if run != [] {
      assert run[0] in run && forall e :: e in run[1..] ==> e in run;
      AwakeStep(s, run[0], p);
      AwakeIsLeftAlone(After(s, run[0]), run[1..], p);
    }
  }

  /** Nobody notifies an owner that has disarmed both lanes. */
  lemma {:induction false} DisarmedIsLeftAlone(s: State, run: seq<Event>)
    requires |run| >= 2 && run[0].DisarmLow? && run[1].DisarmHead? && Possible(s, run)
    requires forall e :: e in run[2..] ==> !e.ArmLow? && !e.ArmStep?
    ensures forall p: nat :: Told(Final(s, run), p) ==> Told(s, p)
  {
    var s1 := After(s, run[0]);
    assert run == [run[0]] + ([run[1]] + run[2..]);
    StepOn(s, run[0], [run[1]] + run[2..]);
    StepOn(s1, run[1], run[2..]);
    forall p: nat
      ensures Told(Final(s, run), p) ==> Told(s, p)
    {
      AwakeIsLeftAlone(After(s1, run[1]), run[2..], p);
    }
  }
}
