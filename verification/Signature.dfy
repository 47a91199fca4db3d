/**
 Exact live-ancestry signatures: persistent Patricia tries over 64-bit identities,
 routed by reversed bits, whose nodes cache a fingerprint of the identities below.
 */
module Signature {
  import opened Bits
  import opened Options
  import opened Collections

  datatype Candidate = Candidate(len: nat, xor: nat, sum: nat)

  datatype NodeKind = Leaf(id: nat) | Branch(bit: nat, left: Node, right: Node)

  /** One trie node with its cached routing sample and fingerprint. */
  datatype Node = Node(kind: NodeKind, sample: nat, len: nat, xor: nat, sum: nat)

  datatype Signature = Empty | Singleton(id: nat) | Tree(root: Node)

  const XOR_SALT: nat := 0x243f_6a88_85a3_08d3
  const SUM_SALT: nat := 0x1319_8a2e_0370_7344

  function Route(id: nat): nat {
    ReverseBits(id)
  }

  function WrappingMul(a: nat, b: nat): nat {
    (a * b) % WORD
  }

  function WrappingAdd(a: nat, b: nat): nat {
    (a + b) % WORD
  }

  function Atom(id: nat, salt: nat): nat {
    Mixed(id, salt, 0)
  }

  /** The avalanche from `stage` on; stage 0 is the raw identity. */
  function Mixed(v: nat, salt: nat, stage: nat): nat
    decreases 4 - stage, v
  {
    if stage == 0 then Mixed(v, salt, 1)
    else if stage == 1 then Mixed(Xor(v, salt), salt, 2)
    else if stage == 2 then Mixed(WrappingMul(Xor(v, v / 0x4000_0000), 0xbf58_476d_1ce4_e5b9), salt, 3)
    else if stage == 3 then Mixed(WrappingMul(Xor(v, v / 0x800_0000), 0x94d0_49bb_1331_11eb), salt, 4)
    else Xor(v, v / 0x8000_0000)
  }

  function LeafNode(id: nat): Node {
    Node(Leaf(id), Route(id), 1, Atom(id, XOR_SALT), Atom(id, SUM_SALT))
  }

  function BranchNode(bit: nat, left: Node, right: Node): Node
    requires !BitSet(left.sample, bit)
    requires BitSet(right.sample, bit)
  {
    Node(Branch(bit, left, right), left.sample, left.len + right.len,
         Xor(left.xor, right.xor), WrappingAdd(left.sum, right.sum))
  }

  /** Identities below a node. */
  ghost function Leaves(n: Node): set<nat> {
    match n.kind
    case Leaf(id) => {id}
    case Branch(_, left, right) => Leaves(left) + Leaves(right)
  }

  /** All identities of `s` route alike on every bit above `bit`. */
  ghost predicate AgreeAbove(s: set<nat>, bit: nat) {
    forall x, y, k :: x in s && y in s && bit < k < WIDTH ==> BitSet(Route(x), k) == BitSet(Route(y), k)
  }

  ghost predicate Routed(s: set<nat>, bit: nat, side: bool) {
    forall x :: x in s ==> BitSet(Route(x), bit) == side
  }

  /** Patricia invariant: each branch splits its identities at their first difference. */
  ghost predicate ValidNode(n: Node)
    ensures ValidNode(n) ==> exists x :: x in Leaves(n) && n.sample == Route(x)
  {
    match n.kind
    case Leaf(id) =>
      assert id in Leaves(n);
      id < WORD && n == LeafNode(id)
    case Branch(bit, left, right) =>
      && ValidNode(left) && ValidNode(right)
      && bit < WIDTH
      && Routed(Leaves(left), bit, false)
      && Routed(Leaves(right), bit, true)
      && AgreeAbove(Leaves(n), bit)
      && n == Node(n.kind, left.sample, left.len + right.len,
                   Xor(left.xor, right.xor), WrappingAdd(left.sum, right.sum))
  }

  ghost predicate Valid(s: Signature) {
    match s
    case Empty => true
    case Singleton(id) => id < WORD
    case Tree(root) => ValidNode(root) && root.kind.Branch?
  }

  /** The set of identities a signature denotes. */
  ghost function Elements(s: Signature): set<nat> {
    match s
    case Empty => {}
    case Singleton(id) => {id}
    case Tree(root) => Leaves(root)
  }

  function Fingerprint(s: Signature): Candidate {
    match s
    case Empty => Candidate(0, 0, 0)
    case Singleton(id) => Candidate(1, Atom(id, XOR_SALT), Atom(id, SUM_SALT))
    case Tree(root) => Candidate(root.len, root.xor, root.sum)
  }

  function Cardinality(s: Signature): nat {
    match s
    case Empty => 0
    case Singleton(_) => 1
    case Tree(root) => root.len
  }

  // ---------------------------------------------------------------- canonicity

  /** The highest bit on which the routes of two distinct identities differ. */
  function FirstDifference(x: nat, y: nat): (d: nat)
    requires x < WORD && y < WORD && x != y
    ensures d < WIDTH
    ensures BitSet(Route(x), d) != BitSet(Route(y), d)
    ensures forall k :: d < k < WIDTH ==> BitSet(Route(x), k) == BitSet(Route(y), k)
  {
    RoutesDiffer(x, y);
    var v := Xor(Route(x), Route(y));
    var d := HighestBit(v);
    assert d < WIDTH by {
      XorBit(Route(x), Route(y), d);
      ReverseBitsBit(x, d);
      ReverseBitsBit(y, d);
    }
    assert BitSet(Route(x), d) != BitSet(Route(y), d) by { XorBit(Route(x), Route(y), d); }
    assert forall k :: d < k < WIDTH ==> BitSet(Route(x), k) == BitSet(Route(y), k) by {
      forall k | d < k < WIDTH ensures BitSet(Route(x), k) == BitSet(Route(y), k) {
        XorBit(Route(x), Route(y), k);
      }
    }
    d
  }

  lemma RoutesDiffer(x: nat, y: nat)
    requires x < WORD && y < WORD && x != y
    ensures Xor(Route(x), Route(y)) != 0
  {
    WordIsPow2();
    var k := DistinctWordsDiffer(x, y, WIDTH);
    var j := WIDTH - 1 - k;
    ReverseBitsBit(x, j);
    ReverseBitsBit(y, j);
    XorBit(Route(x), Route(y), j);
    ZeroHasNoBits(j);
  }

  lemma {:induction false} LeavesAreWords(n: Node)
    requires ValidNode(n)
    ensures Leaves(n) != {} && forall x :: x in Leaves(n) ==> x < WORD
    decreases n
  {
    match n.kind
    case Leaf(id) =>
      assert id in Leaves(n);
    case Branch(_, left, right) =>
      LeavesAreWords(left);
      LeavesAreWords(right);
  }

  /** A node with at least two identities branches where its set first disagrees. */
  lemma {:induction false} Canonical(a: Node, b: Node)
    requires ValidNode(a) && ValidNode(b)
    requires Leaves(a) == Leaves(b)
    ensures a == b
    decreases a
  {
    LeavesAreWords(a);
    match (a.kind, b.kind) {
      case (Leaf(x), Leaf(y)) =>
        assert x in Leaves(b);
      case (Leaf(x), Branch(_, _, _)) =>
        BranchHasTwoLeaves(b);
      case (Branch(_, _, _), Leaf(y)) =>
        BranchHasTwoLeaves(a);
      case (Branch(p, l, r), Branch(q, m, s)) =>
        SameSplit(a, b);
        SidesBySet(a);
        SidesBySet(b);
        Canonical(l, m);
        Canonical(r, s);
    }
  }

  lemma BranchHasTwoLeaves(n: Node)
    requires ValidNode(n) && n.kind.Branch?
    ensures exists x, y :: x in Leaves(n) && y in Leaves(n) && !BitSet(Route(x), n.kind.bit) && BitSet(Route(y), n.kind.bit)
    ensures forall v :: Leaves(n) != {v}
  {
    LeavesAreWords(n.kind.left);
    LeavesAreWords(n.kind.right);
    var x :| x in Leaves(n.kind.left);
    var y :| y in Leaves(n.kind.right);
    assert x in Leaves(n) && y in Leaves(n) && x != y;
  }

  lemma SameSplit(a: Node, b: Node)
    requires ValidNode(a) && ValidNode(b) && a.kind.Branch? && b.kind.Branch?
    requires Leaves(a) == Leaves(b)
    ensures a.kind.bit == b.kind.bit
  {
    BranchHasTwoLeaves(a);
    BranchHasTwoLeaves(b);
  }

  lemma SidesBySet(n: Node)
    requires ValidNode(n) && n.kind.Branch?
    ensures Leaves(n.kind.left) == set x | x in Leaves(n) && !BitSet(Route(x), n.kind.bit)
    ensures Leaves(n.kind.right) == set x | x in Leaves(n) && BitSet(Route(x), n.kind.bit)
  {
  }

  /**
   Shape and cached fingerprints depend only on the denoted set: insertion order,
   and which operand a union grew, leave no trace.
   */
  lemma SignatureIsCanonical(a: Signature, b: Signature)
    requires Valid(a) && Valid(b)
    ensures Elements(a) == Elements(b) <==> a == b
    ensures Elements(a) == Elements(b) ==> Fingerprint(a) == Fingerprint(b)
  {
    assert a.Singleton? ==> a.id in Elements(a);
    assert b.Singleton? ==> b.id in Elements(b);
    if Elements(a) == Elements(b) {
      match (a, b) {
        case (Tree(m), Tree(n)) => Canonical(m, n);
        case (Tree(m), _) =>
          BranchHasTwoLeaves(m);
          if b.Empty? { LeavesAreWords(m); }
        case (_, Tree(n)) =>
          BranchHasTwoLeaves(n);
          if a.Empty? { LeavesAreWords(n); }
        case _ =>
      }
    }
  }

  /** The cached length is the number of identities. */
  lemma {:induction false} LenIsCardinality(n: Node)
    requires ValidNode(n)
    ensures n.len == |Leaves(n)|
    decreases n
  {
    match n.kind
    case Leaf(_) =>
    case Branch(bit, left, right) =>
      LenIsCardinality(left);
      LenIsCardinality(right);
      assert Leaves(left) !! Leaves(right);
  }

  // ---------------------------------------------------------------- comparison

  /**
   Structural comparison behind equal fingerprints. Pointer equality of shared
   subtrees only shortens the walk, because shared subtrees are equal values.
   */
  function SameNode(left: Node, right: Node): (same: bool)
    requires ValidNode(left) && ValidNode(right)
    ensures same <==> Leaves(left) == Leaves(right)
    decreases left
  {
    if left.len != right.len || left.xor != right.xor || left.sum != right.sum then
      assert Leaves(left) != Leaves(right) by {
        if Leaves(left) == Leaves(right) { Canonical(left, right); }
      }
      false
    else
      match (left.kind, right.kind)
      case (Leaf(x), Leaf(y)) =>
        assert Leaves(left) == {x} && Leaves(right) == {y};
        assert x in Leaves(left);
        x == y
      case (Branch(p, l, r), Branch(q, m, s)) =>
        assert Leaves(left) == Leaves(right) ==> p == q && Leaves(l) == Leaves(m) && Leaves(r) == Leaves(s) by {
          if Leaves(left) == Leaves(right) { Canonical(left, right); }
        }
        p == q && SameNode(l, m) && SameNode(r, s)
      case _ =>
        assert Leaves(left) != Leaves(right) by {
          if Leaves(left) == Leaves(right) { Canonical(left, right); }
        }
        false
  }

  /** Roots that denote the same storage: equal inline values, or (for trees) an oracle. */
  predicate PtrEq(a: Signature, b: Signature, sameArc: bool) {
    match (a, b)
    case (Empty, Empty) => true
    case (Singleton(x), Singleton(y)) => x == y
    case (Tree(_), Tree(_)) => sameArc && a == b
    case _ => false
  }

  /** Exact set equality, whatever the fingerprints of different sets do. */
  function SameSet(a: Signature, b: Signature, sameArc: bool): (same: bool)
    requires Valid(a) && Valid(b)
    ensures same <==> Elements(a) == Elements(b)
  {
    SignatureIsCanonical(a, b);
    if PtrEq(a, b, sameArc) then true
    else if Fingerprint(a) != Fingerprint(b) then false
    else match (a, b)
      case (Tree(m), Tree(n)) => SameNode(m, n)
      case _ => false
  }

  // ---------------------------------------------------------------- insertion

  /** The leaf reached by following the route of `id`. */
  ghost function RoutedLeaf(n: Node, route: nat): nat {
    match n.kind
    case Leaf(id) => id
    case Branch(bit, left, right) => RoutedLeaf(if BitSet(route, bit) then right else left, route)
  }

  lemma RoutedLeafIsLeaf(n: Node, route: nat)
    ensures RoutedLeaf(n, route) in Leaves(n)
  {
  }

  method FindLeaf(root: Node, route: nat) returns (id: nat)
    ensures id == RoutedLeaf(root, route)
  {
    var node := root;
    while node.kind.Branch?
      invariant RoutedLeaf(node, route) == RoutedLeaf(root, route)
      decreases node
    {
      node := if BitSet(route, node.kind.bit) then node.kind.right else node.kind.left;
    }
    id := node.kind.id;
  }

  /** Adds an identity below the first branch at or under its differing bit. */
  function InsertAt(root: Node, id: nat, bit: nat): (n: Node)
    requires ValidNode(root) && id < WORD && id !in Leaves(root)
    requires bit == (RoutedLeafIsWord(root, id); FirstDifference(id, RoutedLeaf(root, Route(id))))
    ensures ValidNode(n) && n.kind.Branch?
    ensures Leaves(n) == Leaves(root) + {id}
    decreases root
  {
    RoutedLeafIsWord(root, id);
    var route := Route(id);
    if root.kind.Branch? && root.kind.bit > bit then
      var Branch(current, left, right) := root.kind;
      if BitSet(route, current) then
        var child := InsertAt(right, id, bit);
        GrowsRight(root, id, child);
        BranchNode(current, left, child)
      else
        var child := InsertAt(left, id, bit);
        GrowsLeft(root, id, child);
        BranchNode(current, child, right)
    else
      SplitsAbove(root, id, bit);
      SplitIsValid(root, id, bit);
      if BitSet(route, bit) then BranchNode(bit, root, LeafNode(id))
      else BranchNode(bit, LeafNode(id), root)
  }

  lemma RoutedLeafIsWord(n: Node, id: nat)
    requires ValidNode(n)
    ensures RoutedLeaf(n, Route(id)) in Leaves(n) && RoutedLeaf(n, Route(id)) < WORD
    ensures id !in Leaves(n) ==> RoutedLeaf(n, Route(id)) != id
  {
    RoutedLeafIsLeaf(n, Route(id));
    LeavesAreWords(n);
  }

  lemma GrowsRight(root: Node, id: nat, child: Node)
    requires ValidNode(root) && root.kind.Branch? && id < WORD && id !in Leaves(root)
    requires BitSet(Route(id), root.kind.bit)
    requires (RoutedLeafIsWord(root, id); FirstDifference(id, RoutedLeaf(root, Route(id)))) < root.kind.bit
    requires ValidNode(child) && Leaves(child) == Leaves(root.kind.right) + {id}
    ensures !BitSet(root.kind.left.sample, root.kind.bit) && BitSet(child.sample, root.kind.bit)
    ensures ValidNode(BranchNode(root.kind.bit, root.kind.left, child))
    ensures Leaves(BranchNode(root.kind.bit, root.kind.left, child)) == Leaves(root) + {id}
  {
    var Branch(bit, left, right) := root.kind;
    var n := BranchNode(bit, left, child);
    assert Leaves(n) == Leaves(root) + {id};
    GrownSetAgrees(root, id);
  }

  lemma GrowsLeft(root: Node, id: nat, child: Node)
    requires ValidNode(root) && root.kind.Branch? && id < WORD && id !in Leaves(root)
    requires !BitSet(Route(id), root.kind.bit)
    requires (RoutedLeafIsWord(root, id); FirstDifference(id, RoutedLeaf(root, Route(id)))) < root.kind.bit
    requires ValidNode(child) && Leaves(child) == Leaves(root.kind.left) + {id}
    ensures !BitSet(child.sample, root.kind.bit) && BitSet(root.kind.right.sample, root.kind.bit)
    ensures ValidNode(BranchNode(root.kind.bit, child, root.kind.right))
    ensures Leaves(BranchNode(root.kind.bit, child, root.kind.right)) == Leaves(root) + {id}
  {
    var Branch(bit, left, right) := root.kind;
    var n := BranchNode(bit, child, right);
    assert Leaves(n) == Leaves(root) + {id};
    GrownSetAgrees(root, id);
  }

  lemma GrownSetAgrees(root: Node, id: nat)
    requires ValidNode(root) && root.kind.Branch? && id < WORD && id !in Leaves(root)
    requires (RoutedLeafIsWord(root, id); FirstDifference(id, RoutedLeaf(root, Route(id)))) < root.kind.bit
    ensures AgreeAbove(Leaves(root) + {id}, root.kind.bit)
  {
    RoutedLeafIsWord(root, id);
    var existing := RoutedLeaf(root, Route(id));
    assert existing in Leaves(root);
    assert AgreeAbove(Leaves(root), root.kind.bit);
  }

  lemma SplitsAbove(root: Node, id: nat, bit: nat)
    requires ValidNode(root) && id < WORD && id !in Leaves(root)
    requires bit == (RoutedLeafIsWord(root, id); FirstDifference(id, RoutedLeaf(root, Route(id))))
    requires root.kind.Branch? ==> root.kind.bit <= bit
    ensures Routed(Leaves(root), bit, !BitSet(Route(id), bit))
    ensures AgreeAbove(Leaves(root) + {id}, bit)
    ensures BitSet(root.sample, bit) == !BitSet(Route(id), bit)
    ensures LeafNode(id).sample == Route(id) && ValidNode(LeafNode(id)) && Leaves(LeafNode(id)) == {id}
  {
    RoutedLeafIsWord(root, id);
    var existing := RoutedLeaf(root, Route(id));
    assert existing in Leaves(root);
    if root.kind.Branch? {
      var side := if BitSet(Route(id), root.kind.bit) then root.kind.right else root.kind.left;
      RoutedLeafIsLeaf(side, Route(id));
      assert existing in Leaves(side);
      assert root.kind.bit < bit;
      assert AgreeAbove(Leaves(root), root.kind.bit);
    }
  }

  lemma SplitIsValid(root: Node, id: nat, bit: nat)
    requires ValidNode(root) && ValidNode(LeafNode(id)) && bit < WIDTH
    requires Leaves(LeafNode(id)) == {id} && LeafNode(id).sample == Route(id)
    requires Routed(Leaves(root), bit, !BitSet(Route(id), bit))
    requires AgreeAbove(Leaves(root) + {id}, bit)
    requires BitSet(root.sample, bit) == !BitSet(Route(id), bit)
    ensures BitSet(Route(id), bit) ==>
              var n := BranchNode(bit, root, LeafNode(id));
              ValidNode(n) && Leaves(n) == Leaves(root) + {id}
    ensures !BitSet(Route(id), bit) ==>
              var n := BranchNode(bit, LeafNode(id), root);
              ValidNode(n) && Leaves(n) == Leaves(root) + {id}
  {
    var leaf := LeafNode(id);
    if BitSet(Route(id), bit) {
      assert Leaves(BranchNode(bit, root, leaf)) == Leaves(root) + {id};
    } else {
      assert Leaves(BranchNode(bit, leaf, root)) == Leaves(root) + {id};
    }
  }

  method Insert(s: Signature, id: nat) returns (r: Signature)
    requires Valid(s) && id < WORD
    ensures Valid(r) && Elements(r) == Elements(s) + {id}
  {
    var root;
    match s {
      case Empty =>
        return Singleton(id);
      case Singleton(existing) =>
        if existing == id {
          return s;
        }
        root := LeafNode(existing);
      case Tree(node) =>
        root := node;
    }
    var route := Route(id);
    var existing := FindLeaf(root, route);
    RoutedLeafIsLeaf(root, route);
    if existing == id {
      return s;
    }
    assert id !in Leaves(root) by { if id in Leaves(root) { OwnRouteFindsLeaf(root, id); } }
    RoutedLeafIsWord(root, id);
    var differing := HighestBit(Xor(route, Route(existing))) by { RoutesDiffer(id, existing); }
    r := Tree(InsertAt(root, id, differing));
  }

  /** Routing by a stored identity finds that identity. */
  lemma {:induction false} OwnRouteFindsLeaf(n: Node, id: nat)
    requires ValidNode(n) && id in Leaves(n)
    ensures RoutedLeaf(n, Route(id)) == id
    decreases n
  {
    if n.kind.Branch? {
      OwnRouteFindsLeaf(if BitSet(Route(id), n.kind.bit) then n.kind.right else n.kind.left, id);
    }
  }

  // ---------------------------------------------------------------- iteration

  /** Leaves of a trie, lower route first. */
  ghost function InOrder(n: Node): seq<nat> {
    match n.kind
    case Leaf(id) => [id]
    case Branch(_, left, right) => InOrder(left) + InOrder(right)
  }

  /** What an explicit stack (top last) still has to yield. */
  ghost function StackOrder(stack: seq<Node>): seq<nat> {
    if stack == [] then [] else InOrder(stack[|stack| - 1]) + StackOrder(stack[..|stack| - 1])
  }

  lemma StackOrderPush(stack: seq<Node>, n: Node)
    ensures StackOrder(stack + [n]) == InOrder(n) + StackOrder(stack)
  {
    assert (stack + [n])[..|stack|] == stack;
  }

  ghost function StackNodes(stack: seq<Node>): nat {
    if stack == [] then 0 else Nodes(stack[|stack| - 1]) + StackNodes(stack[..|stack| - 1])
  }

  ghost function Nodes(n: Node): nat {
    match n.kind
    case Leaf(_) => 1
    case Branch(_, left, right) => 1 + Nodes(left) + Nodes(right)
  }

  lemma StackNodesPush(stack: seq<Node>, n: Node)
    ensures StackNodes(stack + [n]) == Nodes(n) + StackNodes(stack)
  {
    assert (stack + [n])[..|stack|] == stack;
  }

  ghost function Items(s: Signature): seq<nat> {
    match s
    case Empty => []
    case Singleton(id) => [id]
    case Tree(root) => InOrder(root)
  }

  /** Depth-first leaf iterator over an explicit stack. */
  class Iter {
    var singleton: Option<nat>
    var stack: seq<Node>

    constructor (s: Signature)
      ensures Remaining() == Items(s)
    {
      match s {
        case Empty =>
          singleton, stack := None, [];
        case Singleton(id) =>
          singleton, stack := Some(id), [];
        case Tree(root) =>
          singleton, stack := None, [root];
      }
      new;
      if s.Tree? { StackOrderPush([], s.root); assert [] + [s.root] == [s.root]; }
    }

    ghost function Remaining(): seq<nat>
      reads this
    {
      (if singleton.Some? then [singleton.value] else []) + StackOrder(stack)
    }

    method Next() returns (id: Option<nat>)
      modifies this
      ensures id.None? <==> old(Remaining()) == []
      ensures id.None? ==> Remaining() == []
      ensures id.Some? ==> old(Remaining()) == [id.value] + Remaining()
    {
      if singleton.Some? {
        id := singleton;
        singleton := None;
        return;
      }
      while stack != []
        invariant singleton.None?
        invariant StackOrder(stack) == old(StackOrder(stack))
        decreases StackNodes(stack)
      {
        var node := stack[|stack| - 1];
        var rest := stack[..|stack| - 1];
        assert stack == rest + [node];
        StackNodesPush(rest, node);
        StackOrderPush(rest, node);
        stack := rest;
        match node.kind {
          case Leaf(x) =>
            return Some(x);
          case Branch(_, left, right) =>
            StackOrderPush(rest, right);
            StackOrderPush(rest + [right], left);
            StackNodesPush(rest, right);
            StackNodesPush(rest + [right], left);
            stack := rest + [right] + [left];
            assert InOrder(node) + StackOrder(rest) == InOrder(left) + (InOrder(right) + StackOrder(rest));
        }
      }
      id := None;
    }
  }

  /** A valid trie lists no identity twice: the two sides of a branch differ on its bit. */
  lemma {:induction false} InOrderIsDistinct(n: Node)
    requires ValidNode(n)
    ensures Distinct(InOrder(n))
    decreases n
  {
    if n.kind.Branch? {
      var left, right := n.kind.left, n.kind.right;
      InOrderIsDistinct(left);
      InOrderIsDistinct(right);
      InOrderIsLeaves(left);
      InOrderIsLeaves(right);
      forall i, j | 0 <= i < |InOrder(left)| && 0 <= j < |InOrder(right)|
        ensures InOrder(left)[i] != InOrder(right)[j]
      {
        assert InOrder(left)[i] in Leaves(left) && InOrder(right)[j] in Leaves(right);
      }
    }
  }

  lemma {:induction false} InOrderIsLeaves(n: Node)
    ensures forall x :: x in InOrder(n) <==> x in Leaves(n)
    decreases n
  {
    if n.kind.Branch? {
      InOrderIsLeaves(n.kind.left);
      InOrderIsLeaves(n.kind.right);
    }
  }

  ghost function ToSet(items: seq<nat>): set<nat> {
    set x | x in items
  }

  /** An iterator over a valid signature yields exactly its identities, each once. */
  lemma {:induction false} ItemsAreElements(s: Signature)
    requires Valid(s)
    ensures ToSet(Items(s)) == Elements(s) && Distinct(Items(s))
    ensures forall x :: x in Items(s) ==> x < WORD
  {
    if s.Tree? {
      InOrderIsDistinct(s.root);
      InOrderIsLeaves(s.root);
      LeavesAreWords(s.root);
    }
  }

  // ---------------------------------------------------------------- union

  /** Exact set union; `sameArc` and `compareArc` stand for the pointer comparisons. */
  method Union(self: Signature, other: Signature, sameArc: bool, compareArc: bool) returns (r: Signature)
    requires Valid(self) && Valid(other)
    ensures Valid(r) && Elements(r) == Elements(self) + Elements(other)
  {
    if self.Empty? {
      return other;
    }
    if other.Empty? || PtrEq(self, other, sameArc) {
      return self;
    }
    if Fingerprint(self) == Fingerprint(other) && SameSet(self, other, compareArc) {
      return self;
    }
    if Cardinality(self) >= Cardinality(other) {
      r := InsertAll(self, other);
    } else {
      r := InsertAll(other, self);
    }
  }

  /** Inserts the leaves of `additions`, in iteration order, into `base`. */
  method InsertAll(base: Signature, additions: Signature) returns (r: Signature)
    requires Valid(base) && Valid(additions)
    ensures Valid(r) && Elements(r) == Elements(base) + Elements(additions)
  {
    var iter := new Iter(additions);
    ItemsAreElements(additions);
    r := InsertRemaining(base, iter);
  }

  method InsertRemaining(base: Signature, iter: Iter) returns (r: Signature)
    requires Valid(base)
    requires forall x :: x in iter.Remaining() ==> x < WORD
    modifies iter
    ensures Valid(r) && Elements(r) == Elements(base) + ToSet(old(iter.Remaining()))
  {
    r := base;
    ghost var have := Elements(base);
    ghost var whole := have + ToSet(iter.Remaining());
    var id := iter.Next();
    ghost var todo := old(iter.Remaining());
    while id.Some?
      invariant todo == if id.Some? then [id.value] + iter.Remaining() else []
      invariant forall x :: x in todo ==> x < WORD
      invariant have + ToSet(todo) == whole
      invariant Valid(r) && Elements(r) == have
      decreases |todo|
    {
      ghost var rest := iter.Remaining();
      TakeFirst(id.value, rest);
      have := have + {id.value};
      assert have + ToSet(rest) == whole;
      r := Insert(r, id.value);
      todo := rest;
      id := iter.Next();
    }
  }

  lemma TakeFirst(first: nat, rest: seq<nat>)
    ensures ToSet([first] + rest) == {first} + ToSet(rest)
    ensures forall x :: x in rest ==> x in [first] + rest
  {
  }
}
