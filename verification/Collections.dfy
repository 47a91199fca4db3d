/** Filters, single removals and sizes of finite collections. */
module Collections {

  ghost predicate Distinct<T>(s: seq<T>) {
    forall i, j :: 0 <= i < j < |s| ==> s[i] != s[j]
  }

  /** The elements in opposite order. */
  function Backward<T>(s: seq<T>): seq<T> {
    seq(|s|, i requires 0 <= i < |s| => s[|s| - 1 - i])
  }

  lemma Associates<T>(a: seq<T>, b: seq<T>, c: seq<T>)
    ensures a + b + c == a + (b + c)
  {
  }

  lemma {:induction false} SmallerSet<T>(a: set<T>, b: set<T>)
    requires a <= b
    ensures |a| <= |b|
  {
    assert b == a + (b - a);
  }

  /** The elements of `s` that satisfy `p`, in order. */
  function Kept<T>(s: seq<T>, p: T -> bool): seq<T> {
    if s == [] then [] else (if p(s[0]) then [s[0]] else []) + Kept(s[1..], p)
  }

  function Not<T>(p: T -> bool): T -> bool {
    x => !p(x)
  }

  function Without<T>(s: seq<T>, i: nat): seq<T>
    requires i < |s|
  {
    s[..i] + s[i + 1..]
  }

  lemma HasElement<T>(s: seq<T>)
    ensures s != [] ==> exists x :: x in s
  {
    if s != [] { assert s[0] in s; }
  }

  lemma {:induction false} KeptAppend<T>(a: seq<T>, b: seq<T>, p: T -> bool)
    ensures Kept(a + b, p) == Kept(a, p) + Kept(b, p)
  {
    if a == [] {
      assert a + b == b;
    } else {
      var head := if p(a[0]) then [a[0]] else [];
      KeptAppend(a[1..], b, p);
      assert (a + b)[0] == a[0] && (a + b)[1..] == a[1..] + b;
      assert Kept(a + b, p) == head + Kept(a[1..] + b, p);
      assert Kept(a, p) == head + Kept(a[1..], p);
    }
  }

  /** Filtering keeps exactly the elements that satisfy the predicate. */
  lemma {:induction false} KeptElements<T>(s: seq<T>, p: T -> bool)
    ensures forall x :: x in Kept(s, p) <==> x in s && p(x)
  {
    if s != [] {
      KeptElements(s[1..], p);
      assert s == [s[0]] + s[1..];
    }
  }

  lemma {:induction false} KeptNothing<T>(s: seq<T>, p: T -> bool)
    requires forall x :: x in s ==> !p(x)
    ensures Kept(s, p) == [] && Kept(s, Not(p)) == s
  {
    if s != [] {
      assert s[0] in s;
      assert forall x :: x in s[1..] ==> x in s;
      KeptNothing(s[1..], p);
      assert s == [s[0]] + s[1..];
    }
  }

  lemma {:induction false} KeptAt<T>(s: seq<T>, i: nat, p: T -> bool)
    requires i < |s|
    ensures Kept(s, p) == Kept(s[..i], p) + (if p(s[i]) then [s[i]] else []) + Kept(s[i + 1..], p)
    ensures Kept(Without(s, i), p) == Kept(s[..i], p) + Kept(s[i + 1..], p)
  {
    assert s == s[..i] + ([s[i]] + s[i + 1..]);
    KeptAppend(s[..i], [s[i]] + s[i + 1..], p);
    KeptAppend([s[i]], s[i + 1..], p);
    assert Kept([s[i]], p) == if p(s[i]) then [s[i]] else [];
    KeptAppend(s[..i], s[i + 1..], p);
  }

  /** Removing an eligible entry leaves the others as they were. */
  lemma {:induction false} KeptOthers<T>(s: seq<T>, i: nat, p: T -> bool)
    requires i < |s| && p(s[i])
    ensures Kept(Without(s, i), Not(p)) == Kept(s, Not(p))
  {
    var front := Kept(s[..i], Not(p));
    KeptAt(s, i, Not(p));
    assert front + [] == front;
  }

  lemma {:induction false} KeptGrows<T>(s: seq<T>, i: nat, p: T -> bool)
    requires i < |s|
    ensures Kept(s[..i + 1], p) == Kept(s[..i], p) + if p(s[i]) then [s[i]] else []
  {
    assert s[..i + 1] == s[..i] + [s[i]];
    KeptAppend(s[..i], [s[i]], p);
  }
}
