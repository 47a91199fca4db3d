/**
 A cancellation domain: token handles over one compressed graph, with dropped tokens
 retired in batches. A handle packs its identity and its flag into one word.
 */
module CancellationDomain {
  import opened Collections
  import opened CancellationTopology
  import opened CancellationGraph
  import opened Epochs
  import H = CancellationHistory

  const RETIREMENT_BATCH: nat := 64

  /** The flag bit of a handle word; identities stay below it. */
  const CANCELLED: nat := 0x8000_0000_0000_0000

  /** Whether the top bit of a 64-bit word is set. */
  predicate WordCancelled(word: nat) {
    word >= CANCELLED
  }

  /** The word without its top bit. */
  function WordId(word: nat): nat {
    if WordCancelled(word) then word - CANCELLED else word
  }

  /** `fetch_or` of the flag bit. */
  function Raised(word: nat): nat {
    if WordCancelled(word) then word else word + CANCELLED
  }

  lemma RaisedKeepsId(id: nat, word: nat)
    requires id < CANCELLED && (word == id || word == id + CANCELLED)
    ensures Raised(word) == id + CANCELLED
    ensures WordId(word) == id && (WordCancelled(word) <==> word == id + CANCELLED)
  {
  }

  /** Each handle's word carries its identity and the flag of the full history. */
  ghost predicate WordsAgree(words: map<nat, nat>, h: H.History) {
    forall n :: n in words ==> n < CANCELLED && words[n] == if H.Cancelled(h, n) then n + CANCELLED else n
  }

  /** The graph's tokens are the live handles and, disjointly, the unflushed retired ones. */
  ghost predicate Owned(nodes: Entries, words: map<nat, nat>, retired: seq<nat>) {
    && Distinct(retired)
    && (forall n :: n in words ==> n !in retired)
    && (forall n :: IsToken(nodes, n) <==> n in words || n in retired)
  }

  lemma {:induction false} FlushOne(nodes: Entries, words: map<nat, nat>, retired: seq<nat>, nodes': Entries)
    requires retired != [] && Owned(nodes, words, retired) && LosesToken(nodes, nodes', retired[0])
    ensures Owned(nodes', words, retired[1..])
  {
    forall n
      ensures IsToken(nodes', n) <==> n in words || n in retired[1..]
    {
      assert n in Tokens(nodes') <==> n in Tokens(nodes) && n != retired[0];
      assert n in retired <==> n == retired[0] || n in retired[1..];
    }
  }

  lemma {:induction false} DropOne(nodes: Entries, words: map<nat, nat>, retired: seq<nat>, id: nat)
    requires id in words && Owned(nodes, words, retired)
    ensures Owned(nodes, words - {id}, retired + [id])
  {
    assert forall n :: n in retired + [id] <==> n in retired || n == id;
  }

  lemma {:induction false} GainOne(nodes: Entries, words: map<nat, nat>, retired: seq<nat>, nodes': Entries, id: nat, word: nat)
    requires Owned(nodes, words, retired) && !IsToken(nodes, id)
    requires forall n :: IsToken(nodes', n) <==> IsToken(nodes, n) || n == id
    ensures Owned(nodes', words[id := word], retired)
  {
    assert id !in retired;
  }

  lemma {:induction false} InsertKeepsWords(words: map<nat, nat>, h: H.History, parents: set<nat>, id: nat)
    requires WordsAgree(words, h) && H.WellFormed(h) && id == |h.parents| < CANCELLED
    requires forall n :: n in words ==> n < id
    requires parents <= words.Keys
    ensures var h' := H.Insert(h, parents);
            WordsAgree(words[id := if H.Cancelled(h', id) then Raised(id) else id], h')
    ensures H.Cancelled(H.Insert(h, parents), id) <==> exists p :: p in parents && WordCancelled(words[p])
  {
    var h' := H.Insert(h, parents);
    forall p | p in parents
      ensures WordCancelled(words[p]) <==> h.cancelled[p]
    {
      RaisedKeepsId(p, words[p]);
    }
    RaisedKeepsId(id, id);
    assert forall n :: n in words ==> (H.Cancelled(h', n) <==> H.Cancelled(h, n));
  }

  /** Identities in the graph are older than the next one. */
  ghost predicate Older(nodes: Entries, h: H.History, next: nat) {
    H.WellFormed(h) && next == |h.parents| && forall n :: n in nodes ==> n < next
  }

  lemma {:induction false} InsertKeepsDomain(nodes: Entries, h: H.History, words: map<nat, nat>, retired: seq<nat>, parents: set<nat>,
                                             nodes': Entries, id: nat, word: nat)
    requires Older(nodes, h, id) && Owned(nodes, words, retired) && WordsAgree(words, h)
    requires parents <= words.Keys && id < CANCELLED
    requires word == if H.Cancelled(H.Insert(h, parents), id) then Raised(id) else id
    requires forall n :: IsToken(nodes', n) <==> IsToken(nodes, n) || n == id
    ensures Owned(nodes', words[id := word], retired)
    ensures WordsAgree(words[id := word], H.Insert(h, parents))
    ensures id !in words && WordId(word) == id
    ensures WordCancelled(word) <==> exists p :: p in parents && WordCancelled(words[p])
  {
    InsertKeepsWords(words, h, parents, id);
    GainOne(nodes, words, retired, nodes', id, word);
    RaisedKeepsId(id, word);
  }

  /** `words` after the flags of `selected` were raised. */
  function RaisedWords(words: map<nat, nat>, selected: set<nat>): map<nat, nat> {
    map n | n in words :: if n in selected then Raised(words[n]) else words[n]
  }

  lemma {:induction false} CancelKeepsWords(words: map<nat, nat>, h: H.History, id: nat, selected: set<nat>)
    requires WordsAgree(words, h) && H.WellFormed(h)
    requires forall n :: n in words ==> (n in selected <==> !H.Cancelled(h, n) && H.Cancelled(H.Cancel(h, id), n))
    ensures var words' := RaisedWords(words, selected);
            && WordsAgree(words', H.Cancel(h, id))
            && forall n :: n in words ==> (n in selected <==> !WordCancelled(words[n]) && WordCancelled(words'[n]))
  {
    var words' := RaisedWords(words, selected);
    var h' := H.Cancel(h, id);
    forall n | n in words
      ensures words'[n] == if H.Cancelled(h', n) then n + CANCELLED else n
      ensures n in selected <==> !WordCancelled(words[n]) && WordCancelled(words'[n])
    {
      RaisedKeepsId(n, words[n]);
      assert H.Cancelled(h, n) ==> H.Cancelled(h', n);
      RaisedKeepsId(n, words'[n]);
    }
  }

  class Domain {
    const graph: Graph
    var epoch: nat
    /** Live handles: identity to packed word. */
    var words: map<nat, nat>
    var retired: seq<nat>

    ghost predicate Valid()
      reads this, graph
    {
      && graph.Invariant()
      && Owned(graph.nodes, words, retired)
      && WordsAgree(words, graph.history)
      && |retired| < RETIREMENT_BATCH
      && epoch < EPOCHS
    }

    constructor ()
      ensures Valid() && fresh(graph)
      ensures words == map[] && epoch == 1 && graph.history == H.NO_HISTORY
    {
      graph := new Graph();
      epoch, words, retired := 1, map[], [];
      new;
      assert forall n :: !IsToken(graph.nodes, n);
    }

    /** A child of `parents` is born with whatever cancellation they have. */
    method Insert(parents: set<nat>) returns (id: nat)
      requires Valid() && parents <= words.Keys && graph.next < CANCELLED
      modifies this`words, graph
      ensures Valid()
      ensures graph.history == H.Insert(old(graph.history), parents)
      ensures id !in old(words) && words.Keys == old(words.Keys) + {id}
      ensures WordId(words[id]) == id
      ensures WordCancelled(words[id]) <==> exists p :: p in parents && WordCancelled(old(words)[p])
    {
      ghost var h, nodes := graph.history, graph.nodes;
      var cancelled;
      id, cancelled := graph.Insert(parents);
      Enrol(id, cancelled, parents, nodes, h);
    }

    /** Publishes the handle of a token the graph has just gained. */
    method Enrol(id: nat, cancelled: bool, ghost parents: set<nat>, ghost nodes: Entries, ghost h: H.History)
      requires Older(nodes, h, id) && Owned(nodes, words, retired) && WordsAgree(words, h)
      requires parents <= words.Keys && id < CANCELLED
      requires graph.history == H.Insert(h, parents) && cancelled == H.Cancelled(graph.history, id)
      requires forall n :: IsToken(graph.nodes, n) <==> IsToken(nodes, n) || n == id
      modifies this`words
      ensures Owned(graph.nodes, words, retired) && WordsAgree(words, graph.history)
      ensures id !in old(words) && words.Keys == old(words.Keys) + {id}
      ensures WordId(words[id]) == id
      ensures WordCancelled(words[id]) <==> exists p :: p in parents && WordCancelled(old(words)[p])
    {
      var word := if cancelled then Raised(id) else id;
      words := words[id := word];
      InsertKeepsDomain(nodes, h, old(words), retired, parents, graph.nodes, id, word);
    }

    /** Cancels one handle; reports each live handle it newly reached, once. */
    method Cancel(id: nat) returns (selected: seq<nat>)
      requires Valid() && id in words
      modifies this`words, this`epoch, graph
      ensures Valid()
      ensures graph.history == H.Cancel(old(graph.history), id)
      ensures words.Keys == old(words.Keys) && WordCancelled(words[id])
      ensures epoch == NextEpoch(old(epoch))
      ensures Distinct(selected)
      ensures forall n :: n in selected <==> n in words && !WordCancelled(old(words)[n]) && WordCancelled(words[n])
    {
      selected := SelectHandles(id);
      Announce(selected, old(graph.history), id);
    }

    /** Cancels in the graph and selects the live handles that must learn of it. */
    method SelectHandles(id: nat) returns (selected: seq<nat>)
      requires graph.Invariant() && Owned(graph.nodes, words, retired) && id in words
      modifies graph
      ensures graph.Invariant() && Owned(graph.nodes, words, retired)
      ensures H.WellFormed(old(graph.history)) && id < |old(graph.history).parents|
      ensures graph.history == H.Cancel(old(graph.history), id) && Distinct(selected)
      ensures forall n :: n in selected <==> n in words && !H.Cancelled(old(graph.history), n) && H.Cancelled(graph.history, n)
    {
      ghost var nodes := graph.nodes;
      selected := graph.CancelNodes(id, words.Keys);
      assert forall n :: n in words ==> IsToken(nodes, n);
      assert forall n :: n in Tokens(graph.nodes) <==> IsToken(graph.nodes, n);
      assert forall n :: n in Tokens(nodes) <==> IsToken(nodes, n);
    }

    /** Publishes the flags the graph has just raised, then the new epoch. */
    method Announce(selected: seq<nat>, ghost h: H.History, ghost id: nat)
      requires H.WellFormed(h) && WordsAgree(words, h) && id in words && id < |h.parents| && Distinct(selected)
      requires forall n :: n in selected <==> n in words && !H.Cancelled(h, n) && H.Cancelled(H.Cancel(h, id), n)
      modifies this`words, this`epoch
      ensures WordsAgree(words, H.Cancel(h, id)) && epoch == NextEpoch(old(epoch))
      ensures words.Keys == old(words.Keys) && WordCancelled(words[id])
      ensures forall n :: n in selected <==> n in words && !WordCancelled(old(words)[n]) && WordCancelled(words[n])
    {
      RaiseAll(selected);
      CancelKeepsWords(old(words), h, id, set n | n in selected);
      assert H.Cancelled(H.Cancel(h, id), id);
      RaisedKeepsId(id, words[id]);
      epoch := NextEpoch(epoch);
    }

    method RaiseAll(selected: seq<nat>)
      requires forall n :: n in selected ==> n in words
      requires Distinct(selected)
      modifies this`words
      ensures words == RaisedWords(old(words), set n | n in selected)
    {
      for i := 0 to |selected|
        invariant words == RaisedWords(old(words), set n | n in selected[..i])
      {
        var n := selected[i];
        assert n !in selected[..i] && selected[..i + 1] == selected[..i] + [n];
        words := words[n := Raised(words[n])];
      }
      assert selected[..|selected|] == selected;
    }

    /** A dropped handle leaves the graph at the latest with the batch that fills up. */
    method Retire(id: nat)
      requires Valid() && id in words
      modifies this`words, this`retired, graph
      ensures Valid() && graph.history == old(graph.history)
      ensures words == old(words) - {id}
    {
      DropOne(graph.nodes, words, retired, id);
      words := words - {id};
      retired := retired + [id];
      if |retired| < RETIREMENT_BATCH {
        return;
      }
      Flush();
    }

    /** Removes every retired entry from the graph. */
    method Flush()
      requires graph.Invariant() && Owned(graph.nodes, words, retired)
      modifies this`retired, graph
      ensures graph.Invariant() && Owned(graph.nodes, words, retired)
      ensures retired == [] && graph.history == old(graph.history)
    {
      while retired != []
        invariant graph.Invariant() && Owned(graph.nodes, words, retired)
        invariant graph.history == old(graph.history)
        decreases |retired|
      {
        ghost var nodes := graph.nodes;
        graph.Remove(retired[0]);
        FlushOne(nodes, words, retired, graph.nodes);
        retired := retired[1..];
      }
    }
  }
}
