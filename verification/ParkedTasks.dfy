/**
 Dense park records addressed by slab keys: two slot vectors that act as one map. `View` is
 the map the kernel works on; each operation here is the map operation the kernel makes of it.
 */
module ParkedTasks {
  import opened Options
  import opened Collections
  import opened Tasks
  import opened KernelState

  type Slots = seq<Option<Park>>

  function Filled(slots: Slots, borrowed: bool): set<TaskKey> {
    set i | 0 <= i < |slots| && slots[i].Some? :: TaskKey(i, borrowed)
  }

  function Side(owned: Slots, borrowed: Slots, k: TaskKey): Slots {
    if k.borrowed then borrowed else owned
  }

  /** The park records both vectors hold. */
  function Records(owned: Slots, borrowed: Slots): Parks {
    map k | k in Filled(owned, false) + Filled(borrowed, true) :: Side(owned, borrowed, k)[k.index].value
  }

  function Vacancies(n: nat): Slots {
    seq(n, _ => None)
  }

  /** The slots with one slot filled, grown by empty slots when it is beyond the end. */
  function Occupied(slots: Slots, index: nat, park: Park): Slots {
    var grown := if |slots| <= index then slots + Vacancies(index + 1 - |slots|) else slots;
    grown[index := Some(park)]
  }

  lemma {:induction false} OccupiedFills(slots: Slots, index: nat, park: Park, borrowed: bool)
    ensures Filled(Occupied(slots, index, park), borrowed) == Filled(slots, borrowed) + {TaskKey(index, borrowed)}
    ensures forall i :: 0 <= i < |slots| && i != index ==> Occupied(slots, index, park)[i] == slots[i]
  {
    var after := Occupied(slots, index, park);
    assert after[index] == Some(park);
    forall k
      ensures k in Filled(after, borrowed) <==> k in Filled(slots, borrowed) + {TaskKey(index, borrowed)}
    {
      if k in Filled(slots, borrowed) { assert k.index == index || after[k.index] == slots[k.index]; }
    }
  }

  lemma {:induction false} VacatedEmpties(slots: Slots, index: nat, borrowed: bool)
    requires index < |slots|
    ensures Filled(slots[index := None], borrowed) == Filled(slots, borrowed) - {TaskKey(index, borrowed)}
  {
    var after := slots[index := None];
    forall k
      ensures k in Filled(after, borrowed) <==> k in Filled(slots, borrowed) - {TaskKey(index, borrowed)}
    {
      if k in Filled(slots, borrowed) { assert k.index == index || after[k.index] == slots[k.index]; }
    }
  }

  lemma {:induction false} InsertedRecords(owned: Slots, borrowed: Slots, k: TaskKey, park: Park)
    requires k !in Records(owned, borrowed)
    ensures var slots := Occupied(Side(owned, borrowed, k), k.index, park);
            var after := if k.borrowed then Records(owned, slots) else Records(slots, borrowed);
            after == Records(owned, borrowed)[k := park]
  {
    OccupiedFills(Side(owned, borrowed, k), k.index, park, k.borrowed);
  }

  lemma {:induction false} RemovedOwned(owned: Slots, borrowed: Slots, index: nat)
    requires index < |owned|
    ensures Records(owned[index := None], borrowed) == Records(owned, borrowed) - {TaskKey(index, false)}
  {
    VacatedEmpties(owned, index, false);
  }

  lemma {:induction false} RemovedBorrowed(owned: Slots, borrowed: Slots, index: nat)
    requires index < |borrowed|
    ensures Records(owned, borrowed[index := None]) == Records(owned, borrowed) - {TaskKey(index, true)}
  {
    VacatedEmpties(borrowed, index, true);
  }

  lemma {:induction false} UpdatedOwned(owned: Slots, borrowed: Slots, index: nat, park: Park)
    requires index < |owned| && owned[index].Some?
    ensures Records(owned[index := Some(park)], borrowed) == Records(owned, borrowed)[TaskKey(index, false) := park]
  {
    SameFilled(owned, index, park, false);
  }

  lemma {:induction false} UpdatedBorrowed(owned: Slots, borrowed: Slots, index: nat, park: Park)
    requires index < |borrowed| && borrowed[index].Some?
    ensures Records(owned, borrowed[index := Some(park)]) == Records(owned, borrowed)[TaskKey(index, true) := park]
  {
    SameFilled(borrowed, index, park, true);
  }

  lemma {:induction false} SameFilled(slots: Slots, index: nat, park: Park, borrowed: bool)
    requires index < |slots| && slots[index].Some?
    ensures Filled(slots[index := Some(park)], borrowed) == Filled(slots, borrowed)
  {
    var after := slots[index := Some(park)];
    forall k
      ensures k in Filled(after, borrowed) <==> k in Filled(slots, borrowed)
    {
      if 0 <= k.index < |slots| { assert k.index == index || after[k.index] == slots[k.index]; }
    }
  }

  lemma {:induction false} ReplacedSize(records: Parks, k: TaskKey, park: Park)
    requires k in records
    ensures |records[k := park]| == |records|
  {
    assert records[k := park].Keys == records.Keys;
  }

  /** The keys of the filled slots that satisfy `p`, in order. */
  method Listed(slots: Slots, borrowed: bool, p: TaskKey -> bool) returns (keys: seq<TaskKey>)
    ensures Distinct(keys) && forall k :: k in keys <==> k in Filled(slots, borrowed) && p(k)
  {
    keys := [];
    for i := 0 to |slots|
      invariant Distinct(keys)
      invariant forall k :: k in keys <==> k.borrowed == borrowed && k.index < i && slots[k.index].Some? && p(k)
    {
      var k := TaskKey(i, borrowed);
      if slots[i].Some? && p(k) {
        keys := keys + [k];
      }
    }
  }

  lemma {:induction false} RemovedSize(records: Parks, k: TaskKey)
    ensures k in records ==> |records - {k}| == |records| - 1
    ensures k !in records ==> records - {k} == records
  {
    if k in records {
      assert records.Keys == (records - {k}).Keys + {k};
    } else {
      assert records - {k} == records;
    }
  }

  class ParkedTasks {
    var owned: Slots
    var borrowed: Slots
    var len: nat

    ghost function View(): Parks
      reads this
    {
      Records(owned, borrowed)
    }

    ghost predicate Valid()
      reads this
    {
      len == |View()|
    }

    constructor ()
      ensures Valid() && View() == map[]
    {
      owned, borrowed, len := [], [], 0;
    }

    method Insert(k: TaskKey, park: Park) returns (inserted: bool)
      requires Valid()
      modifies this
      ensures Valid()
      ensures inserted <==> k !in old(View())
      ensures View() == if inserted then old(View())[k := park] else old(View())
    {
      var slots := Side(owned, borrowed, k);
      if k.index < |slots| && slots[k.index].Some? {
        assert k in View();
        return false;
      }
      assert k !in View();
      InsertedRecords(owned, borrowed, k, park);
      slots := Occupied(slots, k.index, park);
      if k.borrowed {
        borrowed := slots;
      } else {
        owned := slots;
      }
      len := len + 1;
      inserted := true;
      assert View().Keys == old(View()).Keys + {k};
    }

    method Get(k: TaskKey) returns (park: Option<Park>)
      ensures park == if k in View() then Some(View()[k]) else None
    {
      var slots := Side(owned, borrowed, k);
      if k.index < |slots| {
        park := slots[k.index];
        assert park.Some? <==> k in View();
      } else {
        park := None;
      }
    }

    /** Replaces a record through a mutable reference; without a record there is nothing to replace. */
    method Update(k: TaskKey, park: Park) returns (found: bool)
      requires Valid()
      modifies this
      ensures Valid() && (found <==> k in old(View()))
      ensures View() == if found then old(View())[k := park] else old(View())
    {
      var present := Get(k);
      found := present.Some?;
      if found {
        ReplacedSize(View(), k, park);
        if k.borrowed {
          borrowed := borrowed[k.index := Some(park)];
          UpdatedBorrowed(owned, old(borrowed), k.index, park);
        } else {
          owned := owned[k.index := Some(park)];
          UpdatedOwned(old(owned), borrowed, k.index, park);
        }
      }
    }

    /** The keys of the records that satisfy `p`, owned ones first. */
    method Matching(p: TaskKey -> bool) returns (keys: seq<TaskKey>)
      ensures Distinct(keys) && forall k :: k in keys <==> k in View() && p(k)
    {
      var front := Listed(owned, false, p);
      var back := Listed(borrowed, true, p);
      assert forall k :: k in front ==> !k.borrowed;
      assert forall k :: k in back ==> k.borrowed;
      keys := front + back;
      assert forall k :: k in keys <==> k in front || k in back;
    }

    method Remove(k: TaskKey) returns (park: Option<Park>)
      requires Valid()
      modifies this
      ensures Valid() && View() == old(View()) - {k}
      ensures park == if k in old(View()) then Some(old(View())[k]) else None
    {
      park := Get(k);
      RemovedSize(View(), k);
      if park.None? {
        return;
      }
      len := len - 1;
      if k.borrowed {
        borrowed := borrowed[k.index := None];
        RemovedBorrowed(owned, old(borrowed), k.index);
      } else {
        owned := owned[k.index := None];
        RemovedOwned(old(owned), borrowed, k.index);
      }
    }
  }
}
