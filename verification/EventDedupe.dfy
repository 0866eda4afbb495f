/** The router's bounded memory of wallet event ids: a set and a queue that stand for a window. */
module EventDedupe {
  import opened Common

  /** The last `capacity` ids accepted. */
  function Window(accepted: seq<string>, capacity: nat): seq<string> {
    if |accepted| <= capacity then accepted else accepted[|accepted| - capacity..]
  }

  predicate Repeated(accepted: seq<string>, capacity: nat, id: Option<string>) {
    id.Some? && id.value != "" && id.value in Window(accepted, capacity)
  }

  /** An id is accepted when it is a real id, not in the window, and there is a window. */
  function Accept(accepted: seq<string>, capacity: nat, id: Option<string>): seq<string> {
    if id.None? || id.value == "" || capacity == 0 || id.value in Window(accepted, capacity) then accepted
    else accepted + [id.value]
  }

  predicate NoRepeats(ids: seq<string>) {
    forall i, j | 0 <= i < j < |ids| :: ids[i] != ids[j]
  }

  function Ids(order: seq<string>): set<string> {
    set id | id in order
  }

  lemma PushKeeps(order: seq<string>, id: string)
    requires NoRepeats(order) && id !in order
    ensures NoRepeats(order + [id]) && Ids(order + [id]) == Ids(order) + {id}
  {
  }

  lemma PopKeeps(order: seq<string>)
    requires NoRepeats(order) && order != []
    ensures NoRepeats(order[1..]) && Ids(order[1..]) == Ids(order) - {order[0]}
  {
    assert order == [order[0]] + order[1..];
    assert order[0] !in order[1..] by {
      assert forall i | 0 <= i < |order| - 1 :: order[1..][i] == order[i + 1];
    }
  }

  lemma WindowMoves(accepted: seq<string>, capacity: nat, id: string)
    requires capacity > 0
    ensures var full := Window(accepted, capacity) + [id];
      Window(accepted + [id], capacity) == if |full| <= capacity then full else full[1..]
  {
  }

  class Cache {
    const capacity: nat
    var order: seq<string>
    var seen: set<string>
    ghost var accepted: seq<string>

    ghost predicate Valid()
      reads this
    {
      order == Window(accepted, capacity) && NoRepeats(order) && seen == Ids(order)
    }

    constructor (capacity: nat)
      ensures Valid() && this.capacity == capacity && accepted == []
    {
      this.capacity := capacity;
      order, seen, accepted := [], {}, [];
    }

    /** Answers true exactly for an id among the last `capacity` accepted ones. */
    method IsDuplicate(eventId: Option<string>) returns (duplicate: bool)
      requires Valid()
      modifies this
      ensures Valid() && |order| <= capacity
      ensures duplicate == Repeated(old(accepted), capacity, eventId)
      ensures accepted == Accept(old(accepted), capacity, eventId)
    {
      if eventId.None? || eventId.value == "" {
        return false;
      }
      var id := eventId.value;
      if id in seen {
        return true;
      }
      if capacity == 0 {
        return false;
      }
      PushKeeps(order, id);
      WindowMoves(accepted, capacity, id);
      ghost var full := order + [id];
      seen := seen + {id};
      order := order + [id];
      accepted := accepted + [id];
      while |order| > capacity
        invariant order == full || (|full| > capacity && order == full[1..])
        invariant NoRepeats(order) && seen == Ids(order)
        invariant accepted == old(accepted) + [id]
        decreases |order|
      {
        PopKeeps(order);
        var expired := order[0];
        order := order[1..];
        seen := seen - {expired};
      }
      duplicate := false;
    }
  }

  // ---- every sequence of calls ----

  function AcceptAll(ids: seq<Option<string>>, capacity: nat): seq<string> {
    if ids == [] then [] else Accept(AcceptAll(ids[..|ids| - 1], capacity), capacity, ids[|ids| - 1])
  }

  /** An id is let through again only after more than `capacity` acceptances. */
  lemma {:induction false} RepeatsAreFarApart(ids: seq<Option<string>>, capacity: nat, i: nat, j: nat)
    requires i < j < |AcceptAll(ids, capacity)|
    requires AcceptAll(ids, capacity)[i] == AcceptAll(ids, capacity)[j]
    ensures j - i > capacity
  {
    if ids != [] {
      var init := ids[..|ids| - 1];
      var before := AcceptAll(init, capacity);
      var after := AcceptAll(ids, capacity);
      if j < |before| {
        assert after[i] == before[i] && after[j] == before[j];
        RepeatsAreFarApart(init, capacity, i, j);
      } else if j - i <= capacity {
        InWindow(before, capacity, i);
      }
    }
  }

  lemma InWindow(accepted: seq<string>, capacity: nat, i: nat)
    requires i < |accepted| && |accepted| - i <= capacity
    ensures accepted[i] in Window(accepted, capacity)
  {
    if |accepted| > capacity {
      assert Window(accepted, capacity)[i - (|accepted| - capacity)] == accepted[i];
    }
  }

  /** While no more ids than the capacity have been accepted, no id is let through twice: the answer is exact. */
  lemma {:induction false} ExactBelowCapacity(ids: seq<Option<string>>, capacity: nat, id: string)
    requires id != "" && |AcceptAll(ids, capacity)| <= capacity && capacity > 0
    ensures Repeated(AcceptAll(ids, capacity), capacity, Some(id)) <==> Some(id) in ids
  {
    if ids != [] {
      var init, last := ids[..|ids| - 1], ids[|ids| - 1];
      ExactBelowCapacity(init, capacity, id);
      assert ids == init + [last];
    }
  }
}
