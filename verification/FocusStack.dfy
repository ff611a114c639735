/** The focus stack itself: a fixed array of nodes, a list that links some of them, and a size. */
module FocusStack {
  import opened Prelude
  import opened FocusSpec

  // ---------- A node array and a list of its slots, as values ----------

  // The list has no duplicates, and slot i is on it exactly when its client id is i; other slots are blank.
  ghost predicate Links(ns: seq<FocusId>, order: seq<nat>) {
    && (forall i :: 0 <= i < |order| ==> order[i] < |ns|)
    && (forall i, j :: 0 <= i < j < |order| ==> order[i] != order[j])
    && (forall i :: 0 <= i < |order| ==> ns[order[i]].clientId == order[i])
    && (forall s: nat :: s < |ns| && s !in order ==> ns[s] == BLANK)
  }

  ghost function Items(ns: seq<FocusId>, order: seq<nat>): (items: seq<FocusId>)
    requires Links(ns, order)
    ensures |items| == |order|
    ensures forall i :: 0 <= i < |items| ==> items[i] == ns[order[i]]
  {
    seq(|order|, i requires 0 <= i < |order| => ns[order[i]])
  }

  lemma SlotsShowList(ns: seq<FocusId>, order: seq<nat>, s: nat)
    requires Links(ns, order) && s < |ns|
    ensures s in order <==> ns[s].clientId == s
    ensures s !in order <==> ns[s].clientId == -1
    ensures IsFree(Items(ns, order), s) <==> s !in order
  {
    if s in order {
      var i :| 0 <= i < |order| && order[i] == s;
      assert Items(ns, order)[i].clientId == s;
    }
  }

  lemma AfterSetState(ns: seq<FocusId>, order: seq<nat>, k: nat, state: FocusState)
    requires Links(ns, order) && k < |order|
    ensures var ms := ns[order[k] := ns[order[k]].(state := state)];
            Links(ms, order) && Items(ms, order) == Items(ns, order)[k := Items(ns, order)[k].(state := state)]
  {
    var ms := ns[order[k] := ns[order[k]].(state := state)];
    forall s: nat | s < |ms| && s !in order ensures ms[s] == BLANK {
      assert s != order[k];
    }
  }

  lemma RemovedOrder(order: seq<nat>, k: nat)
    requires k < |order| && forall i, j :: 0 <= i < j < |order| ==> order[i] != order[j]
    ensures var rest := order[..k] + order[k + 1..];
            && (forall s :: s in rest <==> s in order && s != order[k])
            && (forall i :: 0 <= i < |rest| ==> rest[i] == order[if i < k then i else i + 1])
  {
    var rest := order[..k] + order[k + 1..];
    forall i | 0 <= i < |order| && i != k ensures order[i] in rest {
      assert rest[if i < k then i else i - 1] == order[i];
    }
  }

  lemma LinksAfterRemove(ns: seq<FocusId>, order: seq<nat>, k: nat)
    requires Links(ns, order) && k < |order|
    ensures Links(ns[order[k] := BLANK], order[..k] + order[k + 1..])
  {
    RemovedOrder(order, k);
  }

  lemma AfterRemove(ns: seq<FocusId>, order: seq<nat>, k: nat)
    requires Links(ns, order) && k < |order|
    ensures var ms, rest := ns[order[k] := BLANK], order[..k] + order[k + 1..];
            Links(ms, rest) && Items(ms, rest) == Without(Items(ns, order), k)
  {
    LinksAfterRemove(ns, order, k);
    RemovedOrder(order, k);
    var ms, rest := ns[order[k] := BLANK], order[..k] + order[k + 1..];
    var items, now := Items(ns, order), Items(ms, rest);
    hide Links, Items;
    forall i | 0 <= i < |now| ensures now[i] == Without(items, k)[i] {
      assert rest[i] in rest;
    }
  }

  lemma AddedOrder(order: seq<nat>, k: nat, slot: nat)
    requires k <= |order|
    ensures var more := order[..k] + [slot] + order[k..];
            more[k] == slot && (forall s :: s in more <==> s == slot || s in order)
  {
    var more := order[..k] + [slot] + order[k..];
    forall i | 0 <= i < |order| ensures order[i] in more {
      assert more[if i < k then i else i + 1] == order[i];
    }
    assert more[k] == slot;
  }

  lemma LinksAfterAdd(ns: seq<FocusId>, order: seq<nat>, k: nat, value: FocusId)
    requires Links(ns, order) && k <= |order|
    requires 0 <= value.clientId < |ns| && value.clientId !in order
    ensures Links(ns[value.clientId := value], order[..k] + [value.clientId] + order[k..])
  {
    AddedOrder(order, k, value.clientId);
  }

  lemma AfterAdd(ns: seq<FocusId>, order: seq<nat>, k: nat, value: FocusId)
    requires Links(ns, order) && k <= |order|
    requires 0 <= value.clientId < |ns| && value.clientId !in order
    ensures var ms, more := ns[value.clientId := value], order[..k] + [value.clientId] + order[k..];
            Links(ms, more) && Items(ms, more) == Items(ns, order)[..k] + [value] + Items(ns, order)[k..]
  {
    LinksAfterAdd(ns, order, k, value);
    var ms, more := ns[value.clientId := value], order[..k] + [value.clientId] + order[k..];
    var items, now := Items(ns, order), Items(ms, more);
    hide Links, Items;
    forall i | 0 <= i < |now| ensures now[i] == (items[..k] + [value] + items[k..])[i] {
      if i < k {
        assert order[i] in order;
      } else if i > k {
        assert order[i - 1] in order;
      }
    }
  }

  // ---------- What a push and a removal amount to ----------

  lemma PushShape(items: seq<FocusId>, value: FocusId)
    requires StatesMatch(items)
    ensures StatesMatch(Pushed(items, value))
    ensures var below := Demoted(items);
            (below[..0] + [value] + below[0..])[0 := value.(state := StackTop)] == Pushed(items, value)
            && |below| == |items| && (forall i :: 0 <= i < |items| ==> below[i].clientId == items[i].clientId)
            && (IsFree(below, value.clientId) <==> IsFree(items, value.clientId))
    ensures items != [] ==> items[0 := items[0].(state := StackUnder)] == Demoted(items)
    ensures items == [] ==> items == Demoted(items)
  {
    var below := Demoted(items);
    assert below[..0] + [value] + below[0..] == [value] + below;
    assert forall i :: 0 <= i < |items| ==> below[i].clientId == items[i].clientId;
  }

  lemma KickShape(items: seq<FocusId>, k: nat)
    requires StatesMatch(items) && k < |items|
    ensures StatesMatch(Promoted(Without(items, k)))
    ensures items[k].state == StackTop <==> k == 0
    ensures if k == 0 && |items| > 1
            then Without(items[1 := items[1].(state := StackTop)], 0) == Promoted(Without(items, 0))
            else Without(items, k) == Promoted(Without(items, k))
  {
    var rest := Without(items, k);
    hide Without;
    if rest != [] {
      assert rest[0] == items[if k == 0 then 1 else 0];
      if k == 0 {
        KickTop(items);
      } else {
        assert [rest[0]] + rest[1..] == rest;
      }
    }
  }

  // Raising the next and then taking the top away, or the other way round.
  lemma KickTop(items: seq<FocusId>)
    requires |items| > 1
    ensures Without(items[1 := items[1].(state := StackTop)], 0) == Promoted(Without(items, 0))
  {
    var raised, rest := Without(items[1 := items[1].(state := StackTop)], 0), Without(items, 0);
    hide Without;
    assert rest[0] == items[1];
    assert forall i :: 1 <= i < |rest| ==> raised[i] == rest[i];
  }

  // ---------- The stack ----------

  class Stack {
    const maxSize: nat
    const nodes: array<FocusId>

    // The intrusive list, from the head, as indices into the node array.
    var order: seq<nat>
    var curSize: nat

    // Every call made to the change callback so far.
    ghost var calls: seq<Change>

    ghost predicate Linked()
      reads this`order, this`curSize, nodes
    {
      nodes.Length == maxSize && curSize == |order| <= maxSize && Links(nodes[..], order)
    }

    /* The list has no duplicates and curSize is its length; slot i is on it exactly when its client id
       is i rather than -1; the first node alone is TOP, the other listed ones UNDER, the rest QUIT. */
    ghost predicate Valid()
      reads this`order, this`curSize, nodes
    {
      Linked() && StatesMatch(Listed())
    }

    ghost function Listed(): (items: seq<FocusId>)
      requires Linked()
      reads this`order, this`curSize, nodes
      ensures |items| == |order|
      ensures forall i :: 0 <= i < |items| ==> order[i] < nodes.Length && items[i] == nodes[order[i]]
      ensures forall i :: 0 <= i < |items| ==> items[i].clientId == order[i]
      ensures DistinctClients(items)
    {
      Items(nodes[..], order)
    }

    ghost function Contents(): (items: seq<FocusId>)
      requires Valid()
      reads this`order, this`curSize, nodes
      ensures WellFormed(items, maxSize) && |items| == |order|
    {
      Listed()
    }

    constructor (focusStackSize: nat)
      ensures Valid() && maxSize == focusStackSize && fresh(nodes)
      ensures Contents() == [] && calls == []
    {
      var list := new FocusId[focusStackSize](_ => BLANK);
      maxSize := focusStackSize;
      nodes := list;
      order := [];
      curSize := 0;
      calls := [];
    }

    method NodeListRemove(id: nat) returns (ret: int)
      requires id < nodes.Length
      modifies nodes
      ensures ret == if old(nodes[id]).clientId != -1 then 0 else -ENOENT
      ensures nodes[..] == if ret == 0 then old(nodes[..])[id := BLANK] else old(nodes[..])
    {
      if nodes[id].clientId != -1 {
        nodes[id] := BLANK;
        return 0;
      }
      ret := -ENOENT;
    }

    // Writes the state of the node at a list position.
    method SetState(k: nat, state: FocusState)
      requires Linked() && k < |order|
      modifies nodes
      ensures Linked()
      ensures Listed() == old(Listed())[k := old(Listed())[k].(state := state)]
    {
      AfterSetState(nodes[..], order, k, state);
      nodes[order[k]] := nodes[order[k]].(state := state);
    }

    // Takes a node off the list and resets its slot.
    method Unlink(k: nat)
      requires Linked() && k < |order|
      modifies this`order, this`curSize, nodes
      ensures Linked()
      ensures Listed() == Without(old(Listed()), k)
    {
      AfterRemove(nodes[..], order, k);
      var node := order[k];
      order := order[..k] + order[k + 1..];
      var _ := NodeListRemove(nodes[node].clientId);
      curSize := curSize - 1;
    }

    // Copies a focus to its slot and puts it on the list.
    method Link(k: nat, value: FocusId)
      requires Linked() && k <= |order| < maxSize
      requires 0 <= value.clientId < maxSize && IsFree(Listed(), value.clientId)
      modifies this`order, this`curSize, nodes
      ensures Linked()
      ensures Listed() == old(Listed())[..k] + [value] + old(Listed())[k..]
    {
      SlotsShowList(nodes[..], order, value.clientId);
      AfterAdd(nodes[..], order, k, value);
      nodes[value.clientId] := value;
      order := order[..k] + [value.clientId] + order[k..];
      curSize := curSize + 1;
    }

    method Top() returns (ret: int, value: Option<FocusId>)
      requires Valid()
      ensures Contents() == [] ==> ret == -ENOENT && value == None
      ensures Contents() != [] ==> ret == 0 && value == Some(Contents()[0])
    {
      if curSize == 0 {
        return -ENOENT, None;
      }
      return 0, Some(nodes[order[0]]);
    }

    method Pop(flag: int) returns (ret: int, value: Option<FocusId>)
      requires Valid()
      modifies this, nodes
      ensures Valid()
      ensures ret == if old(Contents()) == [] then -ENOENT else 0
      ensures ret == 0 ==> value == Some(old(Contents())[0].(state := StackQuit))
                           && Contents() == Popped(old(Contents()))
      ensures ret != 0 ==> Contents() == old(Contents())
      ensures calls == old(calls) + PopCalls(old(Contents()), flag)
    {
      hide Links, Items;
      if curSize == 0 {
        return -ENOENT, None;
      }
      SetState(0, StackQuit);
      assert Listed()[0] == nodes[order[0]];
      value := Some(nodes[order[0]]);
      if curSize > 1 {
        SetState(1, StackTop);
        assert Listed()[1] == nodes[order[1]];
        calls := calls + [Change(value.value, nodes[order[1]], flag)];
      }
      Unlink(0);
      ret := 0;
    }

    method Push(value: FocusId, flag: int) returns (ret: int)
      requires Valid()
      requires value.clientId == -1 || (0 <= value.clientId < maxSize && IsFree(Contents(), value.clientId))
      modifies this, nodes
      ensures Valid()
      ensures ret == if |old(Contents())| == maxSize then -ENOSPC else if value.clientId == -1 then -EINVAL else 0
      ensures Contents() == if ret == 0 then Pushed(old(Contents()), value) else old(Contents())
      ensures calls == old(calls) + if ret == 0 then PushCalls(old(Contents()), value, flag) else []
    {
      hide Links, Items;
      if curSize == maxSize {
        return -ENOSPC;
      }
      if value.clientId == -1 {
        return -EINVAL;
      }
      ghost var items := Listed();
      PushShape(items, value);
      hide Pushed, StatesMatch, DistinctClients, IsFree;
      if curSize != 0 {
        SetState(0, StackUnder);
        assert Listed()[0] == nodes[order[0]];
        calls := calls + [Change(value, nodes[order[0]], flag)];
      }
      assert Listed() == Demoted(items);
      Link(0, value);
      SetState(0, StackTop);
      ret := 0;
    }

    // An index of 0 is refused on a non-empty stack, and leaves list and nodes as they were.
    method Insert(value: FocusId, index: int) returns (ret: int)
      requires Valid()
      requires value.clientId == -1 || (0 <= value.clientId < maxSize && IsFree(Contents(), value.clientId))
      modifies this, nodes
      ensures Valid()
      ensures ret == if |old(Contents())| == maxSize then -ENOSPC
                     else if value.clientId == -1 then -EINVAL
                     else if old(Contents()) == [] || 1 <= index <= |old(Contents())| then 0
                     else -ENOENT
      ensures ret == 0 && old(Contents()) == [] ==> Contents() == Pushed([], value)
      ensures ret == 0 && old(Contents()) != [] ==> Contents() == Inserted(old(Contents()), value, index)
      ensures ret != 0 ==> order == old(order) && nodes[..] == old(nodes[..])
      ensures calls == old(calls)
    {
      if curSize == maxSize {
        return -ENOSPC;
      }
      if curSize == 0 {
        ret := Push(value, index);
        return;
      }
      if value.clientId == -1 {
        return -EINVAL;
      }
      var slot: nat := value.clientId;
      var count := 0;
      while count < |order| && count != index - 1
        invariant count <= |order| && (index <= 0 || index > count)
      {
        count := count + 1;
      }
      if count < |order| {
        Link(index, value.(state := StackUnder));
        return 0;
      }
      ghost var ns := nodes[..];
      SlotsShowList(ns, order, slot);
      nodes[slot] := value;
      var _ := NodeListRemove(slot);
      ret := -ENOENT;
      assert nodes[..] == ns;
    }

    // Deletes by client id; the caller's record takes over the node's callback.
    method Delete(value: FocusId, flag: int) returns (ret: int, out: FocusId)
      requires Valid()
      modifies this, nodes
      ensures Valid()
      ensures ret == if IsFree(old(Contents()), value.clientId) then -ENOENT else 0
      ensures Contents() == Deleted(old(Contents()), value.clientId)
      ensures calls == old(calls) + DeleteCalls(old(Contents()), value.clientId, flag)
      ensures ret != 0 ==> out == value
      ensures ret == 0 ==> out.client == old(Contents())[IndexOf(old(Contents()), value.clientId)].client
                           && out.clientId == value.clientId
    {
      hide Links, Items;
      ghost var items := Contents();
      ghost var k := IndexOf(items, value.clientId);
      if curSize == 0 {
        return -ENOENT, value;
      }
      if nodes[order[0]].clientId == value.clientId {
        assert items[0] == nodes[order[0]] && Without(items, 0) == items[1..];
        var popped;
        ret, popped := Pop(flag);
        return ret, popped.value;
      }
      for i := 0 to |order|
        invariant i <= k
      {
        assert items[i] == nodes[order[i]];
        if nodes[order[i]].clientId == value.clientId {
          out := value.(client := nodes[order[i]].client);
          Unlink(i);
          assert Contents() == Promoted(Contents());
          return 0, out;
        }
      }
      return -ENOENT, value;
    }

    // Kicks out the focus at a list position; the next one goes on TOP if it was the head.
    method KickOff(pos: nat, alive: set<int>, flag: int)
      requires Valid() && pos < |order|
      modifies this, nodes
      ensures Valid()
      ensures Contents() == Promoted(Without(old(Contents()), pos))
      ensures calls == old(calls) + KickCalls(old(Contents()), pos, alive, flag)
    {
      hide Links, Items, StatesMatch, DistinctClients, Promoted, Without;
      var dead := nodes[order[pos]];
      ghost var items := Listed();
      assert dead == items[pos];
      KickShape(items, pos);
      if dead.state == StackTop && curSize > 1 {
        SetState(pos + 1, StackTop);
        assert Listed()[pos + 1] == nodes[order[pos + 1]];
        if nodes[order[pos + 1]].thread in alive {
          calls := calls + [Change(dead, nodes[order[pos + 1]], flag)];
        }
      }
      Unlink(pos);
    }

    method UselessClear(alive: set<int>, flag: int)
      requires Valid()
      modifies this, nodes
      ensures Valid()
      ensures Contents() == Cleared(old(Contents()), alive)
      ensures calls == old(calls) + ClearCalls(old(Contents()), alive, flag)
    {
      hide Links, Items;
      ghost var items, was := Contents(), calls;
      ghost var k := 0;
      var pos := 0;
      assert Survey(items, alive, 0) == items;
      while pos < |order|
        invariant k <= |items| && pos == |Living(items[..k], alive)|
        invariant Valid() && Contents() == Survey(items, alive, k)
        invariant calls == was + if k >= FirstAlive(items, alive) then ClearCalls(items, alive, flag) else []
        decreases |items| - k
      {
        SurveyStep(items, alive, k, flag);
        assert Contents()[pos] == nodes[order[pos]];
        hide *;
        if nodes[order[pos]].thread in alive {
          pos := pos + 1;
        } else {
          KickOff(pos, alive, flag);
        }
        k := k + 1;
      }
      SurveyEnd(items, alive, k);
    }

    method TopChangeBroadcast(flag: int) returns (ret: int)
      requires Valid()
      modifies this`calls
      ensures Valid() && Contents() == old(Contents())
      ensures ret == if |Contents()| < 2 then -EPERM else 0
      ensures calls == old(calls) + BroadcastCalls(Contents(), flag)
    {
      if curSize < 2 {
        return -EPERM;
      }
      ghost var items := Contents();
      var head := order[0];
      for i := 0 to |order|
        invariant calls == old(calls) + BroadcastCalls(items[..i], flag)
      {
        var node := order[i];
        assert items[i] == nodes[node] && items[0] == nodes[head];
        assert items[..i + 1][..i] == items[..i];
        if nodes[node].state == StackTop {
          continue;
        }
        calls := calls + [Change(nodes[head], nodes[node], flag)];
      }
      assert items[..|order|] == items;
      ret := 0;
    }

    // Drops everything, telling each focus that it has quit.
    method Clean(value: FocusId, flag: int)
      requires Valid()
      modifies this, nodes
      ensures Valid() && Contents() == []
      ensures calls == old(calls) + CleanCalls(old(Contents()), value, flag)
    {
      hide Links, Items;
      ghost var items := Contents();
      ghost var k := 0;
      while order != []
        invariant k <= |items| && Linked() && Listed() == items[k..]
        invariant calls == old(calls) + CleanCalls(items[..k], value, flag)
        decreases |items| - k
      {
        SetState(0, StackQuit);
        assert Listed()[0] == nodes[order[0]];
        calls := calls + [Change(value, nodes[order[0]], flag)];
        Unlink(0);
        assert items[..k + 1][..k] == items[..k];
        k := k + 1;
      }
      assert items[..k] == items;
    }

    method GetIndex(index: nat) returns (ret: int, value: Option<FocusId>)
      requires Valid()
      ensures index < |Contents()| ==> ret == 0 && value == Some(Contents()[index])
      ensures index >= |Contents()| ==> ret == -ENOENT && value == None
    {
      for count := 0 to |order|
        invariant count <= index
      {
        if count == index {
          return 0, Some(nodes[order[count]]);
        }
      }
      return -ENOENT, None;
    }

    method SearchClientId(id: int) returns (ret: int)
      requires Valid()
      ensures ret == if IsFree(Contents(), id) then -ENOENT else IndexOf(Contents(), id)
    {
      ghost var items := Contents();
      for count := 0 to |order|
        invariant forall i :: 0 <= i < count ==> items[i].clientId != id
      {
        assert items[count] == nodes[order[count]];
        if nodes[order[count]].clientId == id {
          return count;
        }
      }
      ret := -ENOENT;
    }

    // The least free slot, unless the stack is full; the search itself never comes back empty.
    method FreeClientId() returns (ret: int)
      requires Valid()
      ensures |Contents()| == maxSize ==> ret == -ENODATA
      ensures |Contents()| < maxSize ==> 0 <= ret < maxSize && IsFree(Contents(), ret)
                                         && forall s :: 0 <= s < ret ==> !IsFree(Contents(), s)
    {
      if curSize == maxSize {
        return -ENODATA;
      }
      for i := 0 to maxSize
        invariant forall s: nat :: s < i ==> s in order
      {
        SlotsShowList(nodes[..], order, i);
        if nodes[i].clientId == -1 {
          forall s: nat | s < i ensures !IsFree(Contents(), s) {
            SlotsShowList(nodes[..], order, s);
          }
          return i;
        }
      }
      Covering(order, maxSize);
      assert false;
      ret := -ENODATA;
    }
  }
}
