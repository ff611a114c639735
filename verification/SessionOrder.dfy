/** The list of controllees is in the order of a clock that only looks at the history. */
module SessionOrder {
  import opened Prelude
  import opened Metadatas
  import opened SessionSpec

  // ---------- What a history says of one controllee ----------

  function Registrations(ops: seq<Op>): nat {
    if ops == [] then 0
    else Registrations(ops[..|ops| - 1]) + if ops[|ops| - 1].RegisterOp? then 1 else 0
  }

  // All its updates, one after the other.
  function DataOf(ops: seq<Op>, id: nat): Meta {
    if ops == [] then BLANK
    else
      var before, op := DataOf(ops[..|ops| - 1], id), ops[|ops| - 1];
      if op.UpdateOp? && op.id == id then Merge(before, op.diff) else before
  }

  // When an update last left it playing; -1 if none has.
  function ActiveAt(ops: seq<Op>, id: nat): (t: int)
    ensures -1 <= t < |ops|
  {
    if ops == [] then -1
    else
      var op := ops[|ops| - 1];
      if op.UpdateOp? && op.id == id && Playing(DataOf(ops, id)) then |ops| - 1
      else ActiveAt(ops[..|ops| - 1], id)
  }

  // Registered, and not unregistered since.
  predicate Alive(ops: seq<Op>, id: nat) {
    id < Registrations(ops) && UnregisterOp(id) !in ops
  }

  // Latest activity first; those never active after them, in the order they registered.
  predicate Before(ops: seq<Op>, a: nat, b: nat) {
    ActiveAt(ops, a) > ActiveAt(ops, b) || (ActiveAt(ops, a) == ActiveAt(ops, b) == -1 && a < b)
  }

  predicate Sorted(ops: seq<Op>, ids: seq<nat>) {
    forall i, j :: 0 <= i < j < |ids| ==> Before(ops, ids[i], ids[j])
  }

  function Ids(cs: seq<Controllee>): (ids: seq<nat>)
    ensures |ids| == |cs| && forall i :: 0 <= i < |cs| ==> ids[i] == cs[i].id
  {
    seq(|cs|, i requires 0 <= i < |cs| => cs[i].id)
  }

  // ---------- The list against the history ----------

  ghost predicate Timely(ops: seq<Op>, s: Session) {
    && s.nextId == Registrations(ops)
    && (forall i :: 0 <= i < |s.controllees| ==>
          Alive(ops, s.controllees[i].id) && s.controllees[i].data == DataOf(ops, s.controllees[i].id))
    && (forall id :: Alive(ops, id) ==> Listed(s, id))
    && Sorted(ops, Ids(s.controllees))
    && (forall id: nat :: id >= s.nextId ==> Unknown(ops, id))
  }

  // Nothing has been heard of it.
  predicate Unknown(ops: seq<Op>, id: nat) {
    DataOf(ops, id) == BLANK && ActiveAt(ops, id) == -1 && UnregisterOp(id) !in ops
  }

  // What one more operation changes.
  lemma OneMore(ops: seq<Op>, op: Op, id: nat)
    ensures var more := ops + [op];
            && Registrations(more) == Registrations(ops) + (if op.RegisterOp? then 1 else 0)
            && DataOf(more, id) == (if op.UpdateOp? && op.id == id then Merge(DataOf(ops, id), op.diff)
                                    else DataOf(ops, id))
            && ActiveAt(more, id) == (if op.UpdateOp? && op.id == id && Playing(DataOf(more, id)) then |ops|
                                      else ActiveAt(ops, id))
            && (UnregisterOp(id) in more <==> UnregisterOp(id) in ops || op == UnregisterOp(id))
  {
    var more := ops + [op];
    assert more[..|more| - 1] == ops;
  }

  // An operation that concerns no controllee.
  lemma Elsewhere(ops: seq<Op>, op: Op, s: Session, t: Session)
    requires Timely(ops, s) && (op.NotifyOp? || op.ControllersOp?)
    requires t.controllees == s.controllees && t.nextId == s.nextId
    ensures Timely(ops + [op], t)
  {
    forall id: nat
      ensures Alive(ops + [op], id) <==> Alive(ops, id)
      ensures DataOf(ops + [op], id) == DataOf(ops, id) && ActiveAt(ops + [op], id) == ActiveAt(ops, id)
      ensures Unknown(ops + [op], id) <==> Unknown(ops, id)
    {
      OneMore(ops, op, id);
    }
    OneMore(ops, op, 0);
  }

  lemma RegisterTimely(ops: seq<Op>, s: Session)
    requires Timely(ops, s)
    ensures Timely(ops + [RegisterOp], Register(s))
  {
    var more, t, n := ops + [RegisterOp], Register(s), s.nextId;
    assert Unknown(ops, n);
    forall id: nat
      ensures Alive(more, id) <==> Alive(ops, id) || id == n
      ensures DataOf(more, id) == DataOf(ops, id) && ActiveAt(more, id) == ActiveAt(ops, id)
      ensures Unknown(more, id) <==> Unknown(ops, id)
    {
      OneMore(ops, RegisterOp, id);
    }
    OneMore(ops, RegisterOp, 0);
    var was, now := s.controllees, t.controllees;
    assert now == was + [Controllee(n, BLANK)];
    assert Alive(more, n) && DataOf(more, n) == BLANK && ActiveAt(more, n) == -1;
    hide Registrations, DataOf, Alive, Unknown, ActiveAt;
    assert Ids(now) == Ids(was) + [n];
    assert forall i :: 0 <= i < |was| ==> Ids(was)[i] < n by {
      assert forall i :: 0 <= i < |was| ==> Alive(ops, was[i].id);
    }
    LastOfAll(ops, more, Ids(was), n);
    hide Sorted, Ids, Before;
    forall id | Alive(more, id) ensures Listed(t, id) {
      var k := if id == n then |was| else Place(was, id);
      assert now[k].id == id;
    }
  }

  // Never active, and registered after all others.
  lemma LastOfAll(ops: seq<Op>, more: seq<Op>, ids: seq<nat>, n: nat)
    requires Sorted(ops, ids) && forall i :: 0 <= i < |ids| ==> ids[i] < n
    requires ActiveAt(more, n) == -1 && forall x: nat :: ActiveAt(more, x) == ActiveAt(ops, x)
    ensures Sorted(more, ids + [n])
  {
    hide ActiveAt;
    var all := ids + [n];
    forall i, j | 0 <= i < j < |all| ensures Before(more, all[i], all[j]) {
      if j < |ids| {
        assert Before(ops, ids[i], ids[j]);
      }
    }
  }

  lemma UnregisterTimely(ops: seq<Op>, s: Session, id: nat)
    requires Timely(ops, s) && Listed(s, id)
    ensures Timely(ops + [UnregisterOp(id)], Unregister(s, id))
  {
    var op := UnregisterOp(id);
    var more, t := ops + [op], Unregister(s, id);
    var was, k := s.controllees, Place(s.controllees, id);
    var now := Without(was, k);
    assert Alive(ops, was[k].id);
    forall x: nat
      ensures Alive(more, x) <==> Alive(ops, x) && x != id
      ensures DataOf(more, x) == DataOf(ops, x) && ActiveAt(more, x) == ActiveAt(ops, x)
      ensures x >= s.nextId ==> Unknown(more, x)
    {
      OneMore(ops, op, x);
      if x >= s.nextId {
        assert Unknown(ops, x);
      }
    }
    OneMore(ops, op, 0);
    hide Registrations, DataOf, Alive, Unknown, ActiveAt, Before, Sorted, Ids, Without;
    IdsWithout(was, k);
    Removed(ops, more, Ids(was), k);
    assert forall i :: 0 <= i < |now| ==> now[i].id == Ids(now)[i] != id;
    UnregisteredFaithful(ops, more, s, t, k, id);
  }

  lemma UnregisteredFaithful(ops: seq<Op>, more: seq<Op>, s: Session, t: Session, k: nat, id: nat)
    requires k < |s.controllees| && id == s.controllees[k].id && t.controllees == Without(s.controllees, k)
    requires forall i :: 0 <= i < |s.controllees| ==>
               Alive(ops, s.controllees[i].id) && s.controllees[i].data == DataOf(ops, s.controllees[i].id)
    requires forall i :: 0 <= i < |t.controllees| ==> t.controllees[i].id != id
    requires forall x :: Alive(ops, x) ==> Listed(s, x)
    requires forall x: nat :: (Alive(more, x) <==> Alive(ops, x) && x != id) && DataOf(more, x) == DataOf(ops, x)
    ensures forall i :: 0 <= i < |t.controllees| ==>
              Alive(more, t.controllees[i].id) && t.controllees[i].data == DataOf(more, t.controllees[i].id)
    ensures forall x :: Alive(more, x) ==> Listed(t, x)
  {
    hide Alive, DataOf, Without;
    var was, now := s.controllees, t.controllees;
    forall x | Alive(more, x) ensures Listed(t, x) {
      assert Alive(ops, x);
      var i := Place(was, x);
      assert now[if i < k then i else i - 1].id == x;
    }
  }

  lemma IdsWithout(cs: seq<Controllee>, k: nat)
    requires k < |cs|
    ensures Ids(Without(cs, k)) == Without(Ids(cs), k)
  {
  }

  lemma IdsFront(c: Controllee, cs: seq<Controllee>)
    ensures Ids([c] + cs) == [c.id] + Ids(cs)
  {
  }

  // Taking one out keeps the order and leaves no second one.
  lemma Removed(ops: seq<Op>, more: seq<Op>, ids: seq<nat>, k: nat)
    requires k < |ids| && Sorted(ops, ids)
    requires forall x: nat :: x != ids[k] ==> ActiveAt(more, x) == ActiveAt(ops, x)
    ensures Sorted(more, Without(ids, k)) && ids[k] !in Without(ids, k)
  {
    var now := Without(ids, k);
    hide ActiveAt, Without;
    forall i | 0 <= i < |now| ensures now[i] != ids[k] {
      assert if i < k then Before(ops, ids[i], ids[k]) else Before(ops, ids[k], ids[i + 1]);
    }
    forall i, j | 0 <= i < j < |now| ensures Before(more, now[i], now[j]) {
      assert Before(ops, ids[if i < k then i else i + 1], ids[if j < k then j else j + 1]);
    }
  }

  lemma UpdateFacts(ops: seq<Op>, id: nat, diff: Meta, x: nat)
    ensures var op := UpdateOp(id, diff);
            var more := ops + [op];
            && (Alive(more, x) <==> Alive(ops, x)) && Registrations(more) == Registrations(ops)
            && (x != id ==> DataOf(more, x) == DataOf(ops, x) && ActiveAt(more, x) == ActiveAt(ops, x)
                            && (Unknown(more, x) <==> Unknown(ops, x)))
            && DataOf(more, id) == Merge(DataOf(ops, id), diff)
            && ActiveAt(more, id) == if Playing(DataOf(more, id)) then |ops| else ActiveAt(ops, id)
  {
    OneMore(ops, UpdateOp(id, diff), x);
    OneMore(ops, UpdateOp(id, diff), id);
  }

  // Latest of all is who has just been active; the others keep their places.
  lemma Raised(ops: seq<Op>, more: seq<Op>, was: seq<Controllee>, k: nat, c: Controllee)
    requires k < |was| && c.id == was[k].id && Sorted(ops, Ids(was))
    requires |more| == |ops| + 1 && ActiveAt(more, c.id) == |ops|
    requires forall x: nat :: x != c.id ==> ActiveAt(more, x) == ActiveAt(ops, x)
    ensures Sorted(more, Ids([c] + Without(was, k)))
  {
    var rest := Without(Ids(was), k);
    IdsWithout(was, k);
    IdsFront(c, Without(was, k));
    hide Ids, Without;
    Removed(ops, more, Ids(was), k);
    forall i | 0 <= i < |rest| ensures Before(more, c.id, rest[i]) {
      assert ActiveAt(more, rest[i]) == ActiveAt(ops, rest[i]) < |ops|;
    }
    FirstOfAll(more, c.id, rest);
  }

  lemma FirstOfAll(ops: seq<Op>, x: nat, ids: seq<nat>)
    requires Sorted(ops, ids) && forall i :: 0 <= i < |ids| ==> Before(ops, x, ids[i])
    ensures Sorted(ops, [x] + ids)
  {
    hide Before;
    var all := [x] + ids;
    forall i, j | 0 <= i < j < |all| ensures Before(ops, all[i], all[j]) {
      assert all[j] == ids[j - 1];
      if i > 0 {
        assert all[i] == ids[i - 1];
      }
    }
  }

  // An update that does not change its turn.
  lemma Stayed(ops: seq<Op>, more: seq<Op>, was: seq<Controllee>, k: nat, c: Controllee)
    requires k < |was| && c.id == was[k].id && Sorted(ops, Ids(was))
    requires ActiveAt(more, c.id) == ActiveAt(ops, c.id)
             || (k == 0 && |more| == |ops| + 1 && ActiveAt(more, c.id) == |ops|)
    requires forall x: nat :: x != c.id ==> ActiveAt(more, x) == ActiveAt(ops, x)
    ensures Sorted(more, Ids(was[k := c]))
  {
    var now := was[k := c];
    forall i, j | 0 <= i < j < |now| ensures Before(more, Ids(now)[i], Ids(now)[j]) {
      assert Before(ops, Ids(was)[i], Ids(was)[j]);
      if i < k {
        assert Before(ops, Ids(was)[i], Ids(was)[k]);
      } else if k < j {
        assert Before(ops, Ids(was)[k], Ids(was)[j]);
      }
    }
  }

  lemma UpdateTimely(ops: seq<Op>, s: Session, id: nat, diff: Meta)
    requires Timely(ops, s) && Listed(s, id)
    ensures Timely(ops + [UpdateOp(id, diff)], Update(s, id, diff))
  {
    var more, t := ops + [UpdateOp(id, diff)], Update(s, id, diff);
    var was, k := s.controllees, Place(s.controllees, id);
    var c := was[k].(data := Merge(was[k].data, diff));
    assert Alive(ops, was[k].id);
    forall x: nat
      ensures Alive(more, x) <==> Alive(ops, x)
      ensures x != id ==> DataOf(more, x) == DataOf(ops, x) && ActiveAt(more, x) == ActiveAt(ops, x)
      ensures x >= s.nextId ==> Unknown(more, x)
    {
      UpdateFacts(ops, id, diff, x);
      if x >= s.nextId {
        assert Unknown(ops, x);
      }
    }
    UpdateFacts(ops, id, diff, id);
    hide Registrations, DataOf, ActiveAt, Unknown, Alive, Merge, Playing, Before;
    var now := t.controllees;
    var raised := k > 0 && Playing(c.data);
    if raised {
      Raised(ops, more, was, k, c);
    } else {
      Stayed(ops, more, was, k, c);
    }
    hide Sorted;
    assert now == if raised then [c] + Without(was, k) else was[k := c];
    SameIds(ops, was, k, s.nextId);
    hide Ids;
    UpdatedFaithful(ops, more, s, t, k, c, raised);
  }

  // Each still has its own data, and everyone alive is still listed.
  lemma UpdatedFaithful(ops: seq<Op>, more: seq<Op>, s: Session, t: Session, k: nat, c: Controllee, raised: bool)
    requires k < |s.controllees| && c.id == s.controllees[k].id && c.data == DataOf(more, c.id)
    requires var was := s.controllees;
             t.controllees == if raised then [c] + Without(was, k) else was[k := c]
    requires forall i :: 0 <= i < |s.controllees| ==>
               Alive(ops, s.controllees[i].id) && s.controllees[i].data == DataOf(ops, s.controllees[i].id)
               && (i != k ==> s.controllees[i].id != c.id)
    requires forall x :: Alive(ops, x) ==> Listed(s, x)
    requires forall x: nat :: (Alive(more, x) <==> Alive(ops, x)) && (x != c.id ==> DataOf(more, x) == DataOf(ops, x))
    ensures forall i :: 0 <= i < |t.controllees| ==>
              Alive(more, t.controllees[i].id) && t.controllees[i].data == DataOf(more, t.controllees[i].id)
    ensures forall x :: Alive(more, x) ==> Listed(t, x)
  {
    var was, now := s.controllees, t.controllees;
    hide Alive, DataOf, Without, Place;
    forall i | 0 <= i < |now| ensures Alive(more, now[i].id) && now[i].data == DataOf(more, now[i].id) {
      var a := MovedFrom(was, k, c, raised, i);
      assert Alive(ops, was[a].id);
    }
    StillListed(s, t, k, c, raised);
    assert forall x: nat :: Alive(more, x) ==> Alive(ops, x);
  }

  // Where an entry of the new list was.
  lemma MovedFrom(was: seq<Controllee>, k: nat, c: Controllee, raised: bool, i: nat) returns (a: nat)
    requires k < |was| && i < |was|
    ensures a < |was|
    ensures (if raised then [c] + Without(was, k) else was[k := c])[i] == if a == k then c else was[a]
  {
    var rest := Without(was, k);
    hide Without;
    a := if !raised then i else if i == 0 then k else if i <= k then i - 1 else i;
    assert raised && i > 0 ==> ([c] + rest)[i] == rest[i - 1];
  }

  lemma StillListed(s: Session, t: Session, k: nat, c: Controllee, raised: bool)
    requires k < |s.controllees| && c.id == s.controllees[k].id
    requires var was := s.controllees;
             t.controllees == if raised then [c] + Without(was, k) else was[k := c]
    ensures forall x: nat :: Listed(s, x) ==> Listed(t, x)
  {
    var was, now, rest := s.controllees, t.controllees, Without(s.controllees, k);
    hide Without;
    forall x: nat | Listed(s, x) ensures Listed(t, x) {
      var a := Place(was, x);
      if !raised {
        assert now[a].id == x;
      } else if a == k {
        assert now[0].id == x;
      } else {
        var b := if a < k then a else a - 1;
        assert rest[b] == was[a] && now[b + 1] == rest[b];
      }
    }
  }

  // No id twice.
  lemma SameIds(ops: seq<Op>, cs: seq<Controllee>, k: nat, bound: nat)
    requires k < |cs| && Sorted(ops, Ids(cs))
    ensures forall i :: 0 <= i < |cs| && i != k ==> cs[i].id != cs[k].id
  {
    forall i | 0 <= i < |cs| && i != k ensures cs[i].id != cs[k].id {
      assert Before(ops, Ids(cs)[if i < k then i else k], Ids(cs)[if i < k then k else i]);
    }
  }

  // ---------- Every history ----------

  lemma {:induction false} RunIsTimely(ops: seq<Op>)
    requires Legal(ops)
    ensures Timely(ops, Run(ops))
  {
    if ops != [] {
      var before, op := ops[..|ops| - 1], ops[|ops| - 1];
      RunIsTimely(before);
      assert ops == before + [op];
      hide Timely;
      var s := Run(before);
      match op
      case RegisterOp => RegisterTimely(before, s);
      case UpdateOp(id, diff) => UpdateTimely(before, s, id, diff);
      case UnregisterOp(id) => UnregisterTimely(before, s, id);
      case NotifyOp(id, code, result) => Elsewhere(before, op, s, Step(s, op));
      case ControllersOp(cs) => Elsewhere(before, op, s, Step(s, op));
    }
  }

  // There is only one such order, so the list is exactly the controllees alive, sorted by the history.
  lemma {:induction false} OnlyOrder(ops: seq<Op>, xs: seq<nat>, ys: seq<nat>)
    requires Sorted(ops, xs) && Sorted(ops, ys) && forall x :: x in xs <==> x in ys
    ensures xs == ys
  {
    FirstIn(xs);
    FirstIn(ys);
    if xs != [] {
      assert xs[0] in ys;
      var j :| 0 <= j < |ys| && ys[j] == xs[0];
      assert ys[0] in xs;
      var i :| 0 <= i < |xs| && xs[i] == ys[0];
      HeadFirst(ops, xs, i);
      HeadFirst(ops, ys, j);
      assert xs[0] == ys[0];
      forall x ensures x in xs[1..] <==> x in ys[1..] {
        TailHas(ops, xs, x);
        TailHas(ops, ys, x);
      }
      OnlyOrder(ops, xs[1..], ys[1..]);
    }
  }

  lemma HeadFirst(ops: seq<Op>, xs: seq<nat>, i: nat)
    requires Sorted(ops, xs) && i < |xs|
    ensures i == 0 || Before(ops, xs[0], xs[i])
  {
  }

  lemma FirstIn(xs: seq<nat>)
    ensures xs != [] ==> xs[0] in xs
  {
  }

  lemma TailHas(ops: seq<Op>, xs: seq<nat>, x: nat)
    requires xs != [] && Sorted(ops, xs)
    ensures x in xs[1..] <==> x in xs && x != xs[0]
  {
    if x in xs[1..] {
      var i :| 0 <= i < |xs| - 1 && xs[1..][i] == x;
      assert Before(ops, xs[0], xs[i + 1]);
    }
    if x in xs && x != xs[0] {
      var i :| 0 <= i < |xs| && xs[i] == x;
      assert xs[1..][i - 1] == x;
    }
  }

  // In every history the list holds exactly the controllees alive, each with the updates it sent, in the order
  // of the clock; and no other list of them is in that order.
  lemma ListIsTimestampOrder(ops: seq<Op>, ids: seq<nat>)
    requires Legal(ops)
    ensures var cs := Run(ops).controllees;
            && Sorted(ops, Ids(cs)) && (forall id: nat :: id in Ids(cs) <==> Alive(ops, id))
            && (forall i :: 0 <= i < |cs| ==> cs[i].data == DataOf(ops, cs[i].id))
            && (Sorted(ops, ids) && (forall id: nat :: id in ids <==> Alive(ops, id)) ==> ids == Ids(cs))
  {
    RunIsTimely(ops);
    var cs := Run(ops).controllees;
    hide Sorted, Alive, DataOf, Before, ActiveAt;
    forall id: nat ensures id in Ids(cs) <==> Alive(ops, id) {
      if Alive(ops, id) {
        assert Listed(Run(ops), id);
        assert Ids(cs)[Place(cs, id)] == id;
      }
    }
    if Sorted(ops, ids) && forall id: nat :: id in ids <==> Alive(ops, id) {
      OnlyOrder(ops, ids, Ids(cs));
    }
  }

  // ---------- Broadcasts ----------

  // What CHANGED says: the flags of the news that raised the new head, or those the next head has.
  function ChangedFlags(op: Op, t: Session): set<Field> {
    if op.UpdateOp? then op.diff.flags
    else if t.controllees == [] then {}
    else t.controllees[0].data.flags
  }

  /* CHANGED goes out exactly when the head becomes another one or nobody, UPDATED exactly when the head itself
     is updated, and an event of a controllee's own exactly when it is the head; nothing else goes out. */
  lemma HeadNews(ops: seq<Op>, op: Op)
    requires Legal(ops) && Enabled(Run(ops), op)
    ensures var s := Run(ops);
            var t := Step(s, op);
            t.sent == s.sent
                      + if t.Head() != s.Head() then
                          ToAll(s.controllers, Notice(MEDIA_EVENT_CHANGED, ChangedFlags(op, t)))
                        else if op.UpdateOp? && Some(op.id) == s.Head() then
                          ToAll(s.controllers, Notice(MEDIA_EVENT_UPDATED, op.diff.flags))
                        else if op.NotifyOp? && Some(op.id) == s.Head() then
                          ToAll(s.controllers, Notice(op.code, op.result))
                        else []
  {
    RunIsTimely(ops);
    var s := Run(ops);
    var cs := s.controllees;
    if op.UnregisterOp? && Place(cs, op.id) == 0 && |cs| > 1 {
      assert Before(ops, Ids(cs)[0], Ids(cs)[1]);
    }
    hide Sorted, Alive, DataOf, Registrations, Unknown, Before, Ids, Run, Legal;
    assert s.sent + [] == s.sent;
    if op.UpdateOp? && Place(cs, op.id) > 0 {
      assert cs[0].id != op.id;
    }
  }
}
