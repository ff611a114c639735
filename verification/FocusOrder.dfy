/** The order of the focus stack over whole runs, and what a handle can still do. */
module FocusOrder {
  import opened Prelude
  import opened FocusSpec
  import opened FocusPolicy
  import opened FocusRuns

  // ---------- Levels from top to bottom ----------

  predicate Sorted(items: seq<FocusId>) {
    forall i, j :: 0 <= i < j < |items| ==> items[i].level <= items[j].level
  }

  // The matrix lets a stream take over only from one whose level is not below its own.
  predicate Modest(cfg: Config)
    requires cfg.Valid()
  {
    forall l, t :: 0 <= l < |cfg.streams| && 0 <= t < |cfg.streams| && ActiveEntry(cfg, l, t) == PLAY ==> l <= t
  }

  lemma ClearedSorted(items: seq<FocusId>, alive: set<int>)
    requires Sorted(items)
    ensures Sorted(Cleared(items, alive))
  {
    var cleared := Cleared(items, alive);
    forall i, j | 0 <= i < j < |cleared| ensures cleared[i].level <= cleared[j].level {
      var p, q := LivingOrder(items, alive, i, j);
    }
  }

  lemma PushedSorted(items: seq<FocusId>, focus: FocusId)
    requires Sorted(items) && (items != [] ==> focus.level <= items[0].level)
    ensures Sorted(Pushed(items, focus))
  {
    var pushed := Pushed(items, focus);
    forall i, j | 0 <= i < j < |pushed| ensures pushed[i].level <= pushed[j].level {
      assert pushed[j].level == items[j - 1].level;
      if i > 0 {
        assert pushed[i].level == items[i - 1].level;
      }
    }
  }

  lemma InsertedSorted(items: seq<FocusId>, focus: FocusId)
    requires Sorted(items)
    ensures Sorted(Inserted(items, focus, InsertIndex(items, focus.level)))
  {
    var k := InsertIndex(items, focus.level);
    var after := Inserted(items, focus, k);
    forall i, j | 0 <= i < j < |after| ensures after[i].level <= after[j].level {
      if k < |items| {
        assert forall m :: k < m < |items| ==> items[k].level <= items[m].level;
      }
    }
  }

  lemma WithoutSorted(items: seq<FocusId>, k: nat)
    requires Sorted(items) && k < |items|
    ensures Sorted(Without(items, k))
  {
    var rest := Without(items, k);
    forall i, j | 0 <= i < j < |rest| ensures rest[i].level <= rest[j].level {
      assert rest[i] == items[if i < k then i else i + 1] && rest[j] == items[if j < k then j else j + 1];
    }
  }

  lemma PromotedSorted(items: seq<FocusId>)
    requires Sorted(items)
    ensures Sorted(Promoted(items))
  {
  }

  lemma DeletedSorted(items: seq<FocusId>, id: int)
    requires Sorted(items)
    ensures Sorted(Deleted(items, id)) && (items != [] ==> Sorted(Popped(items)))
  {
    var k := IndexOf(items, id);
    if k < |items| {
      WithoutSorted(items, k);
      PromotedSorted(Without(items, k));
    }
    if items != [] {
      WithoutSorted(items, 0);
      assert Without(items, 0) == items[1..];
      PromotedSorted(items[1..]);
    }
  }

  lemma ModestStep(cfg: Config, items: seq<FocusId>, level: int)
    requires cfg.Valid() && LevelsFit(cfg, items) && 0 <= level < |cfg.streams| && Modest(cfg) && items != []
    requires Active(cfg, level, items[0]) == PLAY
    ensures level <= items[0].level
  {
    assert ActiveEntry(cfg, level, items[0].level) == PLAY;
  }

  lemma AdmittedSorted(cfg: Config, items: seq<FocusId>, level: int, thread: int, client: nat)
    requires cfg.Valid() && LevelsFit(cfg, items) && 0 <= level < |cfg.streams|
    requires Sorted(items) && Modest(cfg)
    ensures Sorted(Admitted(cfg, items, level, thread, client).items)
  {
    var focus := NewFocus(items, cfg.depth, level, thread, client);
    AdmittedCases(cfg, items, level, thread, client);
    hide Admitted, Sorted, LevelsFit, Modest, NewFocus;
    if items == [] || Active(cfg, level, items[0]) == PLAY {
      if items != [] {
        ModestStep(cfg, items, level);
      }
      assert focus.level == level by { LevelOfNew(items, cfg.depth, level, thread, client); }
      PushedSorted(items, focus);
    } else {
      InsertedSorted(items, focus);
    }
  }

  lemma LevelOfNew(items: seq<FocusId>, depth: nat, level: int, thread: int, client: nat)
    ensures NewFocus(items, depth, level, thread, client).level == level
  {
  }

  // A request leaves the stack as it was, or puts its focus on top or among those of its level.
  lemma AdmittedCases(cfg: Config, items: seq<FocusId>, level: int, thread: int, client: nat)
    requires cfg.Valid() && LevelsFit(cfg, items) && 0 <= level < |cfg.streams|
    ensures var after := Admitted(cfg, items, level, thread, client).items;
            var focus := NewFocus(items, cfg.depth, level, thread, client);
            || after == items
            || (after == Pushed(items, focus) && (items == [] || Active(cfg, level, items[0]) == PLAY))
            || (after == Inserted(items, focus, InsertIndex(items, focus.level))
                && !(items == [] || Active(cfg, level, items[0]) == PLAY))
  {
  }

  lemma {:induction false} RunSorted(cfg: Config, ops: seq<Op>)
    requires cfg.Valid() && Modest(cfg)
    ensures Sorted(Run(cfg, ops).items)
  {
    if ops != [] {
      var d, op := Run(cfg, ops[..|ops| - 1]), ops[|ops| - 1];
      RunSorted(cfg, ops[..|ops| - 1]);
      ClearedSorted(d.items, op.alive);
      LevelsOfCleared(cfg, d.items, op.alive);
      match op
      case Ask(stream, client, thread, alive) =>
        if StreamIndex(cfg.streams, stream) < |cfg.streams| {
          AdmittedSorted(cfg, Cleared(d.items, alive), StreamIndex(cfg.streams, stream), thread, client);
        }
      case Quit(handle, alive) =>
        DeletedSorted(Cleared(d.items, alive), HandleToId(handle));
    }
  }

  lemma StreamFound(cfg: Config, k: nat)
    requires cfg.Valid() && k < |cfg.streams|
    ensures StreamIndex(cfg.streams, cfg.streams[k]) == k
  {
  }

  // A first request is granted on an empty stack.
  lemma FirstRequest(cfg: Config, level: nat)
    requires cfg.Valid() && cfg.depth >= 1 && level < |cfg.streams|
    ensures Run(cfg, [Ask(cfg.streams[level], 0, 0, {0})]).items == [FocusId(0, level, 0, StackTop, Some(0))]
  {
    var ops := [Ask(cfg.streams[level], 0, 0, {0})];
    StreamFound(cfg, level);
    assert ops[..0] == [] && Run(cfg, []) == START;
    assert Cleared([], {0}) == [];
    assert NewFocus([], cfg.depth, level, 0, 0).clientId == 0;
  }

  // A request on a stack of one, which the matrix lets take over.
  lemma SecondRequest(cfg: Config, items: seq<FocusId>, level: nat)
    requires cfg.Valid() && cfg.depth >= 2 && level < |cfg.streams| && LevelsFit(cfg, items)
    requires |items| == 1 && items[0].state == StackTop && items[0].thread == 0
    requires ActiveEntry(cfg, level, items[0].level) == PLAY
    ensures var after := Requested(cfg, items, {0}, 0, cfg.streams[level], 0).items;
            |after| == 2 && after[0].level == level && after[1].level == items[0].level
  {
    StreamFound(cfg, level);
    LivingAll(items, {0});
    assert Cleared(items, {0}) == items;
    hide ActiveEntry, Living, Config.Valid;
    var focus := NewFocus(items, cfg.depth, level, 0, 0);
    assert Admitted(cfg, items, level, 0, 0).items == Pushed(items, focus);
  }

  // A first request on an empty stack, and a second one that the matrix lets take over.
  lemma TakeOverRun(cfg: Config, low: nat, high: nat)
    requires cfg.Valid() && cfg.depth >= 2 && low < |cfg.streams| && high < |cfg.streams|
    requires ActiveEntry(cfg, high, low) == PLAY
    ensures var ops := [Ask(cfg.streams[low], 0, 0, {0}), Ask(cfg.streams[high], 0, 0, {0})];
            var items := Run(cfg, ops).items;
            |items| == 2 && items[0].level == high && items[1].level == low
  {
    var first, second := Ask(cfg.streams[low], 0, 0, {0}), Ask(cfg.streams[high], 0, 0, {0});
    assert [first, second][..1] == [first];
    FirstRequest(cfg, low);
    SecondRequest(cfg, Run(cfg, [first]).items, high);
    hide Requested, Config.Valid, ActiveEntry;
  }

  // In every run the levels never decrease from top to bottom, exactly if the matrix is modest.
  lemma SortedExactly(cfg: Config)
    requires cfg.Valid() && cfg.depth >= 2
    ensures (forall ops: seq<Op> :: Sorted(Run(cfg, ops).items)) <==> Modest(cfg)
  {
    if Modest(cfg) {
      forall ops: seq<Op> ensures Sorted(Run(cfg, ops).items) {
        RunSorted(cfg, ops);
      }
    } else {
      var l, t :| 0 <= l < |cfg.streams| && 0 <= t < |cfg.streams| && ActiveEntry(cfg, l, t) == PLAY && l > t;
      TakeOverRun(cfg, t, l);
    }
  }

  // ---------- Handles ----------

  lemma IdsOfPromoted(items: seq<FocusId>)
    ensures Ids(Promoted(items)) == Ids(items)
  {
  }

  lemma LeftEffect(items: seq<FocusId>, id: int)
    ensures var out := Left(items, id);
            && out.ret == (if items == [] then -ENOENT else 0)
            && (IsFree(items, id) ==> out.items == items && out.calls == [])
            && (!IsFree(items, id) ==>
                  IndexOf(items, id) < |items| && Ids(out.items) == Ids(Without(items, IndexOf(items, id))))
  {
    var k := IndexOf(items, id);
    if k < |items| {
      assert !IsFree(items, id) by { assert items[k].clientId == id; }
      IdsOfPromoted(Without(items, k));
      if k == 0 {
        assert Without(items, 0) == items[1..];
      }
    }
  }

  // With every holder alive, abandoning takes away the handle's focus if it is listed, and else nothing.
  lemma AbandonEffect(items: seq<FocusId>, alive: set<int>, id: nat)
    requires StatesMatch(items) && forall i :: 0 <= i < |items| ==> items[i].thread in alive
    ensures var out := Abandoned(items, alive, IdToHandle(id));
            && out.ret == (if items == [] then -ENOENT else 0)
            && (IsFree(items, id) ==> out.items == items && out.calls == [])
            && (!IsFree(items, id) ==>
                  IndexOf(items, id) < |items| && Ids(out.items) == Ids(Without(items, IndexOf(items, id))))
  {
    HandleRoundTrip(id);
    LivingAll(items, alive);
    assert Cleared(items, alive) == items;
    LivingHead(items, alive);
    hide Left, Cleared, Living, StatesMatch, IsFree;
    LeftEffect(items, id);
  }

  // A refused request's handle names no slot, so abandoning it never changes any stack.
  lemma RefusedHandleIsInert(cfg: Config, before: seq<FocusId>, alive: set<int>, thread: int, stream: string,
                            client: nat,
                             items: seq<FocusId>, later: set<int>)
    requires cfg.Valid() && LevelsFit(cfg, before) && WellFormed(before, cfg.depth)
    requires WellFormed(items, cfg.depth) && forall i :: 0 <= i < |items| ==> items[i].thread in later
    ensures var out := Requested(cfg, before, alive, thread, stream, client);
            out.handle != None && out.suggestion == Some(STOP) ==>
              Abandoned(items, later, out.handle.value).items == items
              && Abandoned(items, later, out.handle.value).calls == []
  {
    var out := Requested(cfg, before, alive, thread, stream, client);
    if out.handle != None && out.suggestion == Some(STOP) {
      var id: nat := LeastFree(Cleared(before, alive), cfg.depth, 0) + cfg.depth;
      assert out.handle.value == IdToHandle(id);
      AbandonEffect(items, later, id);
    }
  }

  lemma GrantedPlace(before: seq<FocusId>, focus: FocusId, k: nat, items: seq<FocusId>)
    requires k <= |before|
    requires if k == 0 then items == Pushed(before, focus) else items == Inserted(before, focus, k)
    ensures Ids(items) == Ids(before)[..k] + [focus.clientId] + Ids(before)[k..]
  {
  }

  // The new focus is the one at position k; without it the old ids are left.
  lemma GrantedIds(before: seq<FocusId>, focus: FocusId, k: nat, items: seq<FocusId>)
    requires k <= |before| && IsFree(before, focus.clientId)
    requires if k == 0 then items == Pushed(before, focus) else items == Inserted(before, focus, k)
    ensures !IsFree(items, focus.clientId) && IndexOf(items, focus.clientId) == k < |items|
    ensures Ids(Without(items, k)) == Ids(before)
  {
    GrantedPlace(before, focus, k, items);
    hide Pushed, Inserted;
    var xs, ys := Ids(before), Ids(items);
    SpliceOut(xs, focus.clientId, k);
    IdsOfWithout(items, k);
    hide Without;
    assert items[k].clientId == focus.clientId;
    assert forall i :: 0 <= i < k ==> ys[i] == items[i].clientId != focus.clientId;
  }

  lemma IdsOfWithout(items: seq<FocusId>, k: nat)
    requires k < |items|
    ensures Ids(Without(items, k)) == Ids(items)[..k] + Ids(items)[k + 1..]
  {
  }

  lemma GrantedAlive(before: seq<FocusId>, focus: FocusId, k: nat, items: seq<FocusId>, alive: set<int>)
    requires k <= |before| && IsFree(before, focus.clientId)
    requires if k == 0 then items == Pushed(before, focus) else items == Inserted(before, focus, k)
    requires focus.thread in alive && forall i :: 0 <= i < |before| ==> before[i].thread in alive
    ensures forall i :: 0 <= i < |items| ==> items[i].thread in alive
  {
  }

  // Where a granted request puts its focus.
  lemma GrantedShape(cfg: Config, items: seq<FocusId>, level: int, thread: int, client: nat) returns (k: nat)
    requires cfg.Valid() && LevelsFit(cfg, items) && WellFormed(items, cfg.depth) && 0 <= level < |cfg.streams|
    requires var out := Admitted(cfg, items, level, thread, client);
             out.handle != None && out.suggestion != Some(STOP)
    ensures var out := Admitted(cfg, items, level, thread, client);
            var focus := NewFocus(items, cfg.depth, level, thread, client);
            && k <= |items| < cfg.depth && out.handle == Some(IdToHandle(focus.clientId))
            && (if k == 0 then out.items == Pushed(items, focus) else out.items == Inserted(items, focus, k))
            && (k > 0 ==> items != [])
  {
    k := if items == [] || Active(cfg, level, items[0]) == PLAY then 0 else InsertIndex(items, level);
  }

  lemma AdmittedLeaves(cfg: Config, before: seq<FocusId>, alive: set<int>, level: int, thread: int, client: nat)
    requires cfg.Valid() && LevelsFit(cfg, before) && WellFormed(before, cfg.depth) && 0 <= level < |cfg.streams|
    requires thread in alive && forall i :: 0 <= i < |before| ==> before[i].thread in alive
    ensures var out := Admitted(cfg, before, level, thread, client);
            out.handle != None && out.suggestion != Some(STOP) ==>
              Ids(Abandoned(out.items, alive, out.handle.value).items) == Ids(before)
  {
    var out := Admitted(cfg, before, level, thread, client);
    if out.handle != None && out.suggestion != Some(STOP) {
      var focus := NewFocus(before, cfg.depth, level, thread, client);
      NewFocusFree(before, cfg.depth, level, thread, client);
      var k := GrantedShape(cfg, before, level, thread, client);
      assert focus.thread == thread;
      hide *;
      GrantedIds(before, focus, k, out.items);
      GrantedAlive(before, focus, k, out.items, alive);
      assert StatesMatch(before) by { StatesOf(before, cfg.depth); }
      GrantedStates(before, focus, k, out.items);
      AbandonEffect(out.items, alive, focus.clientId);
    }
  }

  lemma StatesOf(items: seq<FocusId>, depth: nat)
    requires WellFormed(items, depth)
    ensures StatesMatch(items)
  {
  }

  // A granted handle names the slot of the new focus: abandoning it at once takes just that focus away.
  lemma GrantedHandleLeaves(cfg: Config, before: seq<FocusId>, alive: set<int>, level: int, thread: int, client: nat)
    requires cfg.Valid() && LevelsFit(cfg, before) && WellFormed(before, cfg.depth) && 0 <= level < |cfg.streams|
    requires thread in alive && forall i :: 0 <= i < |before| ==> before[i].thread in alive
    ensures var out := Requested(cfg, before, alive, thread, cfg.streams[level], client);
            out.handle != None && out.suggestion != Some(STOP) ==>
              Ids(Abandoned(out.items, alive, out.handle.value).items) == Ids(before)
  {
    StreamFound(cfg, level);
    LivingAll(before, alive);
    assert Cleared(before, alive) == before;
    hide Living, Admitted, Abandoned, Cleared, LevelsFit, WellFormed, Ids;
    AdmittedLeaves(cfg, before, alive, level, thread, client);
  }

  lemma GrantedStates(before: seq<FocusId>, focus: FocusId, k: nat, items: seq<FocusId>)
    requires k <= |before| && StatesMatch(before) && (k > 0 ==> before != [])
    requires if k == 0 then items == Pushed(before, focus) else items == Inserted(before, focus, k)
    ensures StatesMatch(items)
  {
  }
}
