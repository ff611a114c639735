/** What a client gets for its request or its leaving, in every run: the answer, the place on the stack, and who is told
    of it. */
module FocusAnswers {
  import opened Prelude
  import opened FocusSpec
  import opened FocusPolicy
  import opened FocusRuns

  // ---------- Who is left, and who is told ----------

  // Exactly the foci of living threads are left by clearing.
  lemma {:induction false} LivingExactly(items: seq<FocusId>, alive: set<int>, x: FocusId)
    ensures x in Living(items, alive) <==> x in items && x.thread in alive
  {
    if items != [] {
      var n := |items| - 1;
      LivingExactly(items[..n], alive, x);
      assert items == items[..n] + [items[n]];
    }
  }

  // Clearing leaves the living in their order; only the state of the first may change.
  lemma ClearedExactly(items: seq<FocusId>, alive: set<int>, id: int, thread: int)
    ensures (exists x :: x in Cleared(items, alive) && x.clientId == id && x.thread == thread)
            <==> thread in alive && exists x :: x in items && x.clientId == id && x.thread == thread
  {
    forall x ensures x in Living(items, alive) <==> x in items && x.thread in alive {
      LivingExactly(items, alive, x);
    }
    var kept := Living(items, alive);
    hide Living;
    if kept != [] {
      var first := kept[0].(state := StackTop);
      assert Promoted(kept)[0] == first;
      if x :| x in kept && x.clientId == id && x.thread == thread {
        var i :| 0 <= i < |kept| && kept[i] == x;
        assert Promoted(kept)[i] in Promoted(kept);
      }
      if x :| x in Promoted(kept) && x.clientId == id && x.thread == thread {
        var i :| 0 <= i < |kept| && Promoted(kept)[i] == x;
        assert kept[i] in kept;
      }
    }
  }

  // The clients that the callbacks reach, in order: a blocked change reaches nobody.
  function Heard(calls: seq<Change>): seq<int> {
    if calls == [] then []
    else
      var n := |calls| - 1;
      Heard(calls[..n]) + if calls[n].flag < 0 then [calls[n].req.clientId] else []
  }

  lemma {:induction false} HeardJoin(a: seq<Change>, b: seq<Change>)
    ensures Heard(a + b) == Heard(a) + Heard(b)
  {
    if b == [] {
      assert a + b == a;
    } else {
      var n := |b| - 1;
      HeardJoin(a, b[..n]);
      assert (a + b)[..|a + b| - 1] == a + b[..n];
    }
  }

  lemma HeardOne(call: Change)
    ensures Heard([call]) == if call.flag < 0 then [call.req.clientId] else []
  {
    assert [call][..0] == [];
  }

  // Everyone but the first.
  lemma {:induction false} BroadcastHeard(items: seq<FocusId>)
    requires items != []
    ensures Heard(BroadcastCalls(items, NONBLOCK)) == Ids(items)[1..]
  {
    if |items| >= 2 {
      var n := |items| - 1;
      var before := BroadcastCalls(items[..n], NONBLOCK);
      BroadcastHeard(items[..n]);
      HeardJoin(before, [Change(items[0], items[n], NONBLOCK)]);
      HeardOne(Change(items[0], items[n], NONBLOCK));
    }
  }

  // Every focus under the top, in order, with the top.
  lemma {:induction false} BroadcastEach(items: seq<FocusId>, flag: int)
    requires items != []
    ensures var calls := BroadcastCalls(items, flag);
            |calls| == |items| - 1 && forall i :: 0 <= i < |calls| ==> calls[i] == Change(items[0], items[i + 1], flag)
  {
    if |items| >= 2 {
      BroadcastEach(items[..|items| - 1], flag);
    }
  }

  // Every focus, in order, as one that has quit.
  lemma {:induction false} CleanEach(items: seq<FocusId>, value: FocusId, flag: int)
    ensures var calls := CleanCalls(items, value, flag);
            |calls| == |items|
            && forall i :: 0 <= i < |calls| ==> calls[i] == Change(value, items[i].(state := StackQuit), flag)
  {
    if items != [] {
      CleanEach(items[..|items| - 1], value, flag);
    }
  }

  // The first survivor, if the top has died.
  lemma ClearHeard(items: seq<FocusId>, alive: set<int>)
    ensures Heard(ClearCalls(items, alive, NONBLOCK))
            == if items != [] && items[0].thread !in alive && Cleared(items, alive) != []
               then [Cleared(items, alive)[0].clientId] else []
  {
    LivingHead(items, alive);
    hide Living;
    var k := FirstAlive(items, alive);
    if 0 < k < |items| {
      HeardOne(ClearCalls(items, alive, NONBLOCK)[0]);
    }
  }

  // That one callback is about the first survivor, now on top, and the dead focus that was listed right above it.
  lemma ClearEach(items: seq<FocusId>, alive: set<int>, flag: int) returns (k: nat)
    ensures k <= |items| && forall j :: 0 <= j < k ==> items[j].thread !in alive
    ensures k < |items| ==> items[k].thread in alive
    ensures ClearCalls(items, alive, flag)
            == if 0 < k < |items| then [Change(items[k - 1].(state := StackTop), items[k].(state := StackTop), flag)]
               else []
  {
    k := FirstAlive(items, alive);
  }

  // ---------- Requests ----------

  // What the matrix answers to a stream under a top, and what it says without one.
  function Answer(cfg: Config, level: nat, items: seq<FocusId>): int
    requires cfg.Valid() && LevelsFit(cfg, items) && level < |cfg.streams|
  {
    if items == [] then 0
    else
      IndexInRange(|cfg.streams|, level, items[0].level);
      cfg.matrix[level * |cfg.streams| + items[0].level].active
  }

  lemma AdmittedAnswer(cfg: Config, items: seq<FocusId>, level: nat, thread: int, client: nat)
    requires cfg.Valid() && LevelsFit(cfg, items) && WellFormed(items, cfg.depth) && level < |cfg.streams|
    ensures var out, a := Admitted(cfg, items, level, thread, client), Answer(cfg, level, items);
            && (|items| == cfg.depth ==> out == Outcome(items, [], None, None))
            && (|items| < cfg.depth ==>
                  && (out.handle == None <==> items != [] && (a == 3 || a == 4) && level <= items[0].level)
                  && out.suggestion == Some(if a == 0 || a == 3 || a == 4 then a else 1)
                  && (out.suggestion == Some(1) ==> out.handle.value >= 15 && out.handle.value / 0x1_0000 >= cfg.depth)
                  && (out.handle == None || out.suggestion == Some(1) ==> out.items == items && out.calls == []))
  {
    var id := LeastFree(items, cfg.depth, 0);
    hide LeastFree, Pushed, PushCalls, BroadcastCalls, Inserted, WellFormed;
    if items != [] {
      IndexInRange(|cfg.streams|, level, items[0].level);
      assert Active(cfg, level, items[0]) == Answer(cfg, level, items);
    }
  }

  // A focus that got a handle it can play with stands where its level puts it, or on top if it plays.
  predicate Placing(before: seq<FocusId>, after: seq<FocusId>, focus: FocusId, a: int, depth: nat, handle: int) {
    && handle == focus.clientId * 0x1_0000 + 15 && 0 <= focus.clientId < depth && focus.clientId !in Ids(before)
    && exists p :: 0 <= p <= |before|
        && |after| == |before| + 1 && after[p] == focus
        && Ids(after) == Ids(before)[..p] + [focus.clientId] + Ids(before)[p..]
        && (if a == 0 then p == 0 && focus.state == StackTop
            else p > 0 && focus.state == StackUnder
                 && (forall i :: 0 <= i < p ==> before[i].level < focus.level)
                 && (p < |before| ==> focus.level <= before[p].level))
  }

  lemma PushedIds(items: seq<FocusId>, focus: FocusId)
    ensures Ids(Pushed(items, focus)) == [focus.clientId] + Ids(items)
    ensures Ids(Pushed(items, focus)) == Ids(items)[..0] + [focus.clientId] + Ids(items)[0..]
  {
    var ids, pushed := Ids(items), Pushed(items, focus);
    forall i | 0 <= i < |pushed| ensures Ids(pushed)[i] == if i == 0 then focus.clientId else ids[i - 1] {
    }
    hide Pushed, Ids;
    assert Ids(pushed) == [focus.clientId] + ids;
    assert ids[..0] == [] && ids[0..] == ids && [] + [focus.clientId] == [focus.clientId];
  }

  lemma InsertedIds(items: seq<FocusId>, focus: FocusId, p: nat)
    requires p <= |items|
    ensures Ids(Inserted(items, focus, p)) == Ids(items)[..p] + [focus.clientId] + Ids(items)[p..]
  {
  }

  lemma FreeIds(items: seq<FocusId>, id: int)
    ensures IsFree(items, id) <==> id !in Ids(items)
  {
    if !IsFree(items, id) {
      var i :| 0 <= i < |items| && items[i].clientId == id;
      assert Ids(items)[i] == id;
    }
  }

  lemma TopPlacing(before: seq<FocusId>, focus: FocusId, depth: nat)
    requires IsFree(before, focus.clientId) && 0 <= focus.clientId < depth
    ensures Placing(before, Pushed(before, focus), focus.(state := StackTop), 0, depth, IdToHandle(focus.clientId))
  {
    FreeIds(before, focus.clientId);
    PushedIds(before, focus);
    assert Pushed(before, focus)[0] == focus.(state := StackTop);
    hide Ids, IsFree;
  }

  lemma UnderPlacing(before: seq<FocusId>, focus: FocusId, a: int, depth: nat)
    requires IsFree(before, focus.clientId) && 0 <= focus.clientId < depth
    requires a != 0 && InsertIndex(before, focus.level) > 0
    ensures var p := InsertIndex(before, focus.level);
            Placing(before, Inserted(before, focus, p), focus.(state := StackUnder), a, depth,
                    IdToHandle(focus.clientId))
  {
    var p := InsertIndex(before, focus.level);
    FreeIds(before, focus.clientId);
    InsertedIds(before, focus, p);
    assert Inserted(before, focus, p)[p] == focus.(state := StackUnder);
    hide Ids, IsFree;
  }

  lemma AdmittedPlace(cfg: Config, items: seq<FocusId>, level: nat, thread: int, client: nat)
    requires cfg.Valid() && LevelsFit(cfg, items) && WellFormed(items, cfg.depth) && level < |cfg.streams|
    requires var out := Admitted(cfg, items, level, thread, client);
             out.handle != None && out.suggestion != Some(1)
    ensures var out, a := Admitted(cfg, items, level, thread, client), Answer(cfg, level, items);
            exists focus :: Placing(items, out.items, focus, a, cfg.depth, out.handle.value)
                            && focus.level == level && focus.thread == thread && focus.client == Some(client)
    ensures var out, a := Admitted(cfg, items, level, thread, client), Answer(cfg, level, items);
            Heard(out.calls) == if a == 0 then Ids(items) else []
  {
    var out, a := Admitted(cfg, items, level, thread, client), Answer(cfg, level, items);
    var focus := NewFocus(items, cfg.depth, level, thread, client);
    NewFocusFree(items, cfg.depth, level, thread, client);
    if items != [] {
      assert Active(cfg, level, items[0]) == a by { IndexInRange(|cfg.streams|, level, items[0].level); }
    }
    hide LeastFree, BroadcastCalls, PushCalls, Pushed, Inserted, Heard, Ids, WellFormed, IsFree, LevelsFit, Placing,
         Answer, Active, IdToHandle;
    if a == 0 {
      TopPlacing(items, focus, cfg.depth);
      TakeOverHeard(items, focus);
    } else {
      UnderPlacing(items, focus, a, cfg.depth);
      NobodyHeard();
    }
  }

  lemma NobodyHeard()
    ensures Heard([]) == []
  {
  }

  // Whoever was listed before hears once about the new top; the lowered one not twice.
  lemma TakeOverHeard(items: seq<FocusId>, focus: FocusId)
    ensures Heard(PushCalls(items, focus, BLOCK) + BroadcastCalls(Pushed(items, focus), NONBLOCK)) == Ids(items)
    ensures items == [] ==> Heard([]) == Ids(items)
  {
    var pushed := Pushed(items, focus);
    PushedIds(items, focus);
    HeardJoin(PushCalls(items, focus, BLOCK), BroadcastCalls(pushed, NONBLOCK));
    BroadcastHeard(pushed);
    if items != [] {
      HeardOne(Change(focus, items[0].(state := StackUnder), BLOCK));
    }
  }

  lemma KnownStream(cfg: Config, level: nat)
    requires cfg.Valid() && level < |cfg.streams|
    ensures StreamIndex(cfg.streams, cfg.streams[level]) == level
  {
  }

  /* After every run, with any threads alive: whether a request for a stream of the matrix is answered, granted or
     refused, its handle, and its place on the stack. */
  lemma RequestAnswered(cfg: Config, ops: seq<Op>, level: nat, client: nat, thread: int, alive: set<int>)
    requires cfg.Valid() && level < |cfg.streams|
    ensures var was := Run(cfg, ops).items;
            var here := Cleared(was, alive);
            var out := Requested(cfg, was, alive, thread, cfg.streams[level], client);
            && LevelsFit(cfg, here)
            && var a := Answer(cfg, level, here);
               && (|here| >= cfg.depth ==> out.handle == None && out.suggestion == None && out.items == here)
               && (|here| < cfg.depth ==>
                     && (out.handle == None <==> here != [] && (a == 3 || a == 4) && level <= here[0].level)
                     && out.suggestion == Some(if a == 0 || a == 3 || a == 4 then a else 1)
                     && (out.suggestion == Some(1) ==>
                           out.handle.value >= 15 && out.handle.value / 0x1_0000 >= cfg.depth)
                     && (out.handle == None || out.suggestion == Some(1) ==> out.items == here)
                     && (out.handle != None && out.suggestion != Some(1) ==>
                           exists focus :: Placing(here, out.items, focus, a, cfg.depth, out.handle.value)
                             && focus.level == level && focus.thread == thread && focus.client == Some(client)))
  {
    var was := Run(cfg, ops).items;
    TopAlwaysPlays(cfg, ops);
    var here := Cleared(was, alive);
    ClearedWellFormed(was, alive, cfg.depth);
    LevelsOfCleared(cfg, was, alive);
    KnownStream(cfg, level);
    var out := Admitted(cfg, here, level, thread, client);
    AdmittedAnswer(cfg, here, level, thread, client);
    hide Cleared, ClearCalls, Admitted, Placing, Answer, WellFormed, LevelsFit;
    if out.handle != None && out.suggestion != Some(1) {
      AdmittedPlace(cfg, here, level, thread, client);
    }
  }

  /* Who is told of it: the first survivor, if the top has died, and everyone who was listed, once and in order, if the
     new focus took over. */
  lemma RequestHeard(cfg: Config, ops: seq<Op>, level: nat, client: nat, thread: int, alive: set<int>)
    requires cfg.Valid() && level < |cfg.streams|
    ensures var was := Run(cfg, ops).items;
            var here := Cleared(was, alive);
            var out := Requested(cfg, was, alive, thread, cfg.streams[level], client);
            Heard(out.calls) == (if was != [] && was[0].thread !in alive && here != [] then [here[0].clientId] else [])
                                + if out.suggestion == Some(0) then Ids(here) else []
  {
    var was := Run(cfg, ops).items;
    TopAlwaysPlays(cfg, ops);
    var here := Cleared(was, alive);
    ClearedWellFormed(was, alive, cfg.depth);
    LevelsOfCleared(cfg, was, alive);
    KnownStream(cfg, level);
    ClearHeard(was, alive);
    var out := Admitted(cfg, here, level, thread, client);
    HeardJoin(ClearCalls(was, alive, NONBLOCK), out.calls);
    AdmittedAnswer(cfg, here, level, thread, client);
    hide Cleared, ClearCalls, Admitted, Heard, Placing, Answer, WellFormed, LevelsFit;
    NobodyHeard();
    if out.handle != None && out.suggestion != Some(1) {
      AdmittedPlace(cfg, here, level, thread, client);
    }
  }

  // ---------- Leaving ----------

  /* After every run: leaving with a handle takes away the focus of its id among the living, if there is one; the new
     top and everyone below it are told only if the old top left. */
  lemma LeavingTells(cfg: Config, ops: seq<Op>, handle: int, alive: set<int>)
    requires cfg.Valid() && handle >= 15
    ensures var was := Run(cfg, ops).items;
            var here := Cleared(was, alive);
            var out := Abandoned(was, alive, handle);
            var first := if was != [] && was[0].thread !in alive && here != [] then [here[0].clientId] else [];
            Heard(out.calls)
            == first + if here != [] && here[0].clientId == handle / 0x1_0000 then Ids(here)[1..] else []
  {
    var was := Run(cfg, ops).items;
    var here, id := Cleared(was, alive), handle / 0x1_0000;
    ClearHeard(was, alive);
    HeardJoin(ClearCalls(was, alive, NONBLOCK), Left(here, id).calls);
    hide Cleared, ClearCalls, BroadcastCalls, Heard;
    NobodyHeard();
    if here != [] && here[0].clientId == id {
      LeftHeard(here);
    }
  }

  lemma LeftHeard(items: seq<FocusId>)
    requires items != []
    ensures Heard(PopCalls(items, NONBLOCK) + BroadcastCalls(Popped(items), NONBLOCK)) == Ids(items)[1..]
  {
    var rest := Popped(items);
    PoppedIds(items);
    HeardJoin(PopCalls(items, NONBLOCK), BroadcastCalls(rest, NONBLOCK));
    if |items| >= 2 {
      BroadcastHeard(rest);
      HeardOne(Change(items[0].(state := StackQuit), items[1].(state := StackTop), NONBLOCK));
      hide Ids, Popped, BroadcastCalls, Heard;
    }
  }

  lemma PoppedIds(items: seq<FocusId>)
    requires items != []
    ensures Ids(Popped(items)) == Ids(items)[1..]
    ensures |items| >= 2 ==> Popped(items) != [] && Ids(items)[1..] == [items[1].clientId] + Ids(Popped(items))[1..]
  {
    assert forall i :: 0 <= i < |items| - 1 ==> Popped(items)[i].clientId == items[i + 1].clientId;
    assert Ids(Popped(items)) == Ids(items)[1..];
    hide Popped;
  }
}
