/** The focus service: requests and abandonments run against the focus stack. */
module MediaFocus {
  import opened Prelude
  import opened FocusSpec
  import opened FocusPolicy
  import opened FocusStack

  class Focus {
    const cfg: Config
    const stack: Stack

    ghost predicate Valid()
      reads stack, stack.nodes
    {
      && cfg.Valid()
      && stack.Valid() && stack.maxSize == cfg.depth
      && LevelsFit(cfg, stack.Contents())
    }

    constructor (config: Config)
      requires config.Valid()
      ensures Valid() && cfg == config && fresh(stack) && fresh(stack.nodes)
      ensures stack.Contents() == [] && stack.calls == []
    {
      cfg := config;
      stack := new Stack(config.depth);
    }

    // Puts a focus among those of its level; one that would land on top is refused.
    method FocusIdInsert(focus: FocusId) returns (ret: int)
      requires Valid() && stack.Contents() != [] && |stack.Contents()| < cfg.depth
      requires 0 <= focus.clientId < cfg.depth && IsFree(stack.Contents(), focus.clientId)
      modifies stack, stack.nodes
      ensures stack.Valid() && stack.calls == old(stack.calls)
      ensures var items := old(stack.Contents());
              var index := InsertIndex(items, focus.level);
              && (index > 0 ==> ret == 0 && stack.Contents() == Inserted(items, focus, index))
              && (index == 0 ==> ret == -EINVAL && stack.Contents() == items
                                 && stack.order == old(stack.order) && stack.nodes[..] == old(stack.nodes[..]))
    {
      hide Links, Items, WellFormed, LevelsFit, Inserted, IsFree;
      ghost var items := stack.Contents();
      var index := 0;
      var ret0, at := stack.GetIndex(index);
      while ret0 == 0 && focus.level > at.value.level
        invariant 0 <= index <= InsertIndex(items, focus.level)
        invariant if index < |items| then ret0 == 0 && at == Some(items[index]) else ret0 != 0
        decreases |items| - index
        modifies {}
      {
        index := index + 1;
        ret0, at := stack.GetIndex(index);
      }
      var inserted := stack.Insert(focus, index);
      ret := if inserted < 0 then -EINVAL else 0;
    }

    // Puts a focus on top and tells the others.
    method TakeOver(focus: FocusId)
      requires Valid() && |stack.Contents()| < cfg.depth && LevelsFit(cfg, [focus])
      requires 0 <= focus.clientId < cfg.depth && IsFree(stack.Contents(), focus.clientId)
      modifies stack, stack.nodes
      ensures Valid()
      ensures var items := old(stack.Contents());
              stack.Contents() == Pushed(items, focus)
              && stack.calls == old(stack.calls) + (PushCalls(items, focus, BLOCK)
                                                    + BroadcastCalls(Pushed(items, focus), NONBLOCK))
    {
      hide Links, Items, WellFormed, PushCalls, BroadcastCalls, Stack.Linked, Stack.Listed, Stack.Contents;
      LevelsOfPushed(cfg, stack.Contents(), focus);
      AppendTwice(stack.calls, PushCalls(stack.Contents(), focus, BLOCK),
                  BroadcastCalls(Pushed(stack.Contents(), focus), NONBLOCK));
      hide LevelsFit, Pushed;
      var _ := stack.Push(focus, BLOCK);
      var _ := stack.TopChangeBroadcast(NONBLOCK);
    }

    // What the matrix says about a new focus decides where it goes, if anywhere.
    method Compete(focus: FocusId, top: FocusId) returns (suggestion: int, refused: bool)
      requires Valid() && 0 < |stack.Contents()| < cfg.depth && stack.Contents()[0] == top
      requires 0 <= focus.level < |cfg.streams|
      requires 0 <= focus.clientId < cfg.depth && IsFree(stack.Contents(), focus.clientId)
      modifies stack, stack.nodes
      ensures stack.Valid()
      ensures var out := Placed(cfg, old(stack.Contents()), focus);
              && stack.Contents() == out.items && stack.calls == old(stack.calls) + out.calls
              && out.suggestion == Some(suggestion) && (refused <==> out.handle == None)
    {
      OneLevelFits(cfg, focus);
      suggestion := Active(cfg, focus.level, top);
      hide Active, Config.Valid, Links, Items, WellFormed, LevelsFit, IsFree, Pushed, PushCalls, BroadcastCalls,
           Inserted, InsertIndex, Stack.Linked, Stack.Listed, Stack.Contents;
      refused := false;
      if suggestion == PLAY {
        TakeOver(focus);
      } else if suggestion == PLAY_BUT_SILENT || suggestion == PLAY_WITH_DUCK {
        var inserted := FocusIdInsert(focus);
        refused := inserted < 0;
      } else {
        suggestion := STOP;
      }
    }

    // The rest of a request, once the stream is known and dead threads are gone.
    method Admit(level: int, client: nat, thread: int) returns (handle: Option<int>, suggestion: Option<int>)
      requires Valid() && 0 <= level < |cfg.streams|
      modifies stack, stack.nodes
      ensures Valid()
      ensures var out := Admitted(cfg, old(stack.Contents()), level, thread, client);
              && stack.Contents() == out.items && stack.calls == old(stack.calls) + out.calls
              && handle == out.handle && suggestion == out.suggestion
    {
      hide Links, Items, StatesMatch, DistinctClients, Stack.Linked, Stack.Listed, Stack.Contents, Stack.Valid;
      ghost var items := stack.Contents();
      LevelsOfAdmitted(cfg, items, level, thread, client);
      var id := stack.FreeClientId();
      if id < 0 {
        return None, None;
      }
      assert id == LeastFree(items, cfg.depth, 0);
      var focus := FocusId(id, level, thread, StackQuit, Some(client));
      assert focus == NewFocus(items, cfg.depth, level, thread, client);
      hide IsFree, LeastFree, NewFocus, Placed, Pushed, PushCalls;
      var found, top := stack.Top();
      if found == 0 {
        var answer, refused := Compete(focus, top.value);
        suggestion := Some(answer);
        if refused {
          return None, suggestion;
        }
      } else {
        suggestion := Some(PLAY);
        var _ := stack.Push(focus, BLOCK);
      }
      handle := Some(IdToHandle(if suggestion == Some(STOP) then id + cfg.depth else id));
    }

    method Request(stream: Option<string>, client: Option<nat>, thread: int, alive: set<int>)
      returns (handle: Option<int>, suggestion: Option<int>)
      requires Valid()
      modifies stack, stack.nodes
      ensures Valid()
      ensures stream == None || client == None ==>
                handle == None && suggestion == None
                && stack.Contents() == old(stack.Contents()) && stack.calls == old(stack.calls)
      ensures stream != None && stream.value !in cfg.streams ==>
                handle == None && suggestion == None
                && stack.Contents() == old(stack.Contents()) && stack.calls == old(stack.calls)
      ensures stream != None && client != None ==>
                var out := Requested(cfg, old(stack.Contents()), alive, thread, stream.value, client.value);
                && stack.Contents() == out.items && stack.calls == old(stack.calls) + out.calls
                && handle == out.handle && suggestion == out.suggestion
    {
      hide Links, Items, WellFormed, LevelsFit, Admitted, Cleared, ClearCalls, Stack.Linked, Stack.Listed,
           Stack.Contents;
      if stream == None || client == None {
        return None, None;
      }
      // the stream's number in the matrix
      var level := 0;
      while level < |cfg.streams| && cfg.streams[level] != stream.value
        invariant 0 <= level <= StreamIndex(cfg.streams, stream.value)
        modifies {}
      {
        level := level + 1;
      }
      if level == |cfg.streams| {
        return None, None;
      }
      LevelsOfCleared(cfg, stack.Contents(), alive);
      stack.UselessClear(alive, NONBLOCK);
      handle, suggestion := Admit(level, client.value, thread);
    }

    // The top goes, and the others are told.
    method LeaveTop(top: FocusId)
      requires Valid() && stack.Contents() != [] && stack.Contents()[0] == top
      modifies stack, stack.nodes
      ensures Valid() && stack.Contents() == Popped(old(stack.Contents()))
      ensures var items := old(stack.Contents());
              stack.calls == old(stack.calls) + (PopCalls(items, NONBLOCK) + BroadcastCalls(Popped(items), NONBLOCK))
    {
      ghost var items, was := stack.Contents(), stack.calls;
      LevelsOfDeleted(cfg, items, top.clientId);
      DeleteHead(items, top.clientId, NONBLOCK);
      hide Links, Items, WellFormed, LevelsFit, PopCalls, BroadcastCalls, Deleted, Popped, DeleteCalls, IsFree,
           Stack.Linked, Stack.Listed, Stack.Contents;
      AppendTwice(was, PopCalls(items, NONBLOCK), BroadcastCalls(Popped(items), NONBLOCK));
      var _, _ := stack.Delete(top, NONBLOCK);
      var _ := stack.TopChangeBroadcast(NONBLOCK);
    }

    // The rest of an abandonment, once dead threads are gone.
    method Leave(id: int) returns (ret: int)
      requires Valid()
      modifies stack, stack.nodes
      ensures Valid()
      ensures var out := Left(old(stack.Contents()), id);
              stack.Contents() == out.items && stack.calls == old(stack.calls) + out.calls && ret == out.ret
    {
      LevelsOfDeleted(cfg, stack.Contents(), id);
      hide Links, Items, WellFormed, LevelsFit, PopCalls, BroadcastCalls, Deleted, Popped, Stack.Linked, Stack.Listed,
           Stack.Contents;
      var found, top := stack.Top();
      if found < 0 {
        return -ENOENT;
      }
      if top.value.clientId == id {
        LeaveTop(top.value);
      } else {
        var _, _ := stack.Delete(top.value.(clientId := id), NONBLOCK);
      }
      ret := 0;
    }

    method Abandon(handle: int, alive: set<int>) returns (ret: int)
      requires Valid()
      modifies stack, stack.nodes
      ensures Valid()
      ensures var out := Abandoned(old(stack.Contents()), alive, handle);
              stack.Contents() == out.items && stack.calls == old(stack.calls) + out.calls && ret == out.ret
      ensures handle < 15 ==> ret == -22 && stack.Contents() == old(stack.Contents()) && stack.calls == old(stack.calls)
    {
      hide Links, Items, WellFormed, LevelsFit, Left, Cleared, ClearCalls, Stack.Linked, Stack.Listed, Stack.Contents;
      if handle < 15 {
        return -EINVAL;
      }
      LevelsOfCleared(cfg, stack.Contents(), alive);
      stack.UselessClear(alive, NONBLOCK);
      ret := Leave(HandleToId(handle));
    }
  }
}
