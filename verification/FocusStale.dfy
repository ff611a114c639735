/** Runs of the focus service after which a client holds a suggestion about a focus that is gone. */
module FocusStale {
  import opened Prelude
  import opened FocusSpec
  import opened FocusPolicy
  import opened FocusRuns
  import opened FocusOrder

  // ---------- A stack of ducked clients ----------

  // Threads 1 to n.
  function Threads(n: nat): (ts: set<int>)
    ensures forall t: int :: t in ts <==> 1 <= t <= n
  {
    if n == 0 then {} else Threads(n - 1) + {n}
  }

  // One client of each of the first k streams, each on a thread of its own.
  function Queue(k: nat): (items: seq<FocusId>)
    ensures |items| == k
    ensures forall i :: 0 <= i < k ==>
              items[i] == FocusId(i, i, i + 1, if i == 0 then StackTop else StackUnder, Some(0))
  {
    seq(k, i requires 0 <= i < k => FocusId(i, i, i + 1, if i == 0 then StackTop else StackUnder, Some(0)))
  }

  lemma QueueMore(k: nat)
    ensures Queue(k + 1) == Queue(k) + [FocusId(k, k, k + 1, if k == 0 then StackTop else StackUnder, Some(0))]
  {
  }

  // The streams ask one after the other while everyone is alive.
  function Asks(cfg: Config, k: nat, n: nat): (ops: seq<Op>)
    requires k <= n <= |cfg.streams|
    ensures |ops| == k
  {
    if k == 0 then [] else Asks(cfg, k - 1, n) + [Ask(cfg.streams[k - 1], 0, k, Threads(n))]
  }

  // Everyone after the first is ducked and put at the end.
  lemma OneMoreAsks(cfg: Config, k: nat)
    requires k < cfg.depth && cfg == DuckThenPause(|cfg.streams|, cfg.depth) && k < |cfg.streams|
    requires LevelsFit(cfg, Queue(k))
    ensures var focus := FocusId(k, k, k + 1, StackQuit, Some(0));
            Admitted(cfg, Queue(k), k, k + 1, 0)
            == if k == 0 then Outcome(Queue(1), [], Some(IdToHandle(0)), Some(PLAY))
               else Outcome(Queue(k + 1), [], Some(IdToHandle(k)), Some(PLAY_WITH_DUCK))
  {
    var items := Queue(k);
    var focus := NewFocus(items, cfg.depth, k, k + 1, 0);
    LeastOfQueue(k, cfg.depth);
    assert focus == FocusId(k, k, k + 1, StackQuit, Some(0));
    QueueMore(k);
    hide Queue, LeastFree, NewFocus;
    if k == 0 {
      assert Pushed([], focus) == [focus.(state := StackTop)] + [];
      assert Queue(0) == [];
    } else {
      IndexInRange(|cfg.streams|, k, 0);
      assert Active(cfg, k, items[0]) == PLAY_WITH_DUCK;
      LastLevel(items, k);
      assert items[..k] == items && items[k..] == [];
      assert Inserted(items, focus, k) == items + [focus.(state := StackUnder)] + [];
    }
  }

  lemma {:induction false} LastLevel(items: seq<FocusId>, level: int)
    requires forall i :: 0 <= i < |items| ==> items[i].level < level
    ensures InsertIndex(items, level) == |items|
  {
    if items != [] {
      LastLevel(items[1..], level);
    }
  }

  lemma LeastOfQueue(k: nat, depth: nat)
    requires k < depth
    ensures LeastFree(Queue(k), depth, 0) == k
  {
    var items := Queue(k);
    assert IsFree(items, k);
    forall s | 0 <= s < k ensures !IsFree(items, s) {
      assert items[s].clientId == s;
    }
    hide IsFree;
    NotBefore(items, depth, k);
  }

  lemma NotBefore(items: seq<FocusId>, depth: nat, k: nat)
    requires k < depth && IsFree(items, k) && forall s :: 0 <= s < k ==> !IsFree(items, s)
    ensures LeastFree(items, depth, 0) == k
  {
  }

  // The desk after that.
  function QueueDesk(k: nat): Desk { Desk(Queue(k), FreshNotes(Queue(k)), k) }

  lemma QueueFits(cfg: Config, k: nat)
    requires k <= |cfg.streams|
    ensures LevelsFit(cfg, Queue(k))
  {
  }

  lemma NotesMore(k: nat)
    ensures DistinctClients(Queue(k)) && DistinctClients(Queue(k + 1))
    ensures FreshNotes(Queue(k + 1))
            == FreshNotes(Queue(k))[k := Note(if k == 0 then PLAY else PLAY_WITH_DUCK, k, 0)]
  {
    assert Queue(k + 1)[..k] == Queue(k);
  }

  lemma Entered(cfg: Config, k: nat)
    requires k < cfg.depth && cfg == DuckThenPause(|cfg.streams|, cfg.depth) && k < |cfg.streams|
    requires LevelsFit(cfg, Queue(k))
    ensures DistinctClients(Queue(k)) && DistinctClients(Queue(k + 1))
    ensures Enter(cfg, QueueDesk(k), Admitted(cfg, Queue(k), k, k + 1, 0)) == QueueDesk(k + 1)
  {
    OneMoreAsks(cfg, k);
    NotesMore(k);
    HandleRoundTrip(k);
    hide Admitted, FreshNotes;
  }

  lemma PromotedSame(items: seq<FocusId>)
    requires items != [] ==> items[0].state == StackTop
    ensures Promoted(items) == items
  {
  }

  lemma AllLive(k: nat, n: nat)
    requires k <= n
    ensures Cleared(Queue(k), Threads(n)) == Queue(k) && ClearCalls(Queue(k), Threads(n), NONBLOCK) == []
  {
    hide Threads, Queue, Living, Promoted, FirstAlive;
    var items := Queue(k);
    forall i | 0 <= i < k ensures items[i].thread in Threads(n) {
      assert items[i].thread == i + 1;
    }
    LivingAll(items, Threads(n));
    PromotedSame(items);
    if k > 0 {
      assert items[0].thread in Threads(n);
    }
  }

  lemma QueueStep(cfg: Config, k: nat, n: nat)
    requires k < n == |cfg.streams| && n <= cfg.depth && cfg == DuckThenPause(n, cfg.depth)
    requires LevelsFit(cfg, Queue(k))
    ensures DistinctClients(Queue(k)) && DistinctClients(Queue(k + 1))
    ensures Step(cfg, QueueDesk(k), Ask(cfg.streams[k], 0, k + 1, Threads(n))) == QueueDesk(k + 1)
  {
    hide Queue, Living, LevelsFit, FreshNotes, Enter, Admitted, Cleared, ClearCalls, Threads, DuckThenPause,
         StreamIndex,
         Step, DistinctClients;
    Entered(cfg, k);
    StreamFound(cfg, k);
    AllLive(k, n);
    StepStages(cfg, QueueDesk(k), Ask(cfg.streams[k], 0, k + 1, Threads(n)));
  }

  lemma {:induction false} QueueRun(cfg: Config, k: nat, n: nat)
    requires k <= n == |cfg.streams| && n <= cfg.depth && cfg == DuckThenPause(n, cfg.depth)
    ensures DistinctClients(Queue(k)) && Run(cfg, Asks(cfg, k, n)) == QueueDesk(k)
  {
    hide Queue, FreshNotes, Step, LevelsFit, DuckThenPause, DistinctClients;
    if k == 0 {
      NobodyYet();
    } else {
      QueueRun(cfg, k - 1, n);
      assert Asks(cfg, k, n)[..k - 1] == Asks(cfg, k - 1, n);
      QueueFits(cfg, k - 1);
      QueueStep(cfg, k - 1, n);
    }
  }

  lemma NobodyYet()
    ensures DistinctClients(Queue(0)) && QueueDesk(0) == START
  {
    assert Queue(0) == [];
  }

  // ---------- The top dies ----------

  /* From the start, for any number of streams: they ask one after the other, the first one's thread dies, and
     some call that changes nothing else clears it away.  With two or more left, the second of them is still
     ducked under a focus that is gone. */
  lemma StaleRun(n: nat, depth: nat, alive: set<int>)
    requires n <= depth && 1 !in alive && |Living(Queue(n), alive)| >= 2
    ensures var cfg := DuckThenPause(n, depth);
            var ops := Asks(cfg, n, n) + [Quit(IdToHandle(depth), alive)];
            Sound(cfg, Run(cfg, ops)) && !Coherent(cfg, Run(cfg, ops))
  {
    var cfg := DuckThenPause(n, depth);
    var before, last := Asks(cfg, n, n), Quit(IdToHandle(depth), alive);
    var ops := before + [last];
    assert ops[..n] == before && ops[n] == last;
    hide Queue, Living, FreshNotes, Step, Threads, LevelsFit, WellFormed, DuckThenPause, Informed, Promoted;
    QueueRun(cfg, n, n);
    TopAlwaysPlays(cfg, ops);
    TopAlwaysPlays(cfg, before);
    ClearedAway(cfg, n, alive);
    LastClears(cfg, QueueDesk(n), depth, alive);
  }

  // Abandoning a handle that names no slot clears the dead away and nothing more.
  lemma LastClears(cfg: Config, d: Desk, id: nat, alive: set<int>)
    requires Sound(cfg, d) && id >= cfg.depth && Cleared(d.items, alive) != []
    ensures Step(cfg, d, Quit(IdToHandle(id), alive)) == ClearDesk(cfg, d, alive)
  {
    StepStages(cfg, d, Quit(IdToHandle(id), alive));
    HandleRoundTrip(id);
    ClearSound(cfg, d, alive);
    hide Step, Cleared, ClearCalls, Deliver, LevelsFit, Noted;
    NobodyLeaves(cfg, ClearDesk(cfg, d, alive), id);
  }

  lemma ClearedAway(cfg: Config, n: nat, alive: set<int>)
    requires cfg == DuckThenPause(n, cfg.depth) && n <= cfg.depth && 1 !in alive && |Living(Queue(n), alive)| >= 2
    requires DistinctClients(Queue(n)) && Sound(cfg, QueueDesk(n))
    ensures Sound(cfg, ClearDesk(cfg, QueueDesk(n), alive)) && Cleared(Queue(n), alive) != []
    ensures !Coherent(cfg, ClearDesk(cfg, QueueDesk(n), alive))
  {
    hide Queue, Living, FreshNotes, LevelsFit, WellFormed, Noted, DuckThenPause;
    var d := QueueDesk(n);
    LivingHead(Queue(n), alive);
    ClearSound(cfg, d, alive);
    StaleSecond(cfg, d, alive);
    hide Deliver, ClearCalls, Informed;
    assert |Cleared(Queue(n), alive)| == |Living(Queue(n), alive)|;
  }

  lemma NobodyLeaves(cfg: Config, d: Desk, id: int)
    requires d.items != [] && IsFree(d.items, id)
    ensures LeaveDesk(cfg, d, id) == d
  {
  }
}
