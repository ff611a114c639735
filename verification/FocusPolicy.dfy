/** Arbitration between streams: the interaction matrix, handles, and what a request or an abandonment
    does to the focus stack, on plain values. */
module FocusPolicy {
  import opened Prelude
  import opened Words
  import opened FocusSpec

  // Suggestions
  const PLAY := 0
  const STOP := 1
  const PAUSE := 2
  const PLAY_BUT_SILENT := 3
  const PLAY_WITH_DUCK := 4
  const PLAY_WITH_KEEP := 5

  // Callback flags: only the second one lets a change reach the client.
  const BLOCK := 0
  const NONBLOCK := -1

  // What a stream gets when it asks (`active`) and when another is on top (`passive`).
  datatype Cell = Cell(active: nat, passive: nat)

  datatype Config = Config(streams: seq<string>, matrix: seq<Cell>, depth: nat) {
    predicate Valid() {
      && |matrix| == |streams| * |streams|
      && forall i, j :: 0 <= i < j < |streams| ==> streams[i] != streams[j]
    }
  }

  // ---------- Handles ----------

  function IdToHandle(id: int): int { id * 0x1_0000 + 0xF }

  function HandleToId(handle: int): int { handle / 0x1_0000 }

  // A handle gives its id back, in an int of 32 bits exactly if the id has 16.
  lemma HandleRoundTrip(id: int)
    ensures HandleToId(IdToHandle(id)) == id
    ensures id >= 0 ==> IdToHandle(id) >= 15
    ensures HandleToId(ToInt32(IdToHandle(id))) == id <==> -0x8000 <= id < 0x8000
  {
    assert -0x8000_0000 <= IdToHandle(id) < 0x8000_0000 <==> -0x8000 <= id < 0x8000;
  }

  // ---------- The matrix ----------

  predicate LevelsFit(cfg: Config, items: seq<FocusId>) {
    forall i :: 0 <= i < |items| ==> 0 <= items[i].level < |cfg.streams|
  }

  lemma RowBound(x: int, y: int, k: int)
    requires x <= y && k >= 0
    ensures x * k <= y * k
  {
  }

  // A matrix index made of two levels is always in range, so the "no matched data" branches are dead.
  lemma IndexInRange(num: nat, row: int, column: int)
    requires 0 <= row < num && 0 <= column < num
    ensures 0 <= row * num + column < num * num
  {
    RowBound(row, num - 1, num);
    RowBound(0, row, num);
  }

  function Arbitrate(cfg: Config, top: FocusId, cur: FocusId): int
  {
    match cur.state
    case StackTop => PLAY
    case StackQuit => STOP
    case StackUnder =>
      var location := top.level * |cfg.streams| + cur.level;
      if 0 <= location < |cfg.matrix| then cfg.matrix[location].passive else STOP
  }

  function Passive(cfg: Config, top: FocusId, cur: FocusId): nat
    requires cfg.Valid() && 0 <= top.level < |cfg.streams| && 0 <= cur.level < |cfg.streams|
  {
    IndexInRange(|cfg.streams|, top.level, cur.level);
    cfg.matrix[top.level * |cfg.streams| + cur.level].passive
  }

  function ActiveEntry(cfg: Config, level: int, topLevel: int): nat
    requires cfg.Valid() && 0 <= level < |cfg.streams| && 0 <= topLevel < |cfg.streams|
  {
    IndexInRange(|cfg.streams|, level, topLevel);
    cfg.matrix[level * |cfg.streams| + topLevel].active
  }

  function Active(cfg: Config, level: int, top: FocusId): nat
    requires cfg.Valid() && 0 <= level < |cfg.streams| && 0 <= top.level < |cfg.streams|
  {
    ActiveEntry(cfg, level, top.level)
  }

  lemma ArbitrateUnder(cfg: Config, top: FocusId, cur: FocusId)
    requires cfg.Valid() && 0 <= top.level < |cfg.streams| && 0 <= cur.level < |cfg.streams|
    requires cur.state == StackUnder
    ensures Arbitrate(cfg, top, cur) == Passive(cfg, top, cur)
    ensures var place := top.level * |cfg.streams| + cur.level;
            0 <= place < |cfg.matrix| && Arbitrate(cfg, top, cur) == cfg.matrix[place].passive
  {
    IndexInRange(|cfg.streams|, top.level, cur.level);
  }

  // ---------- Requests ----------

  function StreamIndex(streams: seq<string>, name: string): (k: nat)
    ensures k <= |streams|
    ensures k < |streams| ==> streams[k] == name
    ensures forall i :: 0 <= i < k ==> streams[i] != name
  {
    if streams == [] || streams[0] == name then 0 else 1 + StreamIndex(streams[1..], name)
  }

  // Where a level goes: before the first focus of at least that level.
  function InsertIndex(items: seq<FocusId>, level: int): (k: nat)
    ensures k <= |items|
    ensures k < |items| ==> level <= items[k].level
    ensures forall i :: 0 <= i < k ==> items[i].level < level
  {
    if items == [] || level <= items[0].level then 0 else 1 + InsertIndex(items[1..], level)
  }

  // The least free slot at or after `from`, or the depth.
  function LeastFree(items: seq<FocusId>, depth: nat, from: nat): (id: nat)
    requires from <= depth
    ensures from <= id <= depth
    ensures id < depth ==> IsFree(items, id)
    ensures forall s :: from <= s < id ==> !IsFree(items, s)
    decreases depth - from
  {
    if from == depth || IsFree(items, from) then from else LeastFree(items, depth, from + 1)
  }

  /* What a request leaves behind: the stack, the callbacks made, the handle (None for a null one) and
     the suggestion returned (None when it was not written). */
  datatype Outcome = Outcome(items: seq<FocusId>, calls: seq<Change>, handle: Option<int>, suggestion: Option<int>)

  function NewFocus(items: seq<FocusId>, depth: nat, level: int, thread: int, client: nat): FocusId {
    FocusId(LeastFree(items, depth, 0), level, thread, StackQuit, Some(client))
  }

  // Where the matrix puts a new focus on a stack that has a top.
  function Placed(cfg: Config, items: seq<FocusId>, focus: FocusId): Outcome
    requires cfg.Valid() && LevelsFit(cfg, items) && items != [] && 0 <= focus.level < |cfg.streams|
  {
    var suggestion := Active(cfg, focus.level, items[0]);
    var handle := Some(IdToHandle(focus.clientId));
    if suggestion == PLAY then
      var pushed := Pushed(items, focus);
      Outcome(pushed, PushCalls(items, focus, BLOCK) + BroadcastCalls(pushed, NONBLOCK), handle, Some(PLAY))
    else if suggestion == PLAY_BUT_SILENT || suggestion == PLAY_WITH_DUCK then
      var index := InsertIndex(items, focus.level);
      if index == 0 then Outcome(items, [], None, Some(suggestion))
      else Outcome(Inserted(items, focus, index), [], handle, Some(suggestion))
    else Outcome(items, [], Some(IdToHandle(focus.clientId + cfg.depth)), Some(STOP))
  }

  // The part of a request that comes after dead threads have been cleared.
  function Admitted(cfg: Config, items: seq<FocusId>, level: int, thread: int, client: nat): Outcome
    requires cfg.Valid() && LevelsFit(cfg, items) && 0 <= level < |cfg.streams|
  {
    var focus := NewFocus(items, cfg.depth, level, thread, client);
    if |items| == cfg.depth then Outcome(items, [], None, None)
    else if items == [] then Outcome(Pushed(items, focus), [], Some(IdToHandle(focus.clientId)), Some(PLAY))
    else Placed(cfg, items, focus)
  }

  function Requested(cfg: Config, items: seq<FocusId>, alive: set<int>, thread: int, stream: string, client: nat)
    : Outcome
    requires cfg.Valid() && LevelsFit(cfg, items)
  {
    var level := StreamIndex(cfg.streams, stream);
    if level == |cfg.streams| then Outcome(items, [], None, None)
    else
      var cleared := Cleared(items, alive);
      LevelsOfCleared(cfg, items, alive);
      var out := Admitted(cfg, cleared, level, thread, client);
      out.(calls := ClearCalls(items, alive, NONBLOCK) + out.calls)
  }

  // ---------- Abandonments ----------

  // The stack, the callbacks made and the value returned.
  datatype Departure = Departure(items: seq<FocusId>, calls: seq<Change>, ret: int)

  function Left(items: seq<FocusId>, id: int): Departure {
    if items == [] then Departure(items, [], -ENOENT)
    else if items[0].clientId == id then
      Departure(Popped(items), PopCalls(items, NONBLOCK) + BroadcastCalls(Popped(items), NONBLOCK), 0)
    else Departure(Deleted(items, id), [], 0)
  }

  lemma DeleteHead(items: seq<FocusId>, id: int, flag: int)
    requires items != [] && items[0].clientId == id
    ensures Deleted(items, id) == Popped(items) && DeleteCalls(items, id, flag) == PopCalls(items, flag)
  {
    assert Without(items, 0) == items[1..];
  }

  function Abandoned(items: seq<FocusId>, alive: set<int>, handle: int): Departure {
    if handle < 15 then Departure(items, [], -EINVAL)
    else
      var out := Left(Cleared(items, alive), HandleToId(handle));
      out.(calls := ClearCalls(items, alive, NONBLOCK) + out.calls)
  }

  // ---------- Levels ----------

  lemma {:induction false} LevelsOfLiving(cfg: Config, items: seq<FocusId>, alive: set<int>)
    requires LevelsFit(cfg, items)
    ensures LevelsFit(cfg, Living(items, alive))
  {
    if items != [] {
      LevelsOfLiving(cfg, items[..|items| - 1], alive);
    }
  }

  lemma LevelsOfCleared(cfg: Config, items: seq<FocusId>, alive: set<int>)
    requires LevelsFit(cfg, items)
    ensures LevelsFit(cfg, Cleared(items, alive))
  {
    LevelsOfLiving(cfg, items, alive);
  }

  lemma OneLevelFits(cfg: Config, focus: FocusId)
    ensures LevelsFit(cfg, [focus]) <==> 0 <= focus.level < |cfg.streams|
  {
    assert [focus][0] == focus;
  }

  lemma LevelsOfPushed(cfg: Config, items: seq<FocusId>, focus: FocusId)
    requires LevelsFit(cfg, items) && LevelsFit(cfg, [focus])
    ensures LevelsFit(cfg, Pushed(items, focus))
  {
    assert [focus][0] == focus;
  }

  lemma LevelsOfAdmitted(cfg: Config, items: seq<FocusId>, level: int, thread: int, client: nat)
    requires cfg.Valid() && LevelsFit(cfg, items) && 0 <= level < |cfg.streams|
    ensures LevelsFit(cfg, Admitted(cfg, items, level, thread, client).items)
  {
    var focus := NewFocus(items, cfg.depth, level, thread, client);
    OneLevelFits(cfg, focus);
    LevelsOfPushed(cfg, items, focus);
  }

  lemma LevelsOfPromoted(cfg: Config, items: seq<FocusId>)
    requires LevelsFit(cfg, items)
    ensures LevelsFit(cfg, Promoted(items))
  {
  }

  lemma LevelsOfWithout(cfg: Config, items: seq<FocusId>, k: nat)
    requires LevelsFit(cfg, items) && k < |items|
    ensures LevelsFit(cfg, Without(items, k))
  {
  }

  lemma LevelsOfDeleted(cfg: Config, items: seq<FocusId>, id: int)
    requires LevelsFit(cfg, items)
    ensures LevelsFit(cfg, Deleted(items, id))
    ensures items != [] ==> LevelsFit(cfg, Popped(items))
  {
    var k := IndexOf(items, id);
    if k < |items| {
      LevelsOfWithout(cfg, items, k);
      LevelsOfPromoted(cfg, Without(items, k));
      LevelsOfPromoted(cfg, items[1..]);
    }
  }
}
