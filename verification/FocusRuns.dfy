/** Whole runs of the focus service: what every client has last been told, under requests, abandonments
    and thread deaths in any order. */
module FocusRuns {
  import opened Prelude
  import opened FocusSpec
  import opened FocusPolicy

  /* What is known about an admitted client: the last suggestion it was given, its admission number, and
     the admission number of the focus that was on top when it was admitted. */
  datatype Note = Note(last: int, serial: nat, host: nat)

  // The stack, the notes by client id, and the number of admissions so far.
  datatype Desk = Desk(items: seq<FocusId>, notes: map<int, Note>, admissions: nat)

  datatype Op =
    | Ask(stream: string, client: nat, thread: int, alive: set<int>)
    | Quit(handle: int, alive: set<int>)

  // ---------- Steps ----------

  // A change that is not blocked gives the client it is about a new suggestion.
  function Tell(cfg: Config, notes: map<int, Note>, call: Change): (after: map<int, Note>)
    ensures SameSerials(notes, after)
  {
    if call.flag >= 0 || call.req.clientId !in notes then notes
    else notes[call.req.clientId := notes[call.req.clientId].(last := Arbitrate(cfg, call.cur, call.req))]
  }

  predicate SameSerials(notes: map<int, Note>, told: map<int, Note>) {
    && told.Keys == notes.Keys
    && forall c :: c in notes ==> told[c].serial == notes[c].serial && told[c].host == notes[c].host
  }

  function Deliver(cfg: Config, notes: map<int, Note>, calls: seq<Change>): (after: map<int, Note>)
    ensures SameSerials(notes, after)
  {
    if calls == [] then notes
    else Tell(cfg, Deliver(cfg, notes, calls[..|calls| - 1]), calls[|calls| - 1])
  }

  lemma DeliverNext(cfg: Config, notes: map<int, Note>, calls: seq<Change>, call: Change)
    ensures Deliver(cfg, notes, calls + [call]) == Tell(cfg, Deliver(cfg, notes, calls), call)
  {
    assert (calls + [call])[..|calls|] == calls;
  }

  function Serial(notes: map<int, Note>, c: int): nat { if c in notes then notes[c].serial else 0 }

  // The admission number of the top that a new client finds; on top itself, its own.
  function HostOf(items: seq<FocusId>, told: map<int, Note>, id: int, admissions: nat): nat {
    if items == [] || items[0].clientId == id then admissions else Serial(told, items[0].clientId)
  }

  // The returned suggestion is the first one an admitted client gets.
  function Enter(cfg: Config, d: Desk, out: Outcome): Desk {
    var told := Deliver(cfg, d.notes, out.calls);
    if out.handle == None || out.suggestion == None || out.suggestion == Some(STOP) then
      Desk(out.items, told, d.admissions)
    else
      var id := HandleToId(out.handle.value);
      Desk(out.items,
           told[id := Note(out.suggestion.value, d.admissions, HostOf(out.items, told, id, d.admissions))],
           d.admissions + 1)
  }

  function Step(cfg: Config, d: Desk, op: Op): Desk
    requires cfg.Valid() && LevelsFit(cfg, d.items)
  {
    match op
    case Ask(stream, client, thread, alive) => Enter(cfg, d, Requested(cfg, d.items, alive, thread, stream, client))
    case Quit(handle, alive) =>
      var out := Abandoned(d.items, alive, handle);
      Desk(out.items, Deliver(cfg, d.notes, out.calls), d.admissions)
  }

  const START := Desk([], map[], 0)

  // The three stages a step is made of.

  function ClearDesk(cfg: Config, d: Desk, alive: set<int>): Desk {
    Desk(Cleared(d.items, alive), Deliver(cfg, d.notes, ClearCalls(d.items, alive, NONBLOCK)), d.admissions)
  }

  function AdmitDesk(cfg: Config, d: Desk, level: int, thread: int, client: nat): Desk
    requires cfg.Valid() && LevelsFit(cfg, d.items) && 0 <= level < |cfg.streams|
  {
    Enter(cfg, d, Admitted(cfg, d.items, level, thread, client))
  }

  function LeaveDesk(cfg: Config, d: Desk, id: int): Desk {
    var out := Left(d.items, id);
    Desk(out.items, Deliver(cfg, d.notes, out.calls), d.admissions)
  }

  lemma {:induction false} DeliverTwice(cfg: Config, notes: map<int, Note>, a: seq<Change>, b: seq<Change>)
    ensures Deliver(cfg, notes, a + b) == Deliver(cfg, Deliver(cfg, notes, a), b)
  {
    hide Tell;
    if b == [] {
      assert a + b == a;
    } else {
      var n := |b| - 1;
      DeliverTwice(cfg, notes, a, b[..n]);
      DeliverNext(cfg, notes, a + b[..n], b[n]);
      assert a + b == a + b[..n] + [b[n]];
    }
  }

  lemma StepStages(cfg: Config, d: Desk, op: Op)
    requires cfg.Valid() && LevelsFit(cfg, d.items)
    ensures op.Ask? ==>
              var level := StreamIndex(cfg.streams, op.stream);
              LevelsFit(cfg, Cleared(d.items, op.alive))
              && Step(cfg, d, op) == if level == |cfg.streams| then d
                                     else AdmitDesk(cfg, ClearDesk(cfg, d, op.alive), level, op.thread, op.client)
    ensures op.Quit? ==>
              Step(cfg, d, op) == if op.handle < 15 then d
                                  else LeaveDesk(cfg, ClearDesk(cfg, d, op.alive), HandleToId(op.handle))
  {
    LevelsOfCleared(cfg, d.items, op.alive);
    var cleared, first := Cleared(d.items, op.alive), ClearCalls(d.items, op.alive, NONBLOCK);
    hide Cleared, ClearCalls, LevelsFit, Config.Valid, Deliver, Admitted, Left;
    match op
    case Ask(stream, client, thread, alive) =>
      var level := StreamIndex(cfg.streams, stream);
      if level < |cfg.streams| {
        DeliverTwice(cfg, d.notes, first, Admitted(cfg, cleared, level, thread, client).calls);
      }
    case Quit(handle, alive) =>
      DeliverTwice(cfg, d.notes, first, Left(cleared, HandleToId(handle)).calls);
  }

  // ---------- Invariants ----------

  // Every listed client has a note, and their admission numbers are distinct.
  predicate Noted(d: Desk) {
    && (forall i :: 0 <= i < |d.items| ==>
          d.items[i].clientId in d.notes && d.notes[d.items[i].clientId].serial < d.admissions)
    && (forall i, j :: 0 <= i < j < |d.items| ==>
          Serial(d.notes, d.items[i].clientId) != Serial(d.notes, d.items[j].clientId))
  }

  predicate Sound(cfg: Config, d: Desk) {
    cfg.Valid() && WellFormed(d.items, cfg.depth) && LevelsFit(cfg, d.items) && Noted(d)
  }

  predicate TopPlays(d: Desk)
    requires Noted(d)
  {
    d.items != [] ==> d.notes[d.items[0].clientId].last == PLAY
  }

  // Client i has last heard its passive entry against the top, or the active entry it was admitted with under it.
  predicate Informed(cfg: Config, d: Desk, i: nat)
    requires Sound(cfg, d) && i < |d.items|
  {
    var note, top := d.notes[d.items[i].clientId], d.items[0];
    note.last == Passive(cfg, top, d.items[i])
    || (note.host == Serial(d.notes, top.clientId) && note.last == Active(cfg, d.items[i].level, top))
  }

  predicate Coherent(cfg: Config, d: Desk)
    requires Sound(cfg, d)
  {
    TopPlays(d) && forall i: nat :: 1 <= i < |d.items| ==> Informed(cfg, d, i)
  }

  // ---------- Survivors ----------

  lemma {:induction false} LivingOrder(items: seq<FocusId>, alive: set<int>, i: nat, j: nat) returns (p: nat, q: nat)
    requires i <= j < |Living(items, alive)|
    ensures i <= p <= q < |items| && (i < j ==> p < q) && (i == j ==> p == q)
    ensures Living(items, alive)[i] == items[p] && Living(items, alive)[j] == items[q]
    ensures items[p].thread in alive && items[q].thread in alive
  {
    var n := |items| - 1;
    if j < |Living(items[..n], alive)| {
      p, q := LivingOrder(items[..n], alive, i, j);
    } else if i < j {
      q := n;
      var p', q' := LivingOrder(items[..n], alive, i, i);
      p := p';
    } else {
      LivingEmpty(items, alive, n);
      p, q := n, n;
    }
  }

  lemma {:induction false} LivingHead(items: seq<FocusId>, alive: set<int>)
    ensures var k := FirstAlive(items, alive);
            (Living(items, alive) == [] <==> k == |items|)
            && (k < |items| ==> Living(items, alive) != [] && Living(items, alive)[0] == items[k])
    ensures |Living(items, alive)| <= |items|
  {
    LivingEmpty(items, alive, |items|);
    assert items[..|items|] == items;
    if Living(items, alive) != [] {
      var p, _ := LivingOrder(items, alive, 0, 0);
      var k := FirstAlive(items, alive);
      LivingEmpty(items, alive, k);
      LivingPrefix(items, alive, k + 1);
      LivingStep(items, alive, k);
    }
  }

  lemma {:induction false} LivingPrefix(items: seq<FocusId>, alive: set<int>, k: nat)
    requires k <= |items|
    ensures Living(items[..k], alive) <= Living(items, alive)
    decreases |items| - k
  {
    if k < |items| {
      LivingPrefix(items, alive, k + 1);
      LivingStep(items, alive, k);
    } else {
      assert items[..k] == items;
    }
  }

  // When nobody dies, clearing changes nothing.
  lemma {:induction false} LivingAll(items: seq<FocusId>, alive: set<int>)
    requires forall i :: 0 <= i < |items| ==> items[i].thread in alive
    ensures Living(items, alive) == items
  {
    if items != [] {
      LivingAll(items[..|items| - 1], alive);
    }
  }

  lemma LivingDistinct(items: seq<FocusId>, alive: set<int>, depth: nat)
    requires WellFormed(items, depth)
    ensures DistinctClients(Living(items, alive)) && |Living(items, alive)| <= depth
    ensures forall i :: 0 <= i < |Living(items, alive)| ==> 0 <= Living(items, alive)[i].clientId < depth
  {
    LivingHead(items, alive);
    hide Living;
    var kept := Living(items, alive);
    forall i, j | 0 <= i < j < |kept| ensures kept[i].clientId != kept[j].clientId {
      var p, q := LivingOrder(items, alive, i, j);
    }
    forall i | 0 <= i < |kept| ensures 0 <= kept[i].clientId < depth {
      var p, q := LivingOrder(items, alive, i, i);
    }
  }

  lemma ClearedWellFormed(items: seq<FocusId>, alive: set<int>, depth: nat)
    requires WellFormed(items, depth)
    ensures WellFormed(Cleared(items, alive), depth)
  {
    LivingDistinct(items, alive, depth);
    SurveyStates(items, alive, |items|);
    assert items[..|items|] == items && Living(items, alive) + items[|items|..] == Living(items, alive);
  }

  // ---------- Clearing ----------

  lemma ClearSound(cfg: Config, d: Desk, alive: set<int>)
    requires Sound(cfg, d)
    ensures Sound(cfg, ClearDesk(cfg, d, alive))
  {
    ClearedWellFormed(d.items, alive, cfg.depth);
    LevelsOfCleared(cfg, d.items, alive);
    hide WellFormed, LevelsFit;
    var after, kept := ClearDesk(cfg, d, alive), Living(d.items, alive);
    forall i, j | 0 <= i < j < |after.items|
      ensures Serial(after.notes, after.items[i].clientId) != Serial(after.notes, after.items[j].clientId)
    {
      var p, q := LivingOrder(d.items, alive, i, j);
    }
    forall i | 0 <= i < |after.items|
      ensures after.items[i].clientId in after.notes
      ensures after.notes[after.items[i].clientId].serial < after.admissions
    {
      var p, q := LivingOrder(d.items, alive, i, i);
    }
  }

  lemma DeliverOne(cfg: Config, notes: map<int, Note>, call: Change)
    requires call.flag < 0 && call.req.clientId in notes
    ensures Deliver(cfg, notes, [call])
            == notes[call.req.clientId := notes[call.req.clientId].(last := Arbitrate(cfg, call.cur, call.req))]
  {
    DeliverNext(cfg, notes, [], call);
    assert [] + [call] == [call];
  }

  // Whoever comes to the top by the death of those above it is told to play.
  lemma ClearTop(cfg: Config, d: Desk, alive: set<int>)
    requires Sound(cfg, d) && TopPlays(d)
    ensures Sound(cfg, ClearDesk(cfg, d, alive)) && TopPlays(ClearDesk(cfg, d, alive))
  {
    ClearSound(cfg, d, alive);
    LivingHead(d.items, alive);
    var k := FirstAlive(d.items, alive);
    if 0 < k < |d.items| {
      DeliverOne(cfg, d.notes, ClearCalls(d.items, alive, NONBLOCK)[0]);
    }
  }

  lemma ClearCoherent(cfg: Config, d: Desk, alive: set<int>)
    requires Sound(cfg, d) && Coherent(cfg, d)
    requires d.items == [] || d.items[0].thread in alive || |Living(d.items, alive)| <= 1
    ensures Sound(cfg, ClearDesk(cfg, d, alive)) && Coherent(cfg, ClearDesk(cfg, d, alive))
  {
    ClearTop(cfg, d, alive);
    var after := ClearDesk(cfg, d, alive);
    forall i: nat | 1 <= i < |after.items| ensures Informed(cfg, after, i) {
      LivingHead(d.items, alive);
      var p, q := LivingOrder(d.items, alive, 0, i);
      assert Informed(cfg, d, q);
    }
  }

  // ---------- Admitting ----------

  lemma PushedWellFormed(items: seq<FocusId>, focus: FocusId, depth: nat)
    requires WellFormed(items, depth) && |items| < depth
    requires 0 <= focus.clientId < depth && IsFree(items, focus.clientId)
    ensures WellFormed(Pushed(items, focus), depth)
  {
  }

  lemma InsertedWellFormed(items: seq<FocusId>, focus: FocusId, index: nat, depth: nat)
    requires WellFormed(items, depth) && |items| < depth && 1 <= index <= |items|
    requires 0 <= focus.clientId < depth && IsFree(items, focus.clientId)
    ensures WellFormed(Inserted(items, focus, index), depth)
  {
  }

  // A broadcast is a broadcast to all but the last, then one more call.
  lemma DeliverLast(cfg: Config, notes: map<int, Note>, items: seq<FocusId>)
    requires |items| >= 2 && items[|items| - 1].clientId in notes
    ensures var n := |items| - 1;
            var before := Deliver(cfg, notes, BroadcastCalls(items[..n], NONBLOCK));
            Deliver(cfg, notes, BroadcastCalls(items, NONBLOCK))
            == before[items[n].clientId := before[items[n].clientId].(last := Arbitrate(cfg, items[0], items[n]))]
  {
    var n := |items| - 1;
    DeliverNext(cfg, notes, BroadcastCalls(items[..n], NONBLOCK), Change(items[0], items[n], NONBLOCK));
    hide Arbitrate, Deliver;
  }

  // It gives everyone below the top its entry against the top ...
  lemma {:induction false} BroadcastTells(cfg: Config, notes: map<int, Note>, items: seq<FocusId>, i: nat)
    requires DistinctClients(items) && 1 <= i < |items|
    requires forall k :: 1 <= k < |items| ==> items[k].clientId in notes
    ensures Deliver(cfg, notes, BroadcastCalls(items, NONBLOCK))[items[i].clientId].last
            == Arbitrate(cfg, items[0], items[i])
  {
    hide Arbitrate, BroadcastCalls, Deliver;
    var n := |items| - 1;
    DeliverLast(cfg, notes, items);
    if i < n {
      var rest := items[..n];
      assert rest[i] == items[i] && rest[0] == items[0] && items[i].clientId != items[n].clientId;
      BroadcastTells(cfg, notes, rest, i);
    }
  }

  // ... and nobody else anything.
  lemma {:induction false} BroadcastSpares(cfg: Config, notes: map<int, Note>, items: seq<FocusId>, c: int)
    requires c in notes && forall k :: 1 <= k < |items| ==> items[k].clientId in notes && items[k].clientId != c
    ensures Deliver(cfg, notes, BroadcastCalls(items, NONBLOCK))[c] == notes[c]
  {
    hide Arbitrate;
    if |items| >= 2 {
      DeliverLast(cfg, notes, items);
      BroadcastSpares(cfg, notes, items[..|items| - 1], c);
    }
  }

  lemma DeliverBlocked(cfg: Config, notes: map<int, Note>, items: seq<FocusId>, focus: FocusId)
    ensures Deliver(cfg, notes, PushCalls(items, focus, BLOCK)) == notes
  {
  }

  // The new focus has the least free slot, which a note of its own then describes.
  lemma NewFocusFree(items: seq<FocusId>, depth: nat, level: int, thread: int, client: nat)
    requires WellFormed(items, depth) && |items| < depth
    ensures var focus := NewFocus(items, depth, level, thread, client);
            0 <= focus.clientId < depth && IsFree(items, focus.clientId)
            && HandleToId(IdToHandle(focus.clientId)) == focus.clientId
  {
    var id := LeastFree(items, depth, 0);
    if id == depth {
      var taken := seq(|items|, i requires 0 <= i < |items| => items[i].clientId as int);
      forall s: nat | s < depth ensures s in taken {
        assert !IsFree(items, s);
        var i :| 0 <= i < |items| && items[i].clientId == s;
        assert taken[i] == s;
      }
      Covering(taken, depth);
    }
  }

  // A request that the matrix answers with PLAY on a stack with a top ends in a broadcast.
  predicate AdmitBroadcasts(cfg: Config, items: seq<FocusId>, level: int)
    requires cfg.Valid() && LevelsFit(cfg, items) && 0 <= level < |cfg.streams|
  {
    items != [] && |items| < cfg.depth && Active(cfg, level, items[0]) == PLAY
  }

  // The desk after one more client has been let in.
  function Joined(d: Desk, items: seq<FocusId>, told: map<int, Note>, id: int, suggestion: int): Desk {
    Desk(items, told[id := Note(suggestion, d.admissions, HostOf(items, told, id, d.admissions))], d.admissions + 1)
  }

  function Ids(items: seq<FocusId>): (ids: seq<int>)
    ensures |ids| == |items| && forall i :: 0 <= i < |items| ==> ids[i] == items[i].clientId
  {
    seq(|items|, i requires 0 <= i < |items| => items[i].clientId)
  }

  lemma NotedJoined(d: Desk, id: int, k: nat, told: map<int, Note>, items: seq<FocusId>, suggestion: int)
    requires Noted(d) && k <= |d.items| && IsFree(d.items, id) && SameSerials(d.notes, told)
    requires Ids(items) == Ids(d.items)[..k] + [id] + Ids(d.items)[k..]
    ensures Noted(Joined(d, items, told, id, suggestion))
  {
    var after := Joined(d, items, told, id, suggestion);
    forall i | 0 <= i < |items|
      ensures items[i].clientId in after.notes && after.notes[items[i].clientId].serial < after.admissions
      ensures i == k ==> Serial(after.notes, items[i].clientId) == d.admissions
      ensures i != k ==>
                Serial(after.notes, items[i].clientId) == Serial(d.notes, d.items[if i < k then i else i - 1].clientId)
      ensures i != k ==> Serial(after.notes, items[i].clientId) < d.admissions
    {
      assert Ids(items)[i] == items[i].clientId;
      if i != k {
        var j := if i < k then i else i - 1;
        assert Ids(d.items)[j] == d.items[j].clientId;
        assert d.items[j].clientId in d.notes && d.items[j].clientId != id;
      }
    }
  }

  // Everyone below the top has the answer the matrix gives against it.
  lemma CoherentWhenTold(cfg: Config, d: Desk)
    requires Sound(cfg, d) && TopPlays(d)
    requires forall i :: 1 <= i < |d.items| ==>
               d.notes[d.items[i].clientId].last == Arbitrate(cfg, d.items[0], d.items[i])
    ensures Coherent(cfg, d)
  {
    forall i: nat | 1 <= i < |d.items| ensures Informed(cfg, d, i) {
      ArbitrateUnder(cfg, d.items[0], d.items[i]);
    }
  }

  // What a request that ends on top makes of the desk.
  lemma EnterOnTop(cfg: Config, d: Desk, level: int, thread: int, client: nat)
    requires Sound(cfg, d) && 0 <= level < |cfg.streams| && |d.items| < cfg.depth
    requires d.items == [] || Active(cfg, level, d.items[0]) == PLAY
    ensures var focus := NewFocus(d.items, cfg.depth, level, thread, client);
            var pushed := Pushed(d.items, focus);
            AdmitDesk(cfg, d, level, thread, client)
            == Joined(d, pushed, Deliver(cfg, d.notes, BroadcastCalls(pushed, NONBLOCK)), focus.clientId, PLAY)
  {
    var focus := NewFocus(d.items, cfg.depth, level, thread, client);
    var pushed := Pushed(d.items, focus);
    NewFocusFree(d.items, cfg.depth, level, thread, client);
    hide WellFormed, Noted, LevelsFit, IsFree, NewFocus, LeastFree, Active;
    DeliverTwice(cfg, d.notes, PushCalls(d.items, focus, BLOCK), BroadcastCalls(pushed, NONBLOCK));
    DeliverBlocked(cfg, d.notes, d.items, focus);
  }

  lemma IdsPushed(items: seq<FocusId>, focus: FocusId)
    ensures Ids(Pushed(items, focus)) == Ids(items)[..0] + [focus.clientId] + Ids(items)[0..]
  {
  }

  lemma PushedSound(cfg: Config, d: Desk, focus: FocusId, told: map<int, Note>)
    requires Sound(cfg, d) && |d.items| < cfg.depth && 0 <= focus.level < |cfg.streams|
    requires 0 <= focus.clientId < cfg.depth && IsFree(d.items, focus.clientId) && SameSerials(d.notes, told)
    ensures Sound(cfg, Joined(d, Pushed(d.items, focus), told, focus.clientId, PLAY))
  {
    var pushed := Pushed(d.items, focus);
    PushedWellFormed(d.items, focus, cfg.depth);
    OneLevelFits(cfg, focus);
    LevelsOfPushed(cfg, d.items, focus);
    IdsPushed(d.items, focus);
    hide WellFormed, LevelsFit, Pushed, Ids, IsFree, Noted;
    NotedJoined(d, focus.clientId, 0, told, pushed, PLAY);
  }

  lemma PushedCoherent(cfg: Config, d: Desk, focus: FocusId)
    requires Sound(cfg, d) && IsFree(d.items, focus.clientId)
    ensures var pushed := Pushed(d.items, focus);
            var told := Deliver(cfg, d.notes, BroadcastCalls(pushed, NONBLOCK));
            var after := Joined(d, pushed, told, focus.clientId, PLAY);
            Sound(cfg, after) ==> Coherent(cfg, after)
  {
    var pushed := Pushed(d.items, focus);
    var told := Deliver(cfg, d.notes, BroadcastCalls(pushed, NONBLOCK));
    var after := Joined(d, pushed, told, focus.clientId, PLAY);
    if Sound(cfg, after) {
      forall i | 1 <= i < |pushed| ensures pushed[i].clientId in d.notes && pushed[i].clientId != focus.clientId {
        assert pushed[i].clientId == d.items[i - 1].clientId && d.items[i - 1].clientId in d.notes;
      }
      hide BroadcastCalls, Deliver, Pushed, LevelsFit, Noted;
      forall i: nat | 1 <= i < |pushed|
        ensures after.notes[pushed[i].clientId].last == Arbitrate(cfg, pushed[0], pushed[i])
      {
        BroadcastTells(cfg, d.notes, pushed, i);
      }
      CoherentWhenTold(cfg, after);
    }
  }

  lemma EnterPushed(cfg: Config, d: Desk, level: int, thread: int, client: nat)
    requires Sound(cfg, d) && 0 <= level < |cfg.streams| && |d.items| < cfg.depth
    requires d.items == [] || Active(cfg, level, d.items[0]) == PLAY
    ensures var after := AdmitDesk(cfg, d, level, thread, client);
            Sound(cfg, after) && Coherent(cfg, after)
  {
    var focus := NewFocus(d.items, cfg.depth, level, thread, client);
    var told := Deliver(cfg, d.notes, BroadcastCalls(Pushed(d.items, focus), NONBLOCK));
    EnterOnTop(cfg, d, level, thread, client);
    NewFocusFree(d.items, cfg.depth, level, thread, client);
    PushedSound(cfg, d, focus, told);
    PushedCoherent(cfg, d, focus);
  }

  lemma EnterBelow(cfg: Config, d: Desk, level: int, thread: int, client: nat)
    requires Sound(cfg, d) && 0 <= level < |cfg.streams| && 0 < |d.items| < cfg.depth
    requires Active(cfg, level, d.items[0]) == PLAY_BUT_SILENT || Active(cfg, level, d.items[0]) == PLAY_WITH_DUCK
    requires InsertIndex(d.items, level) > 0
    ensures var focus := NewFocus(d.items, cfg.depth, level, thread, client);
            var items := Inserted(d.items, focus, InsertIndex(d.items, level));
            AdmitDesk(cfg, d, level, thread, client)
            == Joined(d, items, d.notes, focus.clientId, Active(cfg, level, d.items[0]))
  {
    NewFocusFree(d.items, cfg.depth, level, thread, client);
  }

  lemma InsertedSound(cfg: Config, d: Desk, focus: FocusId, index: nat, suggestion: int)
    requires Sound(cfg, d) && |d.items| < cfg.depth && 0 <= focus.level < |cfg.streams| && 1 <= index <= |d.items|
    requires 0 <= focus.clientId < cfg.depth && IsFree(d.items, focus.clientId)
    ensures var after := Joined(d, Inserted(d.items, focus, index), d.notes, focus.clientId, suggestion);
            Sound(cfg, after) && (TopPlays(d) ==> TopPlays(after))
  {
    var items := Inserted(d.items, focus, index);
    InsertedWellFormed(d.items, focus, index, cfg.depth);
    assert LevelsFit(cfg, items);
    assert Ids(items) == Ids(d.items)[..index] + [focus.clientId] + Ids(d.items)[index..];
    assert items[0] == d.items[0] && items[0].clientId != focus.clientId && items[0].clientId in d.notes;
    hide WellFormed, LevelsFit, Inserted, Ids, IsFree;
    NotedJoined(d, focus.clientId, index, d.notes, items, suggestion);
  }

  lemma EnterInserted(cfg: Config, d: Desk, level: int, thread: int, client: nat)
    requires Sound(cfg, d) && 0 <= level < |cfg.streams| && 0 < |d.items| < cfg.depth
    requires Active(cfg, level, d.items[0]) == PLAY_BUT_SILENT || Active(cfg, level, d.items[0]) == PLAY_WITH_DUCK
    requires InsertIndex(d.items, level) > 0
    ensures var after := AdmitDesk(cfg, d, level, thread, client);
            && Sound(cfg, after)
            && (TopPlays(d) ==> TopPlays(after))
            && (Coherent(cfg, d) ==> Coherent(cfg, after))
  {
    var focus := NewFocus(d.items, cfg.depth, level, thread, client);
    var index := InsertIndex(d.items, level);
    EnterBelow(cfg, d, level, thread, client);
    NewFocusFree(d.items, cfg.depth, level, thread, client);
    InsertedSound(cfg, d, focus, index, Active(cfg, level, d.items[0]));
    hide AdmitDesk, LeastFree, InsertIndex, Inserted, Joined, Active, WellFormed, LevelsFit;
    if Coherent(cfg, d) {
      InsertedCoherent(cfg, d, focus, index);
    }
  }

  lemma InsertedCoherent(cfg: Config, d: Desk, focus: FocusId, index: nat)
    requires Sound(cfg, d) && Coherent(cfg, d) && 1 <= index <= |d.items|
    requires IsFree(d.items, focus.clientId) && 0 <= focus.level < |cfg.streams|
    requires Sound(cfg, Joined(d, Inserted(d.items, focus, index), d.notes, focus.clientId,
                               Active(cfg, focus.level, d.items[0])))
    ensures Coherent(cfg, Joined(d, Inserted(d.items, focus, index), d.notes, focus.clientId,
                                 Active(cfg, focus.level, d.items[0])))
  {
    var items := Inserted(d.items, focus, index);
    var after := Joined(d, items, d.notes, focus.clientId, Active(cfg, focus.level, d.items[0]));
    hide Active, Passive, Sound, WellFormed, LevelsFit;
    assert items[0] == d.items[0] && items[0].clientId != focus.clientId;
    forall i: nat | 1 <= i < |items| ensures Informed(cfg, after, i) {
      if i < index {
        assert Informed(cfg, d, i) && items[i] == d.items[i];
      } else if i > index {
        assert Informed(cfg, d, i - 1) && items[i] == d.items[i - 1];
      }
    }
  }

  lemma AdmitKeeps(cfg: Config, d: Desk, level: int, thread: int, client: nat)
    requires Sound(cfg, d) && 0 <= level < |cfg.streams|
    ensures var after := AdmitDesk(cfg, d, level, thread, client);
            && Sound(cfg, after)
            && (TopPlays(d) ==> TopPlays(after))
            && (Coherent(cfg, d) || AdmitBroadcasts(cfg, d.items, level) ==> Coherent(cfg, after))
  {
    if |d.items| < cfg.depth {
      if d.items == [] || Active(cfg, level, d.items[0]) == PLAY {
        EnterPushed(cfg, d, level, thread, client);
      } else if (Active(cfg, level, d.items[0]) == PLAY_BUT_SILENT || Active(cfg, level, d.items[0]) == PLAY_WITH_DUCK)
                && InsertIndex(d.items, level) > 0 {
        EnterInserted(cfg, d, level, thread, client);
      }
    }
  }

  // ---------- Leaving ----------

  lemma PoppedWellFormed(items: seq<FocusId>, depth: nat)
    requires WellFormed(items, depth) && items != []
    ensures WellFormed(Popped(items), depth)
  {
  }

  lemma WithoutWellFormed(items: seq<FocusId>, k: nat, depth: nat)
    requires WellFormed(items, depth) && 1 <= k < |items|
    ensures Promoted(Without(items, k)) == Without(items, k) && WellFormed(Without(items, k), depth)
  {
  }

  lemma LeaveTopDesk(cfg: Config, d: Desk, id: int)
    requires Noted(d) && d.items != [] && d.items[0].clientId == id
    ensures var popped := Popped(d.items);
            var first := if |d.items| < 2 then d.notes
                         else d.notes[popped[0].clientId := d.notes[popped[0].clientId].(last := PLAY)];
            LeaveDesk(cfg, d, id) == Desk(popped, Deliver(cfg, first, BroadcastCalls(popped, NONBLOCK)), d.admissions)
  {
    var popped := Popped(d.items);
    DeliverTwice(cfg, d.notes, PopCalls(d.items, NONBLOCK), BroadcastCalls(popped, NONBLOCK));
    if |d.items| >= 2 {
      DeliverOne(cfg, d.notes, PopCalls(d.items, NONBLOCK)[0]);
    }
  }

  lemma NotedPopped(d: Desk, notes: map<int, Note>)
    requires Noted(d) && d.items != [] && SameSerials(d.notes, notes)
    ensures Noted(Desk(Popped(d.items), notes, d.admissions))
  {
    var popped := Popped(d.items);
    assert forall i :: 0 <= i < |popped| ==> popped[i].clientId == d.items[i + 1].clientId;
  }

  lemma LeaveTop(cfg: Config, d: Desk, id: int)
    requires Sound(cfg, d) && d.items != [] && d.items[0].clientId == id
    ensures Sound(cfg, LeaveDesk(cfg, d, id)) && Coherent(cfg, LeaveDesk(cfg, d, id))
  {
    var popped := Popped(d.items);
    PoppedWellFormed(d.items, cfg.depth);
    LevelsOfDeleted(cfg, d.items, id);
    LeaveTopDesk(cfg, d, id);
    var first := if |d.items| < 2 then d.notes
                 else d.notes[popped[0].clientId := d.notes[popped[0].clientId].(last := PLAY)];
    var after := LeaveDesk(cfg, d, id);
    hide LeaveDesk;
    NotedPopped(d, after.notes);
    forall i: nat | 1 <= i < |popped|
      ensures after.notes[popped[i].clientId].last == Arbitrate(cfg, popped[0], popped[i])
    {
      BroadcastTells(cfg, first, popped, i);
    }
    if popped != [] {
      BroadcastSpares(cfg, first, popped, popped[0].clientId);
    }
    CoherentWhenTold(cfg, after);
  }

  lemma LeaveBelow(cfg: Config, d: Desk, k: nat)
    requires Sound(cfg, d) && 1 <= k < |d.items|
    ensures var after := Desk(Without(d.items, k), d.notes, d.admissions);
            && Sound(cfg, after)
            && (TopPlays(d) ==> TopPlays(after))
            && (Coherent(cfg, d) ==> Coherent(cfg, after))
  {
    WithoutWellFormed(d.items, k, cfg.depth);
    LevelsOfWithout(cfg, d.items, k);
    var after := Desk(Without(d.items, k), d.notes, d.admissions);
    hide Without, WellFormed, LevelsFit, Config.Valid, Passive, Active;
    if Coherent(cfg, d) {
      forall i: nat | 1 <= i < |after.items| ensures Informed(cfg, after, i) {
        assert Informed(cfg, d, if i < k then i else i + 1);
      }
    }
  }

  lemma LeaveKeeps(cfg: Config, d: Desk, id: int)
    requires Sound(cfg, d)
    ensures var after := LeaveDesk(cfg, d, id);
            && Sound(cfg, after)
            && (TopPlays(d) ==> TopPlays(after))
            && (Coherent(cfg, d) || (d.items != [] && d.items[0].clientId == id) ==> Coherent(cfg, after))
  {
    var k := IndexOf(d.items, id);
    if d.items != [] && k == 0 {
      LeaveTop(cfg, d, id);
    } else if k < |d.items| {
      LeaveBelow(cfg, d, k);
      WithoutWellFormed(d.items, k, cfg.depth);
      assert LeaveDesk(cfg, d, id) == Desk(Without(d.items, k), d.notes, d.admissions);
    }
  }

  // ---------- Runs ----------

  // Everything that was requested or abandoned, in order.
  function Run(cfg: Config, ops: seq<Op>): (d: Desk)
    requires cfg.Valid()
    ensures LevelsFit(cfg, d.items)
  {
    if ops == [] then START
    else
      var d, op := Run(cfg, ops[..|ops| - 1]), ops[|ops| - 1];
      LevelsOfStep(cfg, d, op);
      Step(cfg, d, op)
  }

  lemma LevelsOfStep(cfg: Config, d: Desk, op: Op)
    requires cfg.Valid() && LevelsFit(cfg, d.items)
    ensures LevelsFit(cfg, Step(cfg, d, op).items)
  {
    LevelsOfCleared(cfg, d.items, op.alive);
    match op
    case Ask(stream, client, thread, alive) =>
      if StreamIndex(cfg.streams, stream) < |cfg.streams| {
        LevelsOfAdmitted(cfg, Cleared(d.items, alive), StreamIndex(cfg.streams, stream), thread, client);
      }
    case Quit(handle, alive) => LevelsOfDeleted(cfg, Cleared(d.items, alive), HandleToId(handle));
  }

  // The step ends in telling everybody, whatever died before.
  predicate Broadcasts(cfg: Config, d: Desk, op: Op)
    requires cfg.Valid() && LevelsFit(cfg, d.items)
  {
    LevelsOfCleared(cfg, d.items, op.alive);
    var cleared := Cleared(d.items, op.alive);
    match op
    case Ask(stream, client, thread, alive) =>
      var level := StreamIndex(cfg.streams, stream);
      level < |cfg.streams| && AdmitBroadcasts(cfg, cleared, level)
    case Quit(handle, alive) => handle >= 15 && cleared != [] && cleared[0].clientId == HandleToId(handle)
  }

  // A death that cannot leave a stale suggestion: the top lives, at most one focus is left, or all are told.
  predicate Harmless(cfg: Config, d: Desk, op: Op)
    requires cfg.Valid() && LevelsFit(cfg, d.items)
  {
    d.items == [] || d.items[0].thread in op.alive || |Living(d.items, op.alive)| <= 1 || Broadcasts(cfg, d, op)
  }

  predicate NobodyDies(d: Desk, op: Op) {
    forall i :: 0 <= i < |d.items| ==> d.items[i].thread in op.alive
  }

  lemma StepKeeps(cfg: Config, d: Desk, op: Op)
    requires Sound(cfg, d) && TopPlays(d)
    ensures var after := Step(cfg, d, op);
            && Sound(cfg, after) && TopPlays(after)
            && (Coherent(cfg, d) && Harmless(cfg, d, op) ==> Coherent(cfg, after))
  {
    StepStages(cfg, d, op);
    ClearTop(cfg, d, op.alive);
    var cleared := ClearDesk(cfg, d, op.alive);
    if Coherent(cfg, d) && Harmless(cfg, d, op) && !Broadcasts(cfg, d, op) {
      ClearCoherent(cfg, d, op.alive);
    }
    match op
    case Ask(stream, client, thread, alive) =>
      var level := StreamIndex(cfg.streams, stream);
      if level < |cfg.streams| {
        AdmitKeeps(cfg, cleared, level, thread, client);
      }
    case Quit(handle, alive) =>
      LeaveKeeps(cfg, cleared, HandleToId(handle));
  }

  // In every run, under any pattern of thread deaths, the stack is sound and its top was last told to play.
  lemma {:induction false} TopAlwaysPlays(cfg: Config, ops: seq<Op>)
    requires cfg.Valid()
    ensures Sound(cfg, Run(cfg, ops)) && TopPlays(Run(cfg, ops))
  {
    if ops != [] {
      TopAlwaysPlays(cfg, ops[..|ops| - 1]);
      StepKeeps(cfg, Run(cfg, ops[..|ops| - 1]), ops[|ops| - 1]);
    }
  }

  // In every run whose deaths are harmless, everyone has been told what the matrix says about the top.
  lemma {:induction false} RunCoherent(cfg: Config, ops: seq<Op>)
    requires cfg.Valid()
    requires forall k :: 0 <= k < |ops| ==> Harmless(cfg, Run(cfg, ops[..k]), ops[k])
    ensures Sound(cfg, Run(cfg, ops)) && Coherent(cfg, Run(cfg, ops))
  {
    if ops != [] {
      var n := |ops| - 1;
      forall k | 0 <= k < n ensures Harmless(cfg, Run(cfg, ops[..n][..k]), ops[..n][k]) {
        assert ops[..n][..k] == ops[..k];
      }
      RunCoherent(cfg, ops[..n]);
      StepKeeps(cfg, Run(cfg, ops[..n]), ops[n]);
    }
  }

  // In particular when no holder's thread ever dies.
  lemma CoherentWithoutDeaths(cfg: Config, ops: seq<Op>)
    requires cfg.Valid()
    requires forall k :: 0 <= k < |ops| ==> NobodyDies(Run(cfg, ops[..k]), ops[k])
    ensures Sound(cfg, Run(cfg, ops)) && Coherent(cfg, Run(cfg, ops))
  {
    forall k | 0 <= k < |ops| ensures Harmless(cfg, Run(cfg, ops[..k]), ops[k]) {
      assert NobodyDies(Run(cfg, ops[..k]), ops[k]);
    }
    RunCoherent(cfg, ops);
  }

  // ---------- When clearing alone keeps everyone informed ----------

  // Clearing keeps coherence for every matrix and every way the clients may have been told before.
  ghost predicate ClearKeepsCoherence(items: seq<FocusId>, alive: set<int>) {
    forall cfg: Config, d: Desk ::
      d.items == items && Sound(cfg, d) && Coherent(cfg, d)
      ==> Sound(cfg, ClearDesk(cfg, d, alive)) && Coherent(cfg, ClearDesk(cfg, d, alive))
  }

  function MaxLevel(items: seq<FocusId>): (m: int)
    ensures m >= 0 && forall i :: 0 <= i < |items| ==> items[i].level <= m
  {
    if items == [] then 0
    else
      var m := MaxLevel(items[1..]);
      if items[0].level > m then items[0].level else m
  }

  // A matrix that ducks whoever asks and pauses whoever is not on top, for at least n streams.
  function DuckThenPause(n: nat, depth: nat): (cfg: Config)
    ensures cfg.Valid() && |cfg.streams| == n && cfg.depth == depth
    ensures forall i :: 0 <= i < |cfg.matrix| ==> cfg.matrix[i] == Cell(PLAY_WITH_DUCK, PAUSE)
  {
    var streams := seq(n, i requires 0 <= i < n => seq(i, _ => 'x'));
    assert forall i, j :: 0 <= i < j < n ==> |streams[i]| != |streams[j]|;
    Config(streams, seq(n * n, _ => Cell(PLAY_WITH_DUCK, PAUSE)), depth)
  }

  // Each client still holds the duck it was admitted with under the first one.
  function FreshNotes(items: seq<FocusId>): (notes: map<int, Note>)
    requires DistinctClients(items)
    ensures forall i :: 0 <= i < |items| ==>
              && items[i].clientId in notes
              && notes[items[i].clientId] == Note(if i == 0 then PLAY else PLAY_WITH_DUCK, i, 0)
  {
    if items == [] then map[]
    else
      var n := |items| - 1;
      FreshNotes(items[..n])[items[n].clientId := Note(if n == 0 then PLAY else PLAY_WITH_DUCK, n, 0)]
  }

  // A dead top with two survivors leaves one of them with a suggestion about the wrong focus.
  lemma StaleAfterClear(items: seq<FocusId>, alive: set<int>, depth: nat) returns (cfg: Config, d: Desk)
    requires WellFormed(items, depth) && forall i :: 0 <= i < |items| ==> items[i].level >= 0
    requires items != [] && items[0].thread !in alive && |Living(items, alive)| >= 2
    ensures d.items == items && Sound(cfg, d) && Coherent(cfg, d)
    ensures Sound(cfg, ClearDesk(cfg, d, alive)) && !Coherent(cfg, ClearDesk(cfg, d, alive))
  {
    cfg := DuckThenPause(MaxLevel(items) + 1, depth);
    d := Desk(items, FreshNotes(items), |items|);
    FreshIsCoherent(cfg, d);
    ClearSound(cfg, d, alive);
    StaleSecond(cfg, d, alive);
  }

  // The second survivor still has what it heard under the dead top.
  lemma StaleSecond(cfg: Config, d: Desk, alive: set<int>)
    requires Sound(cfg, d) && d.notes == FreshNotes(d.items)
    requires d.items != [] && d.items[0].thread !in alive && |Living(d.items, alive)| >= 2
    requires forall i :: 0 <= i < |cfg.matrix| ==> cfg.matrix[i] == Cell(PLAY_WITH_DUCK, PAUSE)
    requires Sound(cfg, ClearDesk(cfg, d, alive))
    ensures !Informed(cfg, ClearDesk(cfg, d, alive), 1)
  {
    var after := ClearDesk(cfg, d, alive);
    LivingHead(d.items, alive);
    var p, q := LivingOrder(d.items, alive, 0, 1);
    assert q > p > 0;
    assert after.items[0].clientId == d.items[p].clientId && after.items[1] == d.items[q];
    hide FreshNotes, WellFormed, LevelsFit, Noted;
    DeliverOne(cfg, d.notes, ClearCalls(d.items, alive, NONBLOCK)[0]);
    assert after.notes[d.items[q].clientId] == d.notes[d.items[q].clientId];
    PassiveOf(cfg, after.items[0], after.items[1]);
  }

  lemma PassiveOf(cfg: Config, top: FocusId, cur: FocusId)
    requires cfg.Valid() && 0 <= top.level < |cfg.streams| && 0 <= cur.level < |cfg.streams|
    requires forall i :: 0 <= i < |cfg.matrix| ==> cfg.matrix[i] == Cell(PLAY_WITH_DUCK, PAUSE)
    ensures Passive(cfg, top, cur) == PAUSE && Active(cfg, cur.level, top) == PLAY_WITH_DUCK
  {
    IndexInRange(|cfg.streams|, top.level, cur.level);
    IndexInRange(|cfg.streams|, cur.level, top.level);
  }

  lemma FreshIsCoherent(cfg: Config, d: Desk)
    requires cfg.Valid() && WellFormed(d.items, cfg.depth) && LevelsFit(cfg, d.items)
    requires d.notes == FreshNotes(d.items) && d.admissions == |d.items|
    requires forall i :: 0 <= i < |cfg.matrix| ==> cfg.matrix[i] == Cell(PLAY_WITH_DUCK, PAUSE)
    ensures Sound(cfg, d) && Coherent(cfg, d)
  {
    forall i: nat | 1 <= i < |d.items| ensures Informed(cfg, d, i) {
      PassiveOf(cfg, d.items[0], d.items[i]);
    }
  }

  // Exactly when: the stack is empty, its top is alive, or at most one focus survives.
  lemma ClearCoherentExactly(items: seq<FocusId>, alive: set<int>, depth: nat)
    requires WellFormed(items, depth) && forall i :: 0 <= i < |items| ==> items[i].level >= 0
    ensures ClearKeepsCoherence(items, alive)
            <==> items == [] || items[0].thread in alive || |Living(items, alive)| <= 1
  {
    if items == [] || items[0].thread in alive || |Living(items, alive)| <= 1 {
      forall cfg: Config, d: Desk | d.items == items && Sound(cfg, d) && Coherent(cfg, d)
        ensures Sound(cfg, ClearDesk(cfg, d, alive)) && Coherent(cfg, ClearDesk(cfg, d, alive))
      {
        ClearCoherent(cfg, d, alive);
      }
    } else {
      var cfg, d := StaleAfterClear(items, alive, depth);
    }
  }
}
