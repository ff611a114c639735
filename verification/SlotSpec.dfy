/** The server's connection slots over whole runs. */
module SlotSpec {
  import opened Prelude

  /* The two descriptors and the receive offset; how often the slot has been given to a connection, how often
     its mutex was initialised, and whether it was ever locked before that. */
  datatype Slot = Slot(tran: int, notify: int, offset: nat, given: nat, inits: nat, badLock: bool)

  const EMPTY := Slot(0, 0, 0, 0, 0, false)

  function Locked(s: Slot): Slot { s.(badLock := s.badLock || s.inits == 0) }

  datatype Tried = Tried(slot: Slot, available: bool)

  // media_server_conn_init: a slot is free when both sockets are closed; one never used has no mutex yet.
  function ConnInit(s: Slot, fd: int): Tried {
    if s.tran > 0 then Tried(s, false)
    else
      var t := if s.tran == 0 then s.(inits := s.inits + 1) else Locked(s);
      if s.tran == 0 || s.notify <= 0 then Tried(t.(tran := fd, offset := 0, given := t.given + 1), true)
      else Tried(t, false)
  }

  // The first free slot takes the connection, if there is one.
  function Accept(slots: seq<Slot>, fd: int): (r: seq<Slot>)
    ensures |r| == |slots|
  {
    if slots == [] then []
    else
      var first := ConnInit(slots[0], fd);
      [first.slot] + if first.available then slots[1..] else Accept(slots[1..], fd)
  }

  function Closed(s: Slot): Slot { s.(tran := -EPERM, offset := 0) }

  function Notified(s: Slot): Slot { Locked(s) }

  function Finalized(s: Slot): Slot {
    var t := Locked(s);
    if t.notify > 0 then t.(notify := 0, offset := 0) else t
  }

  // ---------- Runs ----------

  datatype Event =
    | Accepting(fd: int)
    | Receiving(k: nat, offset: nat)
    | CreatingNotify(k: nat, fd: int)    // a negative descriptor is a failed connect
    | Closing(k: nat)
    | Notifying(k: nat)
    | Finalizing(k: nat)

  predicate Holds(s: Slot, fd: int) { s.tran == fd || s.notify == fd }

  predicate Free(slots: seq<Slot>, fd: int) {
    forall i :: 0 <= i < |slots| ==> !Holds(slots[i], fd)
  }

  /* A new descriptor is positive and not one that is open; a client asks for one notify channel; a slot's
     cookie is only known after the slot was given to a connection. */
  predicate Enabled(slots: seq<Slot>, e: Event) {
    match e
    case Accepting(fd) => fd > 0 && Free(slots, fd)
    case Receiving(k, _) => k < |slots| && slots[k].tran > 0
    case CreatingNotify(k, fd) =>
      k < |slots| && slots[k].tran > 0 && slots[k].notify <= 0 && (fd > 0 ==> Free(slots, fd)) && fd != 0
    case Closing(k) => k < |slots| && slots[k].tran > 0
    case Notifying(k) => k < |slots| && slots[k].given > 0
    case Finalizing(k) => k < |slots| && slots[k].given > 0
  }

  function Step(slots: seq<Slot>, e: Event): (r: seq<Slot>)
    requires Enabled(slots, e)
    ensures |r| == |slots|
  {
    match e
    case Accepting(fd) => Accept(slots, fd)
    case Receiving(k, offset) => slots[k := slots[k].(offset := offset)]
    case CreatingNotify(k, fd) => slots[k := slots[k].(notify := fd)]
    case Closing(k) => slots[k := Closed(slots[k])]
    case Notifying(k) => slots[k := Notified(slots[k])]
    case Finalizing(k) => slots[k := Finalized(slots[k])]
  }

  ghost predicate Legal(slots: seq<Slot>, es: seq<Event>)
    decreases |es|
  {
    es == [] || (Enabled(slots, es[0]) && Legal(Step(slots, es[0]), es[1..]))
  }

  function Run(slots: seq<Slot>, es: seq<Event>): (r: seq<Slot>)
    requires Legal(slots, es)
    ensures |r| == |slots|
    decreases |es|
  {
    if es == [] then slots else Run(Step(slots, es[0]), es[1..])
  }

  // ---------- The invariant ----------

  // One initialisation, at the first use and before any lock.
  predicate MutexOnce(s: Slot) {
    && !s.badLock && s.inits == (if s.given == 0 then 0 else 1)
    && (s.tran == 0 <==> s.given == 0) && (s.given == 0 ==> s.notify == 0)
  }

  predicate OwnDescriptors(s: Slot) { s.tran > 0 ==> s.tran != s.notify }

  // No open descriptor is in two slots, or twice in one.
  predicate Apart(s: Slot, t: Slot) {
    && (s.tran > 0 ==> !Holds(t, s.tran))
    && (s.notify > 0 ==> !Holds(t, s.notify))
  }

  predicate Sound(slots: seq<Slot>) {
    && (forall i :: 0 <= i < |slots| ==> MutexOnce(slots[i]) && OwnDescriptors(slots[i]))
    && (forall i, j :: 0 <= i < |slots| && 0 <= j < |slots| && i != j ==> Apart(slots[i], slots[j]))
  }

  // A slot with an open socket of either kind stays with its connection.
  predicate KeepsOwners(before: seq<Slot>, after: seq<Slot>) {
    && |before| == |after|
    && forall i :: 0 <= i < |before| && (before[i].tran > 0 || before[i].notify > 0) ==>
         after[i].given == before[i].given
  }

  // Accepting changes at most one slot, a free one; those before it are merely looked at.
  lemma {:induction false} AcceptPlace(slots: seq<Slot>, fd: int) returns (k: nat)
    requires forall i :: 0 <= i < |slots| ==> MutexOnce(slots[i])
    ensures k <= |slots|
    ensures forall i :: 0 <= i < |slots| && i != k ==> Accept(slots, fd)[i] == slots[i]
    ensures forall i :: 0 <= i < k ==> slots[i].tran > 0 || slots[i].notify > 0
    ensures k < |slots| ==>
              && slots[k].tran <= 0 && slots[k].notify <= 0
              && Accept(slots, fd)[k] == slots[k].(tran := fd, offset := 0, given := slots[k].given + 1, inits := 1)
  {
    if slots == [] || ConnInit(slots[0], fd).available {
      k := 0;
    } else {
      var rest := AcceptPlace(slots[1..], fd);
      k := rest + 1;
      forall i | 0 <= i < |slots| && i != k ensures Accept(slots, fd)[i] == slots[i] {
        if i > 0 {
          assert Accept(slots[1..], fd)[i - 1] == slots[1..][i - 1];
        }
      }
      forall i | 0 <= i < k ensures slots[i].tran > 0 || slots[i].notify > 0 {
        if i > 0 {
          assert slots[i] == slots[1..][i - 1];
        }
      }
    }
  }

  // Changing one slot.
  lemma OneSlot(slots: seq<Slot>, k: nat, s: Slot)
    requires Sound(slots) && k < |slots| && MutexOnce(s) && OwnDescriptors(s)
    requires s.tran <= 0 || s.tran == slots[k].tran || Free(slots, s.tran)
    requires s.notify <= 0 || s.notify == slots[k].notify || Free(slots, s.notify)
    ensures Sound(slots[k := s])
  {
    var now := slots[k := s];
    forall i | 0 <= i < |slots| && i != k ensures Apart(s, slots[i]) && Apart(slots[i], s) {
      assert Apart(slots[k], slots[i]) && Apart(slots[i], slots[k]);
      assert Free(slots, s.tran) ==> !Holds(slots[i], s.tran);
      assert Free(slots, s.notify) ==> !Holds(slots[i], s.notify);
    }
  }

  lemma StepSound(slots: seq<Slot>, e: Event)
    requires Sound(slots) && Enabled(slots, e)
    ensures Sound(Step(slots, e)) && KeepsOwners(slots, Step(slots, e))
  {
    match e
    case Accepting(fd) =>
      var k := AcceptPlace(slots, fd);
      if k < |slots| {
        var s := Accept(slots, fd)[k];
        assert Accept(slots, fd) == slots[k := s];
        OneSlot(slots, k, s);
      } else {
        assert Accept(slots, fd) == slots;
      }
    case Receiving(k, offset) => OneSlot(slots, k, slots[k].(offset := offset));
    case CreatingNotify(k, fd) =>
      assert fd > 0 ==> !Holds(slots[k], fd);
      OneSlot(slots, k, slots[k].(notify := fd));
    case Closing(k) => OneSlot(slots, k, Closed(slots[k]));
    case Notifying(k) => OneSlot(slots, k, Notified(slots[k]));
    case Finalizing(k) => OneSlot(slots, k, Finalized(slots[k]));
  }

  lemma {:induction false} RunSound(slots: seq<Slot>, es: seq<Event>)
    requires Sound(slots) && Legal(slots, es)
    ensures Sound(Run(slots, es))
    decreases |es|
  {
    if es != [] {
      StepSound(slots, es[0]);
      RunSound(Step(slots, es[0]), es[1..]);
    }
  }

  function Fresh(n: nat): (slots: seq<Slot>)
    ensures |slots| == n && forall i :: 0 <= i < n ==> slots[i] == EMPTY
  {
    seq(n, _ => EMPTY)
  }

  /* In every run each mutex is initialised once, before any lock; no descriptor is in two slots; and what
     happens next leaves every slot with an open socket to its connection. */
  lemma SlotsSound(n: nat, es: seq<Event>, e: Event)
    requires Legal(Fresh(n), es) && Enabled(Run(Fresh(n), es), e)
    ensures Sound(Run(Fresh(n), es)) && KeepsOwners(Run(Fresh(n), es), Step(Run(Fresh(n), es), e))
  {
    RunSound(Fresh(n), es);
    StepSound(Run(Fresh(n), es), e);
  }

  // Zero marks a slot as never used, so a mutex stays initialised once exactly because no descriptor is zero.
  lemma ZeroDescriptor(s: Slot, fd: int, next: int)
    requires MutexOnce(s) && s.tran <= 0 && s.notify <= 0
    ensures ConnInit(ConnInit(s, fd).slot, next).slot.inits <= 1 <==> fd != 0
  {
  }
}
