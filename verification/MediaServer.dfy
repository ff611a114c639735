/** The server's connection slots as its methods change them in place, each proved against its specification. */
module MediaServer {
  import opened Prelude
  import opened SlotSpec

  const EMFILE := 24

  class Conn {
    var tranFd: int
    var notifyFd: int
    var offset: nat
    ghost var given: nat
    ghost var inits: nat
    ghost var badLock: bool

    ghost function View(): Slot
      reads this
    {
      Slot(tranFd, notifyFd, offset, given, inits, badLock)
    }

    constructor ()
      ensures View() == EMPTY
    {
      tranFd, notifyFd, offset, given, inits, badLock := 0, 0, 0, 0, 0, false;
    }

    method InitMutex()
      modifies this`inits
      ensures View() == old(View()).(inits := old(inits) + 1)
    {
      inits := inits + 1;
    }

    method Lock()
      modifies this`badLock
      ensures View() == Locked(old(View()))
    {
      badLock := badLock || inits == 0;
    }

    method Init(fd: int) returns (available: bool)
      modifies this
      ensures Tried(View(), available) == ConnInit(old(View()), fd)
      ensures available ==> tranFd == fd
    {
      if tranFd > 0 {
        return false;
      }
      if tranFd == 0 {
        InitMutex();
        available := true;
      } else {
        Lock();
        available := notifyFd <= 0;
      }
      if available {
        tranFd, offset, given := fd, 0, given + 1;
      }
    }

    method Receive(at: nat)
      modifies this`offset
      ensures View() == old(View()).(offset := at)
    {
      offset := at;
    }

    method CreateNotify(fd: int)
      modifies this`notifyFd
      ensures View() == old(View()).(notify := fd)
    {
      notifyFd := fd;
    }

    method Close()
      modifies this
      ensures View() == Closed(old(View()))
    {
      tranFd, offset := -EPERM, 0;
    }

    // Whether a notice can be sent: there must be a notify channel.
    method Notify() returns (ret: int)
      modifies this`badLock
      ensures View() == Notified(old(View()))
      ensures ret == if notifyFd > 0 then 0 else -EINVAL
    {
      Lock();
      ret := if notifyFd > 0 then 0 else -EINVAL;
    }

    method Finalize()
      modifies this
      ensures View() == Finalized(old(View()))
    {
      Lock();
      if notifyFd > 0 {
        notifyFd, offset := 0, 0;
      }
    }
  }

  ghost function SlotsOf(conns: seq<Conn>): (slots: seq<Slot>)
    reads conns
    ensures |slots| == |conns| && forall i :: 0 <= i < |conns| ==> slots[i] == conns[i].View()
  {
    if conns == [] then [] else [conns[0].View()] + SlotsOf(conns[1..])
  }

  /* What an event leaves behind: the slots as its specification says; still sound, and every slot with an open
     socket with its connection, as long as the kernel and the clients do what they should. */
  ghost predicate After(before: seq<Slot>, e: Event, after: seq<Slot>) {
    Sound(before) && Enabled(before, e) ==>
      after == Step(before, e) && Sound(after) && KeepsOwners(before, after)
  }

  lemma AfterStep(before: seq<Slot>, e: Event, after: seq<Slot>)
    requires Enabled(before, e) ==> after == Step(before, e)
    ensures After(before, e, after)
  {
    hide Sound, Step, KeepsOwners, Enabled;
    if Sound(before) && Enabled(before, e) {
      StepSound(before, e);
    }
  }

  class Server {
    const conns: seq<Conn>   // a fixed number of slots, never moved

    ghost predicate Valid() {
      forall i, j :: 0 <= i < j < |conns| ==> conns[i] != conns[j]
    }

    ghost function View(): seq<Slot>
      reads conns
    {
      SlotsOf(conns)
    }

    constructor (n: nat)
      ensures Valid() && View() == Fresh(n) && Sound(View())
    {
      var cs: seq<Conn> := [];
      while |cs| < n
        invariant |cs| <= n
        invariant forall i :: 0 <= i < |cs| ==> fresh(cs[i]) && cs[i].View() == EMPTY
        invariant forall i, j :: 0 <= i < j < |cs| ==> cs[i] != cs[j]
      {
        var c := new Conn();
        cs := cs + [c];
      }
      conns := cs;
    }

    // Tries slot after slot; the descriptor is closed again when all are taken.
    method Accept(fd: int) returns (ret: int, k: nat)
      requires Valid()
      modifies conns
      ensures View() == SlotSpec.Accept(old(View()), fd)
      ensures After(old(View()), Accepting(fd), View())
      ensures ret == 0 ==> k < |conns| && conns[k].tranFd == fd
      ensures ret != 0 ==>
                ret == -EMFILE && forall i :: 0 <= i < |conns| ==> !old(ConnInit(conns[i].View(), fd).available)
    {
      hide ConnInit, After, SlotSpec.Accept;
      k := 0;
      ghost var was := View();
      while k < |conns|
        invariant 0 <= k <= |conns|
        invariant forall i :: k <= i < |conns| ==> conns[i].View() == was[i]
        invariant forall i :: 0 <= i < k ==>
                    !ConnInit(was[i], fd).available && conns[i].View() == ConnInit(was[i], fd).slot
      {
        assert forall i :: 0 <= i < |conns| && i != k ==> conns[i] != conns[k];
        var available := conns[k].Init(fd);
        if available {
          AcceptAt(was, k, fd, View());
          AfterAccept(was, fd, View());
          return 0, k;
        }
        k := k + 1;
      }
      AcceptAt(was, k, fd, View());
      AfterAccept(was, fd, View());
      ret := -EMFILE;
    }

    // Whatever was read of a request, and where the next byte of it goes.
    method Receive(k: nat, at: nat)
      requires Valid() && k < |conns|
      modifies conns[k]
      ensures View() == old(View())[k := old(View())[k].(offset := at)]
      ensures After(old(View()), Receiving(k, at), View())
    {
      conns[k].Receive(at);
      OnlyAt(old(View()), k, View());
      AfterStep(old(View()), Receiving(k, at), View());
    }

    // The descriptor of the notify channel, or a failure to make one.
    method CreateNotify(k: nat, fd: int)
      requires Valid() && k < |conns|
      modifies conns[k]
      ensures View() == old(View())[k := old(View())[k].(notify := fd)]
      ensures After(old(View()), CreatingNotify(k, fd), View())
    {
      conns[k].CreateNotify(fd);
      OnlyAt(old(View()), k, View());
      AfterStep(old(View()), CreatingNotify(k, fd), View());
    }

    method Close(k: nat)
      requires Valid() && k < |conns|
      modifies conns[k]
      ensures View() == old(View())[k := Closed(old(View())[k])]
      ensures After(old(View()), Closing(k), View())
      ensures conns[k].tranFd == -1 && conns[k].offset == 0 && conns[k].notifyFd == old(conns[k].notifyFd)
    {
      conns[k].Close();
      OnlyAt(old(View()), k, View());
      AfterStep(old(View()), Closing(k), View());
    }

    method Notify(k: nat) returns (ret: int)
      requires Valid() && k < |conns|
      modifies conns[k]
      ensures View() == old(View())[k := Notified(old(View())[k])]
      ensures After(old(View()), Notifying(k), View())
      ensures ret == if conns[k].notifyFd > 0 then 0 else -EINVAL
    {
      ret := conns[k].Notify();
      OnlyAt(old(View()), k, View());
      AfterStep(old(View()), Notifying(k), View());
    }

    method Finalize(k: nat)
      requires Valid() && k < |conns|
      modifies conns[k]
      ensures View() == old(View())[k := Finalized(old(View())[k])]
      ensures After(old(View()), Finalizing(k), View())
      ensures conns[k].notifyFd <= 0 && conns[k].tranFd == old(conns[k].tranFd)
      ensures old(conns[k].notifyFd) > 0 ==> conns[k].offset == 0
    {
      conns[k].Finalize();
      OnlyAt(old(View()), k, View());
      AfterStep(old(View()), Finalizing(k), View());
    }
  }

  lemma OnlyAt(was: seq<Slot>, k: nat, now: seq<Slot>)
    requires k < |was| == |now| && forall i :: 0 <= i < |was| && i != k ==> now[i] == was[i]
    ensures now == was[k := now[k]]
  {
  }

  lemma AfterAccept(was: seq<Slot>, fd: int, now: seq<Slot>)
    requires now == SlotSpec.Accept(was, fd)
    ensures After(was, Accepting(fd), now)
  {
    hide SlotSpec.Accept;
    AfterStep(was, Accepting(fd), now);
  }

  // Accepting tries the slots up to the first free one, and leaves those after it.
  lemma {:induction false} AcceptAt(was: seq<Slot>, k: nat, fd: int, now: seq<Slot>)
    requires k <= |was| == |now|
    requires forall i :: 0 <= i < |was| ==> now[i] == if i <= k then ConnInit(was[i], fd).slot else was[i]
    requires forall i :: 0 <= i < k ==> !ConnInit(was[i], fd).available
    requires k < |was| ==> ConnInit(was[k], fd).available
    ensures now == SlotSpec.Accept(was, fd)
  {
    if was != [] {
      hide ConnInit;
      assert now == [now[0]] + now[1..];
      if k == 0 {
        assert now[1..] == was[1..];
      } else {
        AcceptAt(was[1..], k - 1, fd, now[1..]);
      }
    }
  }
}
