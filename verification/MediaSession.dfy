/** The server's session as its methods change it in place, each proved against its specification. */
module MediaSession {
  import opened Prelude
  import opened Metadatas
  import opened MetadataTexts
  import opened SessionSpec

  class ControllerEntry {
    const cookie: nat
    var event: bool   // whether events are wanted

    constructor (cookie: nat)
      ensures this.cookie == cookie && !event
    {
      this.cookie, event := cookie, false;
    }
  }

  class ControlleeEntry {
    const id: nat
    const data: Metadata

    constructor (id: nat)
      ensures this.id == id && data.View() == BLANK && fresh(data)
    {
      this.id := id;
      data := new Metadata();
    }
  }

  function ControllersOf(cs: seq<ControllerEntry>): (vs: seq<Controller>)
    reads cs
    ensures |vs| == |cs| && forall i :: 0 <= i < |cs| ==> vs[i] == Controller(cs[i].cookie, cs[i].event)
  {
    if cs == [] then [] else [Controller(cs[0].cookie, cs[0].event)] + ControllersOf(cs[1..])
  }

  function ControlleesOf(cs: seq<ControlleeEntry>): (vs: seq<Controllee>)
    reads set c | c in cs :: c.data
    ensures |vs| == |cs| && forall i :: 0 <= i < |cs| ==> vs[i] == Controllee(cs[i].id, cs[i].data.View())
  {
    if cs == [] then [] else [Controllee(cs[0].id, cs[0].data.View())] + ControlleesOf(cs[1..])
  }

  lemma ControlleesMore(cs: seq<ControlleeEntry>, c: ControlleeEntry)
    ensures ControlleesOf(cs + [c]) == ControlleesOf(cs) + [Controllee(c.id, c.data.View())]
  {
    assert forall i :: 0 <= i < |cs| ==> (cs + [c])[i] == cs[i];
  }

  lemma ControlleesWithout(cs: seq<ControlleeEntry>, k: nat)
    requires k < |cs|
    ensures ControlleesOf(Without(cs, k)) == Without(ControlleesOf(cs), k)
    ensures ControlleesOf([cs[k]] + Without(cs, k)) == [ControlleesOf(cs)[k]] + Without(ControlleesOf(cs), k)
  {
    var rest, views := Without(cs, k), Without(ControlleesOf(cs), k);
    ControlleesFirst(cs[k], rest);
    hide Without, ControlleesOf;
    assert ControlleesOf(rest) == views;
  }

  lemma ControlleesFirst(c: ControlleeEntry, cs: seq<ControlleeEntry>)
    ensures ControlleesOf([c] + cs) == [Controllee(c.id, c.data.View())] + ControlleesOf(cs)
  {
    assert ([c] + cs)[1..] == cs;
  }

  // No entry is listed twice or shares its data.
  ghost predicate Separate(cs: seq<ControlleeEntry>, bound: nat) {
    && (forall i :: 0 <= i < |cs| ==> cs[i].id < bound)
    && (forall i, j :: 0 <= i < j < |cs| ==> cs[i].id != cs[j].id && cs[i].data != cs[j].data)
  }

  lemma SeparateMore(cs: seq<ControlleeEntry>, c: ControlleeEntry, bound: nat)
    requires Separate(cs, bound) && c.id == bound && forall i :: 0 <= i < |cs| ==> cs[i].data != c.data
    ensures Separate(cs + [c], bound + 1)
  {
    var all := cs + [c];
    forall i | 0 <= i < |all| ensures all[i] == if i < |cs| then cs[i] else c {
    }
  }

  lemma SeparateFewer(cs: seq<ControlleeEntry>, k: nat, bound: nat)
    requires Separate(cs, bound) && k < |cs|
    ensures Separate(Without(cs, k), bound) && Separate([cs[k]] + Without(cs, k), bound)
    ensures cs[k] !in Without(cs, k)
  {
    var rest := Without(cs, k);
    hide Without;
    forall i | 0 <= i < |rest| ensures rest[i].id < bound && rest[i].id != cs[k].id && rest[i].data != cs[k].data {
      assert rest[i] == cs[if i < k then i else i + 1];
    }
  }

  ghost predicate Distinct(cs: seq<ControllerEntry>) {
    forall i, j :: 0 <= i < j < |cs| ==> cs[i] != cs[j]
  }

  lemma DistinctFewer(cs: seq<ControllerEntry>, k: nat)
    requires Distinct(cs) && k < |cs|
    ensures Distinct(Without(cs, k)) && cs[k] !in Without(cs, k)
    ensures ControllersOf(Without(cs, k)) == Without(ControllersOf(cs), k)
  {
    var rest := Without(cs, k);
    ControllersWithout(cs, k);
    hide Without, ControllersOf;
    forall i | 0 <= i < |rest| ensures rest[i] != cs[k] {
      assert rest[i] == cs[if i < k then i else i + 1];
    }
  }

  lemma ControllersWithout(cs: seq<ControllerEntry>, k: nat)
    requires k < |cs|
    ensures ControllersOf(Without(cs, k)) == Without(ControllersOf(cs), k)
  {
    var rest, views := Without(cs, k), Without(ControllersOf(cs), k);
    hide Without;
    assert ControllersOf(rest) == views;
  }

  class MediaSession {
    var controllers: seq<ControllerEntry>
    var controllees: seq<ControlleeEntry>   // most active first
    var nextId: nat
    ghost var sent: seq<Sent>

    ghost function View(): Session
      reads this, controllers, set c | c in controllees :: c.data
    {
      Session(ControllersOf(controllers), ControlleesOf(controllees), nextId, sent)
    }

    ghost predicate Valid()
      reads this
    {
      && Separate(controllees, nextId)
      && Distinct(controllers)
    }

    constructor ()
      ensures Valid() && View() == FRESH
    {
      controllers, controllees, nextId, sent := [], [], 0, [];
    }

    // ---------- Broadcasts ----------

    // Goes out only if the entry is the head; no entry is the head of an empty list.
    method Notify(c: ControlleeEntry?, code: int, result: set<Field>)
      requires Valid() && (c != null ==> c in controllees)
      modifies this`sent
      ensures Valid()
      ensures View() == SessionSpec.Notify(old(View()), if c == null then None else Some(c.id), Notice(code, result))
    {
      if c == if controllees == [] then null else controllees[0] {
        var i := 0;
        ghost var views := ControllersOf(controllers);
        while i < |controllers|
          invariant 0 <= i <= |controllers|
          invariant sent + ToAll(views[i..], Notice(code, result)) == old(sent) + ToAll(views, Notice(code, result))
        {
          ghost var rest := ToAll(views[i + 1..], Notice(code, result));
          assert views[i..][1..] == views[i + 1..];
          if controllers[i].event {
            AppendTwice(sent, [Sent(controllers[i].cookie, Notice(code, result))], rest);
            sent := sent + [Sent(controllers[i].cookie, Notice(code, result))];
          } else {
            assert [] + rest == rest;
          }
          i := i + 1;
        }
      }
    }

    // ---------- Controllers ----------

    method Open(cookie: nat) returns (c: ControllerEntry)
      requires Valid()
      modifies this`controllers
      ensures Valid() && fresh(c) && c in controllers && c.cookie == cookie
      ensures View() == old(View()).(controllers := [Controller(cookie, false)] + old(View()).controllers)
    {
      c := new ControllerEntry(cookie);
      controllers := [c] + controllers;
      assert controllers[1..] == old(controllers);
    }

    // Where a controller is in the list.
    method IndexOf(c: ControllerEntry) returns (i: nat)
      requires c in controllers
      ensures i < |controllers| && controllers[i] == c && c !in controllers[..i]
    {
      i := 0;
      while controllers[i] != c
        invariant 0 <= i < |controllers| && c !in controllers[..i]
        decreases |controllers| - i
      {
        i := i + 1;
      }
    }

    method SetEvent(c: ControllerEntry)
      requires Valid() && c in controllers
      modifies c
      ensures Valid()
      ensures exists i :: 0 <= i < |controllers| && controllers[i] == c
                && View() == old(View()).(controllers := old(View()).controllers[i := Controller(c.cookie, true)])
    {
      var i := IndexOf(c);
      c.event := true;
      ghost var was, now := old(ControllersOf(controllers)), ControllersOf(controllers);
      forall j | 0 <= j < |now| ensures now[j] == if j == i then Controller(c.cookie, true) else was[j] {
        assert j != i ==> controllers[j] != c;
      }
      assert now == was[i := Controller(c.cookie, true)];
    }

    method RemoveController(i: nat)
      requires Valid() && i < |controllers|
      modifies this`controllers
      ensures Valid() && old(controllers)[i] !in controllers
      ensures View() == old(View()).(controllers := Without(old(View()).controllers, i))
    {
      hide Without, ControllersOf, ControlleesOf, Distinct, Separate;
      DistinctFewer(controllers, i);
      controllers := Without(controllers, i);
    }

    method Close(c: ControllerEntry)
      requires Valid() && c in controllers
      modifies this`controllers
      ensures Valid() && c !in controllers
      ensures exists i :: 0 <= i < |old(controllers)| && old(controllers)[i] == c
                && View() == old(View()).(controllers := Without(old(View()).controllers, i))
    {
      var i := IndexOf(c);
      hide Without, ControllersOf, ControlleesOf, Distinct, Separate;
      RemoveController(i);
    }

    // ---------- Controllees ----------

    // Where an entry is in the list.
    method PlaceOf(c: ControlleeEntry) returns (k: nat)
      requires Valid() && c in controllees
      ensures k < |controllees| && controllees[k] == c
      ensures k == Place(ControlleesOf(controllees), c.id)
    {
      k := 0;
      while controllees[k] != c
        invariant k < |controllees| && c !in controllees[..k]
        decreases |controllees| - k
      {
        k := k + 1;
      }
    }

    // ---------- Changes of the list ----------

    method InsertTail(c: ControlleeEntry)
      requires Valid() && c.id == nextId && c.data.View() == BLANK
      requires forall i :: 0 <= i < |controllees| ==> controllees[i].data != c.data
      modifies this`controllees, this`nextId
      ensures Valid() && c in controllees
      ensures View() == old(View()).(controllees := old(View()).controllees + [Controllee(c.id, BLANK)],
                                     nextId := old(nextId) + 1)
    {
      hide Separate, ControlleesOf, ControllersOf, Distinct;
      SeparateMore(controllees, c, nextId);
      ControlleesMore(controllees, c);
      nextId := nextId + 1;
      controllees := controllees + [c];
      assert c == controllees[|controllees| - 1];
    }

    method Remove(k: nat)
      requires Valid() && k < |controllees|
      modifies this`controllees
      ensures Valid() && old(controllees)[k] !in controllees
      ensures View() == old(View()).(controllees := Without(old(View()).controllees, k))
    {
      hide Without, Separate, ControlleesOf, ControllersOf, Distinct;
      SeparateFewer(controllees, k, nextId);
      ControlleesWithout(controllees, k);
      controllees := Without(controllees, k);
    }

    method MoveToHead(k: nat)
      requires Valid() && k < |controllees|
      modifies this`controllees
      ensures Valid() && controllees != [] && controllees[0] == old(controllees)[k]
      ensures View() == old(View()).(controllees := [old(View()).controllees[k]] + Without(old(View()).controllees, k))
    {
      hide Without, Separate, ControlleesOf, ControllersOf, Distinct;
      var now := [controllees[k]] + Without(controllees, k);
      SeparateFewer(controllees, k, nextId);
      ControlleesWithout(controllees, k);
      controllees := now;
    }

    // Only this entry's data changes.
    method TakeOver(k: nat, diff: Metadata)
      requires Valid() && k < |controllees|
      requires forall i :: 0 <= i < |controllees| ==> controllees[i].data != diff
      modifies controllees[k].data, diff
      ensures Valid()
      ensures var v := old(View()).controllees[k];
              View() == old(View()).(controllees :=
                old(View()).controllees[k := v.(data := Merge(v.data, old(diff.View())))])
    {
      controllees[k].data.Update(diff);
      hide Merge;
      ghost var was := old(ControlleesOf(controllees));
      assert ControlleesOf(controllees) == was[k := was[k].(data := Merge(was[k].data, old(diff.View())))];
    }

    // ---------- Controllees ----------

    method Register() returns (c: ControlleeEntry)
      requires Valid()
      modifies this`controllees, this`nextId, this`sent
      ensures Valid() && fresh(c) && c in controllees
      ensures View() == SessionSpec.Register(old(View()))
    {
      c := new ControlleeEntry(nextId);
      hide SessionSpec.Notify;
      InsertTail(c);
      Notify(c, MEDIA_EVENT_CHANGED, {});
    }

    // The record that a text holds, if it can be read at all.
    method Parse(arg: Option<string>) returns (diff: Metadata, clean: bool)
      ensures clean <==> Reads(arg)
      ensures fresh(diff) && (clean ==> diff.View() == News(arg))
    {
      diff := new Metadata();
      clean := true;
      if arg.Some? {
        var r := Unserialize(arg.value);
        hide Unserialize;
        clean := r.Record?;
        if clean {
          diff.Read(r.meta);
        }
      }
    }

    /* The news a controllee sends as text; one that plays comes to the front.  A text that cannot be read leaves the
       original in no defined state, which here is the end of it. */
    method Update(c: ControlleeEntry, arg: Option<string>) returns (clean: bool)
      requires Valid() && c in controllees
      modifies this`controllees, this`sent, c.data
      ensures Valid() && (clean <==> Reads(arg))
      ensures clean ==> View() == SessionSpec.Update(old(View()), c.id, News(arg))
    {
      hide Reads, News;
      var diff;
      diff, clean := Parse(arg);
      if clean {
          TakeNews(c, diff);
      }
    }

    method TakeNews(c: ControlleeEntry, diff: Metadata)
      requires Valid() && c in controllees
      requires forall i :: 0 <= i < |controllees| ==> controllees[i].data != diff
      modifies this`controllees, this`sent, c.data, diff
      ensures Valid()
      ensures View() == SessionSpec.Update(old(View()), c.id, old(diff.View()))
    {
      var flags := diff.flags;
      var k := PlaceOf(c);
      hide SessionSpec.Notify, Without, Merge, Separate, Distinct, ControllersOf;
      TakeOver(k, diff);
      if k == 0 {
        Notify(c, MEDIA_EVENT_UPDATED, flags);
      } else if State in c.data.flags && c.data.state > 0 {
        MoveToHead(k);
        Notify(c, MEDIA_EVENT_CHANGED, flags);
      }
    }

    method Unregister(c: ControlleeEntry)
      requires Valid() && c in controllees
      modifies this`controllees, this`sent
      ensures Valid() && c !in controllees
      ensures View() == SessionSpec.Unregister(old(View()), c.id)
    {
      var k := PlaceOf(c);
      hide SessionSpec.Notify, Without;
      Remove(k);
      if k == 0 {
        var head: ControlleeEntry? := if controllees == [] then null else controllees[0];
        var flags := if controllees == [] then {} else controllees[0].data.flags;
        Notify(head, MEDIA_EVENT_CHANGED, flags);
      }
    }

    // ---------- What controllers ask ----------

    /* The head answers a query with its metadata as text, cut to the room there is, and its full length; it gets
       any known command as an event; there may be no head. */
    method Transfer(cmd: string, len: int) returns (ret: int, res: Option<string>, forwarded: Option<(nat, int)>)
      requires Valid()
      ensures View().Head() == None ==> ret == -ENOENT && res == None && forwarded == None
      ensures View().Head() != None && cmd == "query" ==>
                var text := Serialize(View().HeadData().value);
                ret == |text| && res == (if len > 0 then Some(Fit(text, len)) else None) && forwarded == None
      ensures View().Head() != None ==>
                forall k :: 0 <= k < 7 && cmd == COMMANDS[k] ==>
                  ret == 0 && res == None && forwarded == Some((View().Head().value, 103 + k))
      ensures View().Head() != None && cmd != "query" && cmd !in COMMANDS ==>
                ret == -ENOSYS && res == None && forwarded == None
    {
      res, forwarded := None, None;
      if controllees == [] {
        return -ENOENT, None, None;
      }
      var head := controllees[0];
      if cmd == "query" {
        var text := Serialize(head.data.View());
        ret := |text|;
        if len > 0 {
          res := Some(Fit(text, len));
        }
        return;
      }
      ret := CommandEvent(cmd);
      CommandOrder(cmd);
      if ret > 0 {
        forwarded := Some((head.id, ret));
        ret := 0;
      }
    }
  }

  // In the order of their events, from 103 on.
  const COMMANDS := ["start", "pause", "stop", "prev", "next", "volumeup", "volumedown"]

  lemma CommandOrder(cmd: string)
    ensures forall k :: 0 <= k < 7 && cmd == COMMANDS[k] ==> CommandEvent(cmd) == 103 + k
    ensures cmd !in COMMANDS ==> CommandEvent(cmd) == -ENOSYS
  {
    assert COMMANDS[0] == "start" && COMMANDS[1] == "pause" && COMMANDS[2] == "stop" && COMMANDS[3] == "prev";
    assert COMMANDS[4] == "next" && COMMANDS[5] == "volumeup" && COMMANDS[6] == "volumedown";
  }

  // The event that a command becomes.
  function CommandEvent(cmd: string): (event: int)
    ensures event > 0 || event == -ENOSYS
  {
    if cmd == "start" then 103
    else if cmd == "pause" then 104
    else if cmd == "stop" then 105
    else if cmd == "prev" then 106
    else if cmd == "next" then 107
    else if cmd == "volumeup" then 108
    else if cmd == "volumedown" then 109
    else -ENOSYS
  }
}
