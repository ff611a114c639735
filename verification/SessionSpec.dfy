/** The server's media session on plain values: controllees in order of activity, and what is broadcast. */
module SessionSpec {
  import opened Prelude
  import opened Metadatas

  const MEDIA_EVENT_CHANGED := 101
  const MEDIA_EVENT_UPDATED := 102

  // A registered controllee; the id tells registrations apart and grows.
  datatype Controllee = Controllee(id: nat, data: Meta)

  datatype Controller = Controller(cookie: nat, event: bool)

  datatype Notice = Notice(code: int, result: set<Field>)

  // A notice, and the client it was sent to.
  datatype Sent = Sent(cookie: nat, notice: Notice)

  datatype Session = Session(controllers: seq<Controller>, controllees: seq<Controllee>, nextId: nat, sent: seq<Sent>) {
    function Head(): Option<nat> { if controllees == [] then None else Some(controllees[0].id) }

    function HeadData(): Option<Meta> { if controllees == [] then None else Some(controllees[0].data) }
  }

  const FRESH := Session([], [], 0, [])

  // ---------- Broadcasts ----------

  // To every controller that asked for events, in list order.
  function ToAll(cs: seq<Controller>, n: Notice): seq<Sent> {
    if cs == [] then []
    else (if cs[0].event then [Sent(cs[0].cookie, n)] else []) + ToAll(cs[1..], n)
  }

  // Only the head broadcasts; the head of an empty list is nobody.
  function Notify(s: Session, id: Option<nat>, n: Notice): Session {
    if id == s.Head() then s.(sent := s.sent + ToAll(s.controllers, n)) else s
  }

  // ---------- Controllees ----------

  function Place(cs: seq<Controllee>, id: nat): (k: nat)
    ensures k <= |cs| && (k < |cs| ==> cs[k].id == id)
    ensures forall i :: 0 <= i < k ==> cs[i].id != id
  {
    if cs == [] || cs[0].id == id then 0 else 1 + Place(cs[1..], id)
  }

  predicate Listed(s: Session, id: nat) { Place(s.controllees, id) < |s.controllees| }

  function Register(s: Session): Session {
    var t := s.(controllees := s.controllees + [Controllee(s.nextId, BLANK)], nextId := s.nextId + 1);
    Notify(t, Some(s.nextId), Notice(MEDIA_EVENT_CHANGED, {}))
  }

  predicate Playing(m: Meta) { State in m.flags && m.state > 0 }

  // The head announces its news; another one that plays becomes the head.
  function Update(s: Session, id: nat, diff: Meta): Session
    requires Listed(s, id)
  {
    var k := Place(s.controllees, id);
    var c := s.controllees[k].(data := Merge(s.controllees[k].data, diff));
    var kept := s.(controllees := s.controllees[k := c]);
    if k == 0 then Notify(kept, Some(id), Notice(MEDIA_EVENT_UPDATED, diff.flags))
    else if Playing(c.data) then
      Notify(s.(controllees := [c] + Without(s.controllees, k)), Some(id),
             Notice(MEDIA_EVENT_CHANGED, diff.flags))
    else kept
  }

  function Unregister(s: Session, id: nat): Session
    requires Listed(s, id)
  {
    var k := Place(s.controllees, id);
    var t := s.(controllees := Without(s.controllees, k));
    if k == 0 then
      Notify(t, t.Head(), Notice(MEDIA_EVENT_CHANGED, if t.controllees == [] then {} else t.controllees[0].data.flags))
    else t
  }

  // ---------- Histories ----------

  datatype Op =
    | RegisterOp
    | UpdateOp(id: nat, diff: Meta)
    | UnregisterOp(id: nat)
    | NotifyOp(id: nat, code: int, result: set<Field>)   // an event of the controllee's own
    | ControllersOp(controllers: seq<Controller>)        // controllers come, go and ask for events

  predicate Enabled(s: Session, op: Op) {
    match op
    case RegisterOp => true
    case UpdateOp(id, _) => Listed(s, id)
    case UnregisterOp(id) => Listed(s, id)
    case NotifyOp(id, _, _) => Listed(s, id)
    case ControllersOp(_) => true
  }

  function Step(s: Session, op: Op): Session
    requires Enabled(s, op)
  {
    match op
    case RegisterOp => Register(s)
    case UpdateOp(id, diff) => Update(s, id, diff)
    case UnregisterOp(id) => Unregister(s, id)
    case NotifyOp(id, code, result) => Notify(s, Some(id), Notice(code, result))
    case ControllersOp(cs) => s.(controllers := cs)
  }

  ghost predicate Legal(ops: seq<Op>)
    decreases |ops|, 0
  {
    ops == [] || (Legal(ops[..|ops| - 1]) && Enabled(Run(ops[..|ops| - 1]), ops[|ops| - 1]))
  }

  ghost function Run(ops: seq<Op>): Session
    requires Legal(ops)
    decreases |ops|, 1
  {
    if ops == [] then FRESH else Step(Run(ops[..|ops| - 1]), ops[|ops| - 1])
  }
}
