/** The asynchronous client on plain values: four flags, two queues, and what each call and each callback
    from the event loop does to them. */
module UvSpec {
  import opened Prelude
  import opened Framing

  type Code = c: nat | c < 0x1_0000_0000

  // Message codes
  const SEND := 1
  const SEND_ACK := 2
  const REPLY := 3
  const CREATE_NOTIFY := 4

  // Where a message was submitted: inside on_connect, inside on_listen, by the client itself, or elsewhere.
  datatype Origin = Plain | OnConnect | OnListen | Internal

  // The id is the place of the message among all that were ever submitted.
  datatype Msg = Msg(id: nat, code: Code, payload: Payload, origin: Origin)

  /* One write to a command pipe: which connection, what, whether it came out of the pending queue, and at
     that moment whether the connection had replied, whether a reconnect had been asked for since it was
     made, and whether the handle was disconnecting. */
  datatype Write = Write(conn: nat, msg: Msg, queued: bool, replied: bool, shunned: bool, leaving: bool)

  // The command pipe: connecting, usable, or closed.
  datatype Pipe = Awaiting | Up | Down

  datatype Client = Client(
    connecting: bool, listening: bool, reconnecting: bool, disconnecting: bool,
    cpu: Option<string>,      // the server tried, until the names run out
    cpus: seq<string>,        // names not tried yet
    conn: nat,                // how many connections have been tried; the last one is the current one
    pipe: Pipe,
    epipe: bool,
    pendq: seq<Msg>,
    sentq: seq<Msg>,
    // what has happened so far
    written: seq<Write>,
    nextId: nat,
    replied: bool,
    shunned: bool) {

    predicate Idle() { !connecting && !listening && !reconnecting && !disconnecting }
  }

  // What a user can call, from anywhere.
  datatype Action = Submit(ack: bool, payload: Payload) | Reconnect | Listen | Disconnect

  // What the event loop can report; each callback makes the calls given with it.
  datatype Event =
    | Call(action: Action)
    | Connected(ok: bool, acts: seq<Action>)
    | Replied(acts: seq<Action>)
    | Accepted(acts: seq<Action>)

  // ---------- Writing ----------

  function SendWriting(c: Client, m: Msg, queued: bool): Client {
    c.(sentq := if m.code == SEND_ACK then c.sentq + [m] else c.sentq,
       written := c.written + [Write(c.conn, m, queued, c.replied, c.shunned, c.disconnecting)])
  }

  // Writes all of the pending queue, in order.
  function DeliverAll(c: Client): Client
    decreases |c.pendq|
  {
    if c.pendq == [] then c
    else DeliverAll(SendWriting(c.(pendq := c.pendq[1..]), c.pendq[0], true))
  }

  function Send(c: Client, ack: bool, payload: Payload, origin: Origin): Client {
    if c.cpu == None || c.disconnecting then c
    else
      var m := Msg(c.nextId, if ack then SEND_ACK else SEND, payload, origin);
      var d := c.(nextId := c.nextId + 1);
      if c.Idle() then SendWriting(d, m, false) else d.(pendq := d.pendq + [m])
  }

  // ---------- Connecting, listening, leaving ----------

  function ConnectOne(c: Client, name: string): Client {
    c.(cpu := Some(name), conn := c.conn + 1, pipe := Awaiting, connecting := true, replied := false, shunned := false)
  }

  // The next name, or no server at all and both queues dropped.
  function ReconnectOne(c: Client): Client {
    if c.cpus == [] then c.(cpu := None, pendq := [], sentq := [])
    else ConnectOne(c.(cpus := c.cpus[1..]), c.cpus[0])
  }

  // Binds the listener and asks the server to connect back.
  function ListenOne(c: Client): Client {
    SendWriting(c.(epipe := true, nextId := c.nextId + 1), Msg(c.nextId, CREATE_NOTIFY, [], Internal), false)
      .(listening := true)
  }

  function Act(c: Client, a: Action, origin: Origin): Client {
    match a
    case Submit(ack, payload) => Send(c, ack, payload, origin)
    case Reconnect =>
      if c.epipe then c
      else if c.Idle() then ReconnectOne(c.(shunned := true))
      else c.(reconnecting := true, shunned := true)
    case Listen =>
      if c.listening || c.epipe then c
      else if c.Idle() then ListenOne(c)
      else c.(listening := true)
    case Disconnect => c.(disconnecting := true)
  }

  function Acts(c: Client, acts: seq<Action>, origin: Origin): Client
    decreases |acts|
  {
    if acts == [] then c else Acts(Act(c, acts[0], origin), acts[1..], origin)
  }

  // ---------- Callbacks from the event loop ----------

  function WithFlags(c: Client, connecting: bool, listening: bool, reconnecting: bool, disconnecting: bool): Client {
    c.(connecting := connecting, listening := listening, reconnecting := reconnecting, disconnecting := disconnecting)
  }

  // media_uv_connect_one_cb: the flags are cleared while on_connect runs, and put back after it.
  function OnConnected(c: Client, ok: bool, acts: seq<Action>): Client {
    if !ok || c.disconnecting then Acts(c, acts, OnConnect).(pipe := Down)
    else
      var d := Acts(WithFlags(c, false, false, false, false).(pipe := Up), acts, OnConnect);
      WithFlags(d, d.connecting || c.connecting, d.listening || c.listening,
                d.reconnecting || c.reconnecting, d.disconnecting || c.disconnecting)
  }

  // What follows the first reply, when on_receive has returned.
  function Settle(c: Client): Client {
    var d := c.(connecting := false);
    var l := if d.listening && !d.reconnecting && !d.disconnecting then ListenOne(d) else d;
    var e := if !l.listening && !l.reconnecting then DeliverAll(l) else l;
    if e.disconnecting then DeliverAll(e).(pipe := Down)
    else if e.reconnecting then
      var r := ReconnectOne(e.(reconnecting := false));
      if r.cpu == None then r.(pipe := Down) else r
    else e
  }

  // media_uv_handle_parcel for a reply on the command pipe.
  function OnReply(c: Client, acts: seq<Action>): Client
    requires c.sentq != []
  {
    var d := Acts(c.(sentq := c.sentq[1..], replied := true), acts, Plain);
    if d.connecting then Settle(d) else d
  }

  // media_uv_listen_one_cb when the server has connected back.
  function OnAccepted(c: Client, acts: seq<Action>): Client {
    var d := Acts(c.(listening := false), acts, OnListen);
    if c.disconnecting then d else DeliverAll(d)
  }

  // ---------- Runs ----------

  // The first name is tried at once; the handle is only made when there is one.
  function Dial(names: seq<string>): Client
    requires names != []
  {
    ConnectOne(Client(false, false, false, false, None, names[1..], 0, Down, false, [], [], [], 0, false, false),
               names[0])
  }

  // What can happen next.  A listener needs a server name.
  predicate Enabled(c: Client, e: Event) {
    match e
    case Call(a) => a.Listen? ==> c.cpu != None
    case Connected(_, _) => c.pipe == Awaiting
    case Replied(_) => c.pipe == Up && c.sentq != []
    case Accepted(_) => c.listening && c.epipe
  }

  function Step(c: Client, e: Event): Client
    requires Enabled(c, e)
  {
    match e
    case Call(a) => Act(c, a, Plain)
    case Connected(ok, acts) => OnConnected(c, ok, acts)
    case Replied(acts) => OnReply(c, acts)
    case Accepted(acts) => OnAccepted(c, acts)
  }

  ghost predicate EnabledRun(c: Client, es: seq<Event>)
    decreases |es|
  {
    es == [] || (Enabled(c, es[0]) && EnabledRun(Step(c, es[0]), es[1..]))
  }

  function Run(c: Client, es: seq<Event>): Client
    requires EnabledRun(c, es)
    decreases |es|
  {
    if es == [] then c else Run(Step(c, es[0]), es[1..])
  }
}
