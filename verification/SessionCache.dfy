/** The controller's cache of the head's metadata, made stale by events on one channel and refreshed by
    replies on another. */
module SessionCache {
  import opened Prelude
  import opened Metadatas
  import opened MetadataTexts
  import opened SessionSpec

  // ---------- The client ----------

  datatype Cache = Cache(data: Meta, needQuery: bool)

  function OnEvent(c: Cache, code: int): Cache {
    if code == MEDIA_EVENT_CHANGED then Cache(BLANK, true)
    else if code == MEDIA_EVENT_UPDATED then c.(needQuery := true)
    else c
  }

  // The metadata that the text of a reply holds; an error has no text.
  function OnMetadata(c: Cache, reply: Option<string>): Cache
    requires Reads(reply)
  {
    c.(data := Merge(c.data, News(reply)))
  }

  class Controller {
    const data: Metadata
    var needQuery: bool
    var listening: bool   // a callback for events is set

    function View(): Cache
      reads this, data
    {
      Cache(data.View(), needQuery)
    }

    constructor ()
      ensures View() == Cache(BLANK, true) && !listening && fresh(data)
    {
      data := new Metadata();
      needQuery, listening := true, false;
    }

    // media_uv_session_event_cb
    method EventCb(event: int)
      modifies this, data
      ensures View() == OnEvent(old(View()), event) && listening == old(listening)
      ensures event == 101 ==> data.flags == {} && data.title == None && data.artist == None
      ensures event == 101 || event == 102 ==> needQuery
      ensures event != 101 ==> data.View() == old(data.View())
    {
      if event == MEDIA_EVENT_CHANGED {
        data.Reinit();
        needQuery := true;
      } else if event == MEDIA_EVENT_UPDATED {
        needQuery := true;
      }
    }

    /* media_uv_controller_receive_metadata_cb: what the user's callback is told is in `told`, the last time
       always zero.  From a text that cannot be read on nothing is defined in the original. */
    method ReceiveMetadataCb(result: int, response: Option<string>) returns (told: seq<int>, clean: bool)
      modifies data
      ensures clean <==> Reads(response)
      ensures clean ==> View() == OnMetadata(old(View()), response)
      ensures clean ==> told == if result < 0 then [result, 0] else [0]
    {
      told, clean := [], Reads(response);
      hide Reads, News;
      if result < 0 {
        told := told + [result];
      }
      if !clean {
        return;
      }
      var diff := new Metadata();
      diff.Read(News(response));
      data.Update(diff);
      told := told + [0];
    }

    // media_uv_session_query: from the cache, or a query is sent if that can be done.
    method Query(canSend: bool) returns (ret: int, fromCache: bool)
      modifies this`needQuery
      ensures fromCache <==> !old(needQuery)
      ensures ret == 0 <==> fromCache || canSend
      ensures needQuery == (old(needQuery) && !(canSend && listening))
    {
      if !needQuery {
        return 0, true;
      }
      if !canSend {
        return -EPERM, false;
      }
      if listening {
        needQuery := false;
      }
      ret, fromCache := 0, false;
    }
  }

  // ---------- Client, server and the two channels ----------

  /* Commands and replies travel on one channel, events on another; a reply is the metadata of the head at
     the moment the server handled the query, as text.  Once a text came that cannot be read, by the server or by the
     client, the system is lost: nothing is defined in the original from there on. */
  datatype Link = Link(session: Session, queries: nat, replies: seq<Option<string>>, events: seq<Notice>, cache: Cache,
                       lost: bool)

  function TextOf(head: Option<Meta>): Option<string> {
    if head == None then None else Some(Fit(Serialize(head.value), TEXT_ROOM))
  }

  // The server is changed by texts that controllees publish, and otherwise.
  datatype LinkEvent =
    | Publish(id: nat, text: Option<string>)
    | ServerOp(op: Op)
    | ServerAnswers
    | EventComes
    | ReplyComes
    | Ask

  // What of the notices sent is for this client.
  function Mine(sent: seq<Sent>, me: nat): seq<Notice> {
    if sent == [] then []
    else (if sent[0].cookie == me then [sent[0].notice] else []) + Mine(sent[1..], me)
  }

  predicate Listens(cs: seq<SessionSpec.Controller>, me: nat) { SessionSpec.Controller(me, true) in cs }

  // The listener is established: this controller stays open and has asked for events.
  predicate LinkEnabled(l: Link, me: nat, e: LinkEvent) {
    match e
    case Publish(id, _) => Listed(l.session, id)
    case ServerOp(op) =>
      !op.UpdateOp? && Enabled(l.session, op) && (op.ControllersOp? ==> Listens(op.controllers, me))
    case ServerAnswers => l.queries > 0
    case EventComes => l.events != []
    case ReplyComes => l.replies != []
    case Ask => true
  }

  function ServerStep(l: Link, me: nat, op: Op): Link
    requires Enabled(l.session, op)
  {
    var t := Step(l.session, op);
    var news := if |l.session.sent| <= |t.sent| then t.sent[|l.session.sent|..] else [];
    l.(session := t, events := l.events + Mine(news, me))
  }

  function LinkStep(l: Link, me: nat, e: LinkEvent): Link
    requires LinkEnabled(l, me, e)
  {
    match e
    case Publish(id, text) =>
      if Reads(text) then ServerStep(l, me, UpdateOp(id, News(text))) else l.(lost := true)
    case ServerOp(op) => ServerStep(l, me, op)
    case ServerAnswers => l.(queries := l.queries - 1, replies := l.replies + [TextOf(l.session.HeadData())])
    case EventComes => l.(events := l.events[1..], cache := OnEvent(l.cache, l.events[0].code))
    case ReplyComes =>
      if Reads(l.replies[0]) then l.(replies := l.replies[1..], cache := OnMetadata(l.cache, l.replies[0]))
      else l.(replies := l.replies[1..], lost := true)
    case Ask => if l.cache.needQuery then l.(queries := l.queries + 1, cache := l.cache.(needQuery := false)) else l
  }

  // ---------- Texts that can be read ----------

  // All that the server knows came out of texts that could be read.
  predicate Sane(s: Session) {
    forall i :: 0 <= i < |s.controllees| ==> AllTravels(s.controllees[i].data)
  }

  predicate Healthy(l: Link) {
    !l.lost && Sane(l.session) && forall i :: 0 <= i < |l.replies| ==> Reads(l.replies[i])
  }

  lemma UpdateStaysSane(s: Session, id: nat, diff: Meta)
    requires Sane(s) && Listed(s, id) && AllTravels(diff)
    ensures Sane(Update(s, id, diff))
  {
    var k := Place(s.controllees, id);
    MergeTravels(s.controllees[k].data, diff);
    hide Merge, AllTravels, ToAll, Place;
    var c := s.controllees[k].(data := Merge(s.controllees[k].data, diff));
    var cs := Update(s, id, diff).controllees;
    assert cs == s.controllees[k := c] || cs == [c] + Without(s.controllees, k);
    hide Update;
    if cs == s.controllees[k := c] {
    } else {
      assert forall i :: 0 < i < |cs| ==> cs[i] == Without(s.controllees, k)[i - 1];
    }
  }

  lemma StepStaysSane(s: Session, op: Op)
    requires Sane(s) && Enabled(s, op) && (op.UpdateOp? ==> AllTravels(op.diff))
    ensures Sane(Step(s, op))
  {
    hide AllTravels, Update, ToAll;
    match op
    case RegisterOp => assert AllTravels(BLANK) by { BlankTravels(); }
    case UpdateOp(id, diff) => UpdateStaysSane(s, id, diff);
    case UnregisterOp(id) =>
    case NotifyOp(_, _, _) =>
    case ControllersOp(_) =>
  }

  lemma BlankTravels()
    ensures AllTravels(BLANK)
  {
  }

  // So it is in every history of the server in which each update was read from a text.
  lemma {:induction false} HistoryIsSane(ops: seq<Op>)
    requires Legal(ops)
    requires forall i :: 0 <= i < |ops| && ops[i].UpdateOp? ==> exists text :: Reads(text) && ops[i].diff == News(text)
    ensures Sane(Run(ops))
  {
    if ops != [] {
      var n := |ops| - 1;
      assert forall i :: 0 <= i < n ==> ops[..n][i] == ops[i];
      HistoryIsSane(ops[..n]);
      if ops[n].UpdateOp? {
        var text :| Reads(text) && ops[n].diff == News(text);
        NewsTravels(text);
      }
      hide Reads, News, Sane, AllTravels;
      StepStaysSane(Run(ops[..n]), ops[n]);
    }
  }

  // What a sane server answers can be read.
  lemma AnswersRead(s: Session)
    requires Sane(s)
    ensures Reads(TextOf(s.HeadData()))
  {
    if s.controllees != [] {
      ServedReads(s.controllees[0].data);
    }
    hide Unserialize, Serialize;
  }

  lemma StaysHealthy(l: Link, me: nat, e: LinkEvent)
    requires Healthy(l) && LinkEnabled(l, me, e)
    ensures var d := LinkStep(l, me, e);
            if e.Publish? && !Reads(e.text) then d.lost else Healthy(d)
  {
    hide Reads, News, Merge, AllTravels;
    match e
    case Publish(id, text) =>
      if Reads(text) {
        NewsTravels(text);
        StepStaysSane(l.session, UpdateOp(id, News(text)));
        hide Step;
      }
    case ServerOp(op) => StepStaysSane(l.session, op);
    case ServerAnswers => AnswersRead(l.session);
    case EventComes =>
    case ReplyComes =>
    case Ask =>
  }

  // ---------- Coherence ----------

  predicate IsNews(n: Notice) { n.code == MEDIA_EVENT_CHANGED || n.code == MEDIA_EVENT_UPDATED }

  predicate NoNews(events: seq<Notice>) { forall i :: 0 <= i < |events| ==> !IsNews(events[i]) }

  // The title as the head has it, and of the artist what a reply has room for.
  predicate SameTexts(cache: Meta, data: Meta)
    requires AllTravels(data)
  {
    && (Title in data.flags ==> Title in cache.flags && cache.title == data.title)
    && (Artist in data.flags ==> Artist in cache.flags && cache.artist == Some(ArtistServed(data)))
  }

  function ArtistServed(data: Meta): string
    requires AllTravels(data) && Artist in data.flags
  {
    ServedReads(data);
    Served(data).artist.value
  }

  predicate AgreesWith(cache: Meta, head: Option<Meta>) {
    head.Some? ==> Agrees(cache, head.value) && AllTravels(head.value) && SameTexts(cache, head.value)
  }

  /* With no news on its way and no need to query, the answer to the last query is still to be made, or is on
     its way and up to date, or has arrived. */
  predicate Coherent(l: Link) {
    NoNews(l.events) && !l.cache.needQuery && l.queries == 0 ==>
      if l.replies != [] then l.replies[|l.replies| - 1] == TextOf(l.session.HeadData())
      else AgreesWith(l.cache.data, l.session.HeadData())
  }

  lemma {:induction false} ToAllReaches(cs: seq<SessionSpec.Controller>, me: nat, n: Notice)
    requires Listens(cs, me)
    ensures n in Mine(ToAll(cs, n), me)
  {
    var head := if cs[0].event then [Sent(cs[0].cookie, n)] else [];
    var all := ToAll(cs, n);
    assert all == head + ToAll(cs[1..], n);
    if cs[0] == SessionSpec.Controller(me, true) {
      assert all[0] == Sent(me, n);
    } else {
      ToAllReaches(cs[1..], me, n);
      if head != [] {
        assert all[1..] == ToAll(cs[1..], n);
      } else {
        assert all == ToAll(cs[1..], n);
      }
    }
  }

  // What the head is and knows does not change without news.
  lemma HeadOrNews(s: Session, op: Op)
    requires Enabled(s, op)
    ensures var t := Step(s, op);
            t.HeadData() != s.HeadData() ==>
              exists n :: IsNews(n) && t.sent == s.sent + ToAll(s.controllers, n)
  {
    var t := Step(s, op);
    if t.HeadData() != s.HeadData() {
      match op
      case RegisterOp => assert t.sent == s.sent + ToAll(s.controllers, Notice(MEDIA_EVENT_CHANGED, {}));
      case UpdateOp(id, diff) =>
        var code := if Place(s.controllees, id) == 0 then MEDIA_EVENT_UPDATED else MEDIA_EVENT_CHANGED;
        assert t.sent == s.sent + ToAll(s.controllers, Notice(code, diff.flags));
      case UnregisterOp(id) =>
        var flags := if t.controllees == [] then {} else t.controllees[0].data.flags;
        assert t.sent == s.sent + ToAll(s.controllers, Notice(MEDIA_EVENT_CHANGED, flags));
      case NotifyOp(_, _, _) =>
      case ControllersOp(_) =>
    }
  }

  ghost predicate Linked(l: Link, me: nat) {
    Listens(l.session.controllers, me) && (l.lost || (Healthy(l) && Coherent(l)))
  }

  lemma ServerStepKeeps(l: Link, me: nat, op: Op)
    requires Coherent(l) && Listens(l.session.controllers, me)
    requires Enabled(l.session, op) && (op.ControllersOp? ==> Listens(op.controllers, me))
    ensures Coherent(ServerStep(l, me, op)) && Listens(ServerStep(l, me, op).session.controllers, me)
  {
    var s, t := l.session, Step(l.session, op);
    var after := ServerStep(l, me, op);
    HeadOrNews(s, op);
    assert Listens(t.controllers, me) by { StillListens(s, op, me); }
    hide AgreesWith, Step, Mine, ToAll, Listens, TextOf;
    if t.HeadData() != s.HeadData() {
      var n :| IsNews(n) && t.sent == s.sent + ToAll(s.controllers, n);
      assert t.sent[|s.sent|..] == ToAll(s.controllers, n);
      ToAllReaches(s.controllers, me, n);
      assert n in after.events;
    } else {
      assert NoNews(after.events) ==> NoNews(l.events) by {
        assert forall i :: 0 <= i < |l.events| ==> after.events[i] == l.events[i];
      }
    }
  }

  lemma StillListens(s: Session, op: Op, me: nat)
    requires Enabled(s, op) && Listens(s.controllers, me) && (op.ControllersOp? ==> Listens(op.controllers, me))
    ensures Listens(Step(s, op).controllers, me)
  {
    hide ToAll, Without;
  }

  // The text tells every number, the title, and as much of the artist as there is room for.
  lemma MergedAgrees(cache: Meta, data: Meta)
    requires AllTravels(data) && Reads(TextOf(Some(data)))
    ensures AgreesWith(Merge(cache, News(TextOf(Some(data)))), Some(data))
  {
    ServedReads(data);
    hide Unserialize, Serialize, Travels, Fit, Prefix;
  }

  lemma CoherentStep(l: Link, me: nat, e: LinkEvent)
    requires Healthy(l) && Coherent(l) && Listens(l.session.controllers, me) && LinkEnabled(l, me, e)
    ensures LinkStep(l, me, e).lost || Coherent(LinkStep(l, me, e))
  {
    hide Agrees, SameTexts, Merge, AllTravels, Reads, News, TextOf;
    match e
    case Publish(id, text) =>
      if Reads(text) {
        ServerStepKeeps(l, me, UpdateOp(id, News(text)));
        hide ServerStep;
      }
    case ServerOp(op) => ServerStepKeeps(l, me, op);
    case ServerAnswers =>
    case EventComes =>
      if !IsNews(l.events[0]) && NoNews(l.events[1..]) {
        assert forall i :: 0 <= i < |l.events| ==> l.events[i] == if i == 0 then l.events[0] else l.events[1..][i - 1];
      }
    case ReplyComes =>
      if l.session.HeadData().Some? && l.replies[0] == TextOf(l.session.HeadData()) {
        MergedAgrees(l.cache.data, l.session.HeadData().value);
      }
    case Ask =>
  }

  lemma ListensOn(l: Link, me: nat, e: LinkEvent)
    requires Listens(l.session.controllers, me) && LinkEnabled(l, me, e)
    ensures Listens(LinkStep(l, me, e).session.controllers, me)
    ensures l.lost ==> LinkStep(l, me, e).lost
  {
    hide Reads, News, Merge;
  }

  // Unless it is lost, every step keeps client and server coherent.
  lemma LinkStepKeeps(l: Link, me: nat, e: LinkEvent)
    requires Linked(l, me) && LinkEnabled(l, me, e)
    ensures Linked(LinkStep(l, me, e), me)
    ensures LinkStep(l, me, e).lost <==> l.lost || (e.Publish? && !Reads(e.text))
  {
    ListensOn(l, me, e);
    hide LinkStep, Coherent, Reads;
    if !l.lost {
      StaysHealthy(l, me, e);
      CoherentStep(l, me, e);
    }
  }

  ghost predicate LinkRun(l: Link, me: nat, es: seq<LinkEvent>)
    decreases |es|
  {
    es == [] || (LinkEnabled(l, me, es[0]) && LinkRun(LinkStep(l, me, es[0]), me, es[1..]))
  }

  function RunLink(l: Link, me: nat, es: seq<LinkEvent>): Link
    requires LinkRun(l, me, es)
    decreases |es|
  {
    if es == [] then l else RunLink(LinkStep(l, me, es[0]), me, es[1..])
  }

  // A text that the server cannot read.
  predicate Unclean(es: seq<LinkEvent>) {
    exists i :: 0 <= i < |es| && es[i].Publish? && !Reads(es[i].text)
  }

  lemma UncleanFirst(es: seq<LinkEvent>)
    requires es != []
    ensures Unclean(es) <==> (es[0].Publish? && !Reads(es[0].text)) || Unclean(es[1..])
  {
    hide Reads;
    if es[0].Publish? && !Reads(es[0].text) {
    } else {
      assert forall i :: 0 < i < |es| ==> es[i] == es[1..][i - 1];
    }
  }

  lemma {:induction false} RunKeepsLinked(l: Link, me: nat, es: seq<LinkEvent>)
    requires Linked(l, me) && LinkRun(l, me, es)
    ensures Linked(RunLink(l, me, es), me)
    ensures RunLink(l, me, es).lost <==> l.lost || Unclean(es)
    decreases |es|
  {
    if es != [] {
      LinkStepKeeps(l, me, es[0]);
      UncleanFirst(es);
      hide Linked, LinkStep, LinkEnabled, Unclean;
      RunKeepsLinked(LinkStep(l, me, es[0]), me, es[1..]);
    }
  }

  // The fields that the replies of a run flag.
  ghost function Learned(l: Link, me: nat, es: seq<LinkEvent>): set<Field>
    requires LinkRun(l, me, es)
    decreases |es|
  {
    if es == [] then {}
    else
      (if es[0].ReplyComes? && Reads(l.replies[0]) then News(l.replies[0]).flags else {})
      + Learned(LinkStep(l, me, es[0]), me, es[1..])
  }

  lemma LearnedStep(l: Link, me: nat, e: LinkEvent)
    requires LinkEnabled(l, me, e)
    ensures LinkStep(l, me, e).cache.data.flags
            <= l.cache.data.flags + if e.ReplyComes? && Reads(l.replies[0]) then News(l.replies[0]).flags else {}
  {
    hide Reads, News, Step, TextOf;
  }

  lemma {:induction false} KnowsLearned(l: Link, me: nat, es: seq<LinkEvent>)
    requires LinkRun(l, me, es)
    ensures RunLink(l, me, es).cache.data.flags <= l.cache.data.flags + Learned(l, me, es)
    decreases |es|
  {
    if es != [] {
      LearnedStep(l, me, es[0]);
      hide LinkStep, LinkEnabled, Reads, News;
      KnowsLearned(LinkStep(l, me, es[0]), me, es[1..]);
    }
  }

  // Once another head was announced, the cache knows nothing, and later no more than the replies since have told.
  lemma ChangedForgets(l: Link, me: nat, es: seq<LinkEvent>)
    requires l.events != [] && l.events[0].code == 101 && LinkRun(LinkStep(l, me, EventComes), me, es)
    ensures var d := LinkStep(l, me, EventComes);
            && d.cache.data.flags == {} && d.cache.data.title == None && d.cache.data.artist == None
            && d.cache.needQuery
            && RunLink(d, me, es).cache.data.flags <= Learned(d, me, es)
  {
    KnowsLearned(LinkStep(l, me, EventComes), me, es);
  }

  /* From the moment the listener is established, with anything in the cache and on the way as long as it is
     marked stale or a query is still to be handled: client and server read every text exactly as long as no
     controllee publishes one that the server cannot read, so whatever the server answers can be read.  Then,
     whenever no query is needed or outstanding and no news is on its way, the cache agrees with the head on every
     number that the head knows, on its title, and on as much of its artist as a reply has room for. */
  lemma CacheCoherent(l: Link, me: nat, es: seq<LinkEvent>)
    requires Listens(l.session.controllers, me) && (l.cache.needQuery || l.queries > 0)
    requires Healthy(l) && LinkRun(l, me, es)
    ensures var now := RunLink(l, me, es);
            && (now.lost <==> Unclean(es))
            && (!now.lost && !now.cache.needQuery && now.queries == 0 && now.replies == [] && NoNews(now.events) ==>
                  AgreesWith(now.cache.data, now.session.HeadData()))
  {
    RunKeepsLinked(l, me, es);
  }
}
