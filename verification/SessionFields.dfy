/** What the server knows of each field of a controllee, who becomes the head, and who hears of it. */
module SessionFields {
  import opened Prelude
  import opened Metadatas
  import opened SessionSpec
  import opened SessionOrder

  // ---------- Fields ----------

  // Of the album only the flag travels.
  datatype Value = Number(n: int) | Words(text: Option<string>) | Nothing

  function ValueOf(m: Meta, f: Field): Value {
    match f
    case State => Number(m.state)
    case Volume => Number(m.volume)
    case Position => Number(m.position)
    case Duration => Number(m.duration)
    case Title => Words(m.title)
    case Artist => Words(m.artist)
    case Album => Nothing
  }

  // Each field is that of the news where they flag it, and kept where they do not.
  lemma MergeKeeps(data: Meta, diff: Meta, f: Field)
    ensures f in Merge(data, diff).flags <==> f in data.flags || f in diff.flags
    ensures ValueOf(Merge(data, diff), f) == ValueOf(if f in diff.flags then diff else data, f)
  {
  }

  // Update i is the last in this history that tells this field of this controllee.
  predicate LastTold(ops: seq<Op>, id: nat, f: Field, i: nat) {
    && i < |ops| && Tells(ops[i], id, f)
    && forall j :: i < j < |ops| ==> !Tells(ops[j], id, f)
  }

  predicate Tells(op: Op, id: nat, f: Field) { op.UpdateOp? && op.id == id && f in op.diff.flags }

  // One more event of the history.
  lemma DataStep(ops: seq<Op>, id: nat, f: Field)
    requires ops != []
    ensures var n := |ops| - 1;
            var before, now := DataOf(ops[..n], id), DataOf(ops, id);
            if Tells(ops[n], id, f) then f in now.flags && ValueOf(now, f) == ValueOf(ops[n].diff, f)
            else (f in now.flags <==> f in before.flags) && ValueOf(now, f) == ValueOf(before, f)
  {
    var n := |ops| - 1;
    if ops[n].UpdateOp? {
      MergeKeeps(DataOf(ops[..n], id), ops[n].diff, f);
    }
    hide Merge, ValueOf;
  }

  lemma {:induction false} DataIsLast(ops: seq<Op>, id: nat, f: Field)
    ensures f in DataOf(ops, id).flags <==> exists i :: 0 <= i < |ops| && Tells(ops[i], id, f)
    ensures forall i: nat :: LastTold(ops, id, f, i) ==> ValueOf(DataOf(ops, id), f) == ValueOf(ops[i].diff, f)
    ensures f !in DataOf(ops, id).flags ==> ValueOf(DataOf(ops, id), f) == ValueOf(BLANK, f)
  {
    if ops != [] {
      var n := |ops| - 1;
      var before := ops[..n];
      DataIsLast(before, id, f);
      DataStep(ops, id, f);
      hide DataOf, ValueOf, Tells;
      forall i | 0 <= i < n ensures before[i] == ops[i] {
      }
      forall i: nat | LastTold(ops, id, f, i)
        ensures ValueOf(DataOf(ops, id), f) == ValueOf(ops[i].diff, f)
      {
        if i != n {
          assert LastTold(before, id, f, i);
        }
      }
      if i: nat :| i < n && Tells(ops[i], id, f) {
        assert Tells(before[i], id, f);
      }
    }
  }

  /* In every history a listed controllee knows exactly the fields that one of its updates has flagged, each with the
     value of the last update that did; what it does not know is zero or missing. */
  lemma FieldsAreLatest(ops: seq<Op>, k: nat, f: Field)
    requires Legal(ops) && k < |Run(ops).controllees|
    ensures var c := Run(ops).controllees[k];
            && (f in c.data.flags <==> exists i :: 0 <= i < |ops| && Tells(ops[i], c.id, f))
            && (forall i: nat :: LastTold(ops, c.id, f, i) ==> ValueOf(c.data, f) == ValueOf(ops[i].diff, f))
            && (f !in c.data.flags ==> ValueOf(c.data, f) == ValueOf(BLANK, f))
  {
    RunIsTimely(ops);
    DataIsLast(ops, Run(ops).controllees[k].id, f);
    hide DataOf, ValueOf, Run, LastTold, Legal;
  }

  // ---------- The head ----------

  /* After an update its controllee is the head exactly if it was before, or if its state is known and above zero now,
     be it from these news or earlier; everyone else stays in order behind it. */
  lemma ElectedExactly(s: Session, id: nat, diff: Meta)
    requires Listed(s, id)
    ensures var was := s.controllees[Place(s.controllees, id)].data;
            var state := if State in diff.flags then diff.state else was.state;
            Update(s, id, diff).Head() == Some(id)
            <==> s.Head() == Some(id) || ((State in diff.flags || State in was.flags) && state > 0)
  {
    hide ToAll;
  }

  // ---------- Broadcasts ----------

  // The places of the controllers that want events.
  function Wanting(cs: seq<Controller>): (places: seq<nat>)
    ensures forall j :: 0 <= j < |places| ==> places[j] < |cs| && cs[places[j]].event
    ensures forall j, k :: 0 <= j < k < |places| ==> places[j] < places[k]
    ensures forall i :: 0 <= i < |cs| && cs[i].event ==> i in places
  {
    if cs == [] then []
    else
      var n := |cs| - 1;
      var before := Wanting(cs[..n]);
      assert forall i :: 0 <= i < n && cs[..n][i].event ==> i in before;
      before + if cs[n].event then [n] else []
  }

  lemma {:induction false} ToAllLast(cs: seq<Controller>, c: Controller, n: Notice)
    ensures ToAll(cs + [c], n) == ToAll(cs, n) + if c.event then [Sent(c.cookie, n)] else []
  {
    if cs == [] {
      assert cs + [c] == [c] && [c][1..] == [];
    } else {
      assert (cs + [c])[0] == cs[0] && (cs + [c])[1..] == cs[1..] + [c];
      ToAllLast(cs[1..], c, n);
    }
  }

  // Exactly these controllers are sent a notice, each once, in list order.
  lemma {:induction false} SentExactly(cs: seq<Controller>, n: Notice)
    ensures |ToAll(cs, n)| == |Wanting(cs)|
    ensures forall j :: 0 <= j < |Wanting(cs)| ==> ToAll(cs, n)[j] == Sent(cs[Wanting(cs)[j]].cookie, n)
  {
    if cs != [] {
      var m := |cs| - 1;
      SentExactly(cs[..m], n);
      ToAllLast(cs[..m], cs[m], n);
      assert cs == cs[..m] + [cs[m]];
      hide ToAll;
    }
  }
}
