/** The focus stack and its arbitration on plain values: what each operation does to the sequence of
    focus ids, top first, and which change callbacks it makes on the way. */
module FocusSpec {
  import opened Prelude

  datatype FocusState = StackTop | StackUnder | StackQuit

  // `client` stands for the callback pointer together with its argument.
  datatype FocusId = FocusId(clientId: int, level: int, thread: int, state: FocusState, client: Option<nat>)

  const BLANK := FocusId(-1, 0, 0, StackQuit, None)

  // One call of the change callback: the focus on top, the focus told about it, the callback flag.
  datatype Change = Change(cur: FocusId, req: FocusId, flag: int)

  // ---------- The stack ----------

  predicate StatesMatch(items: seq<FocusId>) {
    forall i :: 0 <= i < |items| ==> items[i].state == if i == 0 then StackTop else StackUnder
  }

  predicate DistinctClients(items: seq<FocusId>) {
    forall i, j :: 0 <= i < j < |items| ==> items[i].clientId != items[j].clientId
  }

  // What the contents of a stack with `depth` slots always satisfy.
  predicate WellFormed(items: seq<FocusId>, depth: nat) {
    && |items| <= depth
    && (forall i :: 0 <= i < |items| ==> 0 <= items[i].clientId < depth)
    && DistinctClients(items)
    && StatesMatch(items)
  }

  predicate IsFree(items: seq<FocusId>, id: int) {
    forall i :: 0 <= i < |items| ==> items[i].clientId != id
  }

  function Promoted(items: seq<FocusId>): seq<FocusId> {
    if items == [] then [] else [items[0].(state := StackTop)] + items[1..]
  }

  function Demoted(items: seq<FocusId>): seq<FocusId> {
    if items == [] then [] else [items[0].(state := StackUnder)] + items[1..]
  }

  function Pushed(items: seq<FocusId>, value: FocusId): seq<FocusId> {
    [value.(state := StackTop)] + Demoted(items)
  }

  function PushCalls(items: seq<FocusId>, value: FocusId, flag: int): seq<Change> {
    if items == [] then [] else [Change(value, items[0].(state := StackUnder), flag)]
  }

  function Popped(items: seq<FocusId>): seq<FocusId>
    requires items != []
  {
    Promoted(items[1..])
  }

  function PopCalls(items: seq<FocusId>, flag: int): seq<Change> {
    if |items| < 2 then []
    else [Change(items[0].(state := StackQuit), items[1].(state := StackTop), flag)]
  }

  function Inserted(items: seq<FocusId>, value: FocusId, index: nat): seq<FocusId>
    requires index <= |items|
  {
    items[..index] + [value.(state := StackUnder)] + items[index..]
  }

  // Position of a client, or the length when it is not listed.
  function IndexOf(items: seq<FocusId>, id: int): (k: nat)
    ensures k <= |items|
    ensures k < |items| ==> items[k].clientId == id
    ensures forall i :: 0 <= i < k ==> items[i].clientId != id
  {
    if items == [] || items[0].clientId == id then 0 else 1 + IndexOf(items[1..], id)
  }

  function Deleted(items: seq<FocusId>, id: int): seq<FocusId> {
    var k := IndexOf(items, id);
    if k == |items| then items else Promoted(Without(items, k))
  }

  function DeleteCalls(items: seq<FocusId>, id: int, flag: int): seq<Change> {
    if items != [] && items[0].clientId == id then PopCalls(items, flag) else []
  }

  // ---------- Clearing the focus of dead threads ----------

  function Living(items: seq<FocusId>, alive: set<int>): seq<FocusId> {
    if items == [] then []
    else
      var n := |items| - 1;
      Living(items[..n], alive) + if items[n].thread in alive then [items[n]] else []
  }

  function FirstAlive(items: seq<FocusId>, alive: set<int>): (k: nat)
    ensures k <= |items|
    ensures k < |items| ==> items[k].thread in alive
    ensures forall i :: 0 <= i < k ==> items[i].thread !in alive
  {
    if items == [] || items[0].thread in alive then 0 else 1 + FirstAlive(items[1..], alive)
  }

  function Cleared(items: seq<FocusId>, alive: set<int>): seq<FocusId> {
    Promoted(Living(items, alive))
  }

  // The first living focus hears about it when everything above it died.
  function ClearCalls(items: seq<FocusId>, alive: set<int>, flag: int): seq<Change> {
    var k := FirstAlive(items, alive);
    if 0 < k < |items|
    then [Change(items[k - 1].(state := StackTop), items[k].(state := StackTop), flag)]
    else []
  }

  // Every focus below the top, in order, hears about the top.
  function BroadcastCalls(items: seq<FocusId>, flag: int): seq<Change> {
    if |items| < 2 then []
    else
      var n := |items| - 1;
      BroadcastCalls(items[..n], flag) + [Change(items[0], items[n], flag)]
  }

  // Cleaning tells every focus, in order, that it has quit.
  function CleanCalls(items: seq<FocusId>, value: FocusId, flag: int): seq<Change> {
    if items == [] then []
    else
      var n := |items| - 1;
      CleanCalls(items[..n], value, flag) + [Change(value, items[n].(state := StackQuit), flag)]
  }

  lemma {:induction false} LivingStep(items: seq<FocusId>, alive: set<int>, k: nat)
    requires k < |items|
    ensures Living(items[..k + 1], alive)
            == Living(items[..k], alive) + if items[k].thread in alive then [items[k]] else []
  {
    assert items[..k + 1][..k] == items[..k];
  }

  // Nothing is left of a prefix exactly when its end comes no later than the first living focus.
  lemma {:induction false} LivingEmpty(items: seq<FocusId>, alive: set<int>, k: nat)
    requires k <= |items|
    ensures Living(items[..k], alive) == [] <==> k <= FirstAlive(items, alive)
    ensures |Living(items[..k], alive)| <= k
  {
    if k > 0 {
      LivingEmpty(items, alive, k - 1);
      LivingStep(items, alive, k - 1);
    }
  }

  // The stack after the first k of its focus ids have been looked at for dead threads.
  function Survey(items: seq<FocusId>, alive: set<int>, k: nat): seq<FocusId>
    requires k <= |items|
  {
    Promoted(Living(items[..k], alive) + items[k..])
  }

  function KickCalls(items: seq<FocusId>, pos: nat, alive: set<int>, flag: int): seq<Change>
    requires pos < |items|
  {
    if items[pos].state == StackTop && |items| > pos + 1 && items[pos + 1].thread in alive
    then [Change(items[pos], items[pos + 1].(state := StackTop), flag)]
    else []
  }

  lemma PromoteTwice(items: seq<FocusId>)
    ensures Promoted(Promoted(items)) == Promoted(items)
  {
  }

  lemma PromoteOnce(items: seq<FocusId>, k: nat)
    requires k < |items|
    ensures Promoted(Without(Promoted(items), k)) == Promoted(Without(items, k))
  {
    var left, right := Without(Promoted(items), k), Promoted(Without(items, k));
    if k == 0 {
      assert left == items[1..] == Without(items, 0);
    } else {
      forall i | 0 <= i < |left| ensures left[i] == right[i] {
        assert Without(items, k)[i] == items[if i < k then i else i + 1];
      }
      assert left == right;
      PromoteTwice(Without(items, k));
    }
  }

  // A living focus is kept and nothing else changes.
  lemma SurveyAlive(items: seq<FocusId>, alive: set<int>, k: nat)
    requires k < |items| && items[k].thread in alive
    ensures Survey(items, alive, k + 1) == Survey(items, alive, k) && k + 1 > FirstAlive(items, alive)
    ensures k >= FirstAlive(items, alive)
  {
    LivingStep(items, alive, k);
    var kept := Living(items[..k], alive);
    assert kept + items[k..] == kept + [items[k]] + items[k + 1..];
  }

  // A dead one is dropped and its successor, if that is now the head, goes on TOP.
  lemma SurveyDead(items: seq<FocusId>, alive: set<int>, k: nat)
    requires k < |items| && items[k].thread !in alive
    ensures |Living(items[..k], alive)| < |Survey(items, alive, k)|
    ensures Survey(items, alive, k + 1) == Promoted(Without(Survey(items, alive, k), |Living(items[..k], alive)|))
  {
    LivingStep(items, alive, k);
    var kept := Living(items[..k], alive);
    assert Without(kept + items[k..], |kept|) == kept + items[k + 1..];
    PromoteOnce(kept + items[k..], |kept|);
  }

  lemma KickCallsOfDead(items: seq<FocusId>, alive: set<int>, k: nat, flag: int)
    requires k < |items| && StatesMatch(items) && items[k].thread !in alive
    ensures var here, pos := Survey(items, alive, k), |Living(items[..k], alive)|;
            pos < |here|
            && KickCalls(here, pos, alive, flag)
               == if k + 1 == FirstAlive(items, alive) then ClearCalls(items, alive, flag) else []
  {
    LivingEmpty(items, alive, k);
    SurveyStates(items, alive, k);
    var here, pos := Survey(items, alive, k), |Living(items[..k], alive)|;
    if pos == 0 {
      assert Living(items[..k], alive) + items[k..] == items[k..];
      assert k + 1 < |items| ==> here[1] == items[k + 1];
    } else {
      assert here[pos].state == StackUnder;
    }
  }

  lemma SurveyStep(items: seq<FocusId>, alive: set<int>, k: nat, flag: int)
    requires k < |items| && StatesMatch(items)
    ensures var pos, here, next := |Living(items[..k], alive)|, Survey(items, alive, k), Survey(items, alive, k + 1);
            && pos < |here| && here[pos].thread == items[k].thread
            && (here[pos].thread in alive ==> next == here && |Living(items[..k + 1], alive)| == pos + 1)
            && (here[pos].thread !in alive ==>
                  next == Promoted(Without(here, pos)) && |Living(items[..k + 1], alive)| == pos)
            && (if k + 1 >= FirstAlive(items, alive) then ClearCalls(items, alive, flag) else [])
               == (if k >= FirstAlive(items, alive) then ClearCalls(items, alive, flag) else [])
                  + (if here[pos].thread in alive then [] else KickCalls(here, pos, alive, flag))
  {
    LivingStep(items, alive, k);
    hide Promoted, Without, KickCalls, ClearCalls;
    if items[k].thread in alive {
      SurveyAlive(items, alive, k);
    } else {
      SurveyDead(items, alive, k);
      KickCallsOfDead(items, alive, k, flag);
    }
    SurveyThread(items, alive, k);
  }

  lemma SurveyThread(items: seq<FocusId>, alive: set<int>, k: nat)
    requires k < |items|
    ensures |Living(items[..k], alive)| < |Survey(items, alive, k)|
    ensures Survey(items, alive, k)[|Living(items[..k], alive)|].thread == items[k].thread
  {
    var kept := Living(items[..k], alive);
    assert (kept + items[k..])[|kept|] == items[k];
  }

  lemma {:induction false} LivingUnder(items: seq<FocusId>, alive: set<int>, k: nat)
    requires k <= |items| && StatesMatch(items)
    ensures forall i :: 1 <= i < |Living(items[..k], alive)| ==> Living(items[..k], alive)[i].state == StackUnder
  {
    if k > 0 {
      LivingStep(items, alive, k - 1);
      LivingUnder(items, alive, k - 1);
      LivingEmpty(items, alive, k - 1);
    }
  }

  lemma SurveyStates(items: seq<FocusId>, alive: set<int>, k: nat)
    requires k <= |items| && StatesMatch(items)
    ensures StatesMatch(Survey(items, alive, k))
  {
    LivingUnder(items, alive, k);
    LivingEmpty(items, alive, k);
  }

  lemma SurveyEnd(items: seq<FocusId>, alive: set<int>, k: nat)
    requires k <= |items| && |Living(items[..k], alive)| >= |Survey(items, alive, k)|
    ensures k == |items| && Survey(items, alive, k) == Cleared(items, alive)
    ensures k >= FirstAlive(items, alive)
  {
    assert k == |items| && items[..k] == items;
    assert Living(items, alive) + items[k..] == Living(items, alive);
  }
}
