/**
 * What becomes of every payload of every message that arrives, over whole runs of the event loop and
 * the subscriptions.
 */
module Dispatching {
  import opened Wrappers
  import opened Registry
  import opened Subscription

  /** A payload that the loop dealt with: whose handler its type had then, and who took it. */
  datatype Dealt = Dealt(item: Item, owner: Option<nat>, to: Option<nat>)

  /** A message that the loop took: the payloads dealt with, and whether a handler's error ended it. */
  datatype Fate = Fate(dealt: seq<Dealt>, failed: bool)

  function Owner(s: State, tlvType: nat): Option<nat> {
    if tlvType in s.handlers then Some(s.handlers[tlvType]) else None
  }

  function AddTo(fates: seq<Fate>, d: Dealt): (r: seq<Fate>)
    ensures |r| == |fates|
  {
    if fates == [] then [] else
    var n := |fates| - 1;
    fates[n := Fate(fates[n].dealt + [d], fates[n].failed)]
  }

  function Fail(fates: seq<Fate>): (r: seq<Fate>)
    ensures |r| == |fates|
  {
    if fates == [] then [] else
    var n := |fates| - 1;
    fates[n := Fate(fates[n].dealt, true)]
  }

  /** The history after one more step. */
  function Note(fates: seq<Fate>, s: State, step: Step): seq<Fate>
    requires Enabled(s, step)
  {
    match step
    case TakeMessage => fates + [Fate([], false)]
    case Skip => AddTo(fates, Dealt(s.loop.todo[0], Owner(s, s.loop.todo[0].tlvType), None))
    case Deliver => AddTo(fates, Dealt(s.loop.todo[0], Owner(s, s.loop.todo[0].tlvType), Some(Target(s).value)))
    case HandlerFails => Fail(fates)
    case _ => fates
  }

  function Fates(fates: seq<Fate>, s: State, steps: seq<Step>, t: State): seq<Fate>
    requires Runs(s, steps, t)
    decreases |steps|
  {
    if steps == [] then fates else Fates(Note(fates, s, steps[0]), After(s, steps[0]), steps[1..], t)
  }

  /** The messages that arrive. */
  function Arrivals(steps: seq<Step>): seq<seq<Item>> {
    if steps == [] then []
    else (if steps[0].Arrive? then [steps[0].items] else []) + Arrivals(steps[1..])
  }

  function Items(dealt: seq<Dealt>): (items: seq<Item>)
    ensures |items| == |dealt|
  {
    seq(|dealt|, i requires 0 <= i < |dealt| => dealt[i].item)
  }

  /** The values that went to a subscription. */
  function Given(dealt: seq<Dealt>, i: nat): seq<nat> {
    if dealt == [] then [] else
    var n := |dealt| - 1;
    Given(dealt[..n], i) + if dealt[n].to == Some(i) then [dealt[n].item.value] else []
  }

  function AllGiven(fates: seq<Fate>, i: nat): seq<nat> {
    if fates == [] then [] else AllGiven(fates[..|fates| - 1], i) + Given(fates[|fates| - 1].dealt, i)
  }

  // ---------- the account ----------

  /** Messages are taken in the order they arrive, and the others wait. */
  predicate TakenInOrder(s: State, fates: seq<Fate>, messages: seq<seq<Item>>) {
    |fates| <= |messages| && s.inbox == messages[|fates|..]
  }

  /**
   * The payloads of a message are dealt with in order: all of them, unless a handler failed or the loop
   * is still at it.
   */
  predicate DealtInOrder(s: State, fates: seq<Fate>, messages: seq<seq<Item>>)
    requires |fates| <= |messages|
  {
    && (forall j :: 0 <= j < |fates| ==> Items(fates[j].dealt) <= messages[j])
    && (forall j :: 0 <= j < |fates| && (j < |fates| - 1 || !s.loop.Dispatching?) ==>
          fates[j].failed || Items(fates[j].dealt) == messages[j])
    && (s.loop.Dispatching? ==>
          var n := |fates| - 1;
          && n >= 0 && !fates[n].failed
          && Items(fates[n].dealt) + s.loop.todo == messages[n])
  }

  /** A payload goes to the subscription whose handler its type had, which asked for that type; or to nobody. */
  predicate DealtToOwners(s: State, fates: seq<Fate>) {
    forall j, k :: 0 <= j < |fates| && 0 <= k < |fates[j].dealt| ==> ToOwner(s, fates[j].dealt[k])
  }

  predicate ToOwner(s: State, d: Dealt) {
    d.to == d.owner && (d.to.Some? ==> d.to.value < |s.subs| && s.subs[d.to.value].tlvType == d.item.tlvType)
  }

  /** What a subscription accepted is what it was given, over all messages, in order. */
  predicate AcceptedIsGiven(s: State, fates: seq<Fate>) {
    forall i :: 0 <= i < |s.subs| ==> s.subs[i].accepted == AllGiven(fates, i)
  }

  predicate Accounted(s: State, fates: seq<Fate>, messages: seq<seq<Item>>) {
    && TakenInOrder(s, fates, messages) && DealtInOrder(s, fates, messages)
    && DealtToOwners(s, fates) && AcceptedIsGiven(s, fates)
  }

  // ---------- every step keeps the account ----------

  lemma AddGives(fates: seq<Fate>, d: Dealt, i: nat)
    requires fates != []
    ensures AllGiven(AddTo(fates, d), i) == AllGiven(fates, i) + if d.to == Some(i) then [d.item.value] else []
  {
    var n := |fates| - 1;
    var more := AddTo(fates, d);
    assert more[..n] == fates[..n];
    assert more[n].dealt[..|fates[n].dealt|] == fates[n].dealt;
  }

  lemma FailGives(fates: seq<Fate>, i: nat)
    ensures AllGiven(Fail(fates), i) == AllGiven(fates, i)
  {
    if fates != [] {
      assert Fail(fates)[..|fates| - 1] == fates[..|fates| - 1];
    }
  }

  lemma TakeGives(fates: seq<Fate>, i: nat)
    ensures AllGiven(fates + [Fate([], false)], i) == AllGiven(fates, i)
  {
    assert (fates + [Fate([], false)])[..|fates|] == fates;
  }

  lemma {:induction false} NothingGiven(s: State, fates: seq<Fate>, i: nat)
    requires DealtToOwners(s, fates) && i >= |s.subs|
    ensures AllGiven(fates, i) == []
  {
    if fates != [] {
      var n := |fates| - 1;
      assert forall j, k :: 0 <= j < n && 0 <= k < |fates[..n][j].dealt| ==> ToOwner(s, fates[j].dealt[k]);
      NothingGiven(s, fates[..n], i);
      assert forall k :: 0 <= k < |fates[n].dealt| ==> ToOwner(s, fates[n].dealt[k]);
      NoneGiven(s, fates[n].dealt, i);
    }
  }

  lemma {:induction false} NoneGiven(s: State, dealt: seq<Dealt>, i: nat)
    requires (forall k :: 0 <= k < |dealt| ==> ToOwner(s, dealt[k])) && i >= |s.subs|
    ensures Given(dealt, i) == []
  {
    if dealt != [] {
      assert ToOwner(s, dealt[|dealt| - 1]);
      NoneGiven(s, dealt[..|dealt| - 1], i);
    }
  }

  function NewMessages(step: Step): seq<seq<Item>> {
    if step.Arrive? then [step.items] else []
  }

  lemma ItemsOfMore(dealt: seq<Dealt>, d: Dealt)
    ensures Items(dealt + [d]) == Items(dealt) + [d.item]
  {
  }

  /** Handing out the next payload of the message in hand. */
  lemma DealKeeps(s: State, fates: seq<Fate>, messages: seq<seq<Item>>, d: Dealt, t: State)
    requires |fates| <= |messages| && DealtInOrder(s, fates, messages)
    requires s.loop.Dispatching? && s.loop.todo != [] && d.item == s.loop.todo[0]
    requires t.loop == Dispatching(s.loop.todo[1..])
    ensures fates != [] && DealtInOrder(t, AddTo(fates, d), messages)
  {
    hide Items;
    var n := |fates| - 1;
    ItemsOfMore(fates[n].dealt, d);
    assert [d.item] + s.loop.todo[1..] == s.loop.todo;
    assert Items(fates[n].dealt) + [d.item] + s.loop.todo[1..] == messages[n];
  }

  /** Taking the next message. */
  lemma TakeKeeps(s: State, fates: seq<Fate>, messages: seq<seq<Item>>)
    requires TakenInOrder(s, fates, messages) && DealtInOrder(s, fates, messages) && Enabled(s, TakeMessage)
    ensures TakenInOrder(After(s, TakeMessage), fates + [Fate([], false)], messages)
    ensures DealtInOrder(After(s, TakeMessage), fates + [Fate([], false)], messages)
  {
    assert messages[|fates|..][0] == messages[|fates|];
    assert Items([]) + messages[|fates|] == messages[|fates|];
    hide Items;
  }

  /** A step that does not touch the message in hand, or ends it. */
  lemma OtherKeeps(s: State, fates: seq<Fate>, messages: seq<seq<Item>>, step: Step)
    requires TakenInOrder(s, fates, messages) && DealtInOrder(s, fates, messages) && Enabled(s, step)
    requires !step.Skip? && !step.Deliver? && !step.TakeMessage?
    ensures TakenInOrder(After(s, step), Note(fates, s, step), messages + NewMessages(step))
    ensures DealtInOrder(After(s, step), Note(fates, s, step), messages + NewMessages(step))
  {
    hide Items, Apply, Answered;
    if !step.Arrive? {
      assert messages + NewMessages(step) == messages;
    }
  }

  lemma OrderKept(s: State, fates: seq<Fate>, messages: seq<seq<Item>>, step: Step)
    requires TakenInOrder(s, fates, messages) && DealtInOrder(s, fates, messages) && Enabled(s, step)
    ensures TakenInOrder(After(s, step), Note(fates, s, step), messages + NewMessages(step))
    ensures DealtInOrder(After(s, step), Note(fates, s, step), messages + NewMessages(step))
  {
    hide DealtInOrder, Items;
    if step.Skip? || step.Deliver? {
      var to := if step.Skip? then None else Some(Target(s).value);
      DealKeeps(s, fates, messages, Dealt(s.loop.todo[0], Owner(s, s.loop.todo[0].tlvType), to), After(s, step));
      assert messages + NewMessages(step) == messages;
    } else if step.TakeMessage? {
      TakeKeeps(s, fates, messages);
      assert messages + NewMessages(step) == messages;
    } else {
      OtherKeeps(s, fates, messages, step);
    }
  }

  lemma OwnersKept(s: State, fates: seq<Fate>, step: Step)
    requires DealtToOwners(s, fates) && Inv(s) && Enabled(s, step)
    ensures DealtToOwners(After(s, step), Note(fates, s, step))
  {
    hide Apply, Answered, SubOk;
    var t, more := After(s, step), Note(fates, s, step);
    forall j, k | 0 <= j < |more| && 0 <= k < |more[j].dealt| ensures ToOwner(t, more[j].dealt[k]) {
      if j < |fates| && k < |fates[j].dealt| {
        assert ToOwner(s, fates[j].dealt[k]) && more[j].dealt[k] == fates[j].dealt[k];
        StillToOwner(s, step, fates[j].dealt[k]);
      } else {
        assert step.Skip? || step.Deliver?;
      }
    }
  }

  lemma StillToOwner(s: State, step: Step, d: Dealt)
    requires ToOwner(s, d) && Enabled(s, step)
    ensures ToOwner(After(s, step), d)
  {
    if d.to.Some? {
      TypesStay(s, step, d.to.value);
    }
    hide After, Enabled;
  }

  lemma GivenKept(s: State, fates: seq<Fate>, step: Step)
    requires fates != [] || !s.loop.Dispatching?
    requires DealtToOwners(s, fates) && AcceptedIsGiven(s, fates) && Inv(s) && Enabled(s, step)
    ensures AcceptedIsGiven(After(s, step), Note(fates, s, step))
  {
    hide Apply, SubOk, DealtToOwners, AllGiven, AddTo, Fail, Inv;
    var t, more := After(s, step), Note(fates, s, step);
    forall i | 0 <= i < |t.subs| ensures t.subs[i].accepted == AllGiven(more, i) {
      if i >= |s.subs| {
        assert step.Subscribe?;
        NothingGiven(s, fates, i);
      } else {
        match step {
          case Skip => AddGives(fates, Dealt(s.loop.todo[0], Owner(s, s.loop.todo[0].tlvType), None), i);
          case Deliver =>
            AddGives(fates, Dealt(s.loop.todo[0], Owner(s, s.loop.todo[0].tlvType), Some(Target(s).value)), i);
          case HandlerFails => FailGives(fates, i);
          case TakeMessage => TakeGives(fates, i);
          case _ =>
        }
      }
    }
  }

  lemma StepAccounted(s: State, fates: seq<Fate>, messages: seq<seq<Item>>, step: Step)
    requires Accounted(s, fates, messages) && Inv(s) && Enabled(s, step)
    ensures Accounted(After(s, step), Note(fates, s, step), messages + NewMessages(step))
  {
    OrderKept(s, fates, messages, step);
    OwnersKept(s, fates, step);
    GivenKept(s, fates, step);
    hide After, Enabled, Note, TakenInOrder, DealtInOrder, DealtToOwners, AcceptedIsGiven, Inv;
  }

  lemma {:induction false} RunAccounted(s: State, fates: seq<Fate>, messages: seq<seq<Item>>, steps: seq<Step>,
                                        t: State)
    requires Accounted(s, fates, messages) && Inv(s) && Runs(s, steps, t)
    ensures Accounted(t, Fates(fates, s, steps, t), messages + Arrivals(steps))
    decreases |steps|
  {
    hide Accounted, Inv, Enabled, After, Note;
    if steps != [] {
      StepAccounted(s, fates, messages, steps[0]);
      StepKeeps(s, steps[0]);
      RunAccounted(After(s, steps[0]), Note(fates, s, steps[0]), messages + NewMessages(steps[0]), steps[1..], t);
      assert messages + NewMessages(steps[0]) + Arrivals(steps[1..]) == messages + Arrivals(steps);
    } else {
      assert messages + Arrivals(steps) == messages;
    }
  }

  /**
   * In every run the messages that arrived are taken one by one, and the payloads of each are dealt with in
   * order until a handler's error drops the rest. Each goes to the subscription whose handler its type has
   * then, or is skipped if there is none; and what a subscription accepted is just that, in order.
   */
  lemma EveryPayloadAccounted(steps: seq<Step>, t: State)
    requires Runs(INITIAL, steps, t)
    ensures Accounted(t, Fates([], INITIAL, steps, t), Arrivals(steps))
  {
    hide Runs, Inv, Fates;
    InitialInv();
    assert [] + Arrivals(steps) == Arrivals(steps);
    assert Accounted(INITIAL, [], []);
    RunAccounted(INITIAL, [], [], steps, t);
  }
}
