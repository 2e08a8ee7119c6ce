/**
 * The subscriptions and the event loop do a bounded amount of work, and once both quit signals
 * are closed nothing can get stuck before everything has exited.
 */
module Shutdown {
  import opened Wrappers
  import opened Registry
  import opened Subscription

  // ---------- work left ----------

  function SubWork(sub: Sub): nat {
    2 * |sub.buffer| +
    match sub.pc
    case RegOffer => 7
    case RegWait => 5
    case Receiving => 4
    case Sending => 5
    case DeregOffer => 3
    case DeregWait => 1
    case Final => 0
  }

  function SubsWork(subs: seq<Sub>): nat {
    if subs == [] then 0 else SubWork(subs[0]) + SubsWork(subs[1..])
  }

  function MessageWork(items: seq<Item>): nat {
    4 * |items| + 2
  }

  function InboxWork(inbox: seq<seq<Item>>): nat {
    if inbox == [] then 0 else MessageWork(inbox[0]) + InboxWork(inbox[1..])
  }

  function LoopWork(loop: Loop): nat {
    match loop
    case Selecting => 1
    case Serving(_, _) => 2
    case Dispatching(todo) => MessageWork(todo)
    case Exited => 0
  }

  function Work(s: State): nat {
    SubsWork(s.subs) + LoopWork(s.loop) + InboxWork(s.inbox)
  }

  /** Steps of the loop and of the subscriptions, not of the world around them. */
  predicate Internal(step: Step) {
    !(step.Subscribe? || step.Cancel? || step.Arrive? || step.CloseServerQuit? || step.CloseQuit?)
  }

  function InternalSteps(steps: seq<Step>): nat {
    if steps == [] then 0 else (if Internal(steps[0]) then 1 else 0) + InternalSteps(steps[1..])
  }

  /** The work that the world adds. */
  function Added(steps: seq<Step>): nat {
    if steps == [] then 0 else
    (match steps[0]
     case Subscribe(_) => 7
     case Arrive(items) => MessageWork(items)
     case _ => 0) + Added(steps[1..])
  }

  lemma {:induction false} SubsWorkUpdate(subs: seq<Sub>, i: nat, sub: Sub)
    requires i < |subs|
    ensures SubsWork(subs[i := sub]) == SubsWork(subs) - SubWork(subs[i]) + SubWork(sub)
  {
    hide SubWork;
    if i == 0 {
      assert subs[0 := sub][1..] == subs[1..];
    } else {
      SubsWorkUpdate(subs[1..], i - 1, sub);
      assert subs[i := sub][1..] == subs[1..][i - 1 := sub];
    }
  }

  lemma {:induction false} SubsWorkSnoc(subs: seq<Sub>, sub: Sub)
    ensures SubsWork(subs + [sub]) == SubsWork(subs) + SubWork(sub)
  {
    hide SubWork;
    if subs != [] {
      SubsWorkSnoc(subs[1..], sub);
      assert (subs + [sub])[1..] == subs[1..] + [sub];
    } else {
      assert [sub][1..] == [];
      assert subs + [sub] == [sub];
    }
  }

  lemma {:induction false} InboxWorkSnoc(inbox: seq<seq<Item>>, items: seq<Item>)
    ensures InboxWork(inbox + [items]) == InboxWork(inbox) + MessageWork(items)
  {
    hide MessageWork;
    if inbox != [] {
      InboxWorkSnoc(inbox[1..], items);
      assert (inbox + [items])[1..] == inbox[1..] + [items];
    } else {
      assert [items][1..] == [];
      assert inbox + [items] == [items];
    }
  }

  /** Every step that changes a subscription leaves less work, the loop's included. */
  lemma MovingWorks(s: State, step: Step)
    requires Inv(s) && Enabled(s, step) && Internal(step) && Moved(s, step).Some?
    ensures Work(After(s, step)) < Work(s)
  {
    hide Inv, SubOk, InboxWork, SubsWork;
    var i, t := Moved(s, step).value, After(s, step);
    SubsWorkUpdate(s.subs, i, t.subs[i]);
    assert t.subs == s.subs[i := t.subs[i]];
  }

  lemma ServingWorks(s: State)
    requires Inv(s) && Enabled(s, Serve)
    ensures Work(After(s, Serve)) < Work(s)
  {
    hide Inv, SubOk, InboxWork, SubsWork, Apply;
    var i, t := s.loop.sub, After(s, Serve);
    SubsWorkUpdate(s.subs, i, t.subs[i]);
    assert t.subs == s.subs[i := t.subs[i]];
  }

  lemma StepWorks(s: State, step: Step)
    requires Inv(s) && Enabled(s, step)
    ensures Internal(step) ==> Work(After(s, step)) < Work(s)
    ensures !Internal(step) ==> Work(After(s, step)) <= Work(s) + Added([step])
  {
    if Internal(step) && Moved(s, step).Some? {
      MovingWorks(s, step);
    } else if step.Serve? {
      ServingWorks(s);
    } else {
      OtherWorks(s, step);
    }
  }

  lemma OtherWorks(s: State, step: Step)
    requires Inv(s) && Enabled(s, step) && !step.Serve? && !(Internal(step) && Moved(s, step).Some?)
    ensures Internal(step) ==> Work(After(s, step)) < Work(s)
    ensures !Internal(step) ==> Work(After(s, step)) <= Work(s) + Added([step])
  {
    hide SubOk;
    match step {
      case Subscribe(tlvType) => SubsWorkSnoc(s.subs, After(s, step).subs[|s.subs|]);
      case Cancel(i) => SubsWorkUpdate(s.subs, i, After(s, step).subs[i]);
      case Arrive(items) => InboxWorkSnoc(s.inbox, items);
      case _ =>
    }
  }

  /** In every run, the loop and the subscriptions take no more steps than the work given to them. */
  lemma {:induction false} WorkIsBounded(s: State, steps: seq<Step>, t: State)
    requires Inv(s) && Runs(s, steps, t)
    ensures InternalSteps(steps) + Work(t) <= Work(s) + Added(steps)
    decreases |steps|
  {
    hide Inv, Enabled, After, Work;
    if steps != [] {
      StepWorks(s, steps[0]);
      StepKeeps(s, steps[0]);
      WorkIsBounded(After(s, steps[0]), steps[1..], t);
      AddedFirst(steps);
    }
  }

  lemma AddedFirst(steps: seq<Step>)
    requires steps != []
    ensures Added(steps) == Added([steps[0]]) + Added(steps[1..])
    ensures Internal(steps[0]) ==> Added([steps[0]]) == 0
  {
    assert [steps[0]][1..] == [];
  }

  // ---------- shutdown ----------

  predicate AllExited(s: State) {
    s.loop.Exited? && forall i :: 0 <= i < |s.subs| ==> s.subs[i].pc == Final
  }

  /** Something the loop or a subscription can do now. */
  function NextStep(s: State, i: nat): Step {
    match s.loop
    case Selecting => LoopExits
    case Serving(_, _) => Serve
    case Dispatching(todo) =>
      if todo == [] then MessageDone else if todo[0].tlvType !in s.handlers then Skip else HandlerFails
    case Exited =>
      if i < |s.subs| && s.subs[i].pc == Receiving then Leave(i)
      else if i < |s.subs| && s.subs[i].pc == Sending then SendOk(i)
      else SeeQuit(i)
  }

  /** With both signals closed, whoever has not exited does not wait for ever: a step is enabled. */
  lemma NothingStuck(s: State, i: nat)
    requires Inv(s) && s.serverQuit && s.quit
    requires s.loop.Exited? ==> i < |s.subs| && s.subs[i].pc != Final
    ensures Enabled(s, NextStep(s, i)) && Internal(NextStep(s, i))
  {
    if s.loop.Serving? {
      assert SubOk(s.handlers, s.loop, s.quit, s.loop.sub, s.subs[s.loop.sub]);
    }
  }

  /**
   * From any reachable state with both signals closed, a run in which the world does nothing
   * more has at most Work(s) steps, and where it cannot go on everything has exited.
   */
  lemma ShutdownTerminates(before: seq<Step>, s: State, steps: seq<Step>, t: State)
    requires Runs(INITIAL, before, s) && s.serverQuit && s.quit
    requires Runs(s, steps, t) && InternalSteps(steps) == |steps|
    ensures |steps| <= Work(s)
    ensures (forall step :: Internal(step) ==> !Enabled(t, step)) <==> AllExited(t)
  {
    hide Runs, Enabled, After, Work;
    RunKeeps(INITIAL, before, s);
    WorkIsBounded(s, steps, t);
    QuietRun(s, steps, t);
    if AllExited(t) {
      ExitedIsStuck(t);
    } else if t.loop.Exited? {
      var i :| 0 <= i < |t.subs| && t.subs[i].pc != Final;
      NothingStuck(t, i);
    } else {
      NothingStuck(t, 0);
    }
  }

  lemma ExitedIsStuck(t: State)
    requires AllExited(t)
    ensures forall step :: Internal(step) ==> !Enabled(t, step)
  {
  }

  /** Nothing is added in a run of internal steps, and the signals stay closed. */
  lemma {:induction false} QuietRun(s: State, steps: seq<Step>, t: State)
    requires Inv(s) && Runs(s, steps, t) && InternalSteps(steps) == |steps|
    ensures Added(steps) == 0 && Inv(t) && (s.quit ==> t.quit) && (s.serverQuit ==> t.serverQuit)
    decreases |steps|
  {
    hide Inv, Enabled;
    if steps != [] {
      InternalAtMost(steps[1..]);
      StepKeeps(s, steps[0]);
      QuietRun(After(s, steps[0]), steps[1..], t);
    }
  }

  lemma {:induction false} InternalAtMost(steps: seq<Step>)
    ensures InternalSteps(steps) <= |steps|
  {
    if steps != [] {
      InternalAtMost(steps[1..]);
    }
  }
}
