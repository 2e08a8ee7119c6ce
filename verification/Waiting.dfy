/**
 * When an offering subscription waits for as long as no client cancels and the server runs on:
 * the loop is gone, or bound for a handler that nobody empties.
 */
module Waiting {
  import opened Wrappers
  import opened Registry
  import opened Subscription

  /** Offering its deregistration, with a client that did not cancel: its handler cannot give up. */
  predicate Stuck(sub: Sub) {
    sub.pc == DeregOffer && !sub.cancelled
  }

  /**
   * Handing out `todo` reaches a stuck subscription whose slot is full by then, before a handler
   * that can give up. `filled` are the stuck subscriptions whose slots earlier items fill.
   */
  predicate Doomed(handlers: map<nat, nat>, subs: seq<Sub>, filled: set<nat>, todo: seq<Item>)
    decreases |todo|
  {
    todo != [] &&
    if todo[0].tlvType !in handlers then Doomed(handlers, subs, filled, todo[1..])
    else
      var k := handlers[todo[0].tlvType];
      && k < |subs| && !subs[k].cancelled
      && (if !Stuck(subs[k]) then Doomed(handlers, subs, filled, todo[1..])
          else k in filled || subs[k].buffer != [] || Doomed(handlers, subs, filled + {k}, todo[1..]))
  }

  predicate Bound(s: State) {
    s.loop.Dispatching? && Doomed(s.handlers, s.subs, {}, s.loop.todo)
  }

  /** Steps among which no client cancels and the server keeps running. */
  predicate Unaided(steps: seq<Step>) {
    forall step :: step in steps ==> !step.Cancel? && step != CloseServerQuit
  }

  // ---------- once bound for a full handler, always ----------

  /** Whoever is stuck stays so, full slots stay full, and nobody cancels. */
  predicate Worse(subs: seq<Sub>, filled: set<nat>, subs': seq<Sub>, filled': set<nat>) {
    && |subs| <= |subs'|
    && forall k :: 0 <= k < |subs| ==>
         && (subs'[k].cancelled ==> subs[k].cancelled)
         && (Stuck(subs[k]) ==> Stuck(subs'[k]))
         && (Stuck(subs[k]) && (k in filled || subs[k].buffer != []) ==> k in filled' || subs'[k].buffer != [])
  }

  lemma {:induction false} DoomGrows(handlers: map<nat, nat>, subs: seq<Sub>, filled: set<nat>, subs': seq<Sub>,
                                     filled': set<nat>, todo: seq<Item>)
    requires Doomed(handlers, subs, filled, todo) && Worse(subs, filled, subs', filled')
    ensures Doomed(handlers, subs', filled', todo)
    decreases |todo|
  {
    if todo[0].tlvType !in handlers {
      DoomGrows(handlers, subs, filled, subs', filled', todo[1..]);
    } else {
      var k := handlers[todo[0].tlvType];
      if Stuck(subs[k]) {
        if k !in filled && subs[k].buffer == [] {
          DoomGrows(handlers, subs, filled + {k}, subs', filled' + {k}, todo[1..]);
        }
      } else {
        DoomGrows(handlers, subs, filled, subs', filled', todo[1..]);
        if Stuck(subs'[k]) {
          DoomGrows(handlers, subs', filled', subs', filled' + {k}, todo[1..]);
        }
      }
    }
  }

  /** A step of a subscription leaves the loop bound for a full handler. */
  lemma BoundBeside(s: State, step: Step)
    requires Inv(s) && Bound(s) && !s.serverQuit && Enabled(s, step) && After(s, step).loop == s.loop
    requires !step.Cancel? && step != CloseServerQuit
    ensures Bound(After(s, step))
  {
    hide Doomed, InOrder, Apply, SubOk;
    var t := After(s, step);
    assert Worse(s.subs, {}, t.subs, {});
    DoomGrows(s.handlers, s.subs, {}, t.subs, {}, s.loop.todo);
  }

  lemma BoundDelivers(s: State)
    requires Inv(s) && Bound(s) && Enabled(s, Deliver)
    ensures Bound(After(s, Deliver))
  {
    hide InOrder, SubOk, Inv;
    var k, t := Target(s).value, After(s, Deliver);
    var filled := if Stuck(s.subs[k]) then {k} else {};
    assert {} + {k} == {k};
    assert Doomed(s.handlers, s.subs, filled, t.loop.todo);
    assert Worse(s.subs, filled, t.subs, {});
    DoomGrows(s.handlers, s.subs, filled, t.subs, {}, t.loop.todo);
  }

  lemma BoundStays(s: State, step: Step)
    requires Inv(s) && Bound(s) && !s.serverQuit && Enabled(s, step) && !step.Cancel? && step != CloseServerQuit
    ensures Bound(After(s, step)) && !After(s, step).serverQuit
  {
    hide Doomed, InOrder, Apply, SubOk, Inv;
    if step.Deliver? {
      BoundDelivers(s);
    } else if step.Skip? {
      SkipsOn(s);
    } else if After(s, step).loop == s.loop {
      BoundBeside(s, step);
    } else {
      BoundGoesOn(s);
    }
  }

  lemma SkipsOn(s: State)
    requires Enabled(s, Skip)
    ensures Bound(After(s, Skip)) <==> Bound(s)
  {
  }

  lemma BoundGoesOn(s: State)
    requires Bound(s) && !s.serverQuit
    ensures !Enabled(s, MessageDone) && !Enabled(s, HandlerFails)
  {
  }

  /** Without a way on: shutdown has not begun, and the loop is gone or bound for a full handler. */
  predicate Hopeless(s: State) {
    !s.serverQuit && (s.loop.Exited? || Bound(s))
  }

  lemma HopelessStep(s: State, step: Step, i: nat, pc: Pc)
    requires Inv(s) && Hopeless(s) && At(s, i, pc) && (pc == RegOffer || pc == DeregOffer)
    requires Enabled(s, step) && !step.Cancel? && step != CloseServerQuit
    ensures Hopeless(After(s, step)) && At(After(s, step), i, pc)
  {
    if Bound(s) {
      BoundStays(s, step);
    } else {
      GoneStays(s, step);
    }
    OfferStays(s, step, i, pc);
    hide Inv, Bound, Enabled, After, At;
  }

  lemma GoneStays(s: State, step: Step)
    requires s.loop.Exited? && !s.serverQuit && Enabled(s, step) && step != CloseServerQuit
    ensures After(s, step).loop.Exited? && !After(s, step).serverQuit
  {
    hide Apply, Answered;
  }

  /** Only the loop or the messenger's quit ends an offer. */
  lemma OfferStays(s: State, step: Step, i: nat, pc: Pc)
    requires At(s, i, pc) && (pc == RegOffer || pc == DeregOffer) && Enabled(s, step)
    requires !s.quit && !s.loop.Selecting? && !s.loop.Serving?
    ensures At(After(s, step), i, pc)
  {
    hide Apply, Answered;
  }

  lemma {:induction false} HopelessStays(s: State, steps: seq<Step>, t: State, i: nat, pc: Pc)
    requires Inv(s) && Hopeless(s) && At(s, i, pc) && (pc == RegOffer || pc == DeregOffer)
    requires Runs(s, steps, t) && Unaided(steps)
    ensures At(t, i, pc)
    decreases |steps|
  {
    hide Inv, Hopeless, At, Enabled, After;
    if steps != [] {
      assert steps[0] in steps;
      HopelessStep(s, steps[0], i, pc);
      StepKeeps(s, steps[0]);
      HopelessStays(After(s, steps[0]), steps[1..], t, i, pc);
    }
  }

  // ---------- a way on everywhere else ----------

  /** How many steps the next handler's subscription is away from an empty slot. */
  function Clog(s: State): nat {
    if Target(s).None? || s.subs[Target(s).value].buffer == [] then 0
    else if s.subs[Target(s).value].pc == Receiving then 1
    else 2
  }

  /** The step that brings the loop closer to selecting. */
  function Onward(s: State): Step {
    if s.loop.Serving? then Serve
    else if s.loop == Dispatching([]) then MessageDone
    else if Target(s).None? then Skip
    else
      var k := Target(s).value;
      if s.subs[k].cancelled then HandlerFails
      else if s.subs[k].buffer == [] then Deliver
      else if s.subs[k].pc == Receiving then TakePayload(k)
      else if s.subs[k].pc == Sending then SendOk(k)
      else GetAnswer(k)
  }

  /** The loop delivers a payload and is not bound for a full handler if it was not before. */
  lemma DeliversFreely(s: State)
    requires Enabled(s, Deliver) && !s.subs[Target(s).value].cancelled && Bound(After(s, Deliver))
    ensures Bound(s)
  {
    hide Apply;
    var k, t := Target(s).value, After(s, Deliver);
    var filled := if Stuck(s.subs[k]) then {k} else {};
    assert {} + {k} == {k};
    assert Worse(t.subs, {}, s.subs, filled);
    DoomGrows(s.handlers, t.subs, {}, s.subs, filled, t.loop.todo);
  }

  /** Between messages to the loop, the next handler's subscription can be emptying its slot. */
  lemma EmptiesSlot(s: State)
    requires Inv(s) && !s.serverQuit && Target(s).Some? && !s.subs[Target(s).value].cancelled
    requires s.subs[Target(s).value].buffer != [] && !Bound(s)
    ensures var k, step := Target(s).value, Onward(s);
            && Enabled(s, step) && Moved(s, step) == Some(k)
            && s.subs[k].pc != RegOffer && s.subs[k].pc != DeregOffer
            && After(s, step).loop == s.loop && Clog(After(s, step)) < Clog(s)
            && !After(s, step).serverQuit && !Stuck(After(s, step).subs[k])
  {
    hide Apply;
    var k := Target(s).value;
    assert SubOk(s.handlers, s.loop, s.quit, k, s.subs[k]);
    hide InOrder, Inv;
  }

  lemma EmptiesFreely(s: State, step: Step, k: nat)
    requires Enabled(s, step) && Moved(s, step) == Some(k) && k < |s.subs| && After(s, step).loop == s.loop
    requires !step.Cancel? && !Stuck(After(s, step).subs[k]) && Bound(After(s, step))
    ensures Bound(s)
  {
    hide Apply, Doomed;
    var t := After(s, step);
    assert Worse(t.subs, {}, s.subs, {});
    DoomGrows(s.handlers, t.subs, {}, s.subs, {}, s.loop.todo);
  }

  /** The loop's own steps on the way. */
  lemma LoopMovesOn(s: State, i: nat, pc: Pc)
    requires Inv(s) && At(s, i, pc) && !s.serverQuit && (s.loop.Serving? || s.loop.Dispatching?) && !Bound(s)
    requires LoopStep(Onward(s))
    ensures Enabled(s, Onward(s))
    ensures var t := After(s, Onward(s));
            && At(t, i, pc) && !t.serverQuit && !t.loop.Exited? && !Bound(t) && LoopSteps(t) < LoopSteps(s)
  {
    if s.loop.Serving? {
      ServesOn(s);
    }
    hide Inv, Apply, SubOk, Doomed;
    if Onward(s).Deliver? && Bound(After(s, Deliver)) {
      DeliversFreely(s);
    } else if Onward(s).Skip? {
      assert Inv(s);
      SkipHere(s);
      SkipsOn(s);
    }
  }

  lemma SkipHere(s: State)
    requires Inv(s) && s.loop.Dispatching? && s.loop.todo != [] && Target(s).None?
    ensures Enabled(s, Skip)
  {
  }

  lemma MovesOn(s: State, i: nat, pc: Pc)
    requires Inv(s) && At(s, i, pc) && (pc == RegOffer || pc == DeregOffer)
    requires !s.serverQuit && (s.loop.Serving? || s.loop.Dispatching?) && !Bound(s)
    ensures Enabled(s, Onward(s)) && !Onward(s).Cancel? && Onward(s) != CloseServerQuit
    ensures var t := After(s, Onward(s));
            && At(t, i, pc) && !t.serverQuit && !t.loop.Exited? && !Bound(t)
            && (LoopSteps(t) < LoopSteps(s) || (t.loop == s.loop && Clog(t) < Clog(s)))
  {
    if LoopStep(Onward(s)) {
      LoopMovesOn(s, i, pc);
    } else {
      hide Inv, Apply, Bound, Doomed, Clog;
      EmptiesSlot(s);
      if Bound(After(s, Onward(s))) {
        EmptiesFreely(s, Onward(s), Target(s).value);
      }
    }
  }

  /** While the loop is neither gone nor bound for a full handler, it can come to take the offer. */
  lemma {:induction false} WayOnUnaided(s: State, i: nat, pc: Pc) returns (later: seq<Step>, t: State)
    requires Inv(s) && At(s, i, pc) && (pc == RegOffer || pc == DeregOffer)
    requires !s.serverQuit && !s.loop.Exited? && !Bound(s)
    ensures Runs(s, later, t) && Unaided(later) && !At(t, i, pc)
    decreases LoopSteps(s), Clog(s)
  {
    hide Bound, Clog;
    if s.loop.Selecting? {
      later, t := [Accept(i)], After(s, Accept(i));
      OneStep(s, Accept(i));
    } else {
      var step := Onward(s);
      MovesOn(s, i, pc);
      StepKeeps(s, step);
      hide Inv, Enabled, After, At, Runs, Onward;
      var u := After(s, step);
      later, t := WayOnUnaided(u, i, pc);
      OneStep(s, step);
      RunsOn(s, [step], u, later, t);
      later := [step] + later;
    }
  }

  /** Once the server quits, the messenger may, and an offering subscription sees that. */
  lemma SeesQuit(s: State, i: nat, pc: Pc) returns (later: seq<Step>, t: State)
    requires At(s, i, pc) && (pc == RegOffer || pc == DeregOffer) && s.serverQuit
    ensures Runs(s, later, t) && Unaided(later) && !At(t, i, pc)
  {
    var u := After(s, CloseQuit);
    OneStep(s, CloseQuit);
    RunsSnoc(s, [CloseQuit], u, SeeQuit(i));
    later, t := [CloseQuit] + [SeeQuit(i)], After(u, SeeQuit(i));
  }

  /**
   * A subscription offering its registration or deregistration waits for as long as no client
   * cancels and the server keeps running exactly when the server has not quit and the loop has
   * exited or is bound for a full handler that nobody empties.
   */
  lemma OfferStuckExactly(steps: seq<Step>, s: State, i: nat, pc: Pc)
    requires Runs(INITIAL, steps, s) && At(s, i, pc) && (pc == RegOffer || pc == DeregOffer)
    ensures (forall later, t :: Runs(s, later, t) && Unaided(later) ==> At(t, i, pc))
            <==> !s.serverQuit && (s.loop.Exited? || Bound(s))
  {
    hide Runs, Enabled, After, Inv, Bound, Unaided, At;
    InitialInv();
    RunKeeps(INITIAL, steps, s);
    if Hopeless(s) {
      forall later, t | Runs(s, later, t) && Unaided(later) ensures At(t, i, pc) {
        HopelessStays(s, later, t, i, pc);
      }
    } else if s.serverQuit {
      var later, t := SeesQuit(s, i, pc);
    } else {
      var later, t := WayOnUnaided(s, i, pc);
    }
  }

  /** A run to such a wait: another client subscribes while the loop and a subscription wait for each other. */
  lemma BystanderWaits() returns (steps: seq<Step>, s: State)
    ensures Runs(INITIAL, steps, s) && At(s, 1, RegOffer) && !s.loop.Exited?
    ensures forall later, t :: Runs(s, later, t) && Unaided(later) ==> At(t, 1, RegOffer)
  {
    hide Runs;
    var before, embrace := EmbraceReachable();
    steps, s := Extend(before, embrace, Subscribe(65));
    OfferStuckExactly(steps, s, 1, RegOffer);
  }

  /** What ends the mutual wait: the client's cancel, or the server's quit, frees the loop for the subscription. */
  lemma EmbraceEnds(s: State, i: nat, release: Step) returns (t: State)
    requires Embrace(s, i) && (release == Cancel(i) || release == CloseServerQuit)
    ensures Runs(s, [release, HandlerFails, Accept(i)], t) && At(t, i, DeregWait)
  {
    hide Runs;
    var u := After(s, release);
    var v := After(u, HandlerFails);
    t := After(v, Accept(i));
    OneStep(s, release);
    RunsSnoc(s, [release], u, HandlerFails);
    RunsSnoc(s, [release] + [HandlerFails], v, Accept(i));
    assert [release] + [HandlerFails] + [Accept(i)] == [release, HandlerFails, Accept(i)];
  }
}
