/**
 * Concurrent registration: any number of callers, one event loop that owns the handlers, an
 * unbuffered hand-off, a one-slot answer channel for each call, and a quit signal.
 */
module Registration {
  import opened Wrappers
  import opened Registry

  type Request = Registration<nat>
  type Answer = Result<(), RegisterError>

  datatype Outcome = Answered(answer: Answer) | InvalidPayload | NotStarted | ShuttingDown

  datatype Phase =
    | Offering                  // handing the request to the loop
    | Waiting                   // for the answer
    | Returned(outcome: Outcome)

  /** A call and its answer channel: nothing yet, or the loop's one answer. */
  datatype Call = Call(request: Request, phase: Phase, reply: Option<Answer>)

  datatype Loop = Selecting | Serving(id: nat) | Exited

  /** A request as the loop served it. */
  datatype Entry = Entry(id: nat, request: Request, answer: Answer)

  /** `log` is what the loop has served so far; no program variable holds it. */
  datatype State = State(handlers: map<nat, nat>, calls: seq<Call>, loop: Loop, started: bool, quit: bool,
                         log: seq<Entry>)

  const INITIAL: State := State(map[], [], Selecting, false, false, [])

  datatype Step =
    | Start
    | Quit
    | Invoke(request: Request)
    | Accept(id: nat)     // the loop takes a request that is being offered
    | Serve               // the loop applies it and answers
    | LoopExits           // on quit, or because the message stream failed
    | Receive(id: nat)    // a caller gets its answer
    | GiveUp(id: nat)     // a caller sees the quit signal instead

  // ---------- steps ----------

  predicate Has(s: State, id: nat) {
    id < |s.calls|
  }

  predicate Enabled(s: State, step: Step) {
    match step
    case Start => true
    case Quit => true
    case Invoke(_) => true
    case Accept(id) => Has(s, id) && s.loop.Selecting? && s.calls[id].phase.Offering?
    // Sending to the answer channel needs its slot to be free.
    case Serve => s.loop.Serving? && Has(s, s.loop.id) && s.calls[s.loop.id].reply.None?
    case LoopExits => s.loop.Selecting?
    case Receive(id) => Has(s, id) && s.calls[id].phase.Waiting? && s.calls[id].reply.Some?
    case GiveUp(id) => Has(s, id) && s.quit && !s.calls[id].phase.Returned?
  }

  /** How a new call starts: refused at once, or offered to the loop. */
  function FirstPhase(s: State, request: Request): Phase {
    if request.tlvType < FINAL_PAYLOAD_START then Returned(InvalidPayload)
    else if !s.started then Returned(NotStarted)
    else Offering
  }

  function After(s: State, step: Step): State
    requires Enabled(s, step)
  {
    match step
    case Start => s.(started := true)
    case Quit => s.(quit := true)
    case Invoke(request) => s.(calls := s.calls + [Call(request, FirstPhase(s, request), None)])
    case Accept(id) => s.(calls := s.calls[id := s.calls[id].(phase := Waiting)], loop := Serving(id))
    case Serve =>
      var id := s.loop.id;
      var (handlers, answer) := Apply(s.handlers, s.calls[id].request);
      s.(handlers := handlers,
         calls := s.calls[id := s.calls[id].(reply := Some(answer))],
         loop := Selecting,
         log := s.log + [Entry(id, s.calls[id].request, answer)])
    case LoopExits => s.(loop := Exited)
    case Receive(id) => s.(calls := s.calls[id := s.calls[id].(phase := Returned(Answered(s.calls[id].reply.value)))])
    case GiveUp(id) => s.(calls := s.calls[id := s.calls[id].(phase := Returned(ShuttingDown))])
  }

  predicate Runs(s: State, steps: seq<Step>, t: State)
    decreases |steps|
  {
    if steps == [] then s == t else Enabled(s, steps[0]) && Runs(After(s, steps[0]), steps[1..], t)
  }

  // ---------- the sequential meaning ----------

  /** The handlers after serving these requests one at a time, if each gave its recorded answer. */
  function Replay(log: seq<Entry>): Option<map<nat, nat>> {
    if log == [] then Some(map[]) else
    var n := |log| - 1;
    match Replay(log[..n])
    case None => None
    case Some(handlers) =>
      var (handlers', answer) := Apply(handlers, log[n].request);
      if answer == log[n].answer then Some(handlers') else None
  }

  predicate Logged(log: seq<Entry>, id: nat) {
    exists i :: 0 <= i < |log| && log[i].id == id
  }

  /** What one call may look like, given whether and how the loop has served it. */
  ghost predicate CallOk(s: State, id: nat) {
    id < |s.calls| &&
    var call := s.calls[id];
    && (call.reply.Some? <==> Logged(s.log, id))
    && (forall i :: 0 <= i < |s.log| && s.log[i].id == id ==>
        call.reply == Some(s.log[i].answer) && call.request == s.log[i].request)
    && (s.loop == Serving(id) ==> call.reply.None? && !call.phase.Offering?)
    && (s.loop == Serving(id) || call.reply.Some? ==> call.request.tlvType >= FINAL_PAYLOAD_START)
    && match call.phase
       case Offering => call.reply.None? && call.request.tlvType >= FINAL_PAYLOAD_START
       case Waiting => call.reply.None? ==> s.loop == Serving(id)
       case Returned(Answered(answer)) => call.reply == Some(answer)
       case Returned(InvalidPayload) => call.reply.None? && s.loop != Serving(id)
           && call.request.tlvType < FINAL_PAYLOAD_START
       case Returned(NotStarted) => call.reply.None? && s.loop != Serving(id)
           && call.request.tlvType >= FINAL_PAYLOAD_START
       case Returned(ShuttingDown) => s.quit && call.request.tlvType >= FINAL_PAYLOAD_START
  }

  ghost predicate Inv(s: State) {
    && Replay(s.log) == Some(s.handlers)
    && (forall i, j :: 0 <= i < j < |s.log| ==> s.log[i].id != s.log[j].id)
    && (forall i :: 0 <= i < |s.log| ==> s.log[i].id < |s.calls|)
    && (forall id :: 0 <= id < |s.calls| ==> CallOk(s, id))
    && (s.loop.Serving? ==> s.loop.id < |s.calls|)
    && (forall t :: t in s.handlers ==> t >= FINAL_PAYLOAD_START)
  }

  lemma InitialInv()
    ensures Inv(INITIAL)
  {
  }

  /** Appending an entry logs its id and no other. */
  lemma LoggedOfSnoc(log: seq<Entry>, e: Entry, id: nat)
    ensures Logged(log + [e], id) <==> Logged(log, id) || e.id == id
  {
    if Logged(log, id) {
      var i :| 0 <= i < |log| && log[i].id == id;
      assert (log + [e])[i].id == id;
    }
    assert (log + [e])[|log|] == e;
  }

  lemma ReplayOfSnoc(log: seq<Entry>, handlers: map<nat, nat>, e: Entry)
    requires Replay(log) == Some(handlers) && Apply(handlers, e.request).1 == e.answer
    ensures Replay(log + [e]) == Some(Apply(handlers, e.request).0)
  {
    assert (log + [e])[..|log|] == log;
  }

  lemma ServedCall(s: State, k: nat)
    requires Inv(s) && Enabled(s, Serve) && k < |s.calls|
    ensures CallOk(After(s, Serve), k)
  {
    hide Replay, Apply;
    var t := After(s, Serve);
    assert CallOk(s, k) && CallOk(s, s.loop.id);
    LoggedOfSnoc(s.log, t.log[|s.log|], k);
    assert forall i :: 0 <= i < |s.log| ==> t.log[i] == s.log[i];
  }

  lemma ServeKeeps(s: State)
    requires Inv(s) && Enabled(s, Serve)
    ensures Inv(After(s, Serve))
  {
    hide Replay;
    var t, id := After(s, Serve), s.loop.id;
    assert CallOk(s, id) && !Logged(s.log, id);
    ReplayOfSnoc(s.log, s.handlers, t.log[|s.log|]);
    forall k | 0 <= k < |t.calls| ensures CallOk(t, k) {
      ServedCall(s, k);
    }
    hide CallOk;
  }

  lemma StepKeeps(s: State, step: Step)
    requires Inv(s) && Enabled(s, step)
    ensures Inv(After(s, step)) && s.log <= After(s, step).log && |s.calls| <= |After(s, step).calls|
  {
    hide Replay;
    if step.Serve? {
      ServeKeeps(s);
    } else {
      var t := After(s, step);
      forall id | 0 <= id < |t.calls| ensures CallOk(t, id) {
        if id < |s.calls| {
          assert CallOk(s, id);
        } else {
          assert !Logged(s.log, id);
        }
      }
    }
  }

  lemma {:induction false} RunKeeps(s: State, steps: seq<Step>, t: State)
    requires Inv(s) && Runs(s, steps, t)
    ensures Inv(t) && s.log <= t.log && |s.calls| <= |t.calls|
    decreases |steps|
  {
    hide Inv, Enabled, After;
    if steps != [] {
      StepKeeps(s, steps[0]);
      RunKeeps(After(s, steps[0]), steps[1..], t);
    }
  }

  // ---------- main results ----------

  /**
   * Whatever the interleaving, the answers that callers got are those of serving the logged
   * requests one at a time: each answered call is logged exactly once with its answer, the
   * handlers are what that serving leaves, and every key is in the final payload range.
   */
  lemma Linearizable(steps: seq<Step>, t: State)
    requires Runs(INITIAL, steps, t)
    ensures Replay(t.log) == Some(t.handlers)
    ensures forall id :: 0 <= id < |t.calls| && t.calls[id].phase.Returned? && t.calls[id].phase.outcome.Answered? ==>
              exists i :: && 0 <= i < |t.log|
                          && t.log[i] == Entry(id, t.calls[id].request, t.calls[id].phase.outcome.answer)
                          && forall j :: 0 <= j < |t.log| && t.log[j].id == id ==> j == i
    ensures forall k :: k in t.handlers ==> k >= FINAL_PAYLOAD_START
  {
    InitialInv();
    RunKeeps(INITIAL, steps, t);
    forall id | 0 <= id < |t.calls| && t.calls[id].phase.Returned? && t.calls[id].phase.outcome.Answered?
      ensures exists i :: && 0 <= i < |t.log|
                          && t.log[i] == Entry(id, t.calls[id].request, t.calls[id].phase.outcome.answer)
                          && forall j :: 0 <= j < |t.log| && t.log[j].id == id ==> j == i
    {
      assert CallOk(t, id);
      var i :| 0 <= i < |t.log| && t.log[i].id == id;
    }
  }

  /** The order respects real time: a call answered before another began is served before it. */
  lemma RealTimeOrder(before: seq<Step>, s: State, later: seq<Step>, t: State, a: nat, b: nat, i: nat, j: nat)
    requires Runs(INITIAL, before, s) && Runs(s, later, t)
    requires a < |s.calls| && s.calls[a].phase.Returned? && s.calls[a].phase.outcome.Answered?
    requires b >= |s.calls|
    requires i < |t.log| && t.log[i].id == a && j < |t.log| && t.log[j].id == b
    ensures i < j
  {
    InitialInv();
    RunKeeps(INITIAL, before, s);
    RunKeeps(s, later, t);
    assert CallOk(s, a);
    var k :| 0 <= k < |s.log| && s.log[k].id == a;
    assert t.log[k] == s.log[k];
    assert i == k;
    assert forall m :: 0 <= m < |s.log| ==> t.log[m] == s.log[m] && s.log[m].id < |s.calls|;
  }

  lemma {:induction false} StartedExactly(s: State, steps: seq<Step>, t: State)
    requires Runs(s, steps, t)
    ensures t.started <==> s.started || Start in steps
    decreases |steps|
  {
    if steps != [] {
      StartedExactly(After(s, steps[0]), steps[1..], t);
      assert steps == [steps[0]] + steps[1..];
    }
  }

  /** A new call is refused for its type first, then if nothing was started; else it is offered. */
  lemma InvokedExactly(steps: seq<Step>, s: State, request: Request)
    requires Runs(INITIAL, steps, s)
    ensures var t := After(s, Invoke(request));
            && |t.calls| == |s.calls| + 1 && t.calls[..|s.calls|] == s.calls
            && t.calls[|s.calls|] ==
               Call(request, if request.tlvType < 64 then Returned(InvalidPayload)
                             else if Start in steps then Offering
                             else Returned(NotStarted), None)
  {
    StartedExactly(INITIAL, steps, s);
  }

  /** No call is refused later for the reasons that refuse it at once, and none is answered that was. */
  lemma RefusedAtOnce(before: seq<Step>, s: State, later: seq<Step>, t: State, id: nat)
    requires Runs(INITIAL, before, s) && Runs(s, later, t) && id < |s.calls|
    ensures id < |t.calls| && t.calls[id].request == s.calls[id].request
    ensures t.calls[id].phase == Returned(InvalidPayload) <==> t.calls[id].request.tlvType < 64
    ensures t.calls[id].phase == Returned(NotStarted) <==> s.calls[id].phase == Returned(NotStarted)
  {
    InitialInv();
    RunKeeps(INITIAL, before, s);
    RunKeeps(s, later, t);
    assert CallOk(t, id) && CallOk(s, id);
    CallsKeep(s, later, t, id);
  }

  lemma {:induction false} CallsKeep(s: State, steps: seq<Step>, t: State, id: nat)
    requires Runs(s, steps, t) && id < |s.calls|
    ensures id < |t.calls| && t.calls[id].request == s.calls[id].request
    ensures s.calls[id].phase.Returned? ==> t.calls[id].phase == s.calls[id].phase
    ensures t.calls[id].phase == Returned(NotStarted) ==> s.calls[id].phase == Returned(NotStarted)
    decreases |steps|
  {
    hide Apply;
    if steps != [] {
      CallsKeep(After(s, steps[0]), steps[1..], t, id);
    }
  }

  /** The loop never waits to answer: the slot of the call it serves is always free. */
  lemma AnsweringNeverBlocks(steps: seq<Step>, t: State)
    requires Runs(INITIAL, steps, t) && t.loop.Serving?
    ensures Enabled(t, Serve)
  {
    InitialInv();
    RunKeeps(INITIAL, steps, t);
    assert CallOk(t, t.loop.id);
  }

  /** An answered request is never served again, and its answer never changes. */
  lemma AnsweredOnce(before: seq<Step>, s: State, later: seq<Step>, t: State, id: nat)
    requires Runs(INITIAL, before, s) && Runs(s, later, t)
    requires id < |s.calls| && s.calls[id].reply.Some?
    ensures id < |t.calls| && t.calls[id].reply == s.calls[id].reply
    ensures t.loop != Serving(id)
  {
    InitialInv();
    RunKeeps(INITIAL, before, s);
    RunKeeps(s, later, t);
    assert CallOk(s, id) && CallOk(t, id);
    var k :| 0 <= k < |s.log| && s.log[k].id == id;
    assert t.log[k] == s.log[k];
  }

  // ---------- calls that wait for the quit signal ----------

  /** The call is still being offered, to a loop that has exited. */
  predicate Abandoned(s: State, id: nat) {
    Has(s, id) && s.calls[id].phase.Offering? && s.loop.Exited? && !s.quit
  }

  lemma {:induction false} AbandonedStays(s: State, later: seq<Step>, t: State, id: nat)
    requires Abandoned(s, id) && Runs(s, later, t) && Quit !in later
    ensures Abandoned(t, id)
    decreases |later|
  {
    if later != [] {
      assert Abandoned(After(s, later[0]), id);
      AbandonedStays(After(s, later[0]), later[1..], t, id);
    }
  }

  function StepsLeft(s: State, id: nat): nat
    requires Has(s, id)
  {
    match s.calls[id].phase
    case Offering => if s.loop.Serving? then 4 else 3
    case Waiting => if s.calls[id].reply.None? then 2 else 1
    case Returned(_) => 0
  }

  /** What loop or caller can do next for a call that is not abandoned. */
  function NextStep(s: State, id: nat): Step
    requires Has(s, id)
  {
    if s.calls[id].phase.Offering? then (if s.loop.Serving? then Serve else Accept(id))
    else if s.calls[id].reply.None? then Serve else Receive(id)
  }

  lemma StepOn(s: State, id: nat)
    requires Inv(s) && Has(s, id) && !s.calls[id].phase.Returned?
    requires s.calls[id].phase.Offering? ==> !s.loop.Exited?
    ensures Enabled(s, NextStep(s, id))
    ensures var t := After(s, NextStep(s, id));
            && Has(t, id) && StepsLeft(t, id) < StepsLeft(s, id)
            && (t.calls[id].phase.Offering? ==> !t.loop.Exited?)
  {
    hide Replay, Logged, Apply;
    assert CallOk(s, id);
    assert s.loop.Serving? ==> CallOk(s, s.loop.id);
  }

  /** A call that is not abandoned can be answered, without the quit signal. */
  lemma {:induction false} WayOn(s: State, id: nat) returns (later: seq<Step>, t: State)
    requires Inv(s) && Has(s, id)
    requires s.calls[id].phase.Offering? ==> !s.loop.Exited?
    ensures Runs(s, later, t) && Quit !in later
    ensures Has(t, id) && t.calls[id].phase.Returned?
    decreases StepsLeft(s, id)
  {
    hide Inv, Enabled, After;
    if s.calls[id].phase.Returned? {
      later, t := [], s;
    } else {
      var step := NextStep(s, id);
      StepOn(s, id);
      StepKeeps(s, step);
      var rest;
      rest, t := WayOn(After(s, step), id);
      later := [step] + rest;
      assert later[1..] == rest;
    }
  }

  /**
   * Before shutdown, nothing but the quit signal can let a call return exactly when it is still being
   * offered and the loop has exited, as it does when its message stream fails.
   */
  lemma HangsExactly(steps: seq<Step>, s: State, id: nat)
    requires Runs(INITIAL, steps, s) && Has(s, id) && !s.calls[id].phase.Returned? && !s.quit
    ensures (forall later, t :: Runs(s, later, t) && Quit !in later ==> Has(t, id) && !t.calls[id].phase.Returned?)
            <==> s.calls[id].phase.Offering? && s.loop.Exited?
  {
    hide Runs, Enabled, After, Inv;
    InitialInv();
    RunKeeps(INITIAL, steps, s);
    if s.calls[id].phase.Offering? && s.loop.Exited? {
      forall later, t | Runs(s, later, t) && Quit !in later ensures Has(t, id) && !t.calls[id].phase.Returned? {
        AbandonedStays(s, later, t, id);
      }
    } else {
      var later, t := WayOn(s, id);
    }
  }

  /** A run into such a wait: the message stream fails while the first registration is offered. */
  lemma HangReachable() returns (steps: seq<Step>, s: State)
    ensures Runs(INITIAL, steps, s) && Quit !in steps && Abandoned(s, 0)
    ensures forall later, t :: Runs(s, later, t) && Quit !in later ==> Abandoned(t, 0)
  {
    var started := After(INITIAL, Start);
    var offered := After(started, Invoke(Registration(FINAL_PAYLOAD_START, 0, false)));
    s := After(offered, LoopExits);
    assert Runs(s, [], s);
    assert Runs(offered, [LoopExits], s) by { assert [LoopExits][1..] == []; }
    steps := [Start, Invoke(Registration(FINAL_PAYLOAD_START, 0, false)), LoopExits];
    assert steps[1..][1..] == [LoopExits];
    forall later, t | Runs(s, later, t) && Quit !in later ensures Abandoned(t, 0) {
      AbandonedStays(s, later, t, 0);
    }
  }

  /** The quit signal can come at any time, and then lets any call return. */
  lemma QuitReturns(s: State, id: nat) returns (t: State)
    requires Has(s, id) && !s.calls[id].phase.Returned?
    ensures Runs(s, [Quit, GiveUp(id)], t) && Has(t, id) && t.calls[id].phase == Returned(ShuttingDown)
  {
    var u := After(s, Quit);
    t := After(u, GiveUp(id));
    assert Runs(u, [GiveUp(id)], t) by {
      assert [GiveUp(id)][1..] == [] && Runs(t, [], t);
    }
    assert [Quit, GiveUp(id)][1..] == [GiveUp(id)];
  }
}
