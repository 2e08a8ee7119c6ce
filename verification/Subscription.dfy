/**
 * Payload subscriptions: each registers a handler with the messenger's event loop, streams
 * what the handler accepts, and deregisters on the way out. Subscriptions, the event loop
 * and shutdown are interleaved step by step.
 */
module Subscription {
  import opened Wrappers
  import opened Registry

  type Answer = Result<(), RegisterError>

  /** A final payload of a received message, with the type that picks its handler. */
  datatype Item = Item(tlvType: nat, value: nat)

  datatype Pc =
    | RegOffer     // handing the registration to the loop
    | RegWait      // for its answer
    | Receiving    // in the receive loop
    | Sending      // to the client
    | DeregOffer   // handing the deregistration to the loop
    | DeregWait
    | Final

  /**
   * A subscription. `buffer` is its one-slot payload channel and `hand` the payload it is
   * sending. `accepted` and `sent` record what its handler took and what the client got.
   */
  datatype Sub = Sub(tlvType: nat, pc: Pc, reply: Option<Answer>, buffer: seq<nat>, hand: seq<nat>,
                     cancelled: bool, accepted: seq<nat>, sent: seq<nat>)

  datatype Loop =
    | Selecting
    | Serving(sub: nat, deregister: bool)
    | Dispatching(todo: seq<Item>)   // the final payloads of one message still to hand out
    | Exited

  /** Handlers map a type to the subscription whose closure is registered for it. */
  datatype State = State(subs: seq<Sub>, handlers: map<nat, nat>, loop: Loop, inbox: seq<seq<Item>>, serverQuit: bool,
                         quit: bool)

  const INITIAL: State := State([], map[], Selecting, [], false, false)

  datatype Step =
    // the outside world
    | Subscribe(tlvType: nat)
    | Cancel(i: nat)
    | Arrive(items: seq<Item>)
    | CloseServerQuit
    | CloseQuit
    // the event loop
    | Accept(i: nat)
    | Serve
    | TakeMessage
    | Skip
    | Deliver
    | HandlerFails
    | MessageDone
    | LoopExits
    // a subscription
    | GetAnswer(i: nat)
    | SeeQuit(i: nat)
    | TakePayload(i: nat)
    | SendOk(i: nat)
    | SendFails(i: nat)
    | Leave(i: nat)

  // ---------- steps ----------

  predicate At(s: State, i: nat, pc: Pc) {
    i < |s.subs| && s.subs[i].pc == pc
  }

  /** The subscription whose handler gets the next item, if its type has a handler. */
  function Target(s: State): Option<nat> {
    if s.loop.Dispatching? && s.loop.todo != [] && s.loop.todo[0].tlvType in s.handlers
       && s.handlers[s.loop.todo[0].tlvType] < |s.subs|
    then Some(s.handlers[s.loop.todo[0].tlvType])
    else None
  }

  predicate Enabled(s: State, step: Step) {
    match step
    case Subscribe(tlvType) => tlvType >= FINAL_PAYLOAD_START
    case Cancel(i) => i < |s.subs|
    case Arrive(_) => true
    case CloseServerQuit => true
    // The server closes its own signal before it stops the messenger.
    case CloseQuit => s.serverQuit
    case Accept(i) => s.loop.Selecting? && (At(s, i, RegOffer) || At(s, i, DeregOffer))
    case Serve => s.loop.Serving? && s.loop.sub < |s.subs| && s.subs[s.loop.sub].reply.None?
    case TakeMessage => s.loop.Selecting? && s.inbox != []
    case Skip => s.loop.Dispatching? && s.loop.todo != [] && s.loop.todo[0].tlvType !in s.handlers
    case Deliver => Target(s).Some? && s.subs[Target(s).value].buffer == []
    case HandlerFails => Target(s).Some? && (s.subs[Target(s).value].cancelled || s.serverQuit)
    case MessageDone => s.loop == Dispatching([])
    case LoopExits => s.loop.Selecting?
    case GetAnswer(i) => (At(s, i, RegWait) || At(s, i, DeregWait)) && s.subs[i].reply.Some?
    case SeeQuit(i) => s.quit
        && (At(s, i, RegOffer) || At(s, i, RegWait) || At(s, i, DeregOffer) || At(s, i, DeregWait))
    case TakePayload(i) => At(s, i, Receiving) && s.subs[i].buffer != []
    case SendOk(i) => At(s, i, Sending)
    case SendFails(i) => At(s, i, Sending)
    case Leave(i) => At(s, i, Receiving) && (s.subs[i].cancelled || s.serverQuit)
  }

  function Set(s: State, i: nat, sub: Sub): State
    requires i < |s.subs|
  {
    s.(subs := s.subs[i := sub])
  }

  /** Where a subscription goes once its request is answered. */
  function Answered(sub: Sub): Sub
    requires sub.reply.Some?
  {
    sub.(pc := if sub.pc == RegWait && sub.reply.value.Ok? then Receiving else Final, reply := None)
  }

  function After(s: State, step: Step): State
    requires Enabled(s, step)
  {
    match step
    case Subscribe(tlvType) => s.(subs := s.subs + [Sub(tlvType, RegOffer, None, [], [], false, [], [])])
    case Cancel(i) => Set(s, i, s.subs[i].(cancelled := true))
    case Arrive(items) => s.(inbox := s.inbox + [items])
    case CloseServerQuit => s.(serverQuit := true)
    case CloseQuit => s.(quit := true)
    case Accept(i) =>
      var deregister := s.subs[i].pc == DeregOffer;
      Set(s, i, s.subs[i].(pc := if deregister then DeregWait else RegWait)).(loop := Serving(i, deregister))
    case Serve =>
      var i := s.loop.sub;
      var (handlers, answer) := Apply(s.handlers, Registration(s.subs[i].tlvType, i, s.loop.deregister));
      Set(s, i, s.subs[i].(reply := Some(answer))).(handlers := handlers, loop := Selecting)
    case TakeMessage => s.(loop := Dispatching(s.inbox[0]), inbox := s.inbox[1..])
    case Skip => s.(loop := Dispatching(s.loop.todo[1..]))
    case Deliver =>
      var i, value := Target(s).value, s.loop.todo[0].value;
      Set(s, i, s.subs[i].(buffer := [value],
                           accepted := s.subs[i].accepted + [value])).(loop := Dispatching(s.loop.todo[1..]))
    // The handler's error ends the handling of the whole message.
    case HandlerFails => s.(loop := Selecting)
    case MessageDone => s.(loop := Selecting)
    case LoopExits => s.(loop := Exited)
    case GetAnswer(i) => Set(s, i, Answered(s.subs[i]))
    case SeeQuit(i) => Set(s, i, s.subs[i].(pc := Final))
    case TakePayload(i) => Set(s, i, s.subs[i].(pc := Sending, hand := s.subs[i].buffer, buffer := []))
    case SendOk(i) => Set(s, i, s.subs[i].(pc := Receiving, sent := s.subs[i].sent + s.subs[i].hand, hand := []))
    case SendFails(i) => Set(s, i, s.subs[i].(pc := DeregOffer))
    case Leave(i) => Set(s, i, s.subs[i].(pc := DeregOffer))
  }

  predicate Runs(s: State, steps: seq<Step>, t: State)
    decreases |steps|
  {
    if steps == [] then s == t else Enabled(s, steps[0]) && Runs(After(s, steps[0]), steps[1..], t)
  }

  // ---------- the invariant ----------

  /** The handler registered for the subscription's type is its own. */
  predicate Owns(handlers: map<nat, nat>, i: nat, sub: Sub) {
    sub.tlvType in handlers && handlers[sub.tlvType] == i
  }

  predicate ServedAs(loop: Loop, i: nat) {
    loop.Serving? && loop.sub == i
  }

  /** Everything accepted was sent, is in hand or is buffered, in order. */
  predicate InOrder(sub: Sub) {
    |sub.hand| <= 1 && |sub.buffer| <= 1 && sub.accepted == sub.sent + sub.hand + sub.buffer
  }

  /** What a subscription may look like at each point, given who is registered and served. */
  predicate SubOk(handlers: map<nat, nat>, loop: Loop, quit: bool, i: nat, sub: Sub) {
    && sub.tlvType >= FINAL_PAYLOAD_START
    && InOrder(sub)
    && (sub.pc != Sending && sub.pc != DeregOffer && sub.pc != DeregWait && sub.pc != Final ==> sub.hand == [])
    && match sub.pc
       case RegOffer => sub.reply.None? && !Owns(handlers, i, sub) && !ServedAs(loop, i)
       case RegWait =>
         if sub.reply.None? then loop == Serving(i, false) && !Owns(handlers, i, sub)
         else !ServedAs(loop, i) && (Owns(handlers, i, sub) <==> sub.reply.value.Ok?)
       case Receiving => sub.reply.None? && Owns(handlers, i, sub) && !ServedAs(loop, i)
       case Sending => sub.reply.None? && Owns(handlers, i, sub) && !ServedAs(loop, i) && sub.hand != []
       case DeregOffer => sub.reply.None? && Owns(handlers, i, sub) && !ServedAs(loop, i)
       case DeregWait =>
         if sub.reply.None? then loop == Serving(i, true) && Owns(handlers, i, sub)
         else !ServedAs(loop, i) && !Owns(handlers, i, sub) && sub.reply.value.Ok?
       case Final =>
         && (Owns(handlers, i, sub) ==> quit)
         && (ServedAs(loop, i) ==> quit && sub.reply.None? && (loop.deregister <==> Owns(handlers, i, sub)))
  }

  predicate Inv(s: State) {
    && (forall i :: 0 <= i < |s.subs| ==> SubOk(s.handlers, s.loop, s.quit, i, s.subs[i]))
    && (forall t :: t in s.handlers ==> s.handlers[t] < |s.subs| && s.subs[s.handlers[t]].tlvType == t)
    && (s.loop.Serving? ==> s.loop.sub < |s.subs|)
    && (s.quit ==> s.serverQuit)
  }

  lemma InitialInv()
    ensures Inv(INITIAL)
  {
  }

  /** Serving subscription i changes whether i owns its handler and nobody else's ownership. */
  lemma ServeOwns(s: State, j: nat)
    requires Inv(s) && Enabled(s, Serve) && j < |s.subs|
    ensures var i, h := s.loop.sub, After(s, Serve).handlers;
            && (j != i ==> (Owns(h, j, s.subs[j]) <==> Owns(s.handlers, j, s.subs[j])))
            && After(s, Serve).subs[i].reply.Some?
            && (s.loop.deregister && Owns(s.handlers, i, s.subs[i]) ==>
                !Owns(h, i, s.subs[i]) && After(s, Serve).subs[i].reply.value.Ok?)
            && (!s.loop.deregister ==> (Owns(h, i, s.subs[i]) <==> After(s, Serve).subs[i].reply.value.Ok?))
  {
    assert SubOk(s.handlers, s.loop, s.quit, s.loop.sub, s.subs[s.loop.sub]);
    assert SubOk(s.handlers, s.loop, s.quit, j, s.subs[j]);
  }

  lemma ServeTypes(s: State)
    requires Inv(s) && Enabled(s, Serve)
    ensures var t := After(s, Serve);
            forall k :: k in t.handlers ==> t.handlers[k] < |t.subs| && t.subs[t.handlers[k]].tlvType == k
  {
    hide SubOk;
  }

  lemma ServeKeeps(s: State)
    requires Inv(s) && Enabled(s, Serve)
    ensures Inv(After(s, Serve))
  {
    hide Apply;
    var t := After(s, Serve);
    forall j | 0 <= j < |t.subs| ensures SubOk(t.handlers, t.loop, t.quit, j, t.subs[j]) {
      ServeOwns(s, j);
      assert SubOk(s.handlers, s.loop, s.quit, j, s.subs[j]);
    }
    ServeTypes(s);
  }

  /** The subscription whose fields a step changes, if it changes one that exists. */
  function Moved(s: State, step: Step): Option<nat>
    requires Enabled(s, step)
  {
    match step
    case Cancel(i) => Some(i)
    case Accept(i) => Some(i)
    case Deliver => Some(Target(s).value)
    case GetAnswer(i) => Some(i)
    case SeeQuit(i) => Some(i)
    case TakePayload(i) => Some(i)
    case SendOk(i) => Some(i)
    case SendFails(i) => Some(i)
    case Leave(i) => Some(i)
    case _ => None
  }

  /** A step that does not touch a subscription leaves it as it may be. */
  lemma StillOk(handlers: map<nat, nat>, loop: Loop, loop': Loop, quit: bool, quit': bool, j: nat, sub: Sub)
    requires SubOk(handlers, loop, quit, j, sub)
    requires ServedAs(loop, j) || ServedAs(loop', j) ==> loop == loop'
    requires quit ==> quit'
    ensures SubOk(handlers, loop', quit', j, sub)
  {
  }

  lemma AcceptedOk(handlers: map<nat, nat>, quit: bool, i: nat, sub: Sub)
    requires SubOk(handlers, Selecting, quit, i, sub) && (sub.pc == RegOffer || sub.pc == DeregOffer)
    ensures var deregister := sub.pc == DeregOffer;
            SubOk(handlers, Serving(i, deregister), quit, i, sub.(pc := if deregister then DeregWait else RegWait))
  {
  }

  lemma DeliveredOk(handlers: map<nat, nat>, loop: Loop, loop': Loop, quit: bool, i: nat, sub: Sub, value: nat)
    requires SubOk(handlers, loop, quit, i, sub) && sub.buffer == []
    requires !loop.Serving? && !loop'.Serving?
    ensures SubOk(handlers, loop', quit, i, sub.(buffer := [value], accepted := sub.accepted + [value]))
  {
    assert sub.accepted + [value] == sub.sent + sub.hand + [value];
  }

  lemma AnsweredOk(handlers: map<nat, nat>, loop: Loop, quit: bool, i: nat, sub: Sub)
    requires SubOk(handlers, loop, quit, i, sub) && (sub.pc == RegWait || sub.pc == DeregWait) && sub.reply.Some?
    ensures SubOk(handlers, loop, quit, i, Answered(sub))
  {
  }

  lemma LeftOk(handlers: map<nat, nat>, loop: Loop, i: nat, sub: Sub)
    requires SubOk(handlers, loop, true, i, sub)
    requires sub.pc == RegOffer || sub.pc == RegWait || sub.pc == DeregOffer || sub.pc == DeregWait
    ensures SubOk(handlers, loop, true, i, sub.(pc := Final))
  {
  }

  lemma StreamOk(handlers: map<nat, nat>, loop: Loop, quit: bool, i: nat, sub: Sub)
    requires SubOk(handlers, loop, quit, i, sub)
    ensures sub.pc == Receiving && sub.buffer != [] ==>
            SubOk(handlers, loop, quit, i, sub.(pc := Sending, hand := sub.buffer, buffer := []))
    ensures sub.pc == Sending ==>
            SubOk(handlers, loop, quit, i, sub.(pc := Receiving, sent := sub.sent + sub.hand, hand := []))
    ensures sub.pc == Receiving || sub.pc == Sending ==> SubOk(handlers, loop, quit, i, sub.(pc := DeregOffer))
    ensures SubOk(handlers, loop, quit, i, sub.(cancelled := true))
  {
  }

  lemma MovedOk(s: State, step: Step)
    requires Inv(s) && Enabled(s, step) && Moved(s, step).Some?
    ensures var i, t := Moved(s, step).value, After(s, step);
            i < |t.subs| && SubOk(t.handlers, t.loop, t.quit, i, t.subs[i])
  {
    hide SubOk, Answered;
    var i := Moved(s, step).value;
    var sub := s.subs[i];
    assert SubOk(s.handlers, s.loop, s.quit, i, sub);
    match step {
      case Accept(_) => AcceptedOk(s.handlers, s.quit, i, sub);
      case Deliver => DeliveredOk(s.handlers, s.loop, After(s, step).loop, s.quit, i, sub, s.loop.todo[0].value);
      case GetAnswer(_) => AnsweredOk(s.handlers, s.loop, s.quit, i, sub);
      case SeeQuit(_) => LeftOk(s.handlers, s.loop, i, sub);
      case _ => StreamOk(s.handlers, s.loop, s.quit, i, sub);
    }
  }

  lemma UnmovedOk(s: State, step: Step, j: nat)
    requires Inv(s) && Enabled(s, step) && !step.Serve? && j < |s.subs| && Moved(s, step) != Some(j)
    ensures var t := After(s, step);
            j < |t.subs| && SubOk(t.handlers, t.loop, t.quit, j, t.subs[j])
  {
    hide SubOk;
    var t := After(s, step);
    assert SubOk(s.handlers, s.loop, s.quit, j, s.subs[j]);
    StillOk(s.handlers, s.loop, t.loop, s.quit, t.quit, j, s.subs[j]);
  }

  /** Steps other than serving keep the handlers, and who subscribed to what. */
  lemma OtherFrame(s: State, step: Step)
    requires Inv(s) && Enabled(s, step) && !step.Serve?
    ensures var t := After(s, step);
            && t.handlers == s.handlers && (t.quit ==> t.serverQuit) && |s.subs| <= |t.subs|
            && (t.loop.Serving? ==> t.loop.sub < |t.subs|)
            && (|s.subs| < |t.subs| ==> step.Subscribe?)
  {
    assert (s.quit ==> s.serverQuit) && (s.loop.Serving? ==> s.loop.sub < |s.subs|);
    hide Inv, Answered;
  }

  lemma TypesStay(s: State, step: Step, j: nat)
    requires Enabled(s, step) && j < |s.subs|
    ensures j < |After(s, step).subs| && After(s, step).subs[j].tlvType == s.subs[j].tlvType
  {
    hide Apply;
  }

  lemma NewOk(s: State, tlvType: nat)
    requires Inv(s) && tlvType >= FINAL_PAYLOAD_START
    ensures SubOk(s.handlers, s.loop, s.quit, |s.subs|, Sub(tlvType, RegOffer, None, [], [], false, [], []))
  {
  }

  lemma OtherKeeps(s: State, step: Step)
    requires Inv(s) && Enabled(s, step) && !step.Serve?
    ensures Inv(After(s, step))
  {
    var t := After(s, step);
    OtherFrame(s, step);
    forall j | 0 <= j < |s.subs| ensures t.subs[j].tlvType == s.subs[j].tlvType {
      TypesStay(s, step, j);
    }
    if step.Subscribe? {
      NewOk(s, step.tlvType);
    }
    forall j | 0 <= j < |t.subs| ensures SubOk(t.handlers, t.loop, t.quit, j, t.subs[j]) {
      hide SubOk, Inv;
      if j == |s.subs| {
        assert step.Subscribe?;
      } else if Moved(s, step) == Some(j) {
        MovedOk(s, step);
      } else {
        UnmovedOk(s, step, j);
      }
    }
    hide SubOk, After, Enabled;
  }

  lemma StepKeeps(s: State, step: Step)
    requires Inv(s) && Enabled(s, step)
    ensures Inv(After(s, step))
  {
    hide Inv, Enabled, After;
    if step.Serve? {
      ServeKeeps(s);
    } else {
      OtherKeeps(s, step);
    }
  }

  lemma {:induction false} RunKeeps(s: State, steps: seq<Step>, t: State)
    requires Inv(s) && Runs(s, steps, t)
    ensures Inv(t)
    decreases |steps|
  {
    hide Inv, Enabled, After;
    if steps != [] {
      StepKeeps(s, steps[0]);
      RunKeeps(After(s, steps[0]), steps[1..], t);
    }
  }

  // ---------- main results ----------

  /** In the receive loop: the handler is registered and payloads go to the client. */
  predicate Live(sub: Sub) {
    sub.pc == Receiving || sub.pc == Sending
  }

  /** A live subscription owns the handler of its type, so no other of that type is live. */
  lemma OneLivePerType(steps: seq<Step>, t: State, i: nat, j: nat)
    requires Runs(INITIAL, steps, t) && i < |t.subs| && j < |t.subs|
    requires Live(t.subs[i])
    ensures Owns(t.handlers, i, t.subs[i])
    ensures i != j && Live(t.subs[j]) ==> t.subs[i].tlvType != t.subs[j].tlvType
  {
    hide Runs, Enabled, After;
    RunKeeps(INITIAL, steps, t);
    assert SubOk(t.handlers, t.loop, t.quit, i, t.subs[i]) && SubOk(t.handlers, t.loop, t.quit, j, t.subs[j]);
  }

  /**
   * Serving a deregistration succeeds unless shutdown began, and removes the handler of the
   * subscription that asked and of no other.
   */
  lemma DeregistersItsOwn(steps: seq<Step>, s: State, j: nat)
    requires Runs(INITIAL, steps, s) && s.loop.Serving? && s.loop.deregister && j < |s.subs|
    ensures Enabled(s, Serve)
    ensures var i, t := s.loop.sub, After(s, Serve);
            && Owns(s.handlers, i, s.subs[i])
            && t.subs[i].reply == Some(Ok(()))
            && t.handlers == s.handlers - {s.subs[i].tlvType}
            && (j != i && Live(s.subs[j]) ==> Owns(t.handlers, j, s.subs[j]))
  {
    hide Runs;
    RunKeeps(INITIAL, steps, s);
    assert SubOk(s.handlers, s.loop, s.quit, s.loop.sub, s.subs[s.loop.sub]);
    assert SubOk(s.handlers, s.loop, s.quit, j, s.subs[j]);
  }

  /** Whoever is registered is registering, live or leaving; if it is gone, the messenger quit. */
  lemma HandlersHaveOwners(steps: seq<Step>, t: State, k: nat)
    requires Runs(INITIAL, steps, t) && k in t.handlers
    ensures k >= FINAL_PAYLOAD_START && t.handlers[k] < |t.subs| && t.subs[t.handlers[k]].tlvType == k
    ensures t.subs[t.handlers[k]].pc != RegOffer
    ensures t.subs[t.handlers[k]].pc == Final ==> t.quit && t.serverQuit
  {
    hide Runs, Enabled, After;
    RunKeeps(INITIAL, steps, t);
    assert SubOk(t.handlers, t.loop, t.quit, t.handlers[k], t.subs[t.handlers[k]]);
  }

  /**
   * The client has been sent a prefix of what the handler accepted: no gap, no repeat, and at
   * most two payloads behind, the one in hand and the one buffered.
   */
  lemma StreamOrder(steps: seq<Step>, t: State, i: nat)
    requires Runs(INITIAL, steps, t) && i < |t.subs|
    ensures var sub := t.subs[i];
            sub.sent <= sub.accepted && sub.accepted[|sub.sent|..] == sub.hand + sub.buffer && |sub.hand| <= 1
                && |sub.buffer| <= 1
  {
    hide Runs, Enabled, After;
    RunKeeps(INITIAL, steps, t);
    assert SubOk(t.handlers, t.loop, t.quit, i, t.subs[i]);
    assert t.subs[i].accepted == t.subs[i].sent + (t.subs[i].hand + t.subs[i].buffer);
  }

  // ---------- a handler can hold the loop up ----------

  /** The steps of the event loop. */
  predicate LoopStep(step: Step) {
    match step
    case Accept(_) => true
    case Serve => true
    case TakeMessage => true
    case Skip => true
    case Deliver => true
    case HandlerFails => true
    case MessageDone => true
    case LoopExits => true
    case _ => false
  }

  /** The loop is in a handler that can neither pass its payload on nor give up. */
  predicate Blocked(s: State) {
    Target(s).Some? && s.subs[Target(s).value].buffer != [] && !s.subs[Target(s).value].cancelled && !s.serverQuit
  }

  lemma ServesOn(s: State)
    requires Inv(s) && s.loop.Serving?
    ensures Enabled(s, Serve)
  {
    assert SubOk(s.handlers, s.loop, s.quit, s.loop.sub, s.subs[s.loop.sub]);
  }

  /** The loop is held up exactly when its handler's one slot is full and nothing was called off. */
  lemma HeldUpExactly(steps: seq<Step>, s: State)
    requires Runs(INITIAL, steps, s) && !s.loop.Exited?
    ensures (forall step :: LoopStep(step) ==> !Enabled(s, step)) <==> Blocked(s)
  {
    hide Runs, After, SubOk;
    RunKeeps(INITIAL, steps, s);
    if s.loop.Selecting? {
      assert Enabled(s, LoopExits);
    } else if s.loop.Serving? {
      ServesOn(s);
    } else if !Blocked(s) {
      assert Enabled(s, MessageDone) || Enabled(s, Skip) || Enabled(s, Deliver) || Enabled(s, HandlerFails);
    }
  }

  /** Blocked in the handler of a subscription that is itself waiting for the loop. */
  predicate Embrace(s: State, i: nat) {
    Blocked(s) && Target(s) == Some(i) && s.subs[i].pc == DeregOffer
  }

  lemma EmbraceStays(s: State, step: Step, i: nat)
    requires Inv(s) && Embrace(s, i) && Enabled(s, step) && step != Cancel(i) && step != CloseServerQuit
    ensures Embrace(After(s, step), i)
  {
    hide SubOk;
  }

  /** The loop and the subscription wait for each other until the client or the server calls it off. */
  lemma {:induction false} EmbraceLasts(s: State, steps: seq<Step>, t: State, i: nat)
    requires Inv(s) && Embrace(s, i) && Runs(s, steps, t)
    requires Cancel(i) !in steps && CloseServerQuit !in steps
    ensures Embrace(t, i)
    decreases |steps|
  {
    hide Embrace, Inv, Enabled, After;
    if steps != [] {
      EmbraceStays(s, steps[0], i);
      StepKeeps(s, steps[0]);
      EmbraceLasts(After(s, steps[0]), steps[1..], t, i);
    }
  }

  lemma {:induction false} RunsSnoc(s: State, steps: seq<Step>, t: State, step: Step)
    requires Runs(s, steps, t) && Enabled(t, step)
    ensures Runs(s, steps + [step], After(t, step))
    decreases |steps|
  {
    hide Enabled, After;
    if steps != [] {
      RunsSnoc(After(s, steps[0]), steps[1..], t, step);
      assert (steps + [step])[1..] == steps[1..] + [step];
    } else {
      assert [step][1..] == [];
      assert Runs(After(s, step), [], After(s, step));
    }
  }

  lemma Extend(steps: seq<Step>, s: State, step: Step) returns (r: seq<Step>, t: State)
    requires Runs(INITIAL, steps, s) && Enabled(s, step)
    ensures Runs(INITIAL, r, t) && t == After(s, step)
  {
    RunsSnoc(INITIAL, steps, s, step);
    r, t := steps + [step], After(s, step);
  }

  /** One subscription, to type 64, registered for it, with the loop selecting. */
  function Subscribed(pc: Pc, buffer: seq<nat>, hand: seq<nat>, accepted: seq<nat>): State {
    State([Sub(64, pc, None, buffer, hand, false, accepted, [])], map[64 := 0], Selecting, [], false, false)
  }

  function Registering(): State {
    State([Sub(64, RegWait, None, [], [], false, [], [])], map[], Serving(0, false), [], false, false)
  }

  lemma Subscribing() returns (r: seq<Step>, t: State)
    ensures Runs(INITIAL, r, t) && t == Registering()
  {
    r, t := [], INITIAL;
    assert Runs(INITIAL, r, t);
    hide Runs;
    r, t := Extend(r, t, Subscribe(64));
    r, t := Extend(r, t, Accept(0));
  }

  lemma Registered(steps: seq<Step>) returns (r: seq<Step>, t: State)
    requires Runs(INITIAL, steps, Registering())
    ensures Runs(INITIAL, r, t) && t == Subscribed(Receiving, [], [], [])
  {
    hide Runs;
    r, t := Extend(steps, Registering(), Serve);
    r, t := Extend(r, t, GetAnswer(0));
  }

  /** A message with a payload for the subscription arrives and its handler takes it. */
  lemma Delivering(steps: seq<Step>, pc: Pc, hand: seq<nat>, accepted: seq<nat>, value: nat)
    returns (r: seq<Step>, t: State)
    requires Runs(INITIAL, steps, Subscribed(pc, [], hand, accepted))
    ensures Runs(INITIAL, r, t) && t == Subscribed(pc, [value], hand, accepted + [value])
  {
    hide Runs;
    r, t := Extend(steps, Subscribed(pc, [], hand, accepted), Arrive([Item(64, value)]));
    r, t := Extend(r, t, TakeMessage);
    r, t := Extend(r, t, Deliver);
    r, t := Extend(r, t, MessageDone);
  }

  /** A run into that wait: one payload is being sent, one is buffered, the send fails, a third comes. */
  lemma EmbraceReachable() returns (steps: seq<Step>, t: State)
    ensures Runs(INITIAL, steps, t) && Embrace(t, 0) && |t.subs| == 1
  {
    hide Runs;
    steps, t := Subscribing();
    steps, t := Registered(steps);
    steps, t := Delivering(steps, Receiving, [], [], 1);
    steps, t := Extend(steps, t, TakePayload(0));
    assert t == Subscribed(Sending, [], [1], t.subs[0].accepted);
    steps, t := Delivering(steps, Sending, [1], t.subs[0].accepted, 2);
    steps, t := Extend(steps, t, SendFails(0));
    steps, t := Extend(steps, t, Arrive([Item(64, 3)]));
    steps, t := Extend(steps, t, TakeMessage);
  }

  // ---------- subscriptions that wait for the messenger's quit ----------

  /** Offering a request to a loop that has exited. */
  predicate Abandoned(s: State, i: nat, pc: Pc) {
    At(s, i, pc) && (pc == RegOffer || pc == DeregOffer) && s.loop.Exited? && !s.quit
  }

  lemma {:induction false} AbandonedStays(s: State, later: seq<Step>, t: State, i: nat, pc: Pc)
    requires Abandoned(s, i, pc) && Runs(s, later, t) && CloseQuit !in later
    ensures Abandoned(t, i, pc)
    decreases |later|
  {
    if later != [] {
      AbandonedStep(s, later[0], i, pc);
      hide Abandoned, Enabled, After;
      AbandonedStays(After(s, later[0]), later[1..], t, i, pc);
    }
  }

  lemma AbandonedStep(s: State, step: Step, i: nat, pc: Pc)
    requires Abandoned(s, i, pc) && Enabled(s, step) && step != CloseQuit
    ensures Abandoned(After(s, step), i, pc)
  {
    hide Apply;
  }

  function LoopSteps(s: State): nat {
    match s.loop
    case Selecting => 0
    case Serving(_, _) => 1
    case Dispatching(todo) => 1 + |todo|
    case Exited => 0
  }

  /** Steps that bring the loop closer to selecting; a client in its way may cancel. */
  function Closer(s: State): seq<Step> {
    if s.loop.Serving? then [Serve]
    else if Target(s).Some? then [Cancel(Target(s).value), HandlerFails]
    else if s.loop == Dispatching([]) then [MessageDone]
    else [Skip]
  }

  lemma OneStep(s: State, step: Step)
    requires Enabled(s, step)
    ensures Runs(s, [step], After(s, step))
  {
    hide Enabled, After;
    assert [step][1..] == [];
    assert Runs(After(s, step), [], After(s, step));
  }

  /** A handler's subscription cancels, and its handler gives up. */
  lemma CallsOff(s: State, i: nat, pc: Pc) returns (t: State)
    requires Target(s).Some? && At(s, i, pc)
    ensures Runs(s, Closer(s), t) && At(t, i, pc) && t.loop.Selecting?
  {
    hide Runs;
    var u := After(s, Cancel(Target(s).value));
    t := After(u, HandlerFails);
    OneStep(s, Cancel(Target(s).value));
    RunsSnoc(s, [Cancel(Target(s).value)], u, HandlerFails);
    assert [Cancel(Target(s).value)] + [HandlerFails] == Closer(s);
  }

  lemma ComesCloser(s: State, i: nat, pc: Pc) returns (t: State)
    requires Inv(s) && At(s, i, pc) && (pc == RegOffer || pc == DeregOffer) && (s.loop.Serving? || s.loop.Dispatching?)
    ensures Runs(s, Closer(s), t) && At(t, i, pc) && !t.loop.Exited? && LoopSteps(t) < LoopSteps(s)
  {
    hide Apply, InOrder, Runs;
    if Target(s).Some? {
      t := CallsOff(s, i, pc);
    } else {
      assert s.loop.Serving? ==> SubOk(s.handlers, s.loop, s.quit, s.loop.sub, s.subs[s.loop.sub]);
      assert SubOk(s.handlers, s.loop, s.quit, i, s.subs[i]);
      hide SubOk;
      t := After(s, Closer(s)[0]);
      OneStep(s, Closer(s)[0]);
    }
  }

  lemma {:induction false} RunsOn(s: State, a: seq<Step>, t: State, b: seq<Step>, u: State)
    requires Runs(s, a, t) && Runs(t, b, u)
    ensures Runs(s, a + b, u)
    decreases |a|
  {
    hide Enabled, After;
    if a == [] {
      assert a + b == b;
    } else {
      RunsOn(After(s, a[0]), a[1..], t, b, u);
      assert (a + b)[1..] == a[1..] + b;
    }
  }

  /** While the loop runs, it can come to take an offered request without the messenger's quit. */
  lemma {:induction false} WayOn(s: State, i: nat, pc: Pc) returns (later: seq<Step>, t: State)
    requires Inv(s) && At(s, i, pc) && (pc == RegOffer || pc == DeregOffer) && !s.loop.Exited?
    ensures Runs(s, later, t) && CloseQuit !in later
    ensures i < |t.subs| && t.subs[i].pc != pc
    decreases LoopSteps(s)
  {
    if s.loop.Selecting? {
      later, t := [Accept(i)], After(s, Accept(i));
      assert later[1..] == [];
    } else {
      var u := ComesCloser(s, i, pc);
      RunKeeps(s, Closer(s), u);
      hide Inv, Enabled, After, At, Runs;
      later, t := WayOn(u, i, pc);
      RunsOn(s, Closer(s), u, later, t);
      later := Closer(s) + later;
    }
  }

  /**
   * Before shutdown, nothing but the messenger's quit can end a subscription's offer of its
   * registration or deregistration exactly when the loop has exited. Clients may cancel here, and
   * the server may quit.
   */
  lemma OfferHangsExactly(steps: seq<Step>, s: State, i: nat, pc: Pc)
    requires Runs(INITIAL, steps, s) && At(s, i, pc) && (pc == RegOffer || pc == DeregOffer) && !s.quit
    ensures (forall later, t :: Runs(s, later, t) && CloseQuit !in later ==> At(t, i, pc)) <==> s.loop.Exited?
  {
    hide Runs, Enabled, After, Inv;
    InitialInv();
    RunKeeps(INITIAL, steps, s);
    if s.loop.Exited? {
      forall later, t | Runs(s, later, t) && CloseQuit !in later ensures At(t, i, pc) {
        AbandonedStays(s, later, t, i, pc);
      }
    } else {
      var later, t := WayOn(s, i, pc);
    }
  }
}
