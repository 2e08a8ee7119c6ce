/** A node's side of onion messages: peel a layer, then forward it or hand its payloads out. */
module Messenger {
  import opened Wrappers
  import opened Bytes
  import opened BigSize
  import opened Keys
  import opened ReplyPath
  import opened Tlv
  import opened OnionPayload
  import opened RouteData
  import opened Routes
  import opened Registry

  datatype Action = ExitNode | MoreHops | Failure

  datatype Packet = Packet(action: Action, payload: seq<byte>, next: Option<Onion>)

  datatype HandleError =
    | BadOnionBlob            // the onion or its payload does not open
    | BadMessage
    | UnexpectedFinalPayload  // a hop that should forward has payloads for the last hop
    | NoForwardingOnion
    | NoEncryptedData
    | BadData                 // the hidden data does not decrypt or decode
    | NoNextNodeID

  datatype Outcome =
    | Forwarded(peer: PubKey, blinding: PubKey, onion: Onion)
    | Exited(payload: Payload)
    | Failed(error: HandleError)

  // ---------- specification ----------

  /** The layer opens for the node it is addressed to, under the ephemeral it was blinded with. */
  function ProcessOnion(c: Crypto, node: PubKey, blinding: PubKey, onion: Onion): Result<Packet, HandleError> {
    if onion.layers == [] || onion.layers[0].node != c.blind(node, blinding) then Err(BadOnionBlob)
    else if |onion.layers| == 1 then Ok(Packet(ExitNode, onion.layers[0].payload, None))
    else Ok(Packet(MoreHops, onion.layers[0].payload, Some(Onion(onion.layers[1..]))))
  }

  function DecryptBlob(c: Crypto, node: PubKey, blinding: PubKey, payload: Payload)
    : Result<BlindedRouteData, HandleError> {
    if payload.encryptedData == [] then Err(NoEncryptedData) else
    match c.open(node, blinding, payload.encryptedData)
    case None => Err(BadData)
    case Some(bytes) =>
      match DecodeData(c.curve, bytes)
      case Err(_) => Err(BadData)
      case Ok(data) => Ok(data)
  }

  /** The ephemeral that goes with a forwarded onion: the next one, unless it is switched out. */
  function NextBlinding(c: Crypto, node: PubKey, blinding: PubKey, data: BlindedRouteData): PubKey {
    if data.nextBlindingOverride.Some? then data.nextBlindingOverride.value else c.next(node, blinding)
  }

  function Forward(c: Crypto, node: PubKey, blinding: PubKey, data: BlindedRouteData, onion: Onion): Outcome {
    if data.nextNodeID.None? then Failed(NoNextNodeID)
    else Forwarded(data.nextNodeID.value, NextBlinding(c, node, blinding, data), onion)
  }

  function HandlePacket(c: Crypto, node: PubKey, blinding: PubKey, packet: Packet): Outcome {
    match DecodePayload(c.curve, packet.payload)
    case Err(_) => Failed(BadOnionBlob)
    case Ok(payload) =>
      match packet.action
      case ExitNode => Exited(payload)
      case Failure => Failed(BadMessage)
      case MoreHops =>
        if payload.finals != [] then Failed(UnexpectedFinalPayload)
        else if packet.next.None? then Failed(NoForwardingOnion)
        else
          match DecryptBlob(c, node, blinding, payload)
          case Err(e) => Failed(e)
          case Ok(data) => Forward(c, node, blinding, data, packet.next.value)
  }

  function Handle(c: Crypto, node: PubKey, blinding: PubKey, onion: Onion): (out: Outcome)
    ensures out.Forwarded? ==> |onion.layers| > 1 && out.onion == Onion(onion.layers[1..])
  {
    match ProcessOnion(c, node, blinding, onion)
    case Err(e) => Failed(e)
    case Ok(packet) => HandlePacket(c, node, blinding, packet)
  }

  /** The onion's outermost layer is addressed to the node under this ephemeral, and holds this payload. */
  predicate Peels(c: Crypto, node: PubKey, blinding: PubKey, onion: Onion, payload: Payload) {
    && onion.layers != []
    && onion.layers[0].node == c.blind(node, blinding)
    && DecodePayload(c.curve, onion.layers[0].payload) == Ok(payload)
  }

  /** What a hop that is not the last must be told to pass the onion on to a peer with an ephemeral. */
  predicate PointsTo(c: Crypto, node: PubKey, blinding: PubKey, payload: Payload, peer: PubKey, ephemeral: PubKey) {
    var data := DecryptBlob(c, node, blinding, payload);
    && payload.finals == []
    && data.Ok? && data.value.nextNodeID == Some(peer)
    && ephemeral == data.value.nextBlindingOverride.GetOr(c.next(node, blinding))
  }

  /**
   * A node takes a message for itself exactly when its layer peels and is the last, and forwards it
   * exactly when its layer peels, is not the last and points to a peer: to that peer, with the
   * ephemeral it is given or else the next, and with one layer less. All else fails.
   */
  lemma HandleExactly(c: Crypto, node: PubKey, blinding: PubKey, onion: Onion)
    ensures forall p :: Handle(c, node, blinding, onion) == Exited(p) <==>
            Peels(c, node, blinding, onion, p) && |onion.layers| == 1
    ensures forall peer, e, rest :: Handle(c, node, blinding, onion) == Forwarded(peer, e, rest) <==>
              && |onion.layers| > 1 && rest == Onion(onion.layers[1..])
              && exists p :: Peels(c, node, blinding, onion, p) && PointsTo(c, node, blinding, p, peer, e)
  {
    hide DecodePayload, DecryptBlob;
    var out := Handle(c, node, blinding, onion);
    forall peer, e, rest
      ensures out == Forwarded(peer, e, rest) <==>
              && |onion.layers| > 1 && rest == Onion(onion.layers[1..])
              && exists p :: Peels(c, node, blinding, onion, p) && PointsTo(c, node, blinding, p, peer, e)
    {
      if out == Forwarded(peer, e, rest) {
        var p := DecodePayload(c.curve, onion.layers[0].payload).value;
        assert Peels(c, node, blinding, onion, p) && PointsTo(c, node, blinding, p, peer, e);
      }
    }
  }

  /** What a node does with an onion, whatever it is, with the reasons for failing in the order of the checks. */
  lemma HandleSpelled(c: Crypto, node: PubKey, blinding: PubKey, onion: Onion)
    ensures Handle(c, node, blinding, onion) ==
            if onion.layers == [] || onion.layers[0].node != c.blind(node, blinding)
               || DecodePayload(c.curve, onion.layers[0].payload).Err? then Failed(BadOnionBlob)
            else
              var p := DecodePayload(c.curve, onion.layers[0].payload).value;
              var hidden := c.open(node, blinding, p.encryptedData);
              if |onion.layers| == 1 then Exited(p)
              else if p.finals != [] then Failed(UnexpectedFinalPayload)
              else if p.encryptedData == [] then Failed(NoEncryptedData)
              else if hidden.None? || DecodeData(c.curve, hidden.value).Err? then Failed(BadData)
              else
                var data := DecodeData(c.curve, hidden.value).value;
                if data.nextNodeID.None? then Failed(NoNextNodeID)
                else if data.nextBlindingOverride.Some? then
                  Forwarded(data.nextNodeID.value, data.nextBlindingOverride.value, Onion(onion.layers[1..]))
                else Forwarded(data.nextNodeID.value, c.next(node, blinding), Onion(onion.layers[1..]))
  {
    hide DecodePayload, DecodeData;
  }

  // ---------- handing payloads out ----------

  /** A handler's answer to the reply path, the hidden data and the payload's value. */
  type Handler = (Option<Path>, seq<byte>, seq<byte>) -> bool

  /** One call of the handler that is registered for a type, with what it is given. */
  datatype HandlerCall = HandlerCall(tlvType: nat, replyPath: Option<Path>, encryptedData: seq<byte>, value: seq<byte>)

  /** The calls for the final payloads that have a handler, in order. */
  function CallsFor(handlers: map<nat, Handler>, p: Payload, finals: seq<Record>): seq<HandlerCall> {
    if finals == [] then [] else
    var last := finals[|finals| - 1];
    CallsFor(handlers, p, finals[..|finals| - 1]) +
    if last.typ in handlers then [HandlerCall(last.typ, p.replyPath, p.encryptedData, last.value)] else []
  }

  lemma CallsForNext(handlers: map<nat, Handler>, p: Payload, finals: seq<Record>, i: nat)
    requires i < |finals|
    ensures CallsFor(handlers, p, finals[..i + 1]) ==
            CallsFor(handlers, p, finals[..i]) +
            if finals[i].typ !in handlers then []
            else [HandlerCall(finals[i].typ, p.replyPath, p.encryptedData, finals[i].value)]
  {
    assert finals[..i + 1][..i] == finals[..i];
  }

  lemma {:induction false} CallsForPrefix(handlers: map<nat, Handler>, p: Payload, finals: seq<Record>, n: nat)
    requires n <= |finals|
    ensures CallsFor(handlers, p, finals[..n]) <= CallsFor(handlers, p, finals)
  {
    if n < |finals| {
      assert finals[..|finals| - 1][..n] == finals[..n];
      CallsForPrefix(handlers, p, finals[..|finals| - 1], n);
    } else {
      assert finals[..n] == finals;
    }
  }

  /** Payloads in order of type give one call for each type that has a handler, in order of type. */
  lemma {:induction false} CallsAre(handlers: map<nat, Handler>, p: Payload, finals: seq<Record>)
    requires Ascending(finals)
    ensures var calls := CallsFor(handlers, p, finals);
            && (forall i, j :: 0 <= i < j < |calls| ==> calls[i].tlvType < calls[j].tlvType)
            && forall call :: call in calls <==>
                 && call.tlvType in handlers && call.tlvType <= MAX_UINT64 && Record(call.tlvType, call.value) in finals
                 && call.replyPath == p.replyPath && call.encryptedData == p.encryptedData
  {
    if finals != [] {
      var front, last := finals[..|finals| - 1], finals[|finals| - 1];
      CallsAre(handlers, p, front);
      assert finals == front + [last];
      forall call | call in CallsFor(handlers, p, front) ensures call.tlvType < last.typ {
        assert Record(call.tlvType, call.value) in front;
      }
    }
  }

  /** The messenger's registered handlers and the node key it peels with. */
  class Messenger {
    const node: PubKey
    var onionMsgHandlers: map<nat, Handler>

    constructor (node: PubKey)
      ensures this.node == node && onionMsgHandlers == map[]
    {
      this.node := node;
      onionMsgHandlers := map[];
    }

    /** Adds or removes a handler, as the event loop does for one request. */
    method RegisterHandler(request: Registration<Handler>) returns (r: Result<(), RegisterError>)
      modifies this`onionMsgHandlers
      ensures (onionMsgHandlers, r) == Apply(old(onionMsgHandlers), request)
      ensures r.Ok? <==> (request.deregister <==> request.tlvType in old(onionMsgHandlers))
    {
      var ok := request.tlvType in onionMsgHandlers;
      if request.deregister {
        if !ok {
          return Err(HandlerNotFound);
        }
        onionMsgHandlers := onionMsgHandlers - {request.tlvType};
        return Ok(());
      }
      if ok {
        return Err(HandlerRegistered);
      }
      onionMsgHandlers := onionMsgHandlers[request.tlvType := request.handler];
      return Ok(());
    }

    /**
     * Handles one message. `calls` are the calls made to handlers: those for the final payloads
     * with a handler, in order, up to the first that its handler refuses.
     */
    method HandleOnionMessage(c: Crypto, blinding: PubKey, onion: Onion)
      returns (out: Outcome, calls: seq<HandlerCall>, refused: bool)
      ensures out == Handle(c, node, blinding, onion)
      ensures !out.Exited? ==> calls == [] && !refused
      ensures out.Exited? ==>
                && calls <= CallsFor(onionMsgHandlers, out.payload, out.payload.finals)
                && (!refused ==> calls == CallsFor(onionMsgHandlers, out.payload, out.payload.finals))
                && (refused ==> calls != [])
                && forall i :: 0 <= i < |calls| ==>
                     && calls[i].tlvType in onionMsgHandlers
                     && (onionMsgHandlers[calls[i].tlvType](out.payload.replyPath, out.payload.encryptedData,
                                                            calls[i].value)
                         <==> !(refused && i == |calls| - 1))
    {
      hide HandlePacket, ProcessOnion;
      calls, refused := [], false;
      out := Handle(c, node, blinding, onion);
      if !out.Exited? {
        return;
      }
      var p := out.payload;
      assert CallsFor(onionMsgHandlers, p, p.finals[..0]) == [];
      hide Handle, CallsFor;
      for i := 0 to |p.finals|
        invariant calls == CallsFor(onionMsgHandlers, p, p.finals[..i])
        invariant forall k :: 0 <= k < |calls| ==>
                    && calls[k].tlvType in onionMsgHandlers
                    && onionMsgHandlers[calls[k].tlvType](p.replyPath, p.encryptedData, calls[k].value)
      {
        CallsForNext(onionMsgHandlers, p, p.finals, i);
        var f := p.finals[i];
        if f.typ !in onionMsgHandlers {
          continue;
        }
        calls := calls + [HandlerCall(f.typ, p.replyPath, p.encryptedData, f.value)];
        if !onionMsgHandlers[f.typ](p.replyPath, p.encryptedData, f.value) {
          CallsForPrefix(onionMsgHandlers, p, p.finals, i + 1);
          refused := true;
          return;
        }
      }
      assert p.finals[..|p.finals|] == p.finals;
    }
  }
}
