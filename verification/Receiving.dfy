/** What the handlers at the end of a route are called with. */
module Receiving {
  import opened Wrappers
  import opened Bytes
  import opened BigSize
  import opened Keys
  import opened ReplyPath
  import opened Tlv
  import opened OnionPayload
  import opened Routes
  import opened Messenger
  import opened Delivery
  import RouteCreation
  import RouteByHand

  /** The visits of the message that a created route sends. */
  function Journey(c: Crypto, r: Request): (walk: seq<Visit>)
    requires Sound(c) && RequestKeys(c.curve, r) && RequestSized(r) && CreateRoute(c, r).Ok?
    ensures walk != []
  {
    var made := CreateRoute(c, r).value;
    Walk(c, made.firstNode, made.blindingPoint, made.onion)
  }

  /** The hidden data that the last node is given. */
  function LastBlob(c: Crypto, r: Request, blinding: PubKey): seq<byte> {
    match r.blindedDestination
    case None => if r.hops == [] then [] else c.seal(r.hops[|r.hops| - 1], blinding, [])
    case Some(to) => if to.hops == [] then [] else to.hops[|to.hops| - 1].encryptedData
  }

  lemma LastBlobIs(c: Crypto, r: Request, hidden: Option<Hidden>)
    requires Sendable(c, r, hidden) && Validate(r).Ok? && ClearHops(r) != []
    requires |RoutePayloads(c, r)| == |RouteNodes(r, hidden)| > 0
    ensures var n := |RouteNodes(r, hidden)| - 1;
            RoutePayloads(c, r)[n].encryptedData == LastBlob(c, r, RouteEphemeral(c, r, hidden, n))
  {
    hide OurPath, Ephemeral, Sound, RequestKeys;
    var blobs := OurPath(c, r).encryptedData + HopBlobs(ExtraHops(r));
    var n := |blobs| - 1;
    HopPayloadAt(blobs, r.replyPath, r.finalPayloads, n);
    if hidden.None? {
      RouteByHand.OurHop(c, r, n);
    }
  }

  /** The end of a walk along a created route. */
  lemma LastExit(c: Crypto, r: Request, hidden: Option<Hidden>)
    requires Sendable(c, r, hidden) && PathFits(r.replyPath) && CreateRoute(c, r).Ok? && ClearHops(r) != []
    ensures var last := Journey(c, r)[|Journey(c, r)| - 1];
            last.outcome.Exited? && last.outcome.payload.encryptedData == LastBlob(c, r, last.blinding)
  {
    hide Walk, EncodeLayers, HopPayloads, OurPath, CreateRoute, Visits, RequestKeys, RequestSized, Plain, Sound,
         RouteNodes, LastBlob, Reachable;
    CreatedIsValid(c, r);
    JoinedParts(c, r);
    var layers := CreateRoute(c, r).value.onion.layers;
    JoinedWalk(c, r, hidden, layers);
    LastBlobIs(c, r, hidden);
    VisitIs(RouteStops(c, r, hidden, RoutePayloads(c, r)), layers, |layers| - 1);
  }

  /**
   * The calls are in order of type, one for each of the sender's payloads whose type has a handler, the
   * empty ones under an unknown type left out. Each is given the sender's reply path, this hidden data
   * and the sender's value for its type.
   */
  ghost predicate Handed(handlers: map<nat, Handler>, r: Request, blob: seq<byte>, calls: seq<HandlerCall>) {
    && (forall i, j :: 0 <= i < j < |calls| ==> calls[i].tlvType < calls[j].tlvType)
    && (forall f :: f in r.finalPayloads && f.typ in handlers && (f.typ == 64 || f.typ == 66 || f.value != []) ==>
          HandlerCall(f.typ, r.replyPath, blob, f.value) in calls)
    && (forall call :: call in calls ==>
          && call.replyPath == r.replyPath && call.encryptedData == blob
          && call.tlvType in handlers && call.tlvType <= MAX_UINT64
          && Record(call.tlvType, call.value) in r.finalPayloads
          && (call.tlvType == 64 || call.tlvType == 66 || call.value != []))
  }

  lemma CallsHanded(handlers: map<nat, Handler>, r: Request, p: Payload)
    requires p.replyPath == r.replyPath && Ascending(p.finals)
    requires forall f :: f in p.finals <==> f in r.finalPayloads && (f.typ == 64 || f.typ == 66 || f.value != [])
    ensures Handed(handlers, r, p.encryptedData, CallsFor(handlers, p, p.finals))
  {
    hide CallsFor, Ascending;
    CallsAre(handlers, p, p.finals);
  }

  /** Every route with a hop to blind ends with the calls that the sender's payloads ask for. */
  lemma HandlersCalled(c: Crypto, r: Request, hidden: Option<Hidden>, handlers: map<nat, Handler>)
    requires Sendable(c, r, hidden) && PathFits(r.replyPath) && CreateRoute(c, r).Ok? && ClearHops(r) != []
    ensures var last := Journey(c, r)[|Journey(c, r)| - 1];
            && last.outcome.Exited?
            && Handed(handlers, r, LastBlob(c, r, last.blinding),
                      CallsFor(handlers, last.outcome.payload, last.outcome.payload.finals))
  {
    hide Walk, CreateRoute, RequestKeys, RequestSized, Plain, Sound, RouteNodes, LastBlob, Finals, SortRecords,
         HeldEphemerals, CallsFor, Handed, Destined;
    LastExit(c, r, hidden);
    EndToEnd(c, r, hidden);
    KeptPayloads(c, r);
    CallsHanded(handlers, r, Journey(c, r)[|Journey(c, r)| - 1].outcome.payload);
  }

  lemma KeptPayloads(c: Crypto, r: Request)
    requires Sound(c) && RequestKeys(c.curve, r) && RequestSized(r) && CreateRoute(c, r).Ok? && ClearHops(r) != []
    ensures var finals := Finals(SortRecords(r.finalPayloads));
            && Ascending(finals)
            && forall f :: f in finals <==> f in r.finalPayloads && (f.typ == 64 || f.typ == 66 || f.value != [])
  {
    hide Finals, SortRecords, JoinedRoute, RequestKeys, RequestSized, Sound;
    RouteCreation.CreatedExactly(c, r);
    SortKeeps(r.finalPayloads);
    FinalsElements(SortRecords(r.finalPayloads));
  }
}
