/** When a route can be created, and that creating it twice is not the same as once. */
module RouteCreation {
  import opened Wrappers
  import opened Bytes
  import opened BigSize
  import opened Keys
  import opened ReplyPath
  import opened Tlv
  import opened OnionPayload
  import opened Routes

  /** The payload's parts can be written: final types from 64 on, each once, and a countable path. */
  predicate Writable(replyPath: Option<Path>, finals: seq<Record>) {
    AllFinal(finals) && Distinct(finals) && (replyPath.Some? ==> |replyPath.value.hops| % 256 != 0)
  }

  lemma LayerWritten(id: PubKey, p: Payload)
    requires Sized(PayloadRecords(p))
    ensures EncodeLayer(id, p).Ok? <==> Writable(p.replyPath, p.finals)
    ensures EncodeLayer(id, p).Err? ==> EncodeLayer(id, p) == Err(BadPayload(Fault(p.finals)))
  {
    hide EncodePayload, PayloadRecords, Distinct, Fault;
    EncodeFails(p);
  }

  /** How writing the first k layers ends, when the last of n may not be writable and all others are. */
  predicate Ends(r: Result<seq<Layer>, RouteError>, k: nat, n: nat, writable: bool, fault: TlvError) {
    if k > MAX_HOPS + 1 || (k == MAX_HOPS + 1 && (k < n || writable)) then r == Err(IndexOutOfRange)
    else if k == n && !writable then r == Err(BadPayload(fault))
    else r.Ok?
  }

  lemma {:induction false} LayersWritten(ids: seq<PubKey>, ps: seq<Payload>, k: nat)
    requires |ids| == |ps| > 0 && SizedPayloads(ps) && k <= |ids|
    requires forall i :: 0 <= i < |ps| - 1 ==> Writable(ps[i].replyPath, ps[i].finals)
    ensures var last := ps[|ps| - 1];
            Ends(EncodeLayers(ids[..k], ps[..k]), k, |ids|, k == 0 || Writable(last.replyPath, last.finals),
                 Fault(last.finals))
  {
    hide EncodeLayer, PayloadRecords, Writable, Fault;
    if k > 0 {
      LayersWritten(ids, ps, k - 1);
      assert ids[..k][..k - 1] == ids[..k - 1] && ps[..k][..k - 1] == ps[..k - 1];
      assert ps[k - 1] in ps;
      LayerWritten(ids[k - 1], ps[k - 1]);
    }
  }

  lemma BareHopWritten()
    ensures Writable(None, [])
  {
  }

  /** How writing all the layers of a route ends. */
  lemma RouteWritten(ids: seq<PubKey>, blobs: seq<seq<byte>>, replyPath: Option<Path>, finals: seq<Record>)
    requires |ids| == |blobs| > 0 && SizedPayloads(HopPayloads(blobs, replyPath, finals))
    ensures Ends(EncodeLayers(ids, HopPayloads(blobs, replyPath, finals)), |ids|, |ids|, Writable(replyPath, finals),
                 Fault(finals))
  {
    hide EncodeLayers, Writable, SizedPayloads, Fault;
    var ps := HopPayloads(blobs, replyPath, finals);
    BareHopWritten();
    LayersWritten(ids, ps, |ids|);
    assert ids[..|ids|] == ids && ps[..|ids|] == ps;
  }

  /** The route is made, or stopped only by the room in the packet. */
  predicate Made(result: Result<Response, RouteError>) {
    result.Ok? || result == Err(NoRoom)
  }

  /** How creating a route of n layers ends. */
  predicate Outcome(result: Result<Response, RouteError>, n: nat, writable: bool, fault: TlvError) {
    if n == 0 then result == Err(EmptyRoute)
    else if n > 28 || (n == 28 && writable) then result == Err(IndexOutOfRange)
    else if !writable then result == Err(BadPayload(fault))
    else Made(result)
  }

  lemma JoinedWritten(c: Crypto, r: Request)
    requires Sound(c) && RequestKeys(c.curve, r) && RequestSized(r) && Validate(r).Ok? && ClearHops(r) != []
    ensures Outcome(JoinedRoute(c, r), |ClearHops(r)| + |ExtraHops(r)|, Writable(r.replyPath, r.finalPayloads),
                    Fault(r.finalPayloads))
  {
    hide EncodeLayers, Writable, SizedPayloads, HopPayloads, OurPath, RequestKeys, RequestSized, Sound, Fault;
    RouteSized(c, r);
    RouteWritten(OurPath(c, r).blindedHops + HopIDs(ExtraHops(r)), OurPath(c, r).encryptedData + HopBlobs(ExtraHops(r)),
                 r.replyPath, r.finalPayloads);
  }

  lemma DirectWritten(c: Crypto, r: Request)
    requires RequestSized(r) && r.blindedDestination.Some?
    ensures Outcome(DirectToBlinded(c, r), |r.blindedDestination.value.hops|, true, NoHops)
  {
    hide EncodeLayers, Writable, SizedPayloads, HopPayloads, Fault;
    var hops := r.blindedDestination.value.hops;
    BlobsSized(HopBlobs(hops), None, []);
    BareHopWritten();
    if hops != [] {
      RouteWritten(HopIDs(hops), HopBlobs(hops), None, []);
    } else {
      NoHopsNoLayers(HopIDs(hops), HopPayloads(HopBlobs(hops), None, []));
    }
  }

  lemma NoHopsNoLayers(ids: seq<PubKey>, ps: seq<Payload>)
    requires ids == [] && ps == [] && SizedPayloads(ps)
    ensures EncodeLayers(ids, ps) == Ok([])
  {
  }

  /** Everything a route needs is given: hops, both keys, and the introduction node of a destination comes last. */
  predicate Given(r: Request) {
    && r.hops != [] && r.sessionKey.Some? && r.blindingKey.Some?
    && (r.blindedDestination.Some? ==> r.hops[|r.hops| - 1] == r.blindedDestination.value.firstNodeID)
  }

  /** What is missing, in the order it is looked for. */
  function Missing(r: Request): RouteError {
    if r.hops == [] then NoPath
    else if r.sessionKey.None? then SessionKeyRequired
    else if r.blindingKey.None? then BlindingKeyRequired
    else NoIntroductionNode
  }

  /** One layer for each hop; a destination brings its own in place of the introduction node. */
  function LayerCount(r: Request): nat
    requires r.hops != []
  {
    match r.blindedDestination
    case None => |r.hops|
    case Some(to) => |r.hops| - 1 + |to.hops|
  }

  /** The payload of the last layer can be written. Straight to a destination it is empty. */
  predicate LastWritable(r: Request) {
    || (r.blindedDestination.Some? && |r.hops| == 1)
    || (&& (forall f :: f in r.finalPayloads ==> f.typ >= 64)
        && (forall i, j :: 0 <= i < j < |r.finalPayloads| ==> r.finalPayloads[i].typ != r.finalPayloads[j].typ)
        && (r.replyPath.Some? ==> |r.replyPath.value.hops| % 256 != 0))
  }

  /**
   * A request gets its route, packet room permitting, exactly when everything is given, there are from 1
   * to 27 layers and the last payload can be written. What is missing is reported first; more than 28
   * layers, or 28 whose last can be written, panic; then comes what is wrong with the last payload.
   */
  lemma CreatedExactly(c: Crypto, r: Request)
    requires Sound(c) && RequestKeys(c.curve, r) && RequestSized(r)
    ensures CreateRoute(c, r).Ok? || CreateRoute(c, r) == Err(NoRoom) <==>
            Given(r) && 1 <= LayerCount(r) <= 27 && LastWritable(r)
    ensures !Given(r) ==> CreateRoute(c, r) == Err(Missing(r))
    ensures Given(r) && LayerCount(r) == 0 ==> CreateRoute(c, r) == Err(EmptyRoute)
    ensures CreateRoute(c, r) == Err(IndexOutOfRange) <==>
            Given(r) && (LayerCount(r) > 28 || (LayerCount(r) == 28 && LastWritable(r)))
    ensures Given(r) && 1 <= LayerCount(r) <= 28 && !LastWritable(r) ==>
              CreateRoute(c, r) == Err(BadPayload(Fault(r.finalPayloads)))
  {
    hide JoinedRoute, DirectToBlinded, RequestKeys, RequestSized, Sound, Fault;
    if Validate(r).Ok? {
      if ClearHops(r) != [] {
        JoinedWritten(c, r);
      } else {
        DirectWritten(c, r);
      }
    }
  }

  /** Where every packet has room, no route fails for want of it. */
  lemma RoomForAll(c: Crypto, r: Request)
    requires Sound(c) && RequestKeys(c.curve, r) && RequestSized(r) && forall layers :: c.room(layers)
    ensures CreateRoute(c, r) != Err(NoRoom)
  {
    hide EncodeLayers, SizedPayloads, HopPayloads, OurPath, RequestKeys, RequestSized, Sound, HopIDs, HopBlobs,
         ClearHops;
    if Validate(r).Ok? && ClearHops(r) != [] {
      RouteSized(c, r);
      LayersStop(OurPath(c, r).blindedHops + HopIDs(ExtraHops(r)), RoutePayloads(c, r));
    } else if Validate(r).Ok? {
      assert r.hops != [] && r.blindedDestination.Some? by { NoClearHops(r); }
      DirectHasRoom(c, r);
    }
  }

  lemma DirectHasRoom(c: Crypto, r: Request)
    requires RequestSized(r) && r.blindedDestination.Some? && forall layers :: c.room(layers)
    ensures DirectToBlinded(c, r) != Err(NoRoom)
  {
    hide EncodeLayers, SizedPayloads, HopPayloads;
    var hops := r.blindedDestination.value.hops;
    BlobsSized(HopBlobs(hops), None, []);
    LayersStop(HopIDs(hops), HopPayloads(HopBlobs(hops), None, []));
  }

  /**
   * A request is used up by a route to a blinded destination: asked again with the hops that are left,
   * it is refused, unless the hop before the introduction node was that node too.
   */
  lemma RetryIsRefused(c: Crypto, r: Request)
    requires Sound(c) && RequestKeys(c.curve, r) && RequestSized(r) && Given(r) && r.blindedDestination.Some?
    ensures var again := r.(hops := r.hops[..|r.hops| - 1]);
            && RequestKeys(c.curve, again) && RequestSized(again)
            && (|r.hops| == 1 ==> CreateRoute(c, again) == Err(NoPath))
            && (|r.hops| >= 2 && r.hops[|r.hops| - 2] != r.blindedDestination.value.firstNodeID ==>
                CreateRoute(c, again) == Err(NoIntroductionNode))
            && (|r.hops| >= 2 && r.hops[|r.hops| - 2] == r.blindedDestination.value.firstNodeID ==> Given(again))
  {
    hide JoinedRoute, DirectToBlinded, Sound;
  }
}
