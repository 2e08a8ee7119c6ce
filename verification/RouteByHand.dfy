/**
 * The onion of a route written out by hand: which layer goes to which blinded id, and the bytes of
 * each layer's payload.
 */
module RouteByHand {
  import opened Wrappers
  import opened Bytes
  import opened BigSize
  import opened Keys
  import opened ReplyPath
  import opened Tlv
  import opened OnionPayload
  import RouteData
  import opened Routes
  import opened RouteCreation
  import opened Layouts

  /** The hops that we blind: all but the introduction node of a destination. */
  function OurNodes(r: Request): seq<PubKey>
    requires r.hops != []
  {
    if r.blindedDestination.Some? then r.hops[..|r.hops| - 1] else r.hops
  }

  /** Each node's ephemeral follows from the one before, the first being the sender's own. */
  predicate Chained(c: Crypto, key: nat, nodes: seq<PubKey>, es: seq<PubKey>) {
    && |es| == |nodes|
    && (nodes != [] ==> es[0] == c.pub(key))
    && forall i :: 0 < i < |nodes| ==> es[i] == c.next(nodes[i - 1], es[i - 1])
  }

  /** What our i-th node is told: the next node; or, last before a destination, where to switch across; or nothing. */
  function Told(nodes: seq<PubKey>, to: Option<Path>, i: nat): seq<byte>
    requires i < |nodes|
  {
    if i + 1 < |nodes| then [4, 33] + nodes[i + 1].Compressed()
    else if to.Some? then [4, 33] + to.value.firstNodeID.Compressed() + [8, 33] + to.value.blindingPoint.Compressed()
    else []
  }

  /** The layer is for this id and holds this payload, its final payloads in the given order. */
  predicate Holds(l: Layer, id: PubKey, p: Payload, finals: seq<Record>) {
    SizedParts(p) && Sized(finals) && l == Layer(id, PayloadSpelled(p, finals))
  }

  /** A layer without reply path and final payloads, unless it is the last one and not on a direct route. */
  predicate HoldsBlob(r: Request, finals: seq<Record>, l: Layer, id: PubKey, blob: seq<byte>, carries: bool) {
    if carries then Holds(l, id, Payload(r.replyPath, blob, finals), finals)
    else Holds(l, id, Payload(None, blob, []), [])
  }

  /**
   * Our nodes get what they are told, sealed to them under their ephemerals, and the destination's own
   * hops follow. The last layer alone carries the reply path and the final payloads, if we blind any hop.
   */
  predicate Laid(c: Crypto, r: Request, es: seq<PubKey>, finals: seq<Record>, layers: seq<Layer>)
    requires r.hops != []
  {
    var nodes, to := OurNodes(r), r.blindedDestination;
    var n := |nodes|;
    && |es| == n && |layers| == n + (if to.Some? then |to.value.hops| else 0)
    && (forall i :: 0 <= i < n ==>
          HoldsBlob(r, finals, layers[i], c.blind(nodes[i], es[i]), c.seal(nodes[i], es[i], Told(nodes, to, i)),
                    i == |layers| - 1))
    && (forall i :: n <= i < |layers| ==>
          HoldsBlob(r, finals, layers[i], to.value.hops[i - n].blindedNodeID, to.value.hops[i - n].encryptedData,
                    n > 0 && i == |layers| - 1))
  }

  lemma {:induction false} LayersAre(ids: seq<PubKey>, ps: seq<Payload>, layers: seq<Layer>)
    requires |ids| == |ps| == |layers| <= 27 && SizedPayloads(ps)
    requires forall i :: 0 <= i < |ids| ==> ps[i] in ps && EncodeLayer(ids[i], ps[i]) == Ok(layers[i])
    ensures EncodeLayers(ids, ps) == Ok(layers)
  {
    hide EncodeLayer, PayloadRecords;
    if ids != [] {
      var n := |ids| - 1;
      assert forall i :: 0 <= i < n ==> ps[..n][i] in ps[..n];
      LayersAre(ids[..n], ps[..n], layers[..n]);
      assert layers == layers[..n] + [layers[n]];
    } else {
      assert layers == [];
    }
  }

  lemma LayerIs(id: PubKey, p: Payload, finals: seq<Record>)
    requires Sized(PayloadRecords(p)) && Holdable(p)
    requires Ascending(finals) && forall r :: r in finals <==> r in p.finals
    ensures SizedParts(p) && Sized(finals)
    ensures EncodeLayer(id, p) == Ok(Layer(id, PayloadSpelled(p, finals)))
  {
    hide EncodePayload, PayloadSpelled, PathSpelled;
    RecordsSized(p);
    PayloadIsSpelled(p, finals);
  }

  lemma RecordsSized(p: Payload)
    requires Sized(PayloadRecords(p)) && Holdable(p)
    ensures SizedParts(p)
  {
    hide PathSpelled, PathBytes;
    if p.replyPath.Some? {
      PathIsSpelled(p.replyPath.value);
      assert PathRecord(p.replyPath)[0] in PayloadRecords(p);
    }
    if p.encryptedData != [] {
      assert Record(4, p.encryptedData) == DataRecord(p.encryptedData)[0];
      assert Record(4, p.encryptedData) in PayloadRecords(p);
    }
    forall f | f in p.finals ensures |f.value| <= MAX_UINT64 {
      assert f in PayloadRecords(p);
    }
  }

  function Ephemerals(c: Crypto, key: nat, nodes: seq<PubKey>): (es: seq<PubKey>)
    ensures |es| == |nodes|
  {
    seq(|nodes|, i requires 0 <= i < |nodes| => Ephemeral(c, c.pub(key), nodes, i))
  }

  lemma EphemeralsChain(c: Crypto, key: nat, nodes: seq<PubKey>)
    ensures Chained(c, key, nodes, Ephemerals(c, key, nodes))
  {
  }

  /** The i-th hop of our own path. */
  lemma OurHop(c: Crypto, r: Request, i: nat)
    requires Sound(c) && RequestKeys(c.curve, r) && Validate(r).Ok? && i < |ClearHops(r)|
    ensures ClearHops(r) == OurNodes(r)
    ensures var e := Ephemerals(c, r.blindingKey.value, OurNodes(r))[i];
            && OurPath(c, r).blindedHops[i] == c.blind(OurNodes(r)[i], e)
            && OurPath(c, r).encryptedData[i] == c.seal(OurNodes(r)[i], e, Told(OurNodes(r), r.blindedDestination, i))
  {
    hide Ephemeral, Told, HopPayload, Sound;
    var nodes := ClearHops(r);
    ToldIs(c.curve, nodes, r.blindedDestination, i);
    var hops := PathToBlind(c.curve, nodes, StartOf(r));
    assert Nodes(hops) == nodes;
    assert hops[i] == PathHop(nodes[i], HopPayload(c.curve, nodes, StartOf(r), i));
  }

  lemma ToldIs(curve: Curve, nodes: seq<PubKey>, to: Option<Path>, i: nat)
    requires i < |nodes| && ValidKeys(curve, nodes) && (to.Some? ==> ValidPath(curve, to.value))
    ensures var start := if to.None? then None else Some(BlindedStart(to.value.firstNodeID, to.value.blindingPoint));
            ValidStart(curve, start) && HopPayload(curve, nodes, start, i) == Told(nodes, to, i)
  {
    hide RouteData.EncodeData;
    if i + 1 < |nodes| {
      RouteDataIsSpelled(curve, RouteData.BlindedRouteData(Some(nodes[i + 1]), None));
    } else if to.Some? {
      RouteDataIsSpelled(curve, RouteData.BlindedRouteData(Some(to.value.firstNodeID), Some(to.value.blindingPoint)));
    }
  }

  /** The layers of a list of ids and payloads that can all be written. */
  function Written(ids: seq<PubKey>, ps: seq<Payload>, finals: seq<Record>): (ls: seq<Layer>)
    requires |ids| == |ps| && forall p :: p in ps ==> SizedParts(p)
    requires Sized(finals)
    ensures |ls| == |ids|
  {
    seq(|ids|, i requires 0 <= i < |ids| =>
      assert ps[i] in ps; Layer(ids[i], PayloadSpelled(ps[i], if ps[i].finals == [] then [] else finals)))
  }

  /** Every payload but the last is bare, and the last holds what the request gives it. */
  lemma LayersWritten(ids: seq<PubKey>, blobs: seq<seq<byte>>, replyPath: Option<Path>, payloads: seq<Record>,
                      finals: seq<Record>)
    requires |ids| == |blobs| <= 27 && SizedPayloads(HopPayloads(blobs, replyPath, payloads))
    requires Holdable(Payload(replyPath, [], payloads))
    requires Ascending(finals) && forall f :: f in finals <==> f in payloads
    ensures var ps := HopPayloads(blobs, replyPath, payloads);
            && (forall p :: p in ps ==> SizedParts(p)) && (ids != [] ==> Sized(finals))
            && (Sized(finals) ==> EncodeLayers(ids, ps) == Ok(Written(ids, ps, finals)))
  {
    hide EncodeLayers, EncodeLayer, PayloadRecords, PayloadSpelled, SizedParts;
    var ps := HopPayloads(blobs, replyPath, payloads);
    forall i | 0 <= i < |ps|
      ensures ps[i] in ps && SizedParts(ps[i]) && Sized(if ps[i].finals == [] then [] else finals)
      ensures EncodeLayer(ids[i], ps[i])
              == Ok(Layer(ids[i], PayloadSpelled(ps[i], if ps[i].finals == [] then [] else finals)))
    {
      assert ps[i] in ps;
      HopPayloadAt(blobs, replyPath, payloads, i);
      NoneOrdered(payloads, finals);
      LayerIs(ids[i], ps[i], if ps[i].finals == [] then [] else finals);
    }
    if ids != [] {
      var n := |ids| - 1;
      HopPayloadAt(blobs, replyPath, payloads, n);
      NoneOrdered(payloads, finals);
    }
    if Sized(finals) {
      LayersAre(ids, ps, Written(ids, ps, finals));
    }
  }

  lemma NoneOrdered(payloads: seq<Record>, finals: seq<Record>)
    requires forall f :: f in finals <==> f in payloads
    ensures payloads == [] <==> finals == []
  {
    if finals != [] {
      assert finals[0] in payloads;
    }
    if payloads != [] {
      assert payloads[0] in finals;
    }
  }

  lemma WrittenAt(ids: seq<PubKey>, blobs: seq<seq<byte>>, replyPath: Option<Path>, payloads: seq<Record>,
                  finals: seq<Record>, i: nat)
    requires |ids| == |blobs| && i < |ids| && Sized(finals)
    requires forall p :: p in HopPayloads(blobs, replyPath, payloads) ==> SizedParts(p)
    requires forall f :: f in finals <==> f in payloads
    ensures Written(ids, HopPayloads(blobs, replyPath, payloads), finals)[i].node == ids[i]
    ensures var l := Written(ids, HopPayloads(blobs, replyPath, payloads), finals)[i];
            if i == |ids| - 1 then Holds(l, ids[i], Payload(replyPath, blobs[i], finals), finals)
            else Holds(l, ids[i], Payload(None, blobs[i], []), [])
  {
    hide Entries, Entry, PathSpelled;
    var ps := HopPayloads(blobs, replyPath, payloads);
    assert ps[i] in ps;
    HopPayloadAt(blobs, replyPath, payloads, i);
    NoneOrdered(payloads, finals);
  }

  function RouteIds(c: Crypto, r: Request): seq<PubKey>
    requires RequestKeys(c.curve, r) && Validate(r).Ok? && ClearHops(r) != []
  {
    OurPath(c, r).blindedHops + HopIDs(ExtraHops(r))
  }

  function RouteBlobs(c: Crypto, r: Request): (blobs: seq<seq<byte>>)
    requires RequestKeys(c.curve, r) && Validate(r).Ok? && ClearHops(r) != []
    ensures |blobs| == |RouteIds(c, r)| == |ClearHops(r)| + |ExtraHops(r)|
  {
    OurPath(c, r).encryptedData + HopBlobs(ExtraHops(r))
  }

  /** The id and the data of the i-th layer: one of ours, or one of the destination's. */
  predicate Placed(c: Crypto, r: Request, es: seq<PubKey>, i: nat, id: PubKey, blob: seq<byte>)
    requires r.hops != [] && |es| == |OurNodes(r)|
  {
    var nodes, to := OurNodes(r), r.blindedDestination;
    if i < |nodes| then
      id == c.blind(nodes[i], es[i]) && blob == c.seal(nodes[i], es[i], Told(nodes, to, i))
    else
      && to.Some? && i - |nodes| < |to.value.hops|
      && id == to.value.hops[i - |nodes|].blindedNodeID && blob == to.value.hops[i - |nodes|].encryptedData
  }

  lemma PlacedAt(c: Crypto, r: Request, i: nat)
    requires Sound(c) && RequestKeys(c.curve, r) && Validate(r).Ok? && ClearHops(r) != [] && i < |RouteIds(c, r)|
    ensures Placed(c, r, Ephemerals(c, r.blindingKey.value, OurNodes(r)), i, RouteIds(c, r)[i], RouteBlobs(c, r)[i])
  {
    hide OurPath, Ephemerals, Told, Sound, RequestKeys;
    if i < |ClearHops(r)| {
      OurHop(c, r, i);
    }
  }

  lemma LaidBy(c: Crypto, r: Request, es: seq<PubKey>, finals: seq<Record>, layers: seq<Layer>, ids: seq<PubKey>,
               blobs: seq<seq<byte>>)
    requires r.hops != [] && |es| == |OurNodes(r)| > 0 && |ids| == |blobs| == |layers| == LayerCount(r)
    requires forall i :: 0 <= i < |ids| ==> Placed(c, r, es, i, ids[i], blobs[i])
    requires forall i :: 0 <= i < |ids| ==> HoldsBlob(r, finals, layers[i], ids[i], blobs[i], i == |layers| - 1)
    ensures Laid(c, r, es, finals, layers)
  {
    hide HoldsBlob, Told;
  }

  /** The layers of a route with hops to blind, if its packet has slots for them. */
  lemma JoinedIsLaid(c: Crypto, r: Request, finals: seq<Record>) returns (es: seq<PubKey>, layers: seq<Layer>)
    requires Sound(c) && RequestKeys(c.curve, r) && RequestSized(r) && Given(r) && OurNodes(r) != []
    requires LayerCount(r) <= 27 && LastWritable(r)
    requires Ascending(finals) && forall f :: f in finals <==> f in r.finalPayloads
    ensures Chained(c, r.blindingKey.value, OurNodes(r), es) && Laid(c, r, es, finals, layers)
    ensures JoinedRoute(c, r)
            == if c.room(layers) then Ok(Response(r.hops[0], c.pub(r.blindingKey.value), Onion(layers)))
               else Err(NoRoom)
  {
    hide EncodeLayers, HopPayloads, OurPath, Ephemerals, Chained, Placed, Holds, RequestKeys, Sound, Written, Laid,
         RequestSized;
    RouteSized(c, r);
    EphemeralsChain(c, r.blindingKey.value, OurNodes(r));
    es := Ephemerals(c, r.blindingKey.value, OurNodes(r));
    var ids, blobs := RouteIds(c, r), RouteBlobs(c, r);
    LayersWritten(ids, blobs, r.replyPath, r.finalPayloads, finals);
    layers := Written(ids, HopPayloads(blobs, r.replyPath, r.finalPayloads), finals);
    forall i | 0 <= i < |layers|
      ensures HoldsBlob(r, finals, layers[i], ids[i], blobs[i], i == |layers| - 1)
      ensures Placed(c, r, es, i, ids[i], blobs[i])
    {
      WrittenAt(ids, blobs, r.replyPath, r.finalPayloads, finals, i);
      PlacedAt(c, r, i);
    }
    LaidBy(c, r, es, finals, layers, ids, blobs);
  }

  /** The layers of a route straight to a destination. */
  lemma DirectIsLaid(c: Crypto, r: Request, finals: seq<Record>) returns (layers: seq<Layer>)
    requires RequestSized(r) && Given(r) && OurNodes(r) == [] && 1 <= LayerCount(r) <= 27
    ensures Laid(c, r, [], finals, layers)
    ensures DirectToBlinded(c, r)
            == if c.room(layers) then Ok(Response(r.hops[0], r.blindedDestination.value.blindingPoint, Onion(layers)))
               else Err(NoRoom)
  {
    hide EncodeLayers, HopPayloads, Holds, Written;
    var hops := r.blindedDestination.value.hops;
    BlobsSized(HopBlobs(hops), None, []);
    LayersWritten(HopIDs(hops), HopBlobs(hops), None, [], []);
    layers := Written(HopIDs(hops), HopPayloads(HopBlobs(hops), None, []), []);
    forall i | 0 <= i < |layers|
      ensures Holds(layers[i], hops[i].blindedNodeID, Payload(None, hops[i].encryptedData, []), [])
    {
      WrittenAt(HopIDs(hops), HopBlobs(hops), None, [], [], i);
    }
  }

  /**
   * Every route that can be made is the onion of these layers, if the packet has room for it, sent to the
   * first hop under our own ephemeral, or straight to the destination under the one it was given with.
   */
  lemma RouteIsLaid(c: Crypto, r: Request, finals: seq<Record>) returns (es: seq<PubKey>, layers: seq<Layer>)
    requires Sound(c) && RequestKeys(c.curve, r) && RequestSized(r) && Given(r)
    requires 1 <= LayerCount(r) <= 27 && LastWritable(r)
    requires Ascending(finals) && forall f :: f in finals <==> f in r.finalPayloads
    ensures Chained(c, r.blindingKey.value, OurNodes(r), es) && Laid(c, r, es, finals, layers)
    ensures var blinding := if OurNodes(r) == [] then r.blindedDestination.value.blindingPoint
                            else c.pub(r.blindingKey.value);
            CreateRoute(c, r)
            == if c.room(layers) then Ok(Response(r.hops[0], blinding, Onion(layers))) else Err(NoRoom)
  {
    hide JoinedRoute, DirectToBlinded, RequestKeys, Sound, Laid;
    if OurNodes(r) == [] {
      es := [];
      layers := DirectIsLaid(c, r, finals);
    } else {
      es, layers := JoinedIsLaid(c, r, finals);
    }
  }
}
