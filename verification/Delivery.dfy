/**
 * End to end: every route that the sender creates, walked node by node, visits the clear
 * hops and then the hidden ones, and ends by handing the payload to the last of them.
 */
module Delivery {
  import opened Wrappers
  import opened Bytes
  import opened BigSize
  import opened Keys
  import opened ReplyPath
  import opened Tlv
  import opened OnionPayload
  import opened RouteData
  import opened Routes
  import opened Messenger

  // ---------- walking ----------

  datatype Visit = Visit(node: PubKey, blinding: PubKey, outcome: Outcome)

  /** Each node handles the message and the next one gets what it forwards. */
  function Walk(c: Crypto, node: PubKey, blinding: PubKey, onion: Onion): seq<Visit>
    decreases |onion.layers|
  {
    var outcome := Handle(c, node, blinding, onion);
    [Visit(node, blinding, outcome)] +
    if outcome.Forwarded? then Walk(c, outcome.peer, outcome.blinding, outcome.onion) else []
  }

  /** What a node on the route should hold: its ephemeral and its layer's payload. */
  datatype Stop = Stop(node: PubKey, blinding: PubKey, payload: Payload)

  /** Every layer is addressed to its stop under its stop's ephemeral, and decodes there. */
  ghost predicate Addressed(c: Crypto, stops: seq<Stop>, layers: seq<Layer>) {
    && |stops| == |layers|
    && forall i :: 0 <= i < |stops| ==> Opens(c, stops[i], layers[i])
  }

  predicate Opens(c: Crypto, s: Stop, l: Layer) {
    l.node == c.blind(s.node, s.blinding) && DecodePayload(c.curve, l.payload) == Ok(s.payload)
  }

  /** The stop's hidden data sends the message to the next stop, with that stop's ephemeral. */
  predicate Leads(c: Crypto, s: Stop, next: Stop) {
    var data := DecryptBlob(c, s.node, s.blinding, s.payload);
    && s.payload.finals == []
    && data.Ok?
    && data.value.nextNodeID == Some(next.node)
    && NextBlinding(c, s.node, s.blinding, data.value) == next.blinding
  }

  ghost predicate Linked(c: Crypto, stops: seq<Stop>) {
    forall i, j :: 0 <= i < j < |stops| && j == i + 1 ==> Leads(c, stops[i], stops[j])
  }

  /** The visits of a walk along the stops: forwarded at all but the last, which exits. */
  function Visits(stops: seq<Stop>, layers: seq<Layer>): (vs: seq<Visit>)
    requires |stops| == |layers|
    ensures |vs| == |stops|
  {
    seq(|stops|, i requires 0 <= i < |stops| =>
      Visit(stops[i].node, stops[i].blinding,
            if i < |stops| - 1 then Forwarded(stops[i + 1].node, stops[i + 1].blinding, Onion(layers[i + 1..]))
            else Exited(stops[i].payload)))
  }

  lemma VisitIs(stops: seq<Stop>, layers: seq<Layer>, i: nat)
    requires |stops| == |layers| && i < |stops|
    ensures var v := Visits(stops, layers)[i];
            && v.node == stops[i].node && v.blinding == stops[i].blinding
            && v.outcome == (if i + 1 < |stops|
                             then Forwarded(stops[i + 1].node, stops[i + 1].blinding, Onion(layers[i + 1..]))
                             else Exited(stops[i].payload))
  {
  }

  lemma HandleAtStop(c: Crypto, stops: seq<Stop>, layers: seq<Layer>)
    requires stops != [] && Addressed(c, stops, layers) && Linked(c, stops)
    ensures Handle(c, stops[0].node, stops[0].blinding, Onion(layers)) == Visits(stops, layers)[0].outcome
  {
    hide DecryptBlob, DecodePayload, NextBlinding;
    assert Opens(c, stops[0], layers[0]);
    if |stops| > 1 {
      assert Leads(c, stops[0], stops[1]);
    }
  }

  lemma TailStops(c: Crypto, stops: seq<Stop>, layers: seq<Layer>)
    requires |stops| > 1 && Addressed(c, stops, layers) && Linked(c, stops)
    ensures Addressed(c, stops[1..], layers[1..]) && Linked(c, stops[1..])
    ensures Visits(stops, layers) == [Visits(stops, layers)[0]] + Visits(stops[1..], layers[1..])
    ensures Visits(stops, layers)[0]
         == Visit(stops[0].node, stops[0].blinding, Forwarded(stops[1].node, stops[1].blinding, Onion(layers[1..])))
  {
    hide Opens, Leads, Visits;
    var all, rest := Visits(stops, layers), Visits(stops[1..], layers[1..]);
    VisitIs(stops, layers, 0);
    forall i | 1 <= i < |stops| ensures all[i] == rest[i - 1] {
      VisitIs(stops, layers, i);
      VisitIs(stops[1..], layers[1..], i - 1);
      assert layers[1..][i..] == layers[i + 1..];
    }
    assert all == [all[0]] + rest;
  }

  /** A node that holds what its stop says peels its layer, and the next node holds what the next stop says. */
  lemma {:induction false} WalkFollowsStops(c: Crypto, stops: seq<Stop>, layers: seq<Layer>)
    requires stops != [] && Addressed(c, stops, layers) && Linked(c, stops)
    ensures Walk(c, stops[0].node, stops[0].blinding, Onion(layers)) == Visits(stops, layers)
  {
    hide Handle, Visits, Opens, Linked;
    HandleAtStop(c, stops, layers);
    VisitIs(stops, layers, 0);
    if |stops| > 1 {
      TailStops(c, stops, layers);
      WalkFollowsStops(c, stops[1..], layers[1..]);
    }
  }

  // ---------- built paths lead from hop to hop ----------

  /** The ephemeral that a built path gives its i-th hop. */
  function PathEphemeral(c: Crypto, key: nat, hops: seq<PathHop>, i: nat): PubKey
    requires i <= |hops|
  {
    Ephemeral(c, c.pub(key), Nodes(hops), i)
  }

  /** The stop of a built path's i-th hop, when its layer carries no payloads. */
  function HopStop(c: Crypto, key: nat, hops: seq<PathHop>, i: nat, replyPath: Option<Path>, finals: seq<Record>): Stop
    requires i < |hops|
  {
    Stop(hops[i].nodePub, PathEphemeral(c, key, hops, i),
         Payload(replyPath, BuildBlindedPath(c, key, hops).encryptedData[i], finals))
  }

  lemma HopOpensBlob(c: Crypto, key: nat, hops: seq<PathHop>, i: nat, replyPath: Option<Path>, finals: seq<Record>)
    requires Sound(c) && i < |hops| && DecodeData(c.curve, hops[i].payload).Ok?
    ensures var s := HopStop(c, key, hops, i, replyPath, finals);
            DecryptBlob(c, s.node, s.blinding, s.payload) == Ok(DecodeData(c.curve, hops[i].payload).value)
  {
    hide DecodeData, Ephemeral;
    var e := PathEphemeral(c, key, hops, i);
    var blob := BuildBlindedPath(c, key, hops).encryptedData[i];
    assert blob == c.seal(hops[i].nodePub, e, hops[i].payload);
    assert c.open(hops[i].nodePub, e, blob) == Some(hops[i].payload);
  }

  /** A hop whose data names the next hop leads there, under the next ephemeral of the chain. */
  lemma HopLeadsOn(c: Crypto, key: nat, hops: seq<PathHop>, i: nat, next: Payload)
    requires Sound(c) && i + 1 < |hops|
    requires DecodeData(c.curve, hops[i].payload) == Ok(BlindedRouteData(Some(hops[i + 1].nodePub), None))
    ensures Leads(c, HopStop(c, key, hops, i, None, []),
                  Stop(hops[i + 1].nodePub, PathEphemeral(c, key, hops, i + 1), next))
  {
    hide DecodeData, DecryptBlob;
    HopOpensBlob(c, key, hops, i, None, []);
  }

  /** A hop whose data switches the ephemeral out leads across, under the new one. */
  lemma HopLeadsAcross(c: Crypto, key: nat, hops: seq<PathHop>, i: nat, next: Stop)
    requires Sound(c) && i < |hops|
    requires DecodeData(c.curve, hops[i].payload) == Ok(BlindedRouteData(Some(next.node), Some(next.blinding)))
    ensures Leads(c, HopStop(c, key, hops, i, None, []), next)
  {
    hide DecodeData, DecryptBlob;
    HopOpensBlob(c, key, hops, i, None, []);
  }

  /** Each hop but the last is told the next hop's node: all a recipient must do to be reached. */
  ghost predicate Chain(curve: Curve, hops: seq<PathHop>) {
    forall i, j :: 0 <= i < j < |hops| && j == i + 1 ==>
      DecodeData(curve, hops[i].payload) == Ok(BlindedRouteData(Some(hops[j].nodePub), None))
  }

  lemma OurHopData(curve: Curve, path: seq<PubKey>, start: Option<BlindedStart>, i: nat)
    requires ValidKeys(curve, path) && ValidStart(curve, start) && i < |path|
    ensures i + 1 < |path| ==>
              DecodeData(curve, PathToBlind(curve, path, start)[i].payload)
                  == Ok(BlindedRouteData(Some(path[i + 1]), None))
    ensures i + 1 == |path| && start.Some? ==>
              DecodeData(curve, PathToBlind(curve, path, start)[i].payload)
              == Ok(BlindedRouteData(Some(start.value.unblindedID), Some(start.value.blindingPoint)))
  {
    hide DecodeData, EncodeData;
    if i + 1 < |path| {
      RouteDataRoundTrip(curve, BlindedRouteData(Some(path[i + 1]), None));
    } else if start.Some? {
      RouteDataRoundTrip(curve, BlindedRouteData(Some(start.value.unblindedID), Some(start.value.blindingPoint)));
    }
  }

  // ---------- the layers of a route open at its stops ----------

  /** A blinded route as its recipient built it. */
  datatype Hidden = Hidden(key: nat, hops: seq<PathHop>)

  /** The reply path that advertises a built path. */
  function Advertise(c: Crypto, h: Hidden): Path
    requires h.hops != []
  {
    var bp := BuildBlindedPath(c, h.key, h.hops);
    Path(bp.introductionPoint, bp.blindingPoint,
         seq(|h.hops|, i requires 0 <= i < |h.hops| => BlindedHop(bp.blindedHops[i], bp.encryptedData[i])))
  }

  ghost predicate Reachable(c: Crypto, h: Hidden) {
    h.hops != [] && Chain(c.curve, h.hops)
  }

  /** The payload of a layer decodes to itself, with those final payloads that decoding keeps, in order. */
  lemma LayerDecodes(curve: Curve, id: PubKey, p: Payload)
    requires ValidPayload(curve, p) && (p.replyPath.Some? ==> Fits(p.replyPath.value)) && EncodeLayer(id, p).Ok?
    ensures DecodePayload(curve, EncodeLayer(id, p).value.payload) == Ok(p.(finals := Finals(SortRecords(p.finals))))
  {
    hide EncodePayload, DecodePayload, PayloadRecords;
    DecodeOfEncode(curve, p);
  }

  lemma {:induction false} EncodeLayersAt(ids: seq<PubKey>, ps: seq<Payload>, i: nat)
    requires |ids| == |ps| && SizedPayloads(ps) && i < |ids| && EncodeLayers(ids, ps).Ok?
    ensures EncodeLayer(ids[i], ps[i]) == Ok(EncodeLayers(ids, ps).value[i])
  {
    hide EncodeLayer, PayloadRecords;
    var n := |ids| - 1;
    if i < n {
      EncodeLayersAt(ids[..n], ps[..n], i);
    }
  }

  /** Types that do not rest on how unknown even ones are treated, and a reply path made of points. */
  predicate Plain(curve: Curve, replyPath: Option<Path>, finals: seq<Record>) {
    PlainTypes(finals) && (replyPath.Some? ==> ValidPath(curve, replyPath.value))
  }

  predicate PathFits(replyPath: Option<Path>) {
    replyPath.Some? ==> Fits(replyPath.value)
  }

  /** A stop for each hop of the route, as its node will see it. */
  function LayerStop(node: PubKey, blinding: PubKey, p: Payload): Stop {
    Stop(node, blinding, p.(finals := Finals(SortRecords(p.finals))))
  }

  lemma LayersOpen(c: Crypto, ids: seq<PubKey>, ps: seq<Payload>, stops: seq<Stop>)
    requires |ids| == |ps| == |stops| && SizedPayloads(ps) && EncodeLayers(ids, ps).Ok?
    requires forall i :: 0 <= i < |ps| ==> Plain(c.curve, ps[i].replyPath, ps[i].finals) && PathFits(ps[i].replyPath)
    requires forall i :: 0 <= i < |ps| ==>
               ids[i] == c.blind(stops[i].node, stops[i].blinding)
                   && stops[i] == LayerStop(stops[i].node, stops[i].blinding, ps[i])
    ensures Addressed(c, stops, EncodeLayers(ids, ps).value)
  {
    hide EncodeLayers, DecodePayload, EncodePayload, PayloadRecords, SortRecords;
    var layers := EncodeLayers(ids, ps).value;
    forall i | 0 <= i < |stops| ensures Opens(c, stops[i], layers[i]) {
      assert ps[i] in ps;
      EncodeLayersAt(ids, ps, i);
      LayerDecodes(c.curve, ids[i], ps[i]);
    }
  }

  // ---------- the stops of a created route ----------

  /** The request's blinded destination, if any, is one its recipient built. */
  ghost predicate Destined(c: Crypto, r: Request, hidden: Option<Hidden>) {
    match hidden
    case None => r.blindedDestination.None?
    case Some(h) => Reachable(c, h) && r.blindedDestination == Some(Advertise(c, h))
  }

  function HiddenHops(hidden: Option<Hidden>): seq<PathHop> {
    if hidden.None? then [] else hidden.value.hops
  }

  /** What a sender must pass for the message to be creatable and walked. */
  ghost predicate Sendable(c: Crypto, r: Request, hidden: Option<Hidden>) {
    && Sound(c) && RequestKeys(c.curve, r) && RequestSized(r)
    && Destined(c, r, hidden)
    && Plain(c.curve, r.replyPath, r.finalPayloads)
  }

  function OurHops(c: Crypto, r: Request): (hops: seq<PathHop>)
    requires RequestKeys(c.curve, r) && r.hops != []
    ensures |hops| == |ClearHops(r)|
  {
    PathToBlind(c.curve, ClearHops(r), StartOf(r))
  }

  /** Every node of the route in order, clear hops first. */
  function RouteNodes(r: Request, hidden: Option<Hidden>): seq<PubKey>
    requires r.hops != []
  {
    ClearHops(r) + Nodes(HiddenHops(hidden))
  }

  /** The ephemeral that each node's id and data were blinded with. */
  function RouteEphemeral(c: Crypto, r: Request, hidden: Option<Hidden>, i: nat): PubKey
    requires Validate(r).Ok? && i < |RouteNodes(r, hidden)|
  {
    var n := |ClearHops(r)|;
    if i < n then Ephemeral(c, c.pub(r.blindingKey.value), ClearHops(r), i)
    else Ephemeral(c, c.pub(hidden.value.key), Nodes(HiddenHops(hidden)), i - n)
  }

  function RouteStops(c: Crypto, r: Request, hidden: Option<Hidden>, ps: seq<Payload>): (stops: seq<Stop>)
    requires Validate(r).Ok? && |ps| == |RouteNodes(r, hidden)|
    ensures |stops| == |ps|
  {
    seq(|ps|, i requires 0 <= i < |ps| => LayerStop(RouteNodes(r, hidden)[i], RouteEphemeral(c, r, hidden, i), ps[i]))
  }

  lemma OurNodes(c: Crypto, r: Request)
    requires RequestKeys(c.curve, r) && r.hops != []
    ensures Nodes(OurHops(c, r)) == ClearHops(r)
  {
    hide HopPayload;
  }

  /** The ids and blobs of the route are those its stops were blinded with. */
  lemma RouteParts(c: Crypto, r: Request, hidden: Option<Hidden>, i: nat)
    requires Sendable(c, r, hidden) && Validate(r).Ok? && ClearHops(r) != [] && i < |RouteNodes(r, hidden)|
    ensures |RoutePayloads(c, r)| == |RouteNodes(r, hidden)| == |OurPath(c, r).blindedHops + HopIDs(ExtraHops(r))|
    ensures (OurPath(c, r).blindedHops + HopIDs(ExtraHops(r)))[i]
            == c.blind(RouteNodes(r, hidden)[i], RouteEphemeral(c, r, hidden, i))
    ensures (OurPath(c, r).encryptedData + HopBlobs(ExtraHops(r)))[i] ==
            if i < |ClearHops(r)| then BuildBlindedPath(c, r.blindingKey.value, OurHops(c, r)).encryptedData[i]
            else BuildBlindedPath(c, hidden.value.key, HiddenHops(hidden)).encryptedData[i - |ClearHops(r)|]
  {
    hide HopPayload, Ephemeral, Chain, Plain, RequestSized;
    OurNodes(c, r);
  }

  /** A stop on our own path is that of a built path's hop. */
  lemma OurStop(c: Crypto, r: Request, hidden: Option<Hidden>, i: nat)
    requires Sendable(c, r, hidden) && Validate(r).Ok? && i < |ClearHops(r)| && i + 1 < |RouteNodes(r, hidden)|
    ensures |RoutePayloads(c, r)| == |RouteNodes(r, hidden)|
    ensures RouteStops(c, r, hidden, RoutePayloads(c, r))[i]
            == HopStop(c, r.blindingKey.value, OurHops(c, r), i, None, [])
  {
    hide HopPayload, PathToBlind, BuildBlindedPath, RequestSized, Destined, Ephemeral;
    OurNodes(c, r);
    RouteParts(c, r, hidden, i);
    assert Nodes(OurHops(c, r))[i] == OurHops(c, r)[i].nodePub;
  }

  lemma ClearLinked(c: Crypto, r: Request, hidden: Option<Hidden>, i: nat)
    requires Sendable(c, r, hidden) && Validate(r).Ok? && i + 1 < |ClearHops(r)|
    ensures |RoutePayloads(c, r)| == |RouteNodes(r, hidden)|
    ensures var stops := RouteStops(c, r, hidden, RoutePayloads(c, r)); Leads(c, stops[i], stops[i + 1])
  {
    hide DecodeData, Leads, HopPayload, PathToBlind, HopStop, RequestSized, RoutePayloads, Destined, Ephemeral;
    var hops := OurHops(c, r);
    OurStop(c, r, hidden, i);
    OurNodes(c, r);
    OurHopData(c.curve, ClearHops(r), StartOf(r), i);
    assert Nodes(hops)[i + 1] == hops[i + 1].nodePub;
    HopLeadsOn(c, r.blindingKey.value, hops, i, RouteStops(c, r, hidden, RoutePayloads(c, r))[i + 1].payload);
  }

  lemma AcrossLinked(c: Crypto, r: Request, hidden: Option<Hidden>, i: nat)
    requires Sendable(c, r, hidden) && Validate(r).Ok? && i + 1 == |ClearHops(r)| < |RouteNodes(r, hidden)|
    ensures |RoutePayloads(c, r)| == |RouteNodes(r, hidden)|
    ensures var stops := RouteStops(c, r, hidden, RoutePayloads(c, r)); Leads(c, stops[i], stops[i + 1])
  {
    hide DecodeData, Leads, HopPayload, PathToBlind, HopStop, RequestSized, RoutePayloads, Chain, Advertise;
    OurStop(c, r, hidden, i);
    OurHopData(c.curve, ClearHops(r), StartOf(r), i);
    IntroductionIsFirst(c, hidden.value);
    HopLeadsAcross(c, r.blindingKey.value, OurHops(c, r), i, RouteStops(c, r, hidden, RoutePayloads(c, r))[i + 1]);
  }

  lemma HiddenLinked(c: Crypto, r: Request, hidden: Option<Hidden>, i: nat)
    requires Sendable(c, r, hidden) && Validate(r).Ok? && ClearHops(r) != []
    requires |ClearHops(r)| <= i && i + 1 < |RouteNodes(r, hidden)|
    ensures |RoutePayloads(c, r)| == |RouteNodes(r, hidden)|
    ensures var stops := RouteStops(c, r, hidden, RoutePayloads(c, r)); Leads(c, stops[i], stops[i + 1])
  {
    hide DecodeData, Leads, HopPayload, PathToBlind, BuildBlindedPath, RequestSized, RequestKeys, Ephemeral, Advertise,
         Plain, Sound;
    var h, k := hidden.value, i - |ClearHops(r)|;
    RouteParts(c, r, hidden, i);
    var stops := RouteStops(c, r, hidden, RoutePayloads(c, r));
    assert stops[i] == HopStop(c, h.key, h.hops, k, None, []);
    HopLeadsOn(c, h.key, h.hops, k, stops[i + 1].payload);
  }

  /** Every stop of the route but the last leads to the next, across the switch-out too. */
  lemma RouteLinked(c: Crypto, r: Request, hidden: Option<Hidden>, ps: seq<Payload>, i: nat)
    requires Sendable(c, r, hidden) && Validate(r).Ok? && ClearHops(r) != [] && i + 1 < |RouteNodes(r, hidden)|
    requires ps == RoutePayloads(c, r) && |ps| == |RouteNodes(r, hidden)|
    ensures Leads(c, RouteStops(c, r, hidden, ps)[i], RouteStops(c, r, hidden, ps)[i + 1])
  {
    hide Leads, RouteStops, RoutePayloads, Sendable;
    if i + 1 < |ClearHops(r)| {
      ClearLinked(c, r, hidden, i);
    } else if i + 1 == |ClearHops(r)| {
      AcrossLinked(c, r, hidden, i);
    } else {
      HiddenLinked(c, r, hidden, i);
    }
  }

  lemma IntroductionIsFirst(c: Crypto, h: Hidden)
    requires h.hops != []
    ensures Advertise(c, h).firstNodeID == h.hops[0].nodePub
    ensures Advertise(c, h).blindingPoint == PathEphemeral(c, h.key, h.hops, 0)
  {
  }

  // ---------- delivery ----------

  /** The message goes from one visit to the next, with the ephemeral the next one holds. */
  predicate PassesOn(v: Visit, w: Visit) {
    v.outcome.Forwarded? && v.outcome.peer == w.node && v.outcome.blinding == w.blinding
  }

  /**
   * The walk visits these nodes in this order, each forwarding to the next, and the last
   * takes the exit with this reply path and these final payloads.
   */
  ghost predicate Delivers(walk: seq<Visit>, nodes: seq<PubKey>, replyPath: Option<Path>, finals: seq<Record>) {
    && |walk| == |nodes| > 0
    && (forall i :: 0 <= i < |nodes| ==> walk[i].node == nodes[i])
    && (forall i, j :: 0 <= i < j < |walk| && j == i + 1 ==> PassesOn(walk[i], walk[j]))
    && walk[|walk| - 1].outcome.Exited?
    && walk[|walk| - 1].outcome.payload.replyPath == replyPath
    && walk[|walk| - 1].outcome.payload.finals == finals
  }

  /** Every node held the ephemeral that its id and data were blinded with. */
  predicate HeldEphemerals(c: Crypto, walk: seq<Visit>, r: Request, hidden: Option<Hidden>)
    requires Validate(r).Ok?
  {
    && |walk| == |RouteNodes(r, hidden)|
    && forall i :: 0 <= i < |walk| ==> walk[i].blinding == RouteEphemeral(c, r, hidden, i)
  }

  /** What creating a joined route comes to. */
  lemma JoinedParts(c: Crypto, r: Request)
    requires Sound(c) && RequestKeys(c.curve, r) && RequestSized(r) && CreateRoute(c, r).Ok? && ClearHops(r) != []
    ensures SizedPayloads(RoutePayloads(c, r))
    ensures var layers := EncodeLayers(OurPath(c, r).blindedHops + HopIDs(ExtraHops(r)), RoutePayloads(c, r));
            layers.Ok? && CreateRoute(c, r).value
                == Response(r.hops[0], c.pub(r.blindingKey.value), Onion(layers.value))
  {
    hide EncodeLayers, BuildBlindedPath, PathToBlind, HopPayloads;
    RouteSized(c, r);
  }

  lemma RouteAddressed(c: Crypto, r: Request, hidden: Option<Hidden>, layers: seq<Layer>)
    requires Sendable(c, r, hidden) && Validate(r).Ok? && ClearHops(r) != [] && SizedPayloads(RoutePayloads(c, r))
    requires EncodeLayers(OurPath(c, r).blindedHops + HopIDs(ExtraHops(r)), RoutePayloads(c, r)) == Ok(layers)
    requires PathFits(r.replyPath)
    ensures |RoutePayloads(c, r)| == |RouteNodes(r, hidden)|
    ensures Addressed(c, RouteStops(c, r, hidden, RoutePayloads(c, r)), layers)
  {
    hide EncodeLayers, PathToBlind, BuildBlindedPath, RequestSized, RequestKeys, SortRecords, Chain, RouteEphemeral,
         SizedPayloads, Sound;
    RouteParts(c, r, hidden, 0);
    var ids, ps := OurPath(c, r).blindedHops + HopIDs(ExtraHops(r)), RoutePayloads(c, r);
    var stops := RouteStops(c, r, hidden, ps);
    forall i | 0 <= i < |stops| ensures ids[i] == c.blind(stops[i].node, stops[i].blinding) {
      RouteParts(c, r, hidden, i);
    }
    LayersOpen(c, ids, ps, stops);
  }

  /** A walk along the stops delivers what the last stop holds. */
  lemma VisitsDeliver(stops: seq<Stop>, layers: seq<Layer>, nodes: seq<PubKey>)
    requires |stops| == |layers| == |nodes| > 0
    requires forall i :: 0 <= i < |stops| ==> stops[i].node == nodes[i]
    ensures var last := stops[|stops| - 1].payload; Delivers(Visits(stops, layers), nodes, last.replyPath, last.finals)
  {
    hide Visits;
    var walk := Visits(stops, layers);
    forall i | 0 <= i < |nodes| ensures walk[i].node == nodes[i] {
      VisitIs(stops, layers, i);
    }
    forall i, j | 0 <= i < j < |walk| && j == i + 1 ensures PassesOn(walk[i], walk[j]) {
      VisitIs(stops, layers, i);
      VisitIs(stops, layers, j);
    }
    VisitIs(stops, layers, |stops| - 1);
  }

  /**
   * Every route created with hops to blind is delivered: the clear hops and then the hidden
   * ones are visited in order, the switch of ephemerals between them included, and the last
   * node gets the request's reply path and, in order of type, those of its final payloads that
   * are not empty under an unknown type. The reply path must fit its counts.
   */
  lemma EndToEnd(c: Crypto, r: Request, hidden: Option<Hidden>)
    requires Sendable(c, r, hidden) && PathFits(r.replyPath) && CreateRoute(c, r).Ok? && ClearHops(r) != []
    ensures var resp := CreateRoute(c, r).value;
            var walk := Walk(c, resp.firstNode, resp.blindingPoint, resp.onion);
            && Delivers(walk, RouteNodes(r, hidden), r.replyPath, Finals(SortRecords(r.finalPayloads)))
            && HeldEphemerals(c, walk, r, hidden)
  {
    hide Walk, EncodeLayers, HopPayloads, OurPath, CreateRoute, Delivers, HeldEphemerals, Visits, RequestKeys,
         RequestSized, Plain, Destined, Sound, RouteNodes, RouteStops;
    CreatedIsValid(c, r);
    JoinedParts(c, r);
    var layers := CreateRoute(c, r).value.onion.layers;
    JoinedWalk(c, r, hidden, layers);
    JoinedDelivers(c, r, hidden, layers);
    StopsHeld(c, r, hidden, RoutePayloads(c, r), layers);
  }

  lemma CreatedIsValid(c: Crypto, r: Request)
    requires Sound(c) && RequestKeys(c.curve, r) && RequestSized(r) && CreateRoute(c, r).Ok?
    ensures Validate(r).Ok?
  {
    hide RequestKeys, RequestSized, JoinedRoute, DirectToBlinded;
  }

  lemma JoinedDelivers(c: Crypto, r: Request, hidden: Option<Hidden>, layers: seq<Layer>)
    requires Sendable(c, r, hidden) && Validate(r).Ok? && ClearHops(r) != []
    requires |RoutePayloads(c, r)| == |RouteNodes(r, hidden)| == |layers| > 0
    ensures Delivers(Visits(RouteStops(c, r, hidden, RoutePayloads(c, r)), layers), RouteNodes(r, hidden), r.replyPath,
                     Finals(SortRecords(r.finalPayloads)))
  {
    hide HopPayloads, OurPath, Delivers, Visits, RequestKeys, RequestSized, Plain, Destined, Sound, RouteNodes,
         RouteEphemeral;
    VisitsDeliver(RouteStops(c, r, hidden, RoutePayloads(c, r)), layers, RouteNodes(r, hidden));
    LastPayload(c, r);
  }

  lemma JoinedWalk(c: Crypto, r: Request, hidden: Option<Hidden>, layers: seq<Layer>)
    requires Sendable(c, r, hidden) && Validate(r).Ok? && ClearHops(r) != [] && SizedPayloads(RoutePayloads(c, r))
    requires EncodeLayers(OurPath(c, r).blindedHops + HopIDs(ExtraHops(r)), RoutePayloads(c, r)) == Ok(layers)
    requires PathFits(r.replyPath)
    ensures |RoutePayloads(c, r)| == |RouteNodes(r, hidden)| == |layers| > 0
    ensures Walk(c, r.hops[0], c.pub(r.blindingKey.value), Onion(layers))
            == Visits(RouteStops(c, r, hidden, RoutePayloads(c, r)), layers)
  {
    hide Walk, Leads, EncodeLayers, HopPayloads, OurPath, Visits, RequestKeys, RequestSized, Plain, Destined,
         Sound, Opens;
    RouteAddressed(c, r, hidden, layers);
    var stops := RouteStops(c, r, hidden, RoutePayloads(c, r));
    forall i, j | 0 <= i < j < |stops| && j == i + 1 ensures Leads(c, stops[i], stops[j]) {
      RouteLinked(c, r, hidden, RoutePayloads(c, r), i);
    }
    WalkFollowsStops(c, stops, layers);
  }

  lemma LastPayload(c: Crypto, r: Request)
    requires RequestKeys(c.curve, r) && Validate(r).Ok? && ClearHops(r) != []
    ensures var ps := RoutePayloads(c, r);
            ps != [] && ps[|ps| - 1].replyPath == r.replyPath && ps[|ps| - 1].finals == r.finalPayloads
  {
    hide OurPath, RequestKeys;
  }

  lemma StopsHeld(c: Crypto, r: Request, hidden: Option<Hidden>, ps: seq<Payload>, layers: seq<Layer>)
    requires Validate(r).Ok? && |ps| == |RouteNodes(r, hidden)| == |layers|
    ensures HeldEphemerals(c, Visits(RouteStops(c, r, hidden, ps), layers), r, hidden)
  {
    hide RouteEphemeral, RouteNodes, SortRecords;
  }

  /** The stops of a direct route: the destination's blobs and nothing else. */
  function DirectStops(c: Crypto, h: Hidden): (stops: seq<Stop>)
    ensures |stops| == |h.hops|
  {
    seq(|h.hops|, i requires 0 <= i < |h.hops| => HopStop(c, h.key, h.hops, i, None, []))
  }

  lemma DirectParts(c: Crypto, r: Request)
    requires Sound(c) && RequestKeys(c.curve, r) && RequestSized(r) && CreateRoute(c, r).Ok? && ClearHops(r) == []
    ensures var dest := r.blindedDestination.value;
            var ps := HopPayloads(HopBlobs(dest.hops), None, []);
            && SizedPayloads(ps)
            && var layers := EncodeLayers(HopIDs(dest.hops), ps);
               layers.Ok? && CreateRoute(c, r).value
                   == Response(dest.firstNodeID, dest.blindingPoint, Onion(layers.value))
  {
    hide EncodeLayers, HopPayloads;
    BlobsSized(HopBlobs(r.blindedDestination.value.hops), None, []);
  }

  lemma DirectAddressed(c: Crypto, h: Hidden, layers: seq<Layer>)
    requires h.hops != []
    requires var ps := HopPayloads(HopBlobs(Advertise(c, h).hops), None, []);
             SizedPayloads(ps) && EncodeLayers(HopIDs(Advertise(c, h).hops), ps) == Ok(layers)
    ensures Addressed(c, DirectStops(c, h), layers)
  {
    hide EncodeLayers, Ephemeral, SizedPayloads;
    LayersOpen(c, HopIDs(Advertise(c, h).hops), HopPayloads(HopBlobs(Advertise(c, h).hops), None, []),
               DirectStops(c, h));
  }

  /**
   * A route straight to a blinded destination is walked just as well, but delivers neither
   * the reply path nor the final payloads of the request.
   */
  lemma DirectEndToEnd(c: Crypto, r: Request, h: Hidden)
    requires Sendable(c, r, Some(h)) && CreateRoute(c, r).Ok? && ClearHops(r) == []
    ensures var resp := CreateRoute(c, r).value;
            var walk := Walk(c, resp.firstNode, resp.blindingPoint, resp.onion);
            && Delivers(walk, Nodes(h.hops), None, [])
            && HeldEphemerals(c, walk, r, Some(h))
  {
    hide Walk, Leads, EncodeLayers, Ephemeral, Chain, Advertise, Visits, JoinedRoute, DirectToBlinded, Delivers,
         HeldEphemerals, Addressed, RequestKeys, RequestSized, Plain, Sound, DirectStops;
    DirectParts(c, r);
    var layers := CreateRoute(c, r).value.onion.layers;
    var stops := DirectStops(c, h);
    DirectAddressed(c, h, layers);
    forall i, j | 0 <= i < j < |stops| && j == i + 1 ensures Leads(c, stops[i], stops[j]) {
      DirectLinked(c, h, i);
    }
    DirectStopsAt(c, r, h);
    assert |layers| == |stops|;
    WalkFollowsStops(c, stops, layers);
    VisitsDeliver(stops, layers, Nodes(h.hops));
    DirectHeld(c, r, h, layers);
  }

  lemma DirectStopsAt(c: Crypto, r: Request, h: Hidden)
    requires Reachable(c, h) && r.blindedDestination == Some(Advertise(c, h))
    ensures var stops, dest := DirectStops(c, h), r.blindedDestination.value;
            && stops != [] && |HopIDs(dest.hops)| == |stops|
            && stops[0].node == dest.firstNodeID && stops[0].blinding == dest.blindingPoint
            && (forall i :: 0 <= i < |stops| ==>
                stops[i].node == Nodes(h.hops)[i] && stops[i].payload.replyPath.None? && stops[i].payload.finals == [])
  {
    hide Chain;
    IntroductionIsFirst(c, h);
  }

  lemma DirectHeld(c: Crypto, r: Request, h: Hidden, layers: seq<Layer>)
    requires Validate(r).Ok? && ClearHops(r) == [] && |layers| == |h.hops|
    ensures HeldEphemerals(c, Visits(DirectStops(c, h), layers), r, Some(h))
  {
    hide Ephemeral;
    assert ClearHops(r) + Nodes(h.hops) == Nodes(h.hops);
  }

  lemma DirectLinked(c: Crypto, h: Hidden, i: nat)
    requires Sound(c) && Reachable(c, h) && i + 1 < |h.hops|
    ensures Leads(c, DirectStops(c, h)[i], DirectStops(c, h)[i + 1])
  {
    hide DecodeData, Leads;
    HopLeadsOn(c, h.key, h.hops, i, DirectStops(c, h)[i + 1].payload);
  }

  /** Whatever the end of a walk takes has survived decoding. */
  lemma {:induction false} ExitSurvives(c: Crypto, node: PubKey, blinding: PubKey, onion: Onion)
    ensures var walk := Walk(c, node, blinding, onion);
            var last := walk[|walk| - 1].outcome;
            last.Exited? ==> Survives(last.payload)
    decreases |onion.layers|
  {
    hide DecodePayload, DecryptBlob, Survives;
    var out := Handle(c, node, blinding, onion);
    if out.Forwarded? {
      ExitSurvives(c, out.peer, out.blinding, out.onion);
    } else if out.Exited? {
      DecodedSurvives(c.curve, onion.layers[0].payload);
    }
  }

  lemma FinalsKeepAll(finals: seq<Record>)
    ensures Finals(SortRecords(finals)) == SortRecords(finals) <==> forall f :: f in finals ==> Delivered(f)
  {
    hide SortRecords, Finals;
    SortKeeps(finals);
    FinalsElements(SortRecords(finals));
    if forall f :: f in finals ==> Delivered(f) {
      FinalsOfDelivered(SortRecords(finals));
    }
  }

  /** The reply path and the final payloads are such as decoding gives back. */
  predicate Carriable(r: Request) {
    PathFits(r.replyPath) && forall f :: f in r.finalPayloads ==> Delivered(f)
  }

  /**
   * The last node gets what the request carries exactly when there was a hop to blind and all of it
   * survives decoding, or there was nothing to carry.
   */
  lemma RequestArrives(c: Crypto, r: Request, hidden: Option<Hidden>)
    requires Sendable(c, r, hidden) && CreateRoute(c, r).Ok?
    ensures var resp := CreateRoute(c, r).value;
            var walk := Walk(c, resp.firstNode, resp.blindingPoint, resp.onion);
            Delivers(walk, RouteNodes(r, hidden), r.replyPath, SortRecords(r.finalPayloads)) <==>
            (ClearHops(r) != [] && Carriable(r)) || (r.replyPath.None? && r.finalPayloads == [])
  {
    hide Walk, JoinedRoute, DirectToBlinded, RequestKeys, RequestSized, Plain, Sound, HeldEphemerals, ClearHops,
         SortRecords, Finals;
    if ClearHops(r) == [] {
      DirectArrives(c, r, hidden);
    } else if PathFits(r.replyPath) {
      EndToEnd(c, r, hidden);
      FinalsKeepAll(r.finalPayloads);
    } else {
      var resp := CreateRoute(c, r).value;
      ExitSurvives(c, resp.firstNode, resp.blindingPoint, resp.onion);
    }
  }

  lemma DirectArrives(c: Crypto, r: Request, hidden: Option<Hidden>)
    requires Sendable(c, r, hidden) && CreateRoute(c, r).Ok? && ClearHops(r) == []
    ensures var resp := CreateRoute(c, r).value;
            var walk := Walk(c, resp.firstNode, resp.blindingPoint, resp.onion);
            Delivers(walk, RouteNodes(r, hidden), r.replyPath, SortRecords(r.finalPayloads)) <==>
            r.replyPath.None? && r.finalPayloads == []
  {
    hide Walk, JoinedRoute, DirectToBlinded, RequestKeys, RequestSized, Plain, Sound, HeldEphemerals, Delivers,
         ClearHops;
    NoClearHops(r);
    var h, resp := hidden.value, CreateRoute(c, r).value;
    DirectEndToEnd(c, r, h);
    assert RouteNodes(r, hidden) == Nodes(h.hops);
    var walk := Walk(c, resp.firstNode, resp.blindingPoint, resp.onion);
    OneDelivery(walk, Nodes(h.hops), None, [], r.replyPath, SortRecords(r.finalPayloads));
    SortKeeps(r.finalPayloads);
    assert r.finalPayloads != [] ==> r.finalPayloads[0] in SortRecords(r.finalPayloads);
  }

  lemma OneDelivery(walk: seq<Visit>, nodes: seq<PubKey>, path: Option<Path>, finals: seq<Record>,
                    path': Option<Path>, finals': seq<Record>)
    requires Delivers(walk, nodes, path, finals)
    ensures Delivers(walk, nodes, path', finals') <==> path' == path && finals' == finals
  {
  }
}
