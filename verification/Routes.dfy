/**
 * The sender's side of an onion message: clear hops are blinded, joined to a blinded
 * destination if there is one, and wrapped in an onion of one layer per hop.
 */
module Routes {
  import opened Wrappers
  import opened Bytes
  import opened BigSize
  import opened Keys
  import opened ReplyPath
  import opened Tlv
  import opened OnionPayload
  import opened RouteData

  /** A packet is a fixed array of this many hops. */
  const MAX_HOPS: nat := 27

  // ---------- symbolic cryptography ----------

  datatype Layer = Layer(node: PubKey, payload: seq<byte>)

  /** Layers from the outermost in; each is addressed to a blinded node id. */
  datatype Onion = Onion(layers: seq<Layer>)

  /**
   * The operations of the onion library. A node's private key is represented by its public
   * key: `next`, `blind`, `seal` and `open` stand for what both ends of a key exchange
   * between the node's key and an ephemeral key can compute.
   */
  datatype Crypto = Crypto(
    curve: Curve,
    pub: nat -> PubKey,                                     // the point of a private key
    next: (PubKey, PubKey) -> PubKey,                       // the ephemeral after a node's
    blind: (PubKey, PubKey) -> PubKey,                      // a node's id under an ephemeral
    seal: (PubKey, PubKey, seq<byte>) -> seq<byte>,         // data encrypted to a node
    open: (PubKey, PubKey, seq<byte>) -> Option<seq<byte>>, // and decrypted by it
    room: seq<Layer> -> bool                                // a packet can carry the layers
  )

  ghost predicate Sound(c: Crypto) {
    && (forall k :: c.pub(k).Valid(c.curve))
    && (forall n, e :: c.next(n, e).Valid(c.curve))
    && (forall n, e :: c.blind(n, e).Valid(c.curve))
    && (forall n, e, d :: c.open(n, e, c.seal(n, e, d)) == Some(d))
    && (forall n, e, d :: |c.seal(n, e, d)| == |d| + 16)
  }

  predicate ValidKeys(curve: Curve, keys: seq<PubKey>) {
    forall k :: k in keys ==> k.Valid(curve)
  }

  /** The ephemeral key that the i-th node of a route holds, the first holding e. */
  function Ephemeral(c: Crypto, e: PubKey, nodes: seq<PubKey>, i: nat): PubKey
    requires i <= |nodes|
  {
    if i == 0 then e else c.next(nodes[i - 1], Ephemeral(c, e, nodes, i - 1))
  }

  datatype PathHop = PathHop(nodePub: PubKey, payload: seq<byte>)

  datatype BlindedPath = BlindedPath(introductionPoint: PubKey, blindingPoint: PubKey, blindedHops: seq<PubKey>,
                                     encryptedData: seq<seq<byte>>)

  function Nodes(hops: seq<PathHop>): (nodes: seq<PubKey>)
    ensures |nodes| == |hops|
  {
    seq(|hops|, i requires 0 <= i < |hops| => hops[i].nodePub)
  }

  /** The library's blinded path: ids and data blinded under a chain of ephemerals. */
  function BuildBlindedPath(c: Crypto, key: nat, hops: seq<PathHop>): (bp: BlindedPath)
    requires hops != []
    ensures |bp.blindedHops| == |bp.encryptedData| == |hops|
  {
    var e := c.pub(key);
    BlindedPath(
      hops[0].nodePub,
      e,
      seq(|hops|, i requires 0 <= i < |hops| => c.blind(hops[i].nodePub, Ephemeral(c, e, Nodes(hops), i))),
      seq(|hops|, i requires 0 <= i < |hops| =>
        c.seal(hops[i].nodePub, Ephemeral(c, e, Nodes(hops), i), hops[i].payload)))
  }

  // ---------- requests ----------

  datatype RouteError =
    | NoPath
    | SessionKeyRequired
    | BlindingKeyRequired
    | NoIntroductionNode
    | BadPayload(error: TlvError)
    | EmptyRoute
    | NoRoom
    | IndexOutOfRange   // not an error value: the code panics

  datatype Request = Request(
    sessionKey: Option<nat>,
    blindingKey: Option<nat>,
    hops: seq<PubKey>,
    replyPath: Option<Path>,
    blindedDestination: Option<Path>,
    finalPayloads: seq<Record>
  )

  datatype Response = Response(firstNode: PubKey, blindingPoint: PubKey, onion: Onion)

  predicate RequestKeys(curve: Curve, r: Request) {
    && ValidKeys(curve, r.hops)
    && (r.blindedDestination.Some? ==> ValidPath(curve, r.blindedDestination.value))
  }

  /** Lengths fit the integers that carry them, as those of slices do. */
  predicate RequestSized(r: Request) {
    && Sized(r.finalPayloads)
    && Sized(PathRecord(r.replyPath))
    && (r.blindedDestination.Some? ==> forall h :: h in r.blindedDestination.value.hops ==>
        |h.encryptedData| <= MAX_UINT64)
  }

  function ExtraHops(r: Request): seq<BlindedHop> {
    if r.blindedDestination.None? then [] else r.blindedDestination.value.hops
  }

  function Validate(r: Request): Result<(), RouteError> {
    if r.hops == [] then Err(NoPath)
    else if r.sessionKey.None? then Err(SessionKeyRequired)
    else if r.blindingKey.None? then Err(BlindingKeyRequired)
    else if r.blindedDestination.None? then Ok(())
    else if r.hops[|r.hops| - 1] != r.blindedDestination.value.firstNodeID then Err(NoIntroductionNode)
    else Ok(())
  }

  // ---------- the hops to blind ----------

  datatype BlindedStart = BlindedStart(unblindedID: PubKey, blindingPoint: PubKey)

  function StartOf(r: Request): Option<BlindedStart> {
    match r.blindedDestination
    case None => None
    case Some(d) => Some(BlindedStart(d.firstNodeID, d.blindingPoint))
  }

  predicate ValidStart(curve: Curve, start: Option<BlindedStart>) {
    start.Some? ==> start.value.unblindedID.Valid(curve) && start.value.blindingPoint.Valid(curve)
  }

  /** Where a hop is told to forward: the next node, or across to a blinded destination. */
  function HopPayload(curve: Curve, path: seq<PubKey>, start: Option<BlindedStart>, i: nat): seq<byte>
    requires i < |path| && ValidKeys(curve, path) && ValidStart(curve, start)
  {
    if i + 1 < |path| then EncodeData(curve, BlindedRouteData(Some(path[i + 1]), None))
    else if start.Some? then
      EncodeData(curve, BlindedRouteData(Some(start.value.unblindedID), Some(start.value.blindingPoint)))
    else []
  }

  function PathToBlind(curve: Curve, path: seq<PubKey>, start: Option<BlindedStart>): (hops: seq<PathHop>)
    requires ValidKeys(curve, path) && ValidStart(curve, start)
    ensures |hops| == |path|
  {
    seq(|path|, i requires 0 <= i < |path| => PathHop(path[i], HopPayload(curve, path, start, i)))
  }

  method CreatePathToBlind(curve: Curve, path: seq<PubKey>, start: Option<BlindedStart>) returns (hops: array<PathHop>)
    requires path != [] && ValidKeys(curve, path) && ValidStart(curve, start)
    ensures fresh(hops) && hops[..] == PathToBlind(curve, path, start)
  {
    hide EncodeData;
    var hopCount := |path|;
    hops := new PathHop[hopCount](_ => PathHop(path[0], []));
    for i := 1 to hopCount
      invariant forall k :: 0 <= k < i - 1 ==> hops[k] == PathHop(path[k], HopPayload(curve, path, start, k))
      invariant hops[i - 1] == PathHop(path[i - 1], [])
    {
      var data := BlindedRouteData(Some(path[i]), None);
      var payload := EncodeBlindedRouteData(curve, data);
      hops[i - 1] := hops[i - 1].(payload := payload.value);
      hops[i] := PathHop(path[i], []);
    }
    if start.Some? {
      var data := BlindedRouteData(Some(start.value.unblindedID), Some(start.value.blindingPoint));
      var payload := EncodeBlindedRouteData(curve, data);
      hops[hopCount - 1] := hops[hopCount - 1].(payload := payload.value);
    }
  }

  // ---------- layers ----------

  /** Only the last hop of a route gets the reply path and the final payloads. */
  function HopPayloads(blobs: seq<seq<byte>>, replyPath: Option<Path>, finals: seq<Record>): (ps: seq<Payload>)
    ensures |ps| == |blobs|
  {
    seq(|blobs|, i requires 0 <= i < |blobs| =>
      if i == |blobs| - 1 then Payload(replyPath, blobs[i], finals) else Payload(None, blobs[i], []))
  }

  lemma HopPayloadAt(blobs: seq<seq<byte>>, replyPath: Option<Path>, finals: seq<Record>, i: nat)
    requires i < |blobs|
    ensures HopPayloads(blobs, replyPath, finals)[i] ==
            if i == |blobs| - 1 then Payload(replyPath, blobs[i], finals) else Payload(None, blobs[i], [])
  {
  }

  predicate SizedPayloads(ps: seq<Payload>) {
    forall p :: p in ps ==> Sized(PayloadRecords(p))
  }

  function EncodeLayer(id: PubKey, p: Payload): Result<Layer, RouteError>
    requires Sized(PayloadRecords(p))
  {
    match EncodePayload(p)
    case Ok(bytes) => Ok(Layer(id, bytes))
    case Err(e) => Err(BadPayload(e))
  }

  /**
   * One layer per hop, or what stops the first hop that gets none: its payload does not encode,
   * or the packet's array has no slot for it.
   */
  function EncodeLayers(ids: seq<PubKey>, ps: seq<Payload>): (r: Result<seq<Layer>, RouteError>)
    requires |ids| == |ps| && SizedPayloads(ps)
    ensures r.Ok? ==> |r.value| == |ids| <= MAX_HOPS
  {
    if ids == [] then Ok([]) else
    var n := |ids| - 1;
    var front :- EncodeLayers(ids[..n], ps[..n]);
    var last :- EncodeLayer(ids[n], ps[n]);
    if n >= MAX_HOPS then Err(IndexOutOfRange) else Ok(front + [last])
  }

  lemma {:induction false} EncodeLayersFails(ids: seq<PubKey>, ps: seq<Payload>, k: nat)
    requires |ids| == |ps| && SizedPayloads(ps) && k <= |ids|
    requires EncodeLayers(ids[..k], ps[..k]).Err?
    ensures EncodeLayers(ids, ps) == EncodeLayers(ids[..k], ps[..k])
  {
    hide EncodeLayer, PayloadRecords;
    if k < |ids| {
      var n := |ids| - 1;
      assert ids[..n][..k] == ids[..k] && ps[..n][..k] == ps[..k];
      EncodeLayersFails(ids[..n], ps[..n], k);
    } else {
      assert ids[..k] == ids && ps[..k] == ps;
    }
  }

  function HopIDs(hops: seq<BlindedHop>): (ids: seq<PubKey>)
    ensures |ids| == |hops|
  {
    seq(|hops|, i requires 0 <= i < |hops| => hops[i].blindedNodeID)
  }

  function HopBlobs(hops: seq<BlindedHop>): (blobs: seq<seq<byte>>)
    ensures |blobs| == |hops|
  {
    seq(|hops|, i requires 0 <= i < |hops| => hops[i].encryptedData)
  }

  /** A packet's array of hops with these layers in front and the rest unused. */
  function Filled(layers: seq<Layer>): seq<Option<Layer>>
    requires |layers| <= MAX_HOPS
  {
    seq(MAX_HOPS, i requires 0 <= i < MAX_HOPS => if i < |layers| then Some(layers[i]) else None)
  }

  /** Encodes one hop's layer and writes it into its slot, if there is one. */
  method CreateSphinxHop(sphinxPath: array<Option<Layer>>, i: nat, nodeID: PubKey, payload: Payload,
                         ghost ids: seq<PubKey>, ghost ps: seq<Payload>, ghost done: seq<Layer>)
    returns (r: Result<(), RouteError>)
    requires |ids| == |ps| && SizedPayloads(ps) && i < |ids| && sphinxPath.Length == MAX_HOPS
    requires nodeID == ids[i] && payload == ps[i]
    requires EncodeLayers(ids[..i], ps[..i]) == Ok(done) && sphinxPath[..] == Filled(done)
    modifies sphinxPath
    ensures r.Err? ==> EncodeLayers(ids, ps) == Err(r.error)
    ensures r.Ok? ==> EncodeLayers(ids[..i + 1], ps[..i + 1]).Ok?
                      && sphinxPath[..] == Filled(EncodeLayers(ids[..i + 1], ps[..i + 1]).value)
  {
    hide EncodePayload;
    assert ids[..i + 1][..i] == ids[..i] && ps[..i + 1][..i] == ps[..i];
    assert ps[i] in ps;
    var hop := EncodeLayer(nodeID, payload);
    if hop.Err? {
      EncodeLayersFails(ids, ps, i + 1);
      return Err(hop.error);
    }
    if i >= sphinxPath.Length {
      EncodeLayersFails(ids, ps, i + 1);
      return Err(IndexOutOfRange);
    }
    sphinxPath[i] := Some(hop.value);
    assert sphinxPath[..] == Filled(done + [hop.value]);
    return Ok(());
  }

  method BlindedToSphinx(bp: BlindedPath, extraHops: seq<BlindedHop>, replyPath: Option<Path>, finals: seq<Record>)
    returns (sphinxPath: array<Option<Layer>>, r: Result<(), RouteError>)
    requires |bp.blindedHops| == |bp.encryptedData|
    requires SizedPayloads(HopPayloads(bp.encryptedData + HopBlobs(extraHops), replyPath, finals))
    ensures fresh(sphinxPath)
    ensures var layers := EncodeLayers(bp.blindedHops + HopIDs(extraHops),
                                       HopPayloads(bp.encryptedData + HopBlobs(extraHops), replyPath, finals));
            if layers.Err? then r == Err(layers.error) else r.Ok? && sphinxPath[..] == Filled(layers.value)
  {
    hide EncodeLayers, PayloadRecords;
    ghost var ids, ps := bp.blindedHops + HopIDs(extraHops),
        HopPayloads(bp.encryptedData + HopBlobs(extraHops), replyPath, finals);
    var ourHopCount, extraHopCount := |bp.encryptedData|, |extraHops|;
    sphinxPath := new Option<Layer>[MAX_HOPS](_ => None);
    NoLayers(ids, ps);
    ghost var done := [];
    assert sphinxPath[..] == Filled(done);
    hide Filled, HopPayloads;
    for i := 0 to ourHopCount
      invariant EncodeLayers(ids[..i], ps[..i]) == Ok(done) && sphinxPath[..] == Filled(done)
    {
      HopPayloadAt(bp.encryptedData + HopBlobs(extraHops), replyPath, finals, i);
      var payload := Payload(None, bp.encryptedData[i], []);
      if i == ourHopCount - 1 && extraHopCount == 0 {
        payload := payload.(finals := finals, replyPath := replyPath);
      }
      r := CreateSphinxHop(sphinxPath, i, bp.blindedHops[i], payload, ids, ps, done);
      if r.Err? {
        return;
      }
      done := EncodeLayers(ids[..i + 1], ps[..i + 1]).value;
    }
    if extraHopCount == 0 {
      assert ids[..ourHopCount] == ids && ps[..ourHopCount] == ps;
      return sphinxPath, Ok(());
    }
    for i := 0 to extraHopCount
      invariant EncodeLayers(ids[..ourHopCount + i], ps[..ourHopCount + i]) == Ok(done)
          && sphinxPath[..] == Filled(done)
    {
      HopPayloadAt(bp.encryptedData + HopBlobs(extraHops), replyPath, finals, ourHopCount + i);
      var payload := Payload(None, extraHops[i].encryptedData, []);
      if i == extraHopCount - 1 {
        payload := payload.(finals := finals, replyPath := replyPath);
      }
      var sphinxIndex := i + ourHopCount;
      r := CreateSphinxHop(sphinxPath, sphinxIndex, extraHops[i].blindedNodeID, payload, ids, ps, done);
      if r.Err? {
        return;
      }
      done := EncodeLayers(ids[..sphinxIndex + 1], ps[..sphinxIndex + 1]).value;
    }
    assert ids[..ourHopCount + extraHopCount] == ids && ps[..ourHopCount + extraHopCount] == ps;
    return sphinxPath, Ok(());
  }

  lemma NoLayers(ids: seq<PubKey>, ps: seq<Payload>)
    requires |ids| == |ps| && SizedPayloads(ps)
    ensures EncodeLayers(ids[..0], ps[..0]) == Ok([])
  {
  }

  // ---------- whole routes ----------

  /** The leading hops in use; the library wants at least one, and room for all of them. */
  function NewOnionPacket(c: Crypto, layers: seq<Layer>): Result<Onion, RouteError> {
    if layers == [] then Err(EmptyRoute) else if !c.room(layers) then Err(NoRoom) else Ok(Onion(layers))
  }

  function UsedHops(path: seq<Option<Layer>>): seq<Layer> {
    if path == [] || path[0].None? then [] else [path[0].value] + UsedHops(path[1..])
  }

  lemma {:induction false} UsedOfFilled(layers: seq<Layer>, path: seq<Option<Layer>>)
    requires |layers| <= |path|
    requires forall i :: 0 <= i < |path| ==> path[i] == if i < |layers| then Some(layers[i]) else None
    ensures UsedHops(path) == layers
  {
    if layers != [] {
      UsedOfFilled(layers[1..], path[1..]);
    }
  }

  method CreateOnionMessage(c: Crypto, sphinxPath: array<Option<Layer>>) returns (r: Result<Onion, RouteError>)
    ensures r == NewOnionPacket(c, UsedHops(sphinxPath[..]))
  {
    r := NewOnionPacket(c, UsedHops(sphinxPath[..]));
  }

  lemma BlobsSized(blobs: seq<seq<byte>>, replyPath: Option<Path>, finals: seq<Record>)
    requires Sized(finals) && Sized(PathRecord(replyPath)) && forall b :: b in blobs ==> |b| <= MAX_UINT64
    ensures SizedPayloads(HopPayloads(blobs, replyPath, finals))
  {
    hide PathBytes;
  }

  /** Data that encodes a hop seals into a blob of at most 86 bytes. */
  lemma BuiltSized(c: Crypto, key: nat, path: seq<PubKey>, start: Option<BlindedStart>)
    requires Sound(c) && path != [] && ValidKeys(c.curve, path) && ValidStart(c.curve, start)
    ensures forall b :: b in BuildBlindedPath(c, key, PathToBlind(c.curve, path, start)).encryptedData ==> |b| <= 86
  {
    hide EncodeData, Ephemeral;
    var hops := PathToBlind(c.curve, path, start);
    var blobs := BuildBlindedPath(c, key, hops).encryptedData;
    forall i | 0 <= i < |hops| ensures |blobs[i]| <= 86 {
      assert blobs[i] == c.seal(path[i], Ephemeral(c, c.pub(key), Nodes(hops), i), hops[i].payload);
      if i + 1 < |path| {
        EncodedSize(c.curve, BlindedRouteData(Some(path[i + 1]), None));
      } else if start.Some? {
        EncodedSize(c.curve, BlindedRouteData(Some(start.value.unblindedID), Some(start.value.blindingPoint)));
      }
    }
  }

  /** The hops to blind: all of them, or all but the introduction node of a blinded destination. */
  function ClearHops(r: Request): seq<PubKey>
    requires r.hops != []
  {
    if r.blindedDestination.Some? then r.hops[..|r.hops| - 1] else r.hops
  }

  lemma NoClearHops(r: Request)
    requires r.hops != [] && ClearHops(r) == []
    ensures r.blindedDestination.Some?
  {
  }

  /** The ids and payloads of the layers of a route with at least one hop to blind. */
  function OurPath(c: Crypto, r: Request): (bp: BlindedPath)
    requires RequestKeys(c.curve, r) && Validate(r).Ok? && ClearHops(r) != []
    ensures |bp.blindedHops| == |bp.encryptedData| == |ClearHops(r)|
  {
    BuildBlindedPath(c, r.blindingKey.value, PathToBlind(c.curve, ClearHops(r), StartOf(r)))
  }

  function RoutePayloads(c: Crypto, r: Request): (ps: seq<Payload>)
    requires RequestKeys(c.curve, r) && Validate(r).Ok? && ClearHops(r) != []
    ensures |ps| == |ClearHops(r)| + |ExtraHops(r)|
  {
    HopPayloads(OurPath(c, r).encryptedData + HopBlobs(ExtraHops(r)), r.replyPath, r.finalPayloads)
  }

  lemma RouteSized(c: Crypto, r: Request)
    requires Sound(c) && RequestKeys(c.curve, r) && RequestSized(r) && Validate(r).Ok? && ClearHops(r) != []
    ensures SizedPayloads(RoutePayloads(c, r))
  {
    hide HopPayloads, PathRecord;
    BuiltSized(c, r.blindingKey.value, ClearHops(r), StartOf(r));
    BlobsSized(OurPath(c, r).encryptedData + HopBlobs(ExtraHops(r)), r.replyPath, r.finalPayloads);
  }

  /** A connected introduction node gets the destination's own layers, bare of payloads. */
  function DirectToBlinded(c: Crypto, r: Request): Result<Response, RouteError>
    requires RequestSized(r) && r.blindedDestination.Some?
  {
    var dest := r.blindedDestination.value;
    BlobsSized(HopBlobs(dest.hops), None, []);
    var layers :- EncodeLayers(HopIDs(dest.hops), HopPayloads(HopBlobs(dest.hops), None, []));
    var onion :- NewOnionPacket(c, layers);
    Ok(Response(dest.firstNodeID, dest.blindingPoint, onion))
  }

  function JoinedRoute(c: Crypto, r: Request): Result<Response, RouteError>
    requires Sound(c) && RequestKeys(c.curve, r) && RequestSized(r) && Validate(r).Ok? && ClearHops(r) != []
  {
    RouteSized(c, r);
    var layers :- EncodeLayers(OurPath(c, r).blindedHops + HopIDs(ExtraHops(r)), RoutePayloads(c, r));
    var onion :- NewOnionPacket(c, layers);
    Ok(Response(r.hops[0], c.pub(r.blindingKey.value), onion))
  }

  function CreateRoute(c: Crypto, r: Request): Result<Response, RouteError>
    requires Sound(c) && RequestKeys(c.curve, r) && RequestSized(r)
  {
    var _ :- Validate(r);
    if ClearHops(r) == [] then DirectToBlinded(c, r) else JoinedRoute(c, r)
  }

  lemma {:induction false} LayersStop(ids: seq<PubKey>, ps: seq<Payload>)
    requires |ids| == |ps| && SizedPayloads(ps)
    ensures EncodeLayers(ids, ps).Err? ==>
            EncodeLayers(ids, ps) == Err(IndexOutOfRange) || EncodeLayers(ids, ps).error.BadPayload?
  {
    hide PayloadRecords, EncodePayload;
    if ids != [] {
      LayersStop(ids[..|ids| - 1], ps[..|ids| - 1]);
    }
  }

  /** The request was not accepted as it stands. */
  predicate Refused(r: Result<Response, RouteError>) {
    r.Err? && (r.error.NoPath? || r.error.SessionKeyRequired? || r.error.BlindingKeyRequired?
               || r.error.NoIntroductionNode?)
  }

  /** Once a request is accepted, creating its route fails later, if at all. */
  lemma AcceptedIsNotRefused(c: Crypto, r: Request)
    requires Sound(c) && RequestKeys(c.curve, r) && RequestSized(r) && Validate(r).Ok?
    ensures !Refused(CreateRoute(c, r))
  {
    hide EncodeLayers, SizedPayloads, HopPayloads, OurPath, RequestKeys, Sound, HopIDs, ClearHops;
    if ClearHops(r) != [] {
      RouteSized(c, r);
      LayersStop(OurPath(c, r).blindedHops + HopIDs(ExtraHops(r)), RoutePayloads(c, r));
    } else {
      NoClearHops(r);
      var hops := r.blindedDestination.value.hops;
      BlobsSized(HopBlobs(hops), None, []);
      LayersStop(HopIDs(hops), HopPayloads(HopBlobs(hops), None, []));
    }
  }

  /** A request for a route. Creating the route trims the introduction node off its hops. */
  class BlindedRouteRequest {
    const sessionKey: Option<nat>
    const blindingKey: Option<nat>
    var hops: seq<PubKey>
    const replyPath: Option<Path>
    const blindedDestination: Option<Path>
    const finalPayloads: seq<Record>

    function Value(): Request
      reads this
    {
      Request(sessionKey, blindingKey, hops, replyPath, blindedDestination, finalPayloads)
    }

    constructor (request: Request)
      ensures Value() == request
    {
      sessionKey, blindingKey, hops := request.sessionKey, request.blindingKey, request.hops;
      replyPath, blindedDestination := request.replyPath, request.blindedDestination;
      finalPayloads := request.finalPayloads;
    }

    method SendDirect(c: Crypto) returns (r: Result<Response, RouteError>)
      requires RequestSized(Value()) && blindedDestination.Some?
      ensures r == DirectToBlinded(c, Value())
    {
      hide EncodeLayers, PayloadRecords, UsedHops;
      var dest := blindedDestination.value;
      ghost var ids, ps := HopIDs(dest.hops), HopPayloads(HopBlobs(dest.hops), None, []);
      BlobsSized(HopBlobs(dest.hops), None, []);
      var sphinxPath := new Option<Layer>[MAX_HOPS](_ => None);
      NoLayers(ids, ps);
      ghost var done := [];
      for i := 0 to |dest.hops|
        invariant EncodeLayers(ids[..i], ps[..i]) == Ok(done) && sphinxPath[..] == Filled(done)
      {
        var payload := Payload(None, dest.hops[i].encryptedData, []);
        var added := CreateSphinxHop(sphinxPath, i, dest.hops[i].blindedNodeID, payload, ids, ps, done);
        if added.Err? {
          return Err(added.error);
        }
        done := EncodeLayers(ids[..i + 1], ps[..i + 1]).value;
      }
      assert ids[..|dest.hops|] == ids && ps[..|dest.hops|] == ps;
      UsedOfFilled(done, sphinxPath[..]);
      var onion :- CreateOnionMessage(c, sphinxPath);
      return Ok(Response(dest.firstNodeID, dest.blindingPoint, onion));
    }

    method CreateBlindedRoute(c: Crypto) returns (r: Result<Response, RouteError>)
      requires Sound(c) && RequestKeys(c.curve, Value()) && RequestSized(Value())
      modifies this`hops
      ensures r == CreateRoute(c, old(Value()))
      ensures hops == if blindedDestination.None? || Refused(r) then old(hops) else old(hops)[..|old(hops)| - 1]
    {
      hide EncodeLayers, BuildBlindedPath, PathToBlind, UsedHops, HopPayloads;
      ghost var request := Value();
      var _ :- Validate(Value());
      AcceptedIsNotRefused(c, request);
      var firstNode := hops[0];
      if blindedDestination.Some? {
        hops := hops[..|hops| - 1];
        if hops == [] {
          r := SendDirect(c);
          return;
        }
      }
      var start := StartOf(Value());
      var toBlind := CreatePathToBlind(c.curve, hops, start);
      var blindedPath := BuildBlindedPath(c, blindingKey.value, toBlind[..]);
      RouteSized(c, request);
      var sphinxPath, filled := BlindedToSphinx(blindedPath, ExtraHops(Value()), replyPath, finalPayloads);
      if filled.Err? {
        return Err(filled.error);
      }
      UsedOfFilled(EncodeLayers(OurPath(c, request).blindedHops + HopIDs(ExtraHops(request)),
                                RoutePayloads(c, request)).value, sphinxPath[..]);
      var onion :- CreateOnionMessage(c, sphinxPath);
      return Ok(Response(firstNode, c.pub(blindingKey.value), onion));
    }
  }
}
