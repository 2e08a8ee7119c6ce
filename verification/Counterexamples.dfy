/** Inputs that the general conditions exclude: each shows a way in which a promise fails. */
module Counterexamples {
  import opened Wrappers
  import opened Bytes
  import opened BigSize
  import opened Keys
  import opened ReplyPath
  import opened Tlv
  import RouteData
  import opened Routes
  import opened Delivery
  import opened RouteCreation
  import opened RelayPeers
  import opened Laws
  import Fields
  import Values
  import Offer

  // ---------- a route straight to a blinded destination drops what it should carry ----------

  function HomeRoute(): Hidden {
    Home(TRANSPARENT.curve, 0, SOME_KEY, SOME_KEY)
  }

  /** To a reply path whose introduction node is the one hop, carrying one payload. */
  function DirectRequest(): Request {
    Request(Some(0), Some(0), [SOME_KEY], None, Some(Advertise(TRANSPARENT, HomeRoute())), [Record(65, [1])])
  }

  lemma DirectRequestIsSendable()
    ensures Sendable(TRANSPARENT, DirectRequest(), Some(HomeRoute())) && Validate(DirectRequest()).Ok?
    ensures ClearHops(DirectRequest()) == [] && |ExtraHops(DirectRequest())| == 2
  {
    hide RouteData.EncodeData, ToBE;
    CryptoLawsAreMet();
    HomeIsReachable(TRANSPARENT, 0, SOME_KEY, SOME_KEY);
    HomeSized();
  }

  lemma HomeSized()
    ensures var p := Advertise(TRANSPARENT, HomeRoute());
            && |p.hops| == 2 && p.firstNodeID == SOME_KEY && ValidPath(TRANSPARENT.curve, p)
            && forall h :: h in p.hops ==> |h.encryptedData| <= MAX_UINT64
  {
    hide RouteData.EncodeData, ToBE, Ephemeral;
    CryptoLawsAreMet();
    RouteData.EncodedSize(TRANSPARENT.curve, RouteData.BlindedRouteData(Some(SOME_KEY), None));
  }

  lemma DirectRequestIsMade()
    ensures Sound(TRANSPARENT) && RequestKeys(TRANSPARENT.curve, DirectRequest()) && RequestSized(DirectRequest())
    ensures CreateRoute(TRANSPARENT, DirectRequest()).Ok?
  {
    hide CreateRoute, DirectRequest, HomeRoute, Advertise, RequestKeys, RequestSized, Sound;
    DirectRequestIsSendable();
    CreatedExactly(TRANSPARENT, DirectRequest());
    assert forall layers :: TRANSPARENT.room(layers);
    RoomForAll(TRANSPARENT, DirectRequest());
  }

  /** The route is made and walked to its end, and the payload is not delivered. */
  lemma PayloadIsDropped()
    ensures Sound(TRANSPARENT) && RequestKeys(TRANSPARENT.curve, DirectRequest()) && RequestSized(DirectRequest())
    ensures CreateRoute(TRANSPARENT, DirectRequest()).Ok?
    ensures var r, made := DirectRequest(), CreateRoute(TRANSPARENT, DirectRequest()).value;
            var walk := Walk(TRANSPARENT, made.firstNode, made.blindingPoint, made.onion);
            && r.finalPayloads == [Record(65, [1])]
            && Delivers(walk, Nodes(HomeRoute().hops), None, [])
            && !Delivers(walk, RouteNodes(r, Some(HomeRoute())), r.replyPath, SortRecords(r.finalPayloads))
  {
    hide Walk, CreateRoute, Delivers, HomeRoute, TRANSPARENT, Advertise, HeldEphemerals, RouteNodes;
    DirectRequestIsSendable();
    DirectRequestIsMade();
    DirectEndToEnd(TRANSPARENT, DirectRequest(), HomeRoute());
    RequestArrives(TRANSPARENT, DirectRequest(), Some(HomeRoute()));
  }

  // ---------- a route with more hops than a packet has slots ----------

  function LongRequest(): Request {
    Request(Some(0), Some(0), seq(MAX_HOPS + 1, _ => SOME_KEY), None, None, [])
  }

  /** The request is valid, and creating its route panics. */
  lemma LongRouteOverflows()
    ensures Sound(TRANSPARENT) && RequestKeys(TRANSPARENT.curve, LongRequest()) && RequestSized(LongRequest())
    ensures Validate(LongRequest()).Ok? && CreateRoute(TRANSPARENT, LongRequest()) == Err(IndexOutOfRange)
  {
    hide CreateRoute;
    CryptoLawsAreMet();
    CreatedExactly(TRANSPARENT, LongRequest());
  }

  // ---------- an offer that expires at the epoch ----------

  const EPOCH_OFFER: Offer.Offer := Offer.EMPTY.(description := [0x78], expiry := Values.Time(0, 0))

  /** It is encoded, and no order of visiting makes its encoding read. */
  lemma EpochOfferIsRefused(lib: Fields.Lib, order: seq<uint64>)
    ensures EPOCH_OFFER.Valid(lib.curve) && Offer.HasField(EPOCH_OFFER)
    ensures var bs := StreamBytes(Offer.OfferRecords(lib, EPOCH_OFFER));
            && Fields.Parse(lib, Offer.SCHEMA, bs).Err?
            && Fields.Visited(lib, Offer.SCHEMA, bs, order) && Offer.ReadOffer(lib, bs, order).Err?
  {
    hide Offer.OfferFields, Fields.Present, StreamBytes, Fields.Parse, Fields.Sendable, Offer.OfferOf, ToBE;
    Offer.OfferSchema(lib, EPOCH_OFFER);
    Offer.OfferSendable(lib, EPOCH_OFFER);
    Fields.FieldsRoundTrip(lib, Offer.SCHEMA, Offer.OfferFields(lib, EPOCH_OFFER));
  }
}
