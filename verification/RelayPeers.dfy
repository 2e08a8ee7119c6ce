/** The peer that introduces our reply paths, and the paths that come home through it. */
module RelayPeers {
  import opened Wrappers
  import opened Bytes
  import opened BigSize
  import opened Keys
  import opened ReplyPath
  import opened Tlv
  import OnionPayload
  import opened RouteData
  import opened Routes
  import opened Layouts
  import opened Delivery

  datatype PeerError =
    | NoChannels        // we have no channels at all
    | LookupFailure     // the graph could not be asked
    | NoRelayingPeers
    | BadIntroduction   // the chosen peer's key is not a point
    | NoPeerChannels
    | NoNodeInfo
    | FeatureMismatch

  /** A node's announcement: its compressed key and the feature bits it sets. */
  datatype Announcement = Announcement(pubkey: seq<byte>, features: set<nat>)

  datatype NodeInfo = NodeInfo(channels: nat, node: Option<Announcement>)

  /** What the graph knows about the peer of an active channel. */
  datatype GraphEntry = Found(info: NodeInfo) | NotFound | Unavailable

  // ---------- specification ----------

  /** An even feature bit is one that the other side must have. */
  predicate IsRequired(feature: nat) {
    feature % 2 == 0
  }

  predicate CanRelay(features: seq<nat>, info: NodeInfo) {
    && info.channels != 0
    && info.node.Some?
    && forall f :: f in features && IsRequired(f) ==> f in info.node.value.features
  }

  predicate Eligible(features: seq<nat>, e: GraphEntry) {
    e.Found? && CanRelay(features, e.info)
  }

  /** The eligible peers, in the order of their channels. */
  function EligiblePeers(features: seq<nat>, entries: seq<GraphEntry>): seq<NodeInfo> {
    if entries == [] then [] else
    var last := entries[|entries| - 1];
    EligiblePeers(features, entries[..|entries| - 1]) + if Eligible(features, last) then [last.info] else []
  }

  lemma {:induction false} EligibleElements(features: seq<nat>, entries: seq<GraphEntry>)
    ensures forall p :: p in EligiblePeers(features, entries) <==> Found(p) in entries && CanRelay(features, p)
  {
    if entries != [] {
      var front, last := entries[..|entries| - 1], entries[|entries| - 1];
      EligibleElements(features, front);
      assert entries == front + [last];
    }
  }

  /** No peer before the chosen one has as many channels, and no peer at all has more. */
  predicate MostChannels(peers: seq<NodeInfo>, k: nat) {
    && k < |peers|
    && (forall j :: 0 <= j < |peers| ==> peers[j].channels <= peers[k].channels)
    && (forall j :: 0 <= j < k ==> peers[j].channels < peers[k].channels)
  }

  // ---------- the code ----------

  method CheckRelay(features: seq<nat>, info: NodeInfo) returns (r: Result<(), PeerError>)
    ensures r.Ok? <==> CanRelay(features, info)
    ensures r.Ok? <==> && info.channels != 0 && info.node.Some?
                       && forall f :: f in features && f % 2 == 0 ==> f in info.node.value.features
    ensures r == Err(NoPeerChannels) <==> info.channels == 0
    ensures r == Err(NoNodeInfo) <==> info.channels != 0 && info.node.None?
  {
    if info.channels == 0 {
      return Err(NoPeerChannels);
    }
    if info.node.None? {
      return Err(NoNodeInfo);
    }
    for i := 0 to |features|
      invariant forall k :: 0 <= k < i ==> IsRequired(features[k]) ==> features[k] in info.node.value.features
    {
      if !IsRequired(features[i]) {
        continue;
      }
      if features[i] !in info.node.value.features {
        return Err(FeatureMismatch);
      }
    }
    return Ok(());
  }

  method GetRelayingPeers(features: seq<nat>, entries: seq<GraphEntry>) returns (r: Result<seq<NodeInfo>, PeerError>)
    ensures entries == [] ==> r == Err(NoChannels)
    ensures entries != [] && Unavailable in entries ==> r == Err(LookupFailure)
    ensures entries != [] && Unavailable !in entries ==> r == Ok(EligiblePeers(features, entries))
  {
    if |entries| == 0 {
      return Err(NoChannels);
    }
    var activePeers := [];
    for i := 0 to |entries|
      invariant Unavailable !in entries[..i] && activePeers == EligiblePeers(features, entries[..i])
    {
      assert entries[..i + 1] == entries[..i] + [entries[i]] && entries[..i + 1][..i] == entries[..i];
      if entries[i].Unavailable? {
        return Err(LookupFailure);
      }
      if entries[i].NotFound? {
        continue;
      }
      var checked := CheckRelay(features, entries[i].info);
      if checked.Err? {
        continue;
      }
      activePeers := activePeers + [entries[i].info];
    }
    assert entries[..|entries|] == entries;
    return Ok(activePeers);
  }

  /** Two hops: the introduction node, told where we are, and ourselves. */
  function TwoHops(curve: Curve, intro: PubKey, our: PubKey): seq<PathHop>
    requires our.Valid(curve)
  {
    [PathHop(intro, EncodeData(curve, BlindedRouteData(Some(our), None))), PathHop(our, [])]
  }

  method BuildBlindedRoute(curve: Curve, peers: seq<NodeInfo>, our: PubKey)
    returns (r: Result<seq<PathHop>, PeerError>, ghost chosen: nat)
    requires our.Valid(curve) && forall p :: p in peers ==> p.node.Some?
    ensures r == Err(NoRelayingPeers) <==> peers == []
    ensures peers != [] ==>
              && MostChannels(peers, chosen)
              && var key := ParseCompressed(curve, peers[chosen].node.value.pubkey);
                 r == if key.Ok? then Ok(TwoHops(curve, key.value, our)) else Err(BadIntroduction)
  {
    chosen := 0;
    if |peers| == 0 {
      return Err(NoRelayingPeers), 0;
    }
    var mostPeers: Option<NodeInfo> := None;
    for i := 0 to |peers|
      invariant i == 0 <==> mostPeers.None?
      invariant i > 0 ==> MostChannels(peers[..i], chosen) && mostPeers == Some(peers[chosen])
    {
      if mostPeers.None? {
        mostPeers, chosen := Some(peers[i]), i;
      }
      if peers[i].channels > mostPeers.value.channels {
        mostPeers, chosen := Some(peers[i]), i;
      }
    }
    assert peers[..|peers|] == peers && peers[chosen] in peers;
    var intro := ParseCompressed(curve, mostPeers.value.node.value.pubkey);
    if intro.Err? {
      return Err(BadIntroduction), chosen;
    }
    var payload := EncodeBlindedRouteData(curve, BlindedRouteData(Some(our), None));
    return Ok([PathHop(intro.value, payload.value), PathHop(our, [])]), chosen;
  }

  /** Who can introduce us: a found peer with channels and an announcement that sets every even bit asked for. */
  lemma EligibleExactly(features: seq<nat>, e: GraphEntry)
    ensures Eligible(features, e) <==>
            && e.Found? && e.info.channels != 0 && e.info.node.Some?
            && forall f :: f in features && f % 2 == 0 ==> f in e.info.node.value.features
  {
  }

  /** The entry of the first eligible peer with the most channels. */
  predicate Introduces(features: seq<nat>, entries: seq<GraphEntry>, at: nat) {
    && at < |entries| && Eligible(features, entries[at])
    && (forall j :: 0 <= j < |entries| && Eligible(features, entries[j]) ==>
          entries[j].info.channels <= entries[at].info.channels)
    && (forall j :: 0 <= j < at && Eligible(features, entries[j]) ==>
          entries[j].info.channels < entries[at].info.channels)
  }

  lemma {:induction false} ChosenEntry(features: seq<nat>, entries: seq<GraphEntry>, k: nat) returns (at: nat)
    requires MostChannels(EligiblePeers(features, entries), k)
    ensures Introduces(features, entries, at) && entries[at].info == EligiblePeers(features, entries)[k]
  {
    hide CanRelay;
    var n := |entries| - 1;
    var front, peers := EligiblePeers(features, entries[..n]), EligiblePeers(features, entries);
    EligibleElements(features, entries[..n]);
    assert forall j :: 0 <= j < |front| ==> front[j] == peers[j];
    if k < |front| {
      at := ChosenEntry(features, entries[..n], k);
      assert Introduces(features, entries[..n], at);
      forall j | 0 <= j < |entries| && Eligible(features, entries[j])
        ensures entries[j].info.channels <= entries[at].info.channels
        ensures j < at ==> entries[j].info.channels < entries[at].info.channels
      {
        if j < n {
          assert entries[..n][j] == entries[j];
        } else {
          assert peers[|front|] == entries[n].info;
        }
      }
    } else {
      at := n;
      assert k == |front| && peers[k] == entries[n].info;
      forall j | 0 <= j < n && Eligible(features, entries[j])
        ensures entries[j].info.channels < entries[n].info.channels
      {
        assert entries[..n][j] == entries[j] && entries[j] == Found(entries[j].info);
        var i :| 0 <= i < |front| && front[i] == entries[j].info;
        assert peers[i] == front[i];
      }
    }
  }

  /** The two-hop path through an introduction node, with what each of us is sealed. */
  lemma TwoHopPath(c: Crypto, key: nat, intro: PubKey, our: PubKey)
    requires our.Valid(c.curve)
    ensures var e := c.pub(key);
            BuildBlindedPath(c, key, TwoHops(c.curve, intro, our)) ==
            BlindedPath(intro, e, [c.blind(intro, e), c.blind(our, c.next(intro, e))],
                        [c.seal(intro, e, [4, 33] + our.Compressed()), c.seal(our, c.next(intro, e), [])])
  {
    hide EncodeData;
    RouteDataIsSpelled(c.curve, BlindedRouteData(Some(our), None));
    var hops, e := TwoHops(c.curve, intro, our), c.pub(key);
    assert [4, 33] + our.Compressed() + [] == [4, 33] + our.Compressed();
    assert hops[0] == PathHop(intro, [4, 33] + our.Compressed()) && hops[1] == PathHop(our, []) && |hops| == 2;
    assert Ephemeral(c, e, Nodes(hops), 0) == e;
    assert Ephemeral(c, e, Nodes(hops), 1) == c.next(intro, e);
  }

  /**
   * A route back to our node. The introduction node is the first eligible peer with the most channels;
   * there is none to choose exactly when no active channel's peer is eligible. It is told where we are.
   */
  method CreateReplyPath(c: Crypto, features: seq<nat>, entries: seq<GraphEntry>, our: PubKey, key: nat)
    returns (r: Result<BlindedPath, PeerError>, ghost at: nat)
    requires our.Valid(c.curve)
    ensures entries == [] ==> r == Err(NoChannels)
    ensures entries != [] && Unavailable in entries ==> r == Err(LookupFailure)
    ensures entries != [] && Unavailable !in entries ==>
              (r == Err(NoRelayingPeers) <==> forall e :: e in entries ==> !Eligible(features, e))
    ensures Unavailable !in entries && (exists e :: e in entries && Eligible(features, e)) ==>
              && Introduces(features, entries, at)
              && var intro := ParseCompressed(c.curve, entries[at].info.node.value.pubkey);
                 var e := c.pub(key);
                 r == if intro.Err? then Err(BadIntroduction) else
                      Ok(BlindedPath(intro.value, e, [c.blind(intro.value, e), c.blind(our, c.next(intro.value, e))],
                                     [c.seal(intro.value, e, [4, 33] + our.Compressed()),
                                      c.seal(our, c.next(intro.value, e), [])]))
  {
    hide ParseCompressed, TwoHops, CanRelay, BuildBlindedPath, Introduces, MostChannels;
    at := 0;
    var peers :- GetRelayingPeers(features, entries);
    EligibleElements(features, entries);
    EligibleAnnounced(features, peers);
    ghost var chosen;
    var hops;
    hops, chosen := BuildBlindedRoute(c.curve, peers, our);
    assert peers == [] <==> forall e :: e in entries ==> !Eligible(features, e) by {
      if peers != [] {
        assert peers[0] in peers && Found(peers[0]) in entries && Eligible(features, Found(peers[0]));
      }
      forall e | e in entries && Eligible(features, e) ensures peers != [] {
        assert e == Found(e.info) && e.info in peers;
      }
    }
    if peers != [] {
      at := ChosenEntry(features, entries, chosen);
    }
    if hops.Err? {
      return Err(hops.error), at;
    }
    ghost var intro := ParseCompressed(c.curve, peers[chosen].node.value.pubkey).value;
    TwoHopsCount(c.curve, intro, our);
    TwoHopPath(c, key, intro, our);
    r := Ok(BuildBlindedPath(c, key, hops.value));
  }

  lemma TwoHopsCount(curve: Curve, intro: PubKey, our: PubKey)
    requires our.Valid(curve)
    ensures |TwoHops(curve, intro, our)| == 2
  {
  }

  lemma EligibleAnnounced(features: seq<nat>, peers: seq<NodeInfo>)
    requires forall p :: p in peers ==> CanRelay(features, p)
    ensures forall p :: p in peers ==> p.node.Some?
  {
  }

  // ---------- coming home ----------

  /** The hidden route that a reply path of ours advertises. */
  function Home(curve: Curve, key: nat, intro: PubKey, our: PubKey): Hidden
    requires our.Valid(curve)
  {
    Hidden(key, TwoHops(curve, intro, our))
  }

  /** Our paths are built as end-to-end delivery needs them to be. */
  lemma HomeIsReachable(c: Crypto, key: nat, intro: PubKey, our: PubKey)
    requires our.Valid(c.curve)
    ensures Reachable(c, Home(c.curve, key, intro, our))
  {
    hide EncodeData, DecodeData;
    RouteDataRoundTrip(c.curve, BlindedRouteData(Some(our), None));
  }

  /**
   * A message that anyone sends to a reply path of ours comes home: it passes the sender's
   * clear hops and our introduction node, and exits at us.
   */
  lemma ReplyComesHome(c: Crypto, r: Request, key: nat, intro: PubKey, our: PubKey)
    requires our.Valid(c.curve)
    requires Sendable(c, r, Some(Home(c.curve, key, intro, our))) && PathFits(r.replyPath) && CreateRoute(c, r).Ok?
    ensures var resp := CreateRoute(c, r).value;
            var walk := Walk(c, resp.firstNode, resp.blindingPoint, resp.onion);
            && |walk| == |ClearHops(r)| + 2
            && walk[|walk| - 2].node == intro && walk[|walk| - 2].outcome.Forwarded?
            && walk[|walk| - 1].node == our && walk[|walk| - 1].outcome.Exited?
  {
    hide Walk, JoinedRoute, DirectToBlinded, EncodeData;
    var h := Home(c.curve, key, intro, our);
    var nodes := RouteNodes(r, Some(h));
    assert nodes == ClearHops(r) + [intro, our] by { assert Nodes(h.hops) == [intro, our]; }
    var resp := CreateRoute(c, r).value;
    var walk := Walk(c, resp.firstNode, resp.blindingPoint, resp.onion);
    if ClearHops(r) == [] {
      DirectEndToEnd(c, r, h);
      assert Delivers(walk, [intro, our], None, []) by { assert Nodes(h.hops) == [intro, our]; }
      LastTwo(walk, [intro, our], None, []);
    } else {
      EndToEnd(c, r, Some(h));
      LastTwo(walk, nodes, r.replyPath, OnionPayload.Finals(SortRecords(r.finalPayloads)));
    }
  }

  lemma LastTwo(walk: seq<Visit>, nodes: seq<PubKey>, replyPath: Option<Path>, finals: seq<Record>)
    requires Delivers(walk, nodes, replyPath, finals) && |nodes| >= 2
    ensures var n := |nodes|;
            && |walk| == n && walk[n - 2].node == nodes[n - 2] && walk[n - 2].outcome.Forwarded?
            && walk[n - 1].node == nodes[n - 1] && walk[n - 1].outcome.Exited?
  {
    var n := |nodes|;
    assert PassesOn(walk[n - 2], walk[n - 1]);
  }
}
