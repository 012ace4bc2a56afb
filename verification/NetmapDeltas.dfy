/** Responses as deltas: what a stream of them does to a map from node id to peer. */
module NetmapDeltas {
  import opened Common
  import opened Json
  import opened Netmap
  import opened NetmapReading
  import Scanner

  /** What is known: this node's own entry, its peers, the relay regions, and how many responses said so. */
  datatype Ledger = Ledger(
    own: Option<Bytes>,
    disco: Option<Bytes>,
    addresses: seq<Bytes>,
    peers: map<u64, Peer>,
    regions: map<u16, DerpRegion>,
    responses: nat)

  function NoLedger(): Ledger {
    Ledger(None, None, [], map[], map[], 0)
  }

  function Merge(peer: Peer, patch: Patch): Peer {
    peer.(online := if patch.online.Some? then patch.online.value else peer.online,
          homeDerp := if patch.homeDerp.Some? then patch.homeDerp.value else peer.homeDerp,
          discoKey := if patch.discoKey.Some? then patch.discoKey else peer.discoKey,
          endpoints := if patch.endpoints.Some? then patch.endpoints.value else peer.endpoints)
  }

  function Apply(l: Ledger, d: Delta): Ledger {
    match d
    case Put(peer) => if l.own == Some(peer.nodeKey) then l else l.(peers := l.peers[peer.id := peer])
    case Change(id, patch) => if id in l.peers then l.(peers := l.peers[id := Merge(l.peers[id], patch)]) else l
    case Drop(id) => l.(peers := l.peers - {id})
    case Own(key) => l.(own := key, peers := if key.Some? then l.peers - Carrying(l.peers, key.value) else l.peers)
    case OwnDisco(key) => l.(disco := key)
    case OwnAddress(address) =>
      if address.Some? && |l.addresses| < 4 then l.(addresses := l.addresses + [address.value]) else l
    case Relay(region) => l.(regions := l.regions[region.id := region])
    case Malformed => l
    case Finished => l.(responses := l.responses + 1)
  }

  /** The deltas that go through: nothing malformed, and room for what is new. */
  predicate Accepts(capacity: nat, l: Ledger, d: Delta) {
    match d
    case Put(peer) => l.own == Some(peer.nodeKey) || peer.id in l.peers || |l.peers| < capacity
    case Own(key) => key.Some? ==> |Carrying(l.peers, key.value)| <= 4
    case OwnAddress(address) => address.Some?
    case Relay(region) => region.id in l.regions || |l.regions| < 8
    case Malformed => false
    case _ => true
  }

  /** The ids whose records carry a key. */
  function Carrying(peers: map<u64, Peer>, key: Bytes): set<u64> {
    set id | id in peers && peers[id].nodeKey == key
  }

  function ApplyAll(l: Ledger, ds: seq<Delta>): Ledger {
    if ds == [] then l else Apply(ApplyAll(l, ds[..|ds| - 1]), ds[|ds| - 1])
  }

  lemma {:induction false} ApplyAppend(l: Ledger, a: seq<Delta>, b: seq<Delta>)
    ensures ApplyAll(l, a + b) == ApplyAll(ApplyAll(l, a), b)
    decreases |b|
  {
    hide Apply;
    if b == [] {
      assert a + b == a;
    } else {
      assert (a + b)[..|a + b| - 1] == a + b[..|b| - 1];
      ApplyAppend(l, a, b[..|b| - 1]);
    }
  }

  predicate AllAccepted(capacity: nat, l: Ledger, ds: seq<Delta>) {
    ds == [] ||
    (var n := |ds| - 1;
     AllAccepted(capacity, l, ds[..n]) && Accepts(capacity, ApplyAll(l, ds[..n]), ds[n]))
  }

  lemma {:induction false} AcceptedAppend(capacity: nat, l: Ledger, a: seq<Delta>, b: seq<Delta>)
    ensures AllAccepted(capacity, l, a + b)
            <==> AllAccepted(capacity, l, a) && AllAccepted(capacity, ApplyAll(l, a), b)
    decreases |b|
  {
    hide Apply, Accepts;
    if b == [] {
      assert a + b == a;
    } else {
      var n := |b| - 1;
      assert (a + b)[..|a + b| - 1] == a + b[..n];
      AcceptedAppend(capacity, l, a, b[..n]);
      ApplyAppend(l, a, b[..n]);
    }
  }

  // The table as a map

  predicate Distinct(peers: seq<Peer>) {
    forall j, k :: 0 <= j < k < |peers| ==> peers[j].id != peers[k].id
  }

  /** The table holds exactly the map's peers, each once. */
  predicate Represents(peers: seq<Peer>, m: map<u64, Peer>) {
    && Distinct(peers)
    && (forall k :: 0 <= k < |peers| ==> peers[k].id in m && m[peers[k].id] == peers[k])
    && (forall id :: id in m ==> Find(peers, id).Some?)
  }

  lemma PlaceRepresents(peers: seq<Peer>, m: map<u64, Peer>, k: nat, peer: Peer)
    requires Represents(peers, m) && k < |peers| && peers[k].id == peer.id
    ensures Represents(peers[k := peer], m[peer.id := peer])
  {
    var next := peers[k := peer];
    forall id | id in m[peer.id := peer] ensures Find(next, id).Some? {
      var j := if id == peer.id then k else Find(peers, id).value;
      assert next[j].id == id;
    }
  }

  lemma AppendRepresents(peers: seq<Peer>, m: map<u64, Peer>, peer: Peer)
    requires Represents(peers, m) && Find(peers, peer.id).None?
    ensures Represents(peers + [peer], m[peer.id := peer])
  {
    var next := peers + [peer];
    forall id | id in m[peer.id := peer] ensures Find(next, id).Some? {
      var j := if id == peer.id then |peers| else Find(peers, id).value;
      assert next[j].id == id;
    }
  }

  lemma UpsertRepresents(peers: seq<Peer>, m: map<u64, Peer>, peer: Peer, capacity: nat)
    requires Represents(peers, m) && Upsert(peers, peer, capacity).Ok?
    ensures Represents(Upsert(peers, peer, capacity).value, m[peer.id := peer])
  {
    hide Represents;
    var k := Find(peers, peer.id);
    if k.Some? {
      PlaceRepresents(peers, m, k.value, peer);
    } else {
      AppendRepresents(peers, m, peer);
    }
  }

  /** Ids stay unique although the last record moves into the gap. */
  lemma SwapRepresents(peers: seq<Peer>, m: map<u64, Peer>, k: nat)
    requires Represents(peers, m) && k < |peers|
    ensures Represents(SwapRemove(peers, k), m - {peers[k].id})
  {
    var next, n := SwapRemove(peers, k), |peers| - 1;
    assert forall j :: 0 <= j < n ==> next[j] == if j == k then peers[n] else peers[j];
    forall id | id in m - {peers[k].id} ensures Find(next, id).Some? {
      var j := Find(peers, id).value;
      assert next[if j == n then k else j].id == id;
    }
  }

  lemma RemoveRepresents(peers: seq<Peer>, m: map<u64, Peer>, id: u64)
    requires Represents(peers, m)
    ensures Represents(Remove(peers, id), m - {id})
  {
    var k := Find(peers, id);
    if k.Some? {
      SwapRepresents(peers, m, k.value);
    } else {
      assert id !in m;
      assert m - {id} == m;
    }
  }

  function IdSet(ids: seq<u64>): set<u64> {
    if ids == [] then {} else IdSet(ids[..|ids| - 1]) + {ids[|ids| - 1]}
  }

  lemma {:induction false} IdSetHas(ids: seq<u64>, id: u64)
    ensures id in IdSet(ids) <==> id in ids
  {
    if ids != [] {
      IdSetHas(ids[..|ids| - 1], id);
      assert ids == ids[..|ids| - 1] + [ids[|ids| - 1]];
    }
  }

  lemma {:induction false} IdSetSize(ids: seq<u64>)
    requires AllDifferent(ids)
    ensures |IdSet(ids)| == |ids|
    decreases |ids|
  {
    if ids != [] {
      var n := |ids| - 1;
      IdSetSize(ids[..n]);
      IdSetHas(ids[..n], ids[n]);
    }
  }

  lemma WithoutHead(m: map<u64, Peer>, ids: seq<u64>)
    requires ids != []
    ensures m - {ids[0]} - IdSet(ids[1..]) == m - IdSet(ids)
  {
    assert ids == [ids[0]] + ids[1..];
    forall id | id in m ensures id in {ids[0]} + IdSet(ids[1..]) <==> id in IdSet(ids) {
      IdSetHas(ids, id);
      IdSetHas(ids[1..], id);
    }
    assert (m - {ids[0]} - IdSet(ids[1..])).Keys == (m - IdSet(ids)).Keys;
  }

  lemma {:induction false} RemoveAllRepresents(peers: seq<Peer>, m: map<u64, Peer>, ids: seq<u64>)
    requires Represents(peers, m)
    ensures Represents(RemoveAll(peers, ids), m - IdSet(ids))
    decreases |ids|
  {
    hide Represents, Remove;
    if ids == [] {
      assert m - IdSet(ids) == m;
    } else {
      RemoveRepresents(peers, m, ids[0]);
      RemoveAllRepresents(Remove(peers, ids[0]), m - {ids[0]}, ids[1..]);
      WithoutHead(m, ids);
    }
  }

  // This node's key

  predicate AllDifferent(ids: seq<u64>) {
    forall i, j :: 0 <= i < j < |ids| ==> ids[i] != ids[j]
  }

  lemma {:induction false} CarriersAre(peers: seq<Peer>, key: Bytes)
    ensures forall id :: id in Carriers(peers,
        key) ==> exists k :: 0 <= k < |peers| && peers[k].id == id && peers[k].nodeKey == key
    ensures forall k :: 0 <= k < |peers| && peers[k].nodeKey == key ==> peers[k].id in Carriers(peers, key)
    ensures |Carriers(peers, key)| <= |peers|
    ensures Distinct(peers) ==> AllDifferent(Carriers(peers, key))
  {
    if peers != [] {
      var n := |peers| - 1;
      CarriersAre(peers[..n], key);
      var before := Carriers(peers[..n], key);
      forall i | 0 <= i < |before| ensures Distinct(peers) ==> before[i] != peers[n].id {
        assert before[i] in before;
      }
    }
  }

  lemma CarriersCarry(peers: seq<Peer>, m: map<u64, Peer>, key: Bytes, id: u64)
    requires Represents(peers, m)
    ensures id in Carriers(peers, key) <==> id in Carrying(m, key)
  {
    CarriersAre(peers, key);
    if id in Carrying(m, key) {
      var k := Find(peers, id).value;
      assert peers[k] == m[id];
    }
  }

  lemma CarriersSet(peers: seq<Peer>, m: map<u64, Peer>, key: Bytes)
    requires Represents(peers, m)
    ensures IdSet(Carriers(peers, key)) == Carrying(m, key)
    ensures |Carriers(peers, key)| == |Carrying(m, key)|
  {
    hide Represents, Carriers, Carrying;
    var ids := Carriers(peers, key);
    forall id: u64 ensures id in IdSet(ids) <==> id in Carrying(m, key) {
      IdSetHas(ids, id);
      CarriersCarry(peers, m, key, id);
    }
    assert IdSet(ids) == Carrying(m, key);
    assert Distinct(peers) by {
      RepresentsDistinct(peers, m);
    }
    CarriersAre(peers, key);
    IdSetSize(ids);
  }

  lemma RepresentsDistinct(peers: seq<Peer>, m: map<u64, Peer>)
    requires Represents(peers, m)
    ensures Distinct(peers)
  {
  }

  lemma OwnRepresents(net: Net, l: Ledger, own: Option<Bytes>)
    requires Represents(net.peers, l.peers)
    ensures Represents(TakeOwnKey(net, own).peers, Apply(l, Own(own)).peers)
    ensures TakeOwnKey(net, own).nodeKey == own
  {
    hide Represents, RemoveAll, Carrying, Carriers, IdSet;
    if own.Some? {
      CarriersSet(net.peers, l.peers, own.value);
      RemoveAllRepresents(net.peers, l.peers, Carriers(net.peers, own.value));
    }
  }

  predicate Carries(peers: seq<Peer>, key: Bytes) {
    exists k :: 0 <= k < |peers| && peers[k].nodeKey == key
  }

  /** The own key ends the program if more than four records carry it; otherwise none is left that does. */
  lemma OwnKeyTakenIff(env: Env, w: Work, m: map<u64, Peer>, value: Bytes)
    requires Represents(w.net.peers, m) && w.failed.None? && env.nodeKey(value).Some?
    ensures var after, own := OnSelfString(env, KeyName, w, value), env.nodeKey(value).value;
            && after.net.nodeKey == Some(own)
            && (after.failed == Some(Scanner.Panicked) <==> |Carrying(m, own)| > MAX_OWN)
            && (after.failed.None? <==> |Carrying(m, own)| <= MAX_OWN)
            && (after.failed.None? ==> !Carries(after.net.peers, own))
  {
    hide RemoveAll, Carrying, Carriers;
    var own := env.nodeKey(value).value;
    CarriersSet(w.net.peers, m, own);
    TakenIsGone(w.net, m, own);
  }

  lemma TakenIsGone(net: Net, m: map<u64, Peer>, own: Bytes)
    requires Represents(net.peers, m)
    ensures !Carries(TakeOwnKey(net, Some(own)).peers, own) && Distinct(TakeOwnKey(net, Some(own)).peers)
  {
    hide RemoveAll, IdSet, Carriers;
    CarriersSet(net.peers, m, own);
    RemoveAllRepresents(net.peers, m, Carriers(net.peers, own));
    var after, left := TakeOwnKey(net, Some(own)).peers, m - Carrying(m, own);
    forall k | 0 <= k < |after| ensures after[k].nodeKey != own {
      assert after[k].id in left;
    }
  }

  // Sizes

  function Ids(peers: seq<Peer>): seq<u64> {
    if peers == [] then [] else Ids(peers[..|peers| - 1]) + [peers[|peers| - 1].id]
  }

  lemma {:induction false} IdsAre(peers: seq<Peer>)
    ensures |Ids(peers)| == |peers| && forall k :: 0 <= k < |peers| ==> Ids(peers)[k] == peers[k].id
  {
    if peers != [] {
      IdsAre(peers[..|peers| - 1]);
    }
  }

  lemma RepresentsSize(peers: seq<Peer>, m: map<u64, Peer>)
    requires Represents(peers, m)
    ensures |peers| == |m|
  {
    var ids := Ids(peers);
    IdsAre(peers);
    IdSetSize(ids);
    forall id: u64 ensures id in IdSet(ids) <==> id in m {
      IdSetHas(ids, id);
      if id in m {
        assert ids[Find(peers, id).value] == id;
      }
    }
    assert IdSet(ids) == m.Keys;
  }

  // The relay regions as a map

  predicate RegionsAre(regions: seq<DerpRegion>, m: map<u16, DerpRegion>) {
    && (forall j, k :: 0 <= j < k < |regions| ==> regions[j].id != regions[k].id)
    && (forall k :: 0 <= k < |regions| ==> regions[k].id in m && m[regions[k].id] == regions[k])
    && (forall id :: id in m ==> FindRegion(regions, id, 0).Some?)
    && |regions| == |m|
  }

  /** A region replaces the one of its number, is added, or finds eight others. */
  lemma InsertIs(regions: seq<DerpRegion>, m: map<u16, DerpRegion>, region: DerpRegion)
    requires RegionsAre(regions, m)
    ensures InsertRegion(regions, region).Ok? <==> region.id in m || |m| < 8
    ensures InsertRegion(regions, region).Ok? ==>
              RegionsAre(InsertRegion(regions, region).value, m[region.id := region])
  {
    hide RegionsAre;
    KnownRegion(regions, m, region.id);
    var k := FindRegion(regions, region.id, 0);
    if k.Some? {
      ReplaceRegion(regions, m, k.value, region);
    } else {
      AppendRegion(regions, m, region);
    }
  }

  lemma KnownRegion(regions: seq<DerpRegion>, m: map<u16, DerpRegion>, id: u16)
    requires RegionsAre(regions, m)
    ensures FindRegion(regions, id, 0).Some? <==> id in m
    ensures |regions| == |m|
  {
  }

  lemma ReplaceRegion(regions: seq<DerpRegion>, m: map<u16, DerpRegion>, k: nat, region: DerpRegion)
    requires RegionsAre(regions, m) && k < |regions| && regions[k].id == region.id
    ensures RegionsAre(regions[k := region], m[region.id := region])
  {
    var after := regions[k := region];
    forall id | id in m[region.id := region] ensures FindRegion(after, id, 0).Some? {
      var j := if id != region.id then FindRegion(regions, id, 0).value else k;
      assert after[j].id == id;
    }
    assert m[region.id := region].Keys == m.Keys;
  }

  lemma AppendRegion(regions: seq<DerpRegion>, m: map<u16, DerpRegion>, region: DerpRegion)
    requires RegionsAre(regions, m) && FindRegion(regions, region.id, 0).None?
    ensures RegionsAre(regions + [region], m[region.id := region])
  {
    var after := regions + [region];
    forall id | id in m[region.id := region] ensures FindRegion(after, id, 0).Some? {
      var j := if id != region.id then FindRegion(regions, id, 0).value else |regions|;
      assert after[j].id == id;
    }
    assert region.id !in m && m[region.id := region].Keys == m.Keys + {region.id};
  }
}
