/** A stream of responses is a fold of what they say, and ends well exactly when all of that goes through. */
module NetmapFold {
  import opened Common
  import opened Json
  import opened Netmap
  import opened NetmapNames
  import opened NetmapReading
  import opened NetmapTree
  import opened NetmapRecords
  import opened NetmapFaults
  import opened NetmapRelays
  import opened NetmapDeltas
  import Scanner

  // The netmap and the ledger

  predicate Holding(net: Net, l: Ledger) {
    && Represents(net.peers, l.peers)
    && RegionsAre(net.derp, l.regions)
    && net.nodeKey == l.own && net.discoKey == l.disco && net.addresses == l.addresses && net.responses == l.responses
  }

  /** A parser without an error where the netmap was as in `l` has been through just `ds`. */
  predicate Tracks(capacity: nat, after: Work, l: Ledger, ds: seq<Delta>) {
    && (after.failed.None? <==> AllAccepted(capacity, l, ds))
    && (after.failed.None? ==> Holding(after.net, ApplyAll(l, ds)))
  }

  lemma OneDelta(capacity: nat, l: Ledger, d: Delta)
    ensures ApplyAll(l, [d]) == Apply(l, d)
    ensures AllAccepted(capacity, l, [d]) <==> Accepts(capacity, l, d)
  {
    hide Apply, Accepts;
    assert [d][..0] == [];
    assert ApplyAll(l, []) == l && AllAccepted(capacity, l, []);
  }

  lemma NoDelta(capacity: nat, after: Work, l: Ledger)
    requires after.failed.None? && Holding(after.net, l)
    ensures Tracks(capacity, after, l, [])
  {
    hide Holding;
  }

  /** One stretch of the response after another. */
  lemma ThenTracks(capacity: nat, mid: Work, after: Work, l: Ledger, a: seq<Delta>, b: seq<Delta>)
    requires Tracks(capacity, mid, l, a)
    requires if mid.failed.Some? then after.failed.Some? else Tracks(capacity, after, ApplyAll(l, a), b)
    ensures Tracks(capacity, after, l, a + b)
  {
    hide Holding;
    AcceptedAppend(capacity, l, a, b);
    ApplyAppend(l, a, b);
  }

  /** Something malformed is an error, whatever else there is. */
  lemma MalformedTracks(capacity: nat, after: Work, l: Ledger, b: seq<Delta>)
    requires after.failed.Some?
    ensures Tracks(capacity, after, l, [Malformed] + b)
  {
    hide Holding, Apply;
    OneDelta(capacity, l, Malformed);
    AcceptedAppend(capacity, l, [Malformed], b);
  }

  // Records and patches

  lemma CommitTracks(capacity: nat, w: Work, l: Ledger, peer: Peer)
    requires w.failed.None? && Holding(w.net, l)
    requires w.pending.nodeKey.Some? && Built(w.pending) == peer
    ensures Tracks(capacity, CommitPeer(capacity, w), l, [Put(peer)])
  {
    hide Represents, RegionsAre, AllAccepted, ApplyAll;
    OneDelta(capacity, l, Put(peer));
    if w.net.nodeKey != w.pending.nodeKey {
      RepresentsSize(w.net.peers, l.peers);
      FoundIff(w.net.peers, l.peers, peer.id);
      if Upsert(w.net.peers, peer, capacity).Ok? {
        UpsertRepresents(w.net.peers, l.peers, peer, capacity);
      }
    }
  }

  lemma FoundIff(peers: seq<Peer>, m: map<u64, Peer>, id: u64)
    requires Represents(peers, m)
    ensures Find(peers, id).Some? <==> id in m
  {
  }

  lemma PatchTracks(capacity: nat, w: Work, l: Ledger)
    requires w.failed.None? && Holding(w.net, l)
    ensures Tracks(capacity, ApplyPatch(w), l, [Change(w.pending.id, Collected(w.pending))])
  {
    hide Represents, RegionsAre, AllAccepted, ApplyAll;
    var p := w.pending;
    OneDelta(capacity, l, Change(p.id, Collected(p)));
    FoundIff(w.net.peers, l.peers, p.id);
    var k := Find(w.net.peers, p.id);
    if k.Some? {
      var peer := w.net.peers[k.value];
      FoundIs(w.net.peers, l.peers, k.value);
      assert Patched(peer, p) == Merge(peer, Collected(p));
      PlaceRepresents(w.net.peers, l.peers, k.value, Patched(peer, p));
    }
  }

  lemma FoundIs(peers: seq<Peer>, m: map<u64, Peer>, k: nat)
    requires Represents(peers, m) && k < |peers|
    ensures peers[k].id in m && m[peers[k].id] == peers[k]
  {
  }

  /** A record, from its first member to its end. */
  lemma RecordTracks(env: Env, key: Bytes, v: Json, w: Work, l: Ledger)
    requires Holds(v) && w.failed.None? && Holding(w.net, l)
    ensures Tracks(env.capacity, Visit(env, PeerArray, PeerObject, key, v, w), l, PutOf(env, v))
  {
    hide Holding, Tracks, CommitPeer, RecordOf, VisitFields, Built, Sound, PeerOf;
    var n, begun := Count(v), w.(pending := NoPending());
    RecordReads(env, PeerObject, v, n, begun);
    RecordFaults(env, PeerObject, v, n, begun);
    BuiltIsPeer(env, v);
    var read := VisitFields(env, PeerObject, v, n, begun);
    var put := if PeerOf(env, v).Some? then [Put(PeerOf(env, v).value)] else [];
    if !Sound(env, true, v, n) {
      EndSticks(env.capacity, PeerObject, read);
      MalformedTracks(env.capacity, CommitPeer(env.capacity, read), l, put);
    } else {
      assert PutOf(env, v) == put;
      if PeerOf(env, v).Some? {
        CommitTracks(env.capacity, read, l, PeerOf(env, v).value);
      } else {
        NoKey(env.capacity, read);
        NoDelta(env.capacity, read, l);
      }
    }
  }

  lemma NoKey(capacity: nat, w: Work)
    requires w.pending.nodeKey.None?
    ensures CommitPeer(capacity, w) == w
  {
  }

  lemma PatchRecordTracks(env: Env, key: Bytes, v: Json, w: Work, l: Ledger)
    requires Holds(v) && w.failed.None? && Holding(w.net, l)
    ensures Tracks(env.capacity, Visit(env, PatchArray, PatchObject, key, v, w), l, ChangeOf(env, v))
  {
    hide Holding, Tracks, ApplyPatch, RecordOf, VisitFields, Sound, PatchOf, Collected;
    var n, begun := Count(v), w.(pending := NoPending());
    RecordReads(env, PatchObject, v, n, begun);
    RecordFaults(env, PatchObject, v, n, begun);
    CollectedIsPatch(env, v);
    var read := VisitFields(env, PatchObject, v, n, begun);
    var change := [Change(IdOf(v, n), PatchOf(env, v))];
    if !Sound(env, false, v, n) {
      EndSticks(env.capacity, PatchObject, read);
      MalformedTracks(env.capacity, ApplyPatch(read), l, change);
    } else {
      assert ChangeOf(env, v) == change;
      PatchTracks(env.capacity, read, l);
    }
  }

  // Regions

  lemma RelayTracks(env: Env, name: Bytes, v: Json, w: Work, l: Ledger)
    requires Holds(v) && w.failed.None? && Holding(w.net, l)
    ensures Tracks(env.capacity, Visit(env, DerpRegions, DerpRegionObject, Fitting(name, MAX_KEY), v, w), l,
                   [Relay(RegionOf(name, v, Count(v)))])
  {
    hide Represents, RegionsAre, AllAccepted, ApplyAll, Visit, RegionOf, InsertRegion, Fitting;
    var region := RegionOf(name, v, Count(v));
    OneDelta(env.capacity, l, Relay(region));
    RegionIsInserted(env, name, v, w);
    InsertIs(w.net.derp, l.regions, region);
  }

  // This node's own entry, and removals

  lemma OwnTracks(env: Env, w: Work, l: Ledger, value: Bytes)
    requires w.failed.None? && Holding(w.net, l)
    ensures Tracks(env.capacity, OnSelfString(env, KeyName, w, value), l, [Own(env.nodeKey(value))])
  {
    hide Represents, RegionsAre, AllAccepted, ApplyAll, RemoveAll, Carriers, Carrying;
    var own := env.nodeKey(value);
    OneDelta(env.capacity, l, Own(own));
    OwnRepresents(w.net, l, own);
    if own.Some? {
      CarriersSet(w.net.peers, l.peers, own.value);
    }
  }

  lemma DiscoTracks(env: Env, w: Work, l: Ledger, value: Bytes)
    requires w.failed.None? && Holding(w.net, l)
    ensures Tracks(env.capacity, OnSelfString(env, DiscoKeyName, w, value), l, [OwnDisco(env.discoKey(value))])
  {
    hide Represents, RegionsAre, AllAccepted, ApplyAll;
    OneDelta(env.capacity, l, OwnDisco(env.discoKey(value)));
  }

  lemma AddressTracks(env: Env, key: Bytes, w: Work, l: Ledger, value: Bytes)
    requires w.failed.None? && Holding(w.net, l)
    ensures Tracks(env.capacity, OnString(env, SelfAddresses, key, w, value), l, [OwnAddress(env.cidr(value))])
  {
    hide Represents, RegionsAre, AllAccepted, ApplyAll, NameOf;
    OneDelta(env.capacity, l, OwnAddress(env.cidr(value)));
  }

  lemma DropTracks(capacity: nat, key: Bytes, w: Work, l: Ledger, value: int)
    requires w.failed.None? && Holding(w.net, l)
    ensures Tracks(capacity, OnNumber(RemovedArray, key, w, value), l, [Drop(value % 0x1_0000_0000_0000_0000)])
  {
    hide Represents, RegionsAre, AllAccepted, ApplyAll, NameOf, Remove;
    var id: u64 := value % 0x1_0000_0000_0000_0000;
    OneDelta(capacity, l, Drop(id));
    RemoveRepresents(w.net.peers, l.peers, id);
  }

  // Sections

  function ContextOf(s: Section): Context {
    match s
    case Response => Root
    case OwnNode => SelfNode
    case OwnAddresses => SelfAddresses
    case PeerList => PeerArray
    case PatchList => PatchArray
    case RemovalList => RemovedArray
    case Relays => DerpMapObject
    case RelayList => DerpRegions
  }

  /** The items of a list of records are not told apart by name. */
  predicate OfRecords(s: Section) {
    s == PeerList || s == PatchList || s == RelayList
  }

  lemma InsideIsChild(s: Section, name: Bytes)
    requires !OfRecords(s)
    ensures ChildOf(ContextOf(s), Fitting(name, MAX_KEY))
         == if Inside(s, name).Some? then ContextOf(Inside(s, name).value) else Ignored
  {
    hide NameOf, Fitting, Node, Peers, PeersChanged, Patches, Removed, RelayMap, Addresses, Regions;
    SectionNames(name);
  }

  lemma SectionNames(name: Bytes)
    ensures var k := NameOf(Fitting(name, MAX_KEY));
            && (k == NodeName <==> name in Node())
            && (k == PeersName <==> name in Peers())
            && (k == PeersChangedName <==> name in PeersChanged())
            && (k == PatchName <==> name in Patches())
            && (k == RemovedName <==> name in Removed())
            && (k == DerpMapName <==> name in RelayMap())
            && (k == AddressesName <==> name in Addresses())
            && (k == RegionsName <==> name in Regions())
  {
    hide NameOf, Fitting, Node, Peers, PeersChanged, Patches, Removed, RelayMap, Addresses, Regions;
    NamesAreKept(name);
  }

  lemma OwnNames(name: Bytes)
    ensures NameOf(Fitting(name, MAX_KEY)) == KeyName <==> name in NodeKey()
    ensures NameOf(Fitting(name, MAX_KEY)) == DiscoKeyName <==> name in DiscoKey()
    ensures name in NodeKey() ==> name !in DiscoKey()
  {
    hide NameOf, Fitting, NodeKey, DiscoKey;
    NamesAreKept(name);
  }

  /** A value that is no container. */
  lemma LeafTracks(env: Env, s: Section, name: Bytes, v: Json, w: Work, l: Ledger)
    requires !Holds(v) && w.failed.None? && Holding(w.net, l)
    ensures Tracks(env.capacity, VisitLeaf(env, ContextOf(s), Fitting(name, MAX_KEY), v, w), l,
                   ChildDeltas(env, s, name, v))
  {
    hide Holding, Tracks, NameOf, Fitting, OnSelfString, NodeKey, DiscoKey, Remove;
    var key := Fitting(name, MAX_KEY);
    if s == OwnNode && v.Str? {
      OwnNames(name);
      if name in NodeKey() {
        OwnTracks(env, w, l, v.s);
      } else if name in DiscoKey() {
        DiscoTracks(env, w, l, v.s);
      } else {
        OtherString(env, NameOf(key), w, v.s);
        NoDelta(env.capacity, w, l);
      }
    } else if s == OwnAddresses && v.Str? {
      AddressTracks(env, key, w, l, v.s);
    } else if s == RemovalList && v.Num? {
      DropTracks(env.capacity, key, w, l, v.n);
    } else {
      NoDelta(env.capacity, w, l);
    }
  }

  lemma OtherString(env: Env, name: Name, w: Work, value: Bytes)
    requires name != KeyName && name != DiscoKeyName
    ensures OnSelfString(env, name, w, value) == w
  {
  }

  /** One child of a section. */
  lemma {:induction false} ChildTracks(env: Env, s: Section, name: Bytes, v: Json, w: Work, l: Ledger)
    requires w.failed.None? && Holding(w.net, l)
    ensures var key := Fitting(name, MAX_KEY);
            Tracks(env.capacity, Visit(env, ContextOf(s), ChildOf(ContextOf(s), key), key, v, w), l,
                   ChildDeltas(env, s, name, v))
    decreases v, Count(v) + 1
  {
    hide Holding, Tracks, Visit, VisitLeaf, VisitFields, Fitting, ChildOf, Inside, PutOf, ChangeOf, RegionOf;
    var key, n := Fitting(name, MAX_KEY), Count(v);
    if !Holds(v) {
      LeafVisit(env, ContextOf(s), ChildOf(ContextOf(s), key), key, v, w);
      LeafTracks(env, s, name, v, w, l);
    } else if OfRecords(s) {
      RecordChildTracks(env, s, name, v, w, l);
    } else {
      InsideIsChild(s, name);
      if Inside(s, name).Some? {
        NotTheRoot(s, name);
        SectionVisit(env, ContextOf(s), Inside(s, name).value, key, v, w);
        SectionTracks(env, Inside(s, name).value, v, n, w, l);
      } else {
        IgnoredContainer(env, ContextOf(s), Field(key, v), w);
        NoDelta(env.capacity, w, l);
      }
    }
  }

  lemma LeafVisit(env: Env, ctx: Context, inner: Context, key: Bytes, v: Json, w: Work)
    requires !Holds(v)
    ensures Visit(env, ctx, inner, key, v, w) == VisitLeaf(env, ctx, key, v, w)
  {
    hide VisitLeaf;
  }

  lemma SectionVisit(env: Env, ctx: Context, s: Section, key: Bytes, v: Json, w: Work)
    requires Holds(v) && s != Response
    ensures Visit(env, ctx, ContextOf(s), key, v, w) == VisitFields(env, ContextOf(s), v, Count(v), w)
  {
    hide VisitFields;
  }

  lemma RecordChildTracks(env: Env, s: Section, name: Bytes, v: Json, w: Work, l: Ledger)
    requires OfRecords(s) && Holds(v) && w.failed.None? && Holding(w.net, l)
    ensures var key := Fitting(name, MAX_KEY);
            Tracks(env.capacity, Visit(env, ContextOf(s), ChildOf(ContextOf(s), key), key, v, w), l,
                   ChildDeltas(env, s, name, v))
  {
    hide Holding, Tracks, Visit, Fitting, NameOf, PutOf, ChangeOf, RegionOf;
    match s {
      case PeerList => RecordTracks(env, Fitting(name, MAX_KEY), v, w, l);
      case PatchList => PatchRecordTracks(env, Fitting(name, MAX_KEY), v, w, l);
      case _ => RelayTracks(env, name, v, w, l);
    }
  }

  lemma NotTheRoot(s: Section, name: Bytes)
    requires Inside(s, name).Some?
    ensures Inside(s, name).value != Response
  {
    hide Node, Peers, PeersChanged, Patches, Removed, RelayMap, Addresses, Regions;
  }

  lemma {:induction false} SectionTracks(env: Env, s: Section, v: Json, n: nat, w: Work, l: Ledger)
    requires n <= Count(v) && w.failed.None? && Holding(w.net, l)
    ensures Tracks(env.capacity, VisitFields(env, ContextOf(s), v, n, w), l, Deltas(env, s, v, n))
    decreases v, n
  {
    hide Holding, Visit, ChildOf, ChildDeltas, ContextOf, Fitting;
    if n == 0 {
      NoDelta(env.capacity, w, l);
    } else {
      var ctx, f, before := ContextOf(s), Nth(v, n - 1), Deltas(env, s, v, n - 1);
      var mid := VisitFields(env, ctx, v, n - 1, w);
      SectionTracks(env, s, v, n - 1, w, l);
      NthIs(v, n - 1);
      var after := Visit(env, ctx, ChildOf(ctx, f.key), f.key, f.value, mid);
      if mid.failed.Some? {
        VisitSticks(env, ctx, ChildOf(ctx, f.key), f.key, f.value, mid);
      } else {
        ChildTracks(env, s, NameAt(v, n - 1), f.value, mid, ApplyAll(l, before));
      }
      ThenTracks(env.capacity, mid, after, l, before, ChildDeltas(env, s, NameAt(v, n - 1), f.value));
    }
  }

  lemma FinishTracks(capacity: nat, w: Work, l: Ledger)
    requires w.failed.None? && Holding(w.net, l)
    ensures Tracks(capacity, Ended(capacity, Root, w), l, [Finished])
  {
    hide Represents, RegionsAre, AllAccepted, ApplyAll;
    OneDelta(capacity, l, Finished);
  }

  /**
   One response, token by token: it ends without an error exactly when every one of its deltas
   goes through, and then the netmap is what they make of it.
   */
  lemma ResponseTracks(env: Env, v: Json, net: Net, l: Ledger)
    requires Depth(v) <= env.slots && Holding(net, l)
    ensures Tracks(env.capacity, OnTokens(env, Start(net), Tokens(v)).work, l, ResponseDeltas(env, v))
  {
    hide Holding, Tracks, OnTokens, VisitFields, Deltas, Ended;
    var w := Start(net).work;
    DocumentStreams(env, v, net);
    if Holds(v) {
      var mid := VisitFields(env, Root, v, Count(v), w);
      SectionTracks(env, Response, v, Count(v), w, l);
      TracksMeans(env.capacity, mid, l, Deltas(env, Response, v, Count(v)));
      if mid.failed.Some? {
        EndSticks(env.capacity, Root, mid);
      } else {
        FinishTracks(env.capacity, mid, ApplyAll(l, Deltas(env, Response, v, Count(v))));
      }
      ThenTracks(env.capacity, mid, Ended(env.capacity, Root, mid), l, Deltas(env, Response, v, Count(v)), [Finished]);
    } else {
      NoDelta(env.capacity, w, l);
    }
  }

  lemma TracksMeans(capacity: nat, after: Work, l: Ledger, ds: seq<Delta>)
    requires Tracks(capacity, after, l, ds)
    ensures after.failed.None? ==> Holding(after.net, ApplyAll(l, ds))
    ensures after.failed.None? <==> AllAccepted(capacity, l, ds)
  {
    hide Holding;
  }

  // Streams of responses

  /** The netmap after responses read one after another, each by a fresh parser. */
  function Streamed(env: Env, net: Net, docs: seq<Json>): Net {
    if docs == [] then net
    else OnTokens(env, Start(Streamed(env, net, docs[..|docs| - 1])), Tokens(docs[|docs| - 1])).work.net
  }

  /** Every response finished without an error. */
  predicate AllOk(env: Env, net: Net, docs: seq<Json>) {
    docs == [] ||
    (&& AllOk(env, net, docs[..|docs| - 1])
     && OnTokens(env, Start(Streamed(env, net, docs[..|docs| - 1])), Tokens(docs[|docs| - 1])).work.failed.None?)
  }

  /**
   Any stream of responses: all of them finish without an error exactly when every delta they
   spell out goes through in turn, and the netmap then holds what folding those deltas leaves:
   each peer and each region once under its id, and this node's keys and addresses.
   */
  lemma {:induction false} StreamFolds(env: Env, net: Net, l: Ledger, docs: seq<Json>)
    requires Holding(net, l)
    requires forall i :: 0 <= i < |docs| ==> Depth(docs[i]) <= env.slots
    ensures AllOk(env, net, docs) <==> AllAccepted(env.capacity, l, AllDeltas(env, docs))
    ensures AllOk(env, net, docs) ==> Holding(Streamed(env, net, docs), ApplyAll(l, AllDeltas(env, docs)))
    decreases |docs|
  {
    hide Holding, OnTokens, ResponseDeltas, Tracks;
    if docs != [] {
      var n := |docs| - 1;
      var before, last := AllDeltas(env, docs[..n]), ResponseDeltas(env, docs[n]);
      AcceptedAppend(env.capacity, l, before, last);
      ApplyAppend(l, before, last);
      StreamFolds(env, net, l, docs[..n]);
      if AllOk(env, net, docs[..n]) {
        var mid := Streamed(env, net, docs[..n]);
        ResponseTracks(env, docs[n], mid, ApplyAll(l, before));
        TracksMeans(env.capacity, OnTokens(env, Start(mid), Tokens(docs[n])).work, ApplyAll(l, before), last);
      }
    }
  }

  // This node is never a peer of itself

  /** Ids are unique and no peer carries this node's own key while it is known. */
  predicate SelfFree(net: Net) {
    Distinct(net.peers) && (net.nodeKey.Some? ==> !Carries(net.peers, net.nodeKey.value))
  }

  /** The same of a parser at work, unless the program has ended. */
  predicate SelfFreeSoFar(w: Work) {
    w.failed != Some(Scanner.Panicked) ==> SelfFree(w.net)
  }

  /** A table of unique ids stands for some map. */
  lemma {:induction false} SomeMap(peers: seq<Peer>) returns (m: map<u64, Peer>)
    requires Distinct(peers)
    ensures Represents(peers, m)
  {
    m := map[];
    if peers != [] {
      var n := |peers| - 1;
      m := SomeMap(peers[..n]);
      AppendRepresents(peers[..n], m, peers[n]);
      assert peers[..n] + [peers[n]] == peers;
      m := m[peers[n].id := peers[n]];
    }
  }

  lemma UpsertSelfFree(net: Net, peer: Peer, capacity: nat)
    requires SelfFree(net) && net.nodeKey != Some(peer.nodeKey) && Upsert(net.peers, peer, capacity).Ok?
    ensures SelfFree(net.(peers := Upsert(net.peers, peer, capacity).value))
  {
  }

  lemma RemoveSelfFree(net: Net, id: u64)
    requires SelfFree(net)
    ensures SelfFree(net.(peers := Remove(net.peers, id)))
  {
    var k := Find(net.peers, id);
    if k.Some? {
      var next, n := SwapRemove(net.peers, k.value), |net.peers| - 1;
      assert forall j :: 0 <= j < n ==> next[j] == if j == k.value then net.peers[n] else net.peers[j];
    }
  }

  lemma PatchSelfFree(w: Work)
    requires SelfFree(w.net)
    ensures SelfFree(ApplyPatch(w).net)
  {
  }

  lemma OwnKeySelfFree(net: Net, own: Option<Bytes>)
    requires SelfFree(net)
    ensures SelfFree(TakeOwnKey(net, own))
  {
    if own.Some? {
      var m := SomeMap(net.peers);
      TakenIsGone(net, m, own.value);
    }
  }

  lemma EndSelfFree(capacity: nat, ctx: Context, w: Work)
    requires SelfFreeSoFar(w)
    ensures SelfFreeSoFar(Ended(capacity, ctx, w))
  {
    hide SelfFree, Upsert, InsertRegion;
    if w.failed != Some(Scanner.Panicked) {
      if ctx == PeerObject && w.pending.nodeKey.Some? && w.net.nodeKey != w.pending.nodeKey {
        if Upsert(w.net.peers, Built(w.pending), capacity).Ok? {
          UpsertSelfFree(w.net, Built(w.pending), capacity);
        }
      } else if ctx == PatchObject {
        PatchSelfFree(w);
      }
    }
    OnlyPeersMatter();
  }

  /** Nothing but the peers and the own key matters here. */
  lemma OnlyPeersMatter()
    ensures forall a: Net, b: Net :: a.peers == b.peers && a.nodeKey == b.nodeKey && SelfFree(a) ==> SelfFree(b)
  {
  }

  lemma StringSelfFree(env: Env, ctx: Context, key: Bytes, w: Work, value: Bytes)
    requires SelfFreeSoFar(w)
    ensures SelfFreeSoFar(OnString(env, ctx, key, w, value))
  {
    hide SelfFree, TakeOwnKey, Carriers, NameOf;
    if ctx == SelfNode && NameOf(key) == KeyName && w.failed != Some(Scanner.Panicked) {
      OwnKeySelfFree(w.net, env.nodeKey(value));
    }
    OnlyPeersMatter();
  }

  lemma TokenSelfFree(env: Env, w: World, t: Token)
    requires SelfFreeSoFar(w.work)
    ensures SelfFreeSoFar(OnToken(env, w, t).work)
  {
    hide SelfFree, Ended, OnString, NameOf, ParseU16, Child, Remove;
    match t {
      case EndObject => EndSelfFree(env.capacity, Current(w.stack), w.work);
      case EndArray => EndSelfFree(env.capacity, Current(w.stack), w.work);
      case Text(value) => StringSelfFree(env, Current(w.stack), w.key, w.work, value);
      case Int(value) =>
        if w.work.failed != Some(Scanner.Panicked) {
          RemoveSelfFree(w.work.net, AsU64(value));
        }
      case _ =>
    }
  }

  /** Any tokens at all, well formed or not. */
  lemma {:induction false} TokensSelfFree(env: Env, w: World, tokens: seq<Token>)
    requires SelfFreeSoFar(w.work)
    ensures SelfFreeSoFar(OnTokens(env, w, tokens).work)
    decreases |tokens|
  {
    hide SelfFreeSoFar, OnToken;
    if tokens != [] {
      TokenSelfFree(env, w, tokens[0]);
      TokensSelfFree(env, OnToken(env, w, tokens[0]), tokens[1..]);
    }
  }

  /** The netmap after responses given by their tokens, whether or not they were well formed or finished. */
  function Fed(env: Env, net: Net, responses: seq<seq<Token>>): Net {
    if responses == [] then net
    else
      var n := |responses| - 1;
      OnTokens(env, Start(Fed(env, net, responses[..n])), responses[n]).work.net
  }

  /** None of them ended the program. */
  predicate Survived(env: Env, net: Net, responses: seq<seq<Token>>) {
    responses == [] ||
    (var n := |responses| - 1;
     && Survived(env, net, responses[..n])
     && OnTokens(env, Start(Fed(env, net, responses[..n])), responses[n]).work.failed != Some(Scanner.Panicked))
  }

  /**
   After any responses and at every token of the next one, errors or not: unique ids, and
   no peer with this node's own key while that key is known.
   */
  lemma {:induction false} NeverOwnPeer(env: Env, responses: seq<seq<Token>>, current: seq<Token>)
    requires Survived(env, NoNet(), responses)
    ensures var w := OnTokens(env, Start(Fed(env, NoNet(), responses)), current).work;
            w.failed != Some(Scanner.Panicked) ==>
              && Distinct(w.net.peers)
              && (w.net.nodeKey.Some? ==>
                    forall k :: 0 <= k < |w.net.peers| ==> w.net.peers[k].nodeKey != w.net.nodeKey.value)
    decreases |responses|
  {
    hide OnTokens, Distinct;
    FedSelfFree(env, responses);
    TokensSelfFree(env, Start(Fed(env, NoNet(), responses)), current);
  }

  lemma {:induction false} FedSelfFree(env: Env, responses: seq<seq<Token>>)
    requires Survived(env, NoNet(), responses)
    ensures SelfFree(Fed(env, NoNet(), responses))
    decreases |responses|
  {
    hide OnTokens;
    if responses != [] {
      var n := |responses| - 1;
      FedSelfFree(env, responses[..n]);
      TokensSelfFree(env, Start(Fed(env, NoNet(), responses[..n])), responses[n]);
    }
  }

  // Patches

  predicate Mentions(v: Json, names: set<Bytes>) {
    exists i: nat :: i < Count(v) && NameAt(v, i) in names
  }

  lemma {:induction false} NotMentioned(env: Env, v: Json, n: nat, names: set<Bytes>)
    requires n <= Count(v) && !Mentions(v, names)
    ensures LastNumber(v, n, names).None? && LastBool(v, n, names).None? && Listed(v, n, names) == []
    ensures LastParsed(env.discoKey, v, n, names).None?
    decreases n
  {
    if n > 0 {
      NotMentioned(env, v, n - 1, names);
    }
  }

  /** A patch leaves alone whatever it does not mention, and never moves a key or an address. */
  lemma PatchChangesOnlyMentioned(env: Env, v: Json, peer: Peer)
    ensures var after := Merge(peer, PatchOf(env, v));
            && after == peer.(online := after.online, homeDerp := after.homeDerp, discoKey := after.discoKey,
                endpoints := after.endpoints)
            && (!Mentions(v, {Ascii("Online")}) ==> after.online == peer.online)
            && (!Mentions(v, {Ascii("HomeDERP"), Ascii("DERPRegion")}) ==> after.homeDerp == peer.homeDerp)
            && (!Mentions(v, {Ascii("DiscoKey")}) ==> after.discoKey == peer.discoKey)
            && (Listed(v, Count(v), {Ascii("Endpoints")}) == [] ==> after.endpoints == peer.endpoints)
            && (Listed(v, Count(v), {Ascii("Endpoints")}) != [] ==> after.endpoints == EndpointsOf(env, v))
  {
    hide Mentions, Keep, Parsed, Listed, Ascii;
    if !Mentions(v, Online()) {
      NotMentioned(env, v, Count(v), Online());
    }
    if !Mentions(v, HomeRegion()) {
      NotMentioned(env, v, Count(v), HomeRegion());
    }
    if !Mentions(v, DiscoKey()) {
      NotMentioned(env, v, Count(v), DiscoKey());
    }
  }

  // This node's own addresses

  function AddressDeltas(addresses: seq<Bytes>): seq<Delta> {
    if addresses == [] then []
    else AddressDeltas(addresses[..|addresses| - 1]) + [OwnAddress(Some(addresses[|addresses| - 1]))]
  }

  /** Addresses are only ever added, up to four: an account of this node goes behind the earlier ones. */
  lemma {:induction false} AddressesAccumulate(l: Ledger, more: seq<Bytes>)
    requires |l.addresses| <= 4
    ensures ApplyAll(l, AddressDeltas(more)) == l.(addresses := Keep(l.addresses + more, 4))
  {
    hide Apply, Keep;
    if more == [] {
      assert l.addresses + more == l.addresses;
      KeepAll(l.addresses);
    } else {
      var n := |more| - 1;
      var ds, last := AddressDeltas(more[..n]), OwnAddress(Some(more[n]));
      AddressesAccumulate(l, more[..n]);
      assert (ds + [last])[..|ds|] == ds;
      AddressApplied(ApplyAll(l, ds), l.addresses + more[..n], more[n]);
      assert l.addresses + more[..n] + [more[n]] == l.addresses + more;
    }
  }

  lemma KeepAll(s: seq<Bytes>)
    requires |s| <= 4
    ensures Keep(s, 4) == s
  {
  }

  lemma AddressApplied(l: Ledger, s: seq<Bytes>, x: Bytes)
    requires l.addresses == Keep(s, 4)
    ensures Apply(l, OwnAddress(Some(x))) == l.(addresses := Keep(s + [x], 4))
  {
  }

  /** A response that gives this node one address. */
  function Account(address: Bytes): Json {
    Obj([Member(Ascii("Node"), Obj([Member(Ascii("Addresses"), Arr([Str(address)]))]))])
  }

  lemma AccountDeltas(env: Env, address: Bytes)
    ensures ResponseDeltas(env, Account(address)) == [OwnAddress(env.cidr(address)), Finished]
  {
    hide Ascii, ApplyAll;
    var list := Arr([Str(address)]);
    var own := Obj([Member(Ascii("Addresses"), list)]);
    assert Deltas(env, OwnAddresses, list, 0) == [];
    assert Deltas(env, OwnAddresses, list, 1) == [OwnAddress(env.cidr(address))];
    assert Inside(OwnNode, NameAt(own, 0)) == Some(OwnAddresses);
    assert Deltas(env, OwnNode, own, 0) == [];
    assert Deltas(env, OwnNode, own, 1) == [OwnAddress(env.cidr(address))];
    assert Inside(Response, NameAt(Account(address), 0)) == Some(OwnNode);
    assert Deltas(env, Response, Account(address), 0) == [];
    assert Deltas(env, Response, Account(address), 1) == [OwnAddress(env.cidr(address))];
  }

  /** So a node whose address changes keeps the old one first. */
  lemma StaleAddressStays(env: Env, a: Bytes, b: Bytes)
    requires env.slots >= 3 && env.cidr(a).Some? && env.cidr(b).Some?
    ensures Streamed(env, NoNet(), [Account(a), Account(b)]).addresses == [env.cidr(a).value, env.cidr(b).value]
  {
    var docs, l := [Account(a), Account(b)], NoLedger();
    AccountDepth(a);
    AccountDepth(b);
    assert Holding(NoNet(), l);
    hide Account, Streamed, AllOk, AllDeltas, AllAccepted, ApplyAll, Holding;
    StreamFolds(env, NoNet(), l, docs);
    AccountsApply(env, l, a, b);
    SameAddresses(Streamed(env, NoNet(), docs), ApplyAll(l, AllDeltas(env, docs)));
  }

  lemma AccountsApply(env: Env, l: Ledger, a: Bytes, b: Bytes)
    requires l.addresses == [] && env.cidr(a).Some? && env.cidr(b).Some?
    ensures var ds := AllDeltas(env, [Account(a), Account(b)]);
            AllAccepted(env.capacity, l, ds) && ApplyAll(l, ds).addresses == [env.cidr(a).value, env.cidr(b).value]
  {
    hide Account, AllDeltas, ResponseDeltas, AllAccepted, ApplyAll;
    TwoResponses(env, Account(a), Account(b));
    AccountDeltas(env, a);
    AccountDeltas(env, b);
    var one, two := [OwnAddress(env.cidr(a)), Finished], [OwnAddress(env.cidr(b)), Finished];
    AcceptedAppend(env.capacity, l, one, two);
    ApplyAppend(l, one, two);
    AddressGoesThrough(env.capacity, l, env.cidr(a).value);
    AddressGoesThrough(env.capacity, ApplyAll(l, one), env.cidr(b).value);
  }

  lemma SameAddresses(net: Net, l: Ledger)
    requires Holding(net, l)
    ensures net.addresses == l.addresses
  {
  }

  lemma TwoResponses(env: Env, u: Json, v: Json)
    ensures AllDeltas(env, [u, v]) == ResponseDeltas(env, u) + ResponseDeltas(env, v)
  {
    hide ResponseDeltas;
    var docs := [u, v];
    assert docs[..1] == [u] && docs[..1][..0] == [];
    assert AllDeltas(env, docs[..1][..0]) == [];
    assert AllDeltas(env, docs[..1]) == ResponseDeltas(env, u);
  }

  lemma AccountDepth(address: Bytes)
    ensures Depth(Account(address)) == 3
  {
    hide Ascii;
    var list := Arr([Str(address)]);
    var own := Obj([Member(Ascii("Addresses"), list)]);
    assert ItemsDepth(list.items, 0) == 0 && Depth(list.items[0]) == 0;
    assert Depth(list) == 1;
    assert MembersDepth(own.members, 0) == 0 && Depth(own) == 2;
    assert MembersDepth(Account(address).members, 0) == 0;
  }

  lemma AddressGoesThrough(capacity: nat, l: Ledger, address: Bytes)
    requires |l.addresses| < 4
    ensures var ds := [OwnAddress(Some(address)), Finished];
            AllAccepted(capacity, l, ds) && ApplyAll(l, ds).addresses == l.addresses + [address]
  {
    var one, two := [OwnAddress(Some(address))], [Finished];
    OneDelta(capacity, l, one[0]);
    OneDelta(capacity, ApplyAll(l, one), Finished);
    AcceptedAppend(capacity, l, one, two);
    ApplyAppend(l, one, two);
    assert one + two == [OwnAddress(Some(address)), Finished];
  }
}
