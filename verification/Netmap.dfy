/** The netmap parser: a stack of contexts that gives each token its meaning. */
module Netmap {
  import opened Common
  import opened Json
  import Scanner

  type Bytes = seq<byte>

  const MAX_ADDRESSES := 4
  const MAX_ALLOWED_IPS := 8
  const MAX_ENDPOINTS := 8
  const MAX_DERP_REGIONS := 8
  const MAX_DERP_NODES := 4
  const MAX_KEY := 64
  const MAX_CODE := 16
  const MAX_HOST := 64
  const MAX_OWN := 4
  const DEFAULT_DERP_PORT: u16 := 443

  type Error = Scanner.Error

  /**
   * What the parser takes from elsewhere: the text forms of keys and addresses, the room in
   * the peer table and the slots of the context stack.
   */
  datatype Env = Env(
    nodeKey: Bytes -> Option<Bytes>,
    discoKey: Bytes -> Option<Bytes>,
    cidr: Bytes -> Option<Bytes>,
    socket: Bytes -> Option<Bytes>,
    capacity: nat,
    slots: nat)

  datatype Context =
    | Root
    | SelfNode
    | PeerArray
    | PeerObject
    | PeerAddresses
    | PeerAllowedIps
    | PeerEndpoints
    | SelfAddresses
    | PatchArray
    | PatchObject
    | PatchEndpoints
    | RemovedArray
    | DerpMapObject
    | DerpRegions
    | DerpRegionObject
    | DerpNodes
    | DerpNodeObject
    | Ignored

  /** The member names the parser knows. */
  datatype Name =
    | NodeName
    | PeersName
    | PeersChangedName
    | PatchName
    | RemovedName
    | DerpMapName
    | AddressesName
    | AllowedIpsName
    | EndpointsName
    | RegionsName
    | NodesName
    | KeyName
    | DiscoKeyName
    | IdName
    | HomeDerpName
    | RegionCodeName
    | RegionIdName
    | HostName
    | DerpPortName
    | StunPortName
    | OnlineName
    | OtherName

  function NameOf(key: Bytes): Name {
    if key == Ascii("Node") then NodeName
    else if key == Ascii("Peers") then PeersName
    else if key == Ascii("PeersChanged") then PeersChangedName
    else if key == Ascii("PeersChangedPatch") then PatchName
    else if key == Ascii("PeersRemoved") then RemovedName
    else if key == Ascii("DERPMap") then DerpMapName
    else if key == Ascii("Addresses") then AddressesName
    else if key == Ascii("AllowedIPs") then AllowedIpsName
    else if key == Ascii("Endpoints") then EndpointsName
    else if key == Ascii("Regions") then RegionsName
    else if key == Ascii("Nodes") then NodesName
    else if key == Ascii("Key") then KeyName
    else if key == Ascii("DiscoKey") then DiscoKeyName
    else if key == Ascii("ID") || key == Ascii("NodeID") then IdName
    else if key == Ascii("HomeDERP") || key == Ascii("DERPRegion") then HomeDerpName
    else if key == Ascii("RegionCode") then RegionCodeName
    else if key == Ascii("RegionID") then RegionIdName
    else if key == Ascii("HostName") then HostName
    else if key == Ascii("DERPPort") then DerpPortName
    else if key == Ascii("STUNPort") then StunPortName
    else if key == Ascii("Online") then OnlineName
    else OtherName
  }

  datatype Peer = Peer(
    id: u64,
    nodeKey: Bytes,
    discoKey: Option<Bytes>,
    online: bool,
    homeDerp: u16,
    addresses: seq<Bytes>,
    allowedIps: seq<Bytes>,
    endpoints: seq<Bytes>)

  datatype DerpNode = DerpNode(host: Bytes, port: u16, stun: u16)

  datatype DerpRegion = DerpRegion(id: u16, code: Bytes, nodes: seq<DerpNode>)

  datatype Net = Net(
    peers: seq<Peer>,
    derp: seq<DerpRegion>,
    nodeKey: Option<Bytes>,
    discoKey: Option<Bytes>,
    addresses: seq<Bytes>,
    responses: nat)

  /** A peer being built, or a patch being collected. */
  datatype Pending = Pending(
    id: u64,
    nodeKey: Option<Bytes>,
    discoKey: Option<Bytes>,
    online: Option<bool>,
    homeDerp: Option<u16>,
    addresses: seq<Bytes>,
    allowedIps: seq<Bytes>,
    endpoints: seq<Bytes>,
    endpointsPresent: bool)

  datatype Region = Region(id: u16, code: Bytes, nodes: seq<DerpNode>, host: Bytes, port: u16, stun: u16)

  /** Everything a value can touch. */
  datatype Work = Work(pending: Pending, region: Region, failed: Option<Error>, net: Net)

  /** The parser between tokens: where it is, the name last seen, and its work. */
  datatype World = World(stack: seq<Context>, key: Bytes, work: Work)

  function NoPending(): Pending {
    Pending(0, None, None, None, None, [], [], [], false)
  }

  function NoRegion(): Region {
    Region(0, [], [], [], 0, 0)
  }

  function NoNet(): Net {
    Net([], [], None, None, [], 0)
  }

  /** A new parser over a netmap that carries on. */
  function Start(net: Net): World {
    World([], [], Work(NoPending(), NoRegion(), None, net))
  }

  /** The first error is the one that is kept. */
  function Fail(w: Work, e: Error): Work {
    if w.failed.Some? then w else w.(failed := Some(e))
  }

  /** Bounded text: too long is nothing. */
  function Fitting(s: Bytes, room: nat): Bytes {
    if |s| <= room then s else []
  }

  /** Bounded vectors: what does not fit is dropped. */
  function Pushed<T>(s: seq<T>, x: T, room: nat): seq<T> {
    if |s| < room then s + [x] else s
  }

  function AsU64(n: int): u64 {
    n % 0x1_0000_0000_0000_0000
  }

  function AsU16(n: int): u16 {
    n % 0x1_0000
  }

  /** `str::parse::<u16>`, with zero for what it refuses. */
  function ParseU16(s: Bytes): u16 {
    var digits := if s != [] && s[0] == 0x2B then s[1..] else s;
    if digits == [] || !Scanner.AllDigits(digits) then 0
    else if Scanner.DigitsValue(digits) < 0x1_0000 then Scanner.DigitsValue(digits)
    else 0
  }

  // The peer table

  function Find(peers: seq<Peer>, id: u64): (k: Option<nat>)
    ensures k.Some? ==> k.value < |peers| && peers[k.value].id == id
    ensures k.Some? ==> forall j :: 0 <= j < k.value ==> peers[j].id != id
    ensures k.None? ==> forall j :: 0 <= j < |peers| ==> peers[j].id != id
  {
    FindFrom(peers, id, 0)
  }

  function FindFrom(peers: seq<Peer>, id: u64, from: nat): (k: Option<nat>)
    requires from <= |peers|
    ensures k.Some? ==> from <= k.value < |peers| && peers[k.value].id == id
    ensures k.Some? ==> forall j :: from <= j < k.value ==> peers[j].id != id
    ensures k.None? ==> forall j :: from <= j < |peers| ==> peers[j].id != id
    decreases |peers| - from
  {
    if from == |peers| then None
    else if peers[from].id == id then Some(from)
    else FindFrom(peers, id, from + 1)
  }

  /** Insert or replace; a full table refuses. */
  function Upsert(peers: seq<Peer>, peer: Peer, capacity: nat): Result<seq<Peer>, Error> {
    var k := Find(peers, peer.id);
    if k.Some? then Ok(peers[k.value := peer])
    else if |peers| < capacity then Ok(peers + [peer])
    else Err(Scanner.Full)
  }

  /** The last peer takes the place of the one that goes. */
  function SwapRemove(peers: seq<Peer>, k: nat): seq<Peer>
    requires k < |peers|
  {
    peers[k := peers[|peers| - 1]][..|peers| - 1]
  }

  function Remove(peers: seq<Peer>, id: u64): seq<Peer> {
    var k := Find(peers, id);
    if k.None? then peers else SwapRemove(peers, k.value)
  }

  function RemoveAll(peers: seq<Peer>, ids: seq<u64>): seq<Peer>
    decreases |ids|
  {
    if ids == [] then peers else RemoveAll(Remove(peers, ids[0]), ids[1..])
  }

  /** The ids of the records that carry a key, in table order. */
  function Carriers(peers: seq<Peer>, key: Bytes): seq<u64> {
    if peers == [] then []
    else
      var n := |peers| - 1;
      Carriers(peers[..n], key) + if peers[n].nodeKey == key then [peers[n].id] else []
  }

  /** This node's own key: the records that carry it leave the table. */
  function TakeOwnKey(net: Net, own: Option<Bytes>): Net {
    var known := net.(nodeKey := own);
    if own.None? then known else known.(peers := RemoveAll(net.peers, Carriers(net.peers, own.value)))
  }

  /** Their ids are collected into a vector of four, which panics on a fifth. */
  predicate Overflows(net: Net, own: Option<Bytes>) {
    own.Some? && |Carriers(net.peers, own.value)| > MAX_OWN
  }

  // Starts and ends

  function Current(stack: seq<Context>): Context {
    if stack == [] then Ignored else stack[|stack| - 1]
  }

  /** What a container opened under a name inside a context is. */
  function ChildOf(parent: Context, key: Bytes): Context {
    var name := NameOf(key);
    match parent
    case Root =>
      (match name
       case NodeName => SelfNode
       case PeersName => PeerArray
       case PeersChangedName => PeerArray
       case PatchName => PatchArray
       case RemovedName => RemovedArray
       case DerpMapName => DerpMapObject
       case _ => Ignored)
    case SelfNode => if name == AddressesName then SelfAddresses else Ignored
    case PeerArray => PeerObject
    case PeerObject =>
      (match name
       case AddressesName => PeerAddresses
       case AllowedIpsName => PeerAllowedIps
       case EndpointsName => PeerEndpoints
       case _ => Ignored)
    case PatchArray => PatchObject
    case PatchObject => if name == EndpointsName then PatchEndpoints else Ignored
    case DerpMapObject => if name == RegionsName then DerpRegions else Ignored
    case DerpRegions => DerpRegionObject
    case DerpRegionObject => if name == NodesName then DerpNodes else Ignored
    case DerpNodes => DerpNodeObject
    case _ => Ignored
  }

  function Child(stack: seq<Context>, key: Bytes): Context {
    if stack == [] then Root else ChildOf(Current(stack), key)
  }

  function Began(ctx: Context, key: Bytes, w: Work): Work {
    match ctx
    case PeerObject => w.(pending := NoPending())
    case PatchObject => w.(pending := NoPending())
    case DerpRegionObject => w.(region := NoRegion().(id := ParseU16(key)))
    case DerpNodeObject => w.(region := w.region.(host := [], port := DEFAULT_DERP_PORT, stun := 0))
    case _ => w
  }

  function Built(p: Pending): Peer
    requires p.nodeKey.Some?
  {
    Peer(p.id, p.nodeKey.value, p.discoKey, p.online.Some? && p.online.value,
        if p.homeDerp.Some? then p.homeDerp.value else 0,
         p.addresses, p.allowedIps, p.endpoints)
  }

  /** A record without a key names nothing, and this node is no peer of itself. */
  function CommitPeer(capacity: nat, w: Work): Work {
    if w.pending.nodeKey.None? || w.net.nodeKey == w.pending.nodeKey then w
    else
      var r := Upsert(w.net.peers, Built(w.pending), capacity);
      if r.Err? then Fail(w, r.error) else w.(net := w.net.(peers := r.value))
  }

  /** Only what the patch mentioned. */
  function Patched(peer: Peer, p: Pending): Peer {
    peer.(online := if p.online.Some? then p.online.value else peer.online,
          homeDerp := if p.homeDerp.Some? then p.homeDerp.value else peer.homeDerp,
          discoKey := if p.discoKey.Some? then p.discoKey else peer.discoKey,
          endpoints := if p.endpointsPresent then p.endpoints else peer.endpoints)
  }

  function ApplyPatch(w: Work): Work {
    var k := Find(w.net.peers, w.pending.id);
    if k.None? then w
    else w.(net := w.net.(peers := w.net.peers[k.value := Patched(w.net.peers[k.value], w.pending)]))
  }

  function InsertRegion(regions: seq<DerpRegion>, region: DerpRegion): Result<seq<DerpRegion>, Error> {
    var k := FindRegion(regions, region.id, 0);
    if k.Some? then Ok(regions[k.value := region])
    else if |regions| < MAX_DERP_REGIONS then Ok(regions + [region])
    else Err(Scanner.Full)
  }

  function FindRegion(regions: seq<DerpRegion>, id: u16, from: nat): (k: Option<nat>)
    requires from <= |regions|
    ensures k.Some? ==> from <= k.value < |regions| && regions[k.value].id == id
    ensures k.None? ==> forall j :: from <= j < |regions| ==> regions[j].id != id
    decreases |regions| - from
  {
    if from == |regions| then None
    else if regions[from].id == id then Some(from)
    else FindRegion(regions, id, from + 1)
  }

  function EndRegion(w: Work): Work {
    var r := InsertRegion(w.net.derp, DerpRegion(w.region.id, w.region.code, w.region.nodes));
    var taken := w.(region := w.region.(nodes := []));
    if r.Err? then Fail(taken, r.error) else taken.(net := w.net.(derp := r.value))
  }

  function Ended(capacity: nat, ctx: Context, w: Work): Work {
    match ctx
    case PeerObject => CommitPeer(capacity, w)
    case PatchObject => ApplyPatch(w)
    case DerpNodeObject =>
      w.(region := w.region.(nodes := Pushed(w.region.nodes, DerpNode(w.region.host, w.region.port, w.region.stun),
          MAX_DERP_NODES)))
    case DerpRegionObject => EndRegion(w)
    case Root => w.(net := w.net.(responses := w.net.responses + 1))
    case _ => w
  }

  // Values

  function OnSelfString(env: Env, name: Name, w: Work, value: Bytes): Work {
    match name
    case KeyName =>
      var own := env.nodeKey(value);
      if Overflows(w.net, own) then w.(net := w.net.(nodeKey := own), failed := Some(Scanner.Panicked))
      else w.(net := TakeOwnKey(w.net, own))
    case DiscoKeyName => w.(net := w.net.(discoKey := env.discoKey(value)))
    case _ => w
  }

  function OnRecordString(env: Env, name: Name, w: Work, value: Bytes): Work {
    match name
    case KeyName =>
      var parsed := env.nodeKey(value);
      if parsed.Some? then w.(pending := w.pending.(nodeKey := parsed)) else Fail(w, Scanner.Malformed)
    case DiscoKeyName =>
      var parsed := env.discoKey(value);
      if parsed.Some? then w.(pending := w.pending.(discoKey := parsed)) else Fail(w, Scanner.Malformed)
    case _ => w
  }

  /** An endpoint that does not parse is one path lost, not a broken netmap. */
  function OnEndpoint(env: Env, p: Pending, value: Bytes): Pending {
    var parsed := env.socket(value);
    p.(endpointsPresent := true,
       endpoints := if parsed.Some? then Pushed(p.endpoints, parsed.value, MAX_ENDPOINTS) else p.endpoints)
  }

  function OnString(env: Env, ctx: Context, key: Bytes, w: Work, value: Bytes): Work {
    match ctx
    case SelfNode => OnSelfString(env, NameOf(key), w, value)
    case SelfAddresses =>
      var parsed := env.cidr(value);
      if parsed.None? then Fail(w, Scanner.Malformed)
      else w.(net := w.net.(addresses := Pushed(w.net.addresses, parsed.value, MAX_ADDRESSES)))
    case PeerObject => OnRecordString(env, NameOf(key), w, value)
    case PatchObject => OnRecordString(env, NameOf(key), w, value)
    case PeerAddresses =>
      var parsed := env.cidr(value);
      if parsed.None? then Fail(w, Scanner.Malformed)
      else w.(pending := w.pending.(addresses := Pushed(w.pending.addresses, parsed.value, MAX_ADDRESSES)))
    case PeerAllowedIps =>
      var parsed := env.cidr(value);
      if parsed.None? then Fail(w, Scanner.Malformed)
      else w.(pending := w.pending.(allowedIps := Pushed(w.pending.allowedIps, parsed.value, MAX_ALLOWED_IPS)))
    case PeerEndpoints => w.(pending := OnEndpoint(env, w.pending, value))
    case PatchEndpoints => w.(pending := OnEndpoint(env, w.pending, value))
    case DerpRegionObject =>
      if NameOf(key) == RegionCodeName then w.(region := w.region.(code := Fitting(value, MAX_CODE))) else w
    case DerpNodeObject =>
      if NameOf(key) == HostName then w.(region := w.region.(host := Fitting(value, MAX_HOST))) else w
    case _ => w
  }

  function OnNumber(ctx: Context, key: Bytes, w: Work, value: int): Work {
    var name := NameOf(key);
    match ctx
    case PeerObject => w.(pending := OnRecordNumber(name, w.pending, value))
    case PatchObject => w.(pending := OnRecordNumber(name, w.pending, value))
    case RemovedArray => w.(net := w.net.(peers := Remove(w.net.peers, AsU64(value))))
    case DerpRegionObject => if name == RegionIdName then w.(region := w.region.(id := AsU16(value))) else w
    case DerpNodeObject =>
      if name == DerpPortName then w.(region := w.region.(port := AsU16(value)))
      else if name == StunPortName then w.(region := w.region.(stun := AsU16(value)))
      else w
    case _ => w
  }

  function OnRecordNumber(name: Name, p: Pending, value: int): Pending {
    match name
    case IdName => p.(id := AsU64(value))
    case HomeDerpName => p.(homeDerp := Some(AsU16(value)))
    case _ => p
  }

  function OnBool(ctx: Context, key: Bytes, w: Work, value: bool): Work {
    if (ctx == PeerObject || ctx == PatchObject) && NameOf(key) == OnlineName
    then w.(pending := w.pending.(online := Some(value)))
    else w
  }

  // Tokens

  function OnStart(env: Env, w: World): World {
    var ctx := Child(w.stack, w.key);
    var work := Began(ctx, w.key, w.work);
    if |w.stack| < env.slots then World(w.stack + [ctx], [], work) else World(w.stack, [], Fail(work, Scanner.Full))
  }

  function OnEnd(env: Env, w: World): World {
    if w.stack == [] then World([], [], Ended(env.capacity, Ignored, w.work))
    else World(w.stack[..|w.stack| - 1], [], Ended(env.capacity, Current(w.stack), w.work))
  }

  function OnToken(env: Env, w: World, t: Token): World {
    var ctx := Current(w.stack);
    match t
    case StartObject => OnStart(env, w)
    case StartArray => OnStart(env, w)
    case EndObject => OnEnd(env, w)
    case EndArray => OnEnd(env, w)
    case Key(name) => w.(key := Fitting(name, MAX_KEY))
    case Text(value) => World(w.stack, [], OnString(env, ctx, w.key, w.work, value))
    case Int(value) => World(w.stack, [], OnNumber(ctx, w.key, w.work, value))
    case Truth(value) => World(w.stack, [], OnBool(ctx, w.key, w.work, value))
    case Nothing => w.(key := [])
  }

  function OnTokens(env: Env, w: World, tokens: seq<Token>): World
    decreases |tokens|
  {
    if tokens == [] then w else OnTokens(env, OnToken(env, w, tokens[0]), tokens[1..])
  }

  lemma {:induction false} OnTokensAppend(env: Env, w: World, a: seq<Token>, b: seq<Token>)
    ensures OnTokens(env, w, a + b) == OnTokens(env, OnTokens(env, w, a), b)
    decreases |a|
  {
    hide OnToken;
    if a == [] {
      assert a + b == b;
    } else {
      assert (a + b)[1..] == a[1..] + b;
      OnTokensAppend(env, OnToken(env, w, a[0]), a[1..], b);
    }
  }
}
