/**
 What a response says, read off its members by name: records, patches, relay regions and
 this node's own entry. Nothing here refers to the parser.
 */
module NetmapReading {
  import opened Common
  import opened Json
  import opened Netmap
  import opened NetmapNames
  import opened NetmapTree
  import JsonReading
  import Scanner

  // The children of a container, under their own names; the items of an array have none

  function NameAt(v: Json, i: nat): Bytes
    requires i < Count(v)
  {
    if v.Obj? then v.members[i].name else []
  }

  function ValueAt(v: Json, i: nat): (r: Json)
    requires i < Count(v)
    ensures r < v
  {
    if v.Obj? then v.members[i].value else v.items[i]
  }

  // Members by name: the last one counts, lists are concatenated

  function LastNumber(v: Json, n: nat, names: set<Bytes>): Option<int>
    requires n <= Count(v)
    decreases n
  {
    if n == 0 then None
    else if ValueAt(v, n - 1).Num? && NameAt(v, n - 1) in names then Some(ValueAt(v, n - 1).n)
    else LastNumber(v, n - 1, names)
  }

  function LastBool(v: Json, n: nat, names: set<Bytes>): Option<bool>
    requires n <= Count(v)
    decreases n
  {
    if n == 0 then None
    else if ValueAt(v, n - 1).Bool? && NameAt(v, n - 1) in names then Some(ValueAt(v, n - 1).b)
    else LastBool(v, n - 1, names)
  }

  function LastText(v: Json, n: nat, names: set<Bytes>): Option<Bytes>
    requires n <= Count(v)
    decreases n
  {
    if n == 0 then None
    else if ValueAt(v, n - 1).Str? && NameAt(v, n - 1) in names then Some(ValueAt(v, n - 1).s)
    else LastText(v, n - 1, names)
  }

  /** The last text under a name that parses. */
  function LastParsed(parse: Bytes -> Option<Bytes>, v: Json, n: nat, names: set<Bytes>): Option<Bytes>
    requires n <= Count(v)
    decreases n
  {
    if n == 0 then None
    else
      var f := ValueAt(v, n - 1);
      if f.Str? && NameAt(v, n - 1) in names && parse(f.s).Some? then parse(f.s)
      else LastParsed(parse, v, n - 1, names)
  }

  /** The strings directly inside a container. */
  function StringsOf(v: Json, n: nat): seq<Bytes>
    requires n <= Count(v)
    decreases n
  {
    if n == 0 then []
    else StringsOf(v, n - 1) + if ValueAt(v, n - 1).Str? then [ValueAt(v, n - 1).s] else []
  }

  /** All strings listed under a name. */
  function Listed(v: Json, n: nat, names: set<Bytes>): seq<Bytes>
    requires n <= Count(v)
    decreases n
  {
    if n == 0 then []
    else
      var f := ValueAt(v, n - 1);
      Listed(v, n - 1, names) + if Holds(f) && NameAt(v, n - 1) in names then StringsOf(f, Count(f)) else []
  }

  /** What parses, in order. */
  function Parsed(parse: Bytes -> Option<Bytes>, s: seq<Bytes>): seq<Bytes> {
    if s == [] then []
    else
      var last := parse(s[|s| - 1]);
      Parsed(parse, s[..|s| - 1]) + if last.Some? then [last.value] else []
  }

  function Keep<T>(s: seq<T>, room: nat): seq<T> {
    if |s| <= room then s else s[..room]
  }

  // Records and patches

  function IdOf(v: Json, n: nat): u64
    requires n <= Count(v)
  {
    var id := LastNumber(v, n, Id());
    if id.Some? then id.value % 0x1_0000_0000_0000_0000 else 0
  }

  function HomeOf(v: Json, n: nat): Option<u16>
    requires n <= Count(v)
  {
    var derp := LastNumber(v, n, HomeRegion());
    if derp.Some? then Some(derp.value % 0x1_0000) else None
  }

  function EndpointsOf(env: Env, v: Json): seq<Bytes> {
    Keep(Parsed(env.socket, Listed(v, Count(v), Endpoints())), 8)
  }

  /** The peer a record describes; without a key it names nothing. */
  function PeerOf(env: Env, v: Json): Option<Peer> {
    var n := Count(v);
    var key := LastParsed(env.nodeKey, v, n, NodeKey());
    if key.None? then None
    else
      Some(Peer(
             IdOf(v, n),
             key.value,
             LastParsed(env.discoKey, v, n, DiscoKey()),
             LastBool(v, n, Online()) == Some(true),
             if HomeOf(v, n).Some? then HomeOf(v, n).value else 0,
             Keep(Parsed(env.cidr, Listed(v, n, Addresses())), 4),
             Keep(Parsed(env.cidr, Listed(v, n, AllowedIps())), 8),
             EndpointsOf(env, v)))
  }

  /** The fields a patch mentions; an empty list of endpoints is no mention. */
  datatype Patch = Patch(online: Option<bool>, homeDerp: Option<u16>, discoKey: Option<Bytes>,
                         endpoints: Option<seq<Bytes>>)

  function PatchOf(env: Env, v: Json): Patch {
    var n := Count(v);
    Patch(
      LastBool(v, n, Online()),
      HomeOf(v, n),
      LastParsed(env.discoKey, v, n, DiscoKey()),
      if Listed(v, n, Endpoints()) == [] then None else Some(EndpointsOf(env, v)))
  }

  predicate AllParse(parse: Bytes -> Option<Bytes>, s: seq<Bytes>) {
    forall i :: 0 <= i < |s| ==> parse(s[i]).Some?
  }

  /** A member without a malformed key or, in a whole record, a malformed address. */
  predicate MemberSound(env: Env, whole: bool, name: Bytes, v: Json) {
    && (v.Str? && name in NodeKey() ==> env.nodeKey(v.s).Some?)
    && (v.Str? && name in DiscoKey() ==> env.discoKey(v.s).Some?)
    && (whole && Holds(v) && (name in Addresses() || name in AllowedIps()) ==>
          AllParse(env.cidr, StringsOf(v, Count(v))))
  }

  predicate Sound(env: Env, whole: bool, v: Json, n: nat)
    requires n <= Count(v)
  {
    forall i: nat :: i < n ==> MemberSound(env, whole, NameAt(v, i), ValueAt(v, i))
  }

  // Relay regions

  function NodeOf(v: Json, n: nat): DerpNode
    requires n <= Count(v)
  {
    var host, port, stun := LastText(v, n, Host()), LastNumber(v, n, RelayPort()),
        LastNumber(v, n, StunPort());
    DerpNode(
      if host.Some? && |host.value| <= 64 then host.value else [],
      if port.Some? then port.value % 0x1_0000 else 443,
      if stun.Some? then stun.value % 0x1_0000 else 0)
  }

  /** The nodes directly inside a container. */
  function NodesIn(v: Json, n: nat): seq<DerpNode>
    requires n <= Count(v)
    decreases n
  {
    if n == 0 then []
    else
      var f := ValueAt(v, n - 1);
      NodesIn(v, n - 1) + if Holds(f) then [NodeOf(f, Count(f))] else []
  }

  function NodesOf(v: Json, n: nat): seq<DerpNode>
    requires n <= Count(v)
    decreases n
  {
    if n == 0 then []
    else
      var f := ValueAt(v, n - 1);
      NodesOf(v, n - 1) + if Holds(f) && NameAt(v, n - 1) in Nodes() then NodesIn(f, Count(f)) else []
  }

  /** A region under its member name, which is its id unless a member says otherwise. */
  function RegionOf(name: Bytes, v: Json, n: nat): DerpRegion
    requires n <= Count(v)
  {
    var id, code := LastNumber(v, n, RegionId()), LastText(v, n, RegionCode());
    DerpRegion(
      if id.Some? then id.value % 0x1_0000 else if |name| <= 64 then ParseU16(name) else 0,
      if code.Some? && |code.value| <= 16 then code.value else [],
      Keep(NodesOf(v, n), 4))
  }

  // Sections and deltas

  datatype Section = Response | OwnNode | OwnAddresses | PeerList | PatchList | RemovalList | Relays | RelayList

  /** What a container under a name in a section is. */
  function Inside(s: Section, name: Bytes): Option<Section> {
    match s
    case Response =>
      if name in Node() then Some(OwnNode)
      else if name in Peers() || name in PeersChanged() then Some(PeerList)
      else if name in Patches() then Some(PatchList)
      else if name in Removed() then Some(RemovalList)
      else if name in RelayMap() then Some(Relays)
      else None
    case OwnNode => if name in Addresses() then Some(OwnAddresses) else None
    case Relays => if name in Regions() then Some(RelayList) else None
    case _ => None
  }

  datatype Delta =
    | Put(peer: Peer)
    | Change(id: u64, patch: Patch)
    | Drop(id: u64)
    | Own(key: Option<Bytes>)
    | OwnDisco(key: Option<Bytes>)
    | OwnAddress(address: Option<Bytes>)
    | Relay(region: DerpRegion)
    | Malformed
    | Finished

  /** A whole record: the peer, if it has a key, and whether anything in it is malformed. */
  function PutOf(env: Env, v: Json): seq<Delta> {
    (if Sound(env, true, v, Count(v)) then [] else [Malformed])
    + if PeerOf(env, v).Some? then [Put(PeerOf(env, v).value)] else []
  }

  function ChangeOf(env: Env, v: Json): seq<Delta> {
    (if Sound(env, false, v, Count(v)) then [] else [Malformed]) + [Change(IdOf(v, Count(v)), PatchOf(env, v))]
  }

  /** What one child means in a section of the response. */
  function ChildDeltas(env: Env, s: Section, name: Bytes, v: Json): seq<Delta>
    decreases v, Count(v) + 1
  {
    if Holds(v) then
      match s
      case PeerList => PutOf(env, v)
      case PatchList => ChangeOf(env, v)
      case RelayList => [Relay(RegionOf(name, v, Count(v)))]
      case _ => if Inside(s, name).Some? then Deltas(env, Inside(s, name).value, v, Count(v)) else []
    else
      match s
      case OwnNode =>
        if v.Str? && name in NodeKey() then [Own(env.nodeKey(v.s))]
        else if v.Str? && name in DiscoKey() then [OwnDisco(env.discoKey(v.s))]
        else []
      case OwnAddresses => if v.Str? then [OwnAddress(env.cidr(v.s))] else []
      case RemovalList => if v.Num? then [Drop(v.n % 0x1_0000_0000_0000_0000)] else []
      case _ => []
  }

  /** The deltas of the first `n` children. */
  function Deltas(env: Env, s: Section, v: Json, n: nat): seq<Delta>
    requires n <= Count(v)
    decreases v, n
  {
    if n == 0 then [] else Deltas(env, s, v, n - 1) + ChildDeltas(env, s, NameAt(v, n - 1), ValueAt(v, n - 1))
  }

  /** A response: an object or an array counts as one, anything else says nothing. */
  function ResponseDeltas(env: Env, v: Json): seq<Delta> {
    if Holds(v) then Deltas(env, Response, v, Count(v)) + [Finished] else []
  }

  function AllDeltas(env: Env, docs: seq<Json>): seq<Delta> {
    if docs == [] then [] else AllDeltas(env, docs[..|docs| - 1]) + ResponseDeltas(env, docs[|docs| - 1])
  }

  /** The region id of a member name in decimal. */
  lemma RegionNameIsItsNumber(n: u16)
    ensures ParseU16(Decimal(n)) == n
  {
    hide Decimal;
    JsonReading.DecimalValue(n);
    assert Scanner.Digit(Decimal(n)[0]);
  }
}
