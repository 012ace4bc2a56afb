/** The peer table and the parser as they are updated in place. */
module NetmapObject {
  import opened Common
  import opened Json
  import opened Netmap
  import Scanner

  class PeerTable {
    var peers: seq<Peer>
    const capacity: nat

    constructor (capacity: nat)
      ensures peers == [] && this.capacity == capacity
    {
      peers := [];
      this.capacity := capacity;
    }

    method Position(id: u64) returns (k: Option<nat>)
      ensures k == Find(peers, id)
    {
      var i := 0;
      while i < |peers|
        invariant i <= |peers| && Find(peers, id) == FindFrom(peers, id, i)
      {
        if peers[i].id == id {
          return Some(i);
        }
        i := i + 1;
      }
      return None;
    }

    method UpsertPeer(peer: Peer) returns (failed: Option<Error>)
      modifies this
      ensures Upsert(old(peers), peer, capacity) == if failed.Some? then Err(failed.value) else Ok(peers)
      ensures failed.Some? ==> peers == old(peers)
    {
      var k := Position(peer.id);
      if k.Some? {
        peers := peers[k.value := peer];
        return None;
      }
      if |peers| >= capacity {
        return Some(Scanner.Full);
      }
      peers := peers + [peer];
      return None;
    }

    method RemovePeer(id: u64) returns (removed: bool)
      modifies this
      ensures peers == Remove(old(peers), id)
      ensures removed <==> Find(old(peers), id).Some?
    {
      var k := Position(id);
      if k.None? {
        return false;
      }
      var last := peers[|peers| - 1];
      peers := peers[k.value := last][..|peers| - 1];
      return true;
    }

    method CarriersOf(key: Bytes) returns (ids: seq<u64>)
      ensures ids == Carriers(peers, key)
    {
      ids := [];
      for i := 0 to |peers|
        invariant ids == Carriers(peers[..i], key)
      {
        assert peers[..i + 1][..i] == peers[..i];
        if peers[i].nodeKey == key {
          ids := ids + [peers[i].id];
        }
      }
      assert peers[..|peers|] == peers;
    }

    /** The records with these ids leave, one by one. */
    method RemoveThese(ids: seq<u64>)
      modifies this
      ensures peers == RemoveAll(old(peers), ids)
    {
      assert ids[0..] == ids;
      for i := 0 to |ids|
        invariant RemoveAll(old(peers), ids) == RemoveAll(peers, ids[i..])
      {
        assert ids[i..][1..] == ids[i + 1..];
        var _ := RemovePeer(ids[i]);
      }
    }
  }

  class NetmapState {
    const table: PeerTable
    var derp: seq<DerpRegion>
    var nodeKey: Option<Bytes>
    var discoKey: Option<Bytes>
    var addresses: seq<Bytes>
    var responses: nat

    constructor (capacity: nat)
      ensures View() == NoNet() && fresh(table) && table.capacity == capacity
    {
      table := new PeerTable(capacity);
      derp, nodeKey, discoKey, addresses, responses := [], None, None, [], 0;
    }

    function View(): Net
      reads this, table
    {
      Net(table.peers, derp, nodeKey, discoKey, addresses, responses)
    }

    method PositionOf(id: u16) returns (k: Option<nat>)
      ensures k == FindRegion(derp, id, 0)
    {
      var i := 0;
      while i < |derp|
        invariant i <= |derp| && FindRegion(derp, id, 0) == FindRegion(derp, id, i)
      {
        if derp[i].id == id {
          return Some(i);
        }
        i := i + 1;
      }
      return None;
    }

    method PutRegion(region: DerpRegion) returns (failed: Option<Error>)
      modifies this
      ensures InsertRegion(old(derp), region) == if failed.Some? then Err(failed.value) else Ok(derp)
      ensures View() == old(View()).(derp := if failed.Some? then old(derp) else derp)
    {
      var k := PositionOf(region.id);
      if k.Some? {
        derp := derp[k.value := region];
        return None;
      }
      if |derp| >= MAX_DERP_REGIONS {
        return Some(Scanner.Full);
      }
      derp := derp + [region];
      return None;
    }
  }

  class Parser {
    const scanner: Scanner.StreamScanner
    const env: Env
    var stack: seq<Context>
    var key: Bytes
    var pending: Pending
    var region: Region
    var failed: Option<Error>

    constructor (env: Env)
      ensures fresh(scanner) && scanner.View() == Scanner.Fresh() && this.env == env
      ensures forall netmap: NetmapState :: View(netmap) == Start(netmap.View())
    {
      scanner := new Scanner.StreamScanner();
      this.env := env;
      stack, key, pending, region, failed := [], [], NoPending(), NoRegion(), None;
    }

    function Working(netmap: NetmapState): Work
      reads this, netmap, netmap.table
    {
      Work(pending, region, failed, netmap.View())
    }

    function View(netmap: NetmapState): World
      reads this, netmap, netmap.table
    {
      World(stack, key, Working(netmap))
    }

    method NoteFailure(e: Error)
      modifies this`failed
      ensures failed == if old(failed).Some? then old(failed) else Some(e)
    {
      if failed.None? {
        failed := Some(e);
      }
    }

    method Commit(netmap: NetmapState)
      requires netmap.table.capacity == env.capacity
      modifies this`failed, netmap.table
      ensures Working(netmap) == CommitPeer(env.capacity, old(Working(netmap)))
    {
      if pending.nodeKey.None? || netmap.nodeKey == pending.nodeKey {
        return;
      }
      var error := netmap.table.UpsertPeer(Built(pending));
      if error.Some? {
        NoteFailure(error.value);
      }
    }

    method Patch(netmap: NetmapState)
      modifies netmap.table
      ensures Working(netmap) == ApplyPatch(old(Working(netmap)))
    {
      var k := netmap.table.Position(pending.id);
      if k.None? {
        return;
      }
      var peer := netmap.table.peers[k.value];
      if pending.online.Some? {
        peer := peer.(online := pending.online.value);
      }
      if pending.homeDerp.Some? {
        peer := peer.(homeDerp := pending.homeDerp.value);
      }
      if pending.discoKey.Some? {
        peer := peer.(discoKey := pending.discoKey);
      }
      if pending.endpointsPresent {
        peer := peer.(endpoints := pending.endpoints);
      }
      netmap.table.peers := netmap.table.peers[k.value := peer];
    }

    /** What a context starts from. */
    method Reset(netmap: NetmapState, ctx: Context)
      modifies this`pending, this`region
      ensures Working(netmap) == Began(ctx, key, old(Working(netmap)))
    {
      hide ParseU16;
      match ctx {
        case PeerObject => pending := NoPending();
        case PatchObject => pending := NoPending();
        case DerpRegionObject => region := NoRegion().(id := ParseU16(key));
        case DerpNodeObject => region := region.(host := [], port := DEFAULT_DERP_PORT, stun := 0);
        case _ =>
      }
    }

    method StartContainer(netmap: NetmapState)
      modifies this
      ensures View(netmap) == OnStart(env, old(View(netmap)))
    {
      hide Child, Began;
      var ctx := Child(stack, key);
      Reset(netmap, ctx);
      if |stack| < env.slots {
        stack := stack + [ctx];
      } else {
        NoteFailure(Scanner.Full);
      }
      key := [];
    }

    method FinishRegion(netmap: NetmapState)
      modifies this, netmap
      ensures View(netmap) == old(View(netmap)).(work := EndRegion(old(Working(netmap))))
    {
      var error := netmap.PutRegion(DerpRegion(region.id, region.code, region.nodes));
      region := region.(nodes := []);
      if error.Some? {
        NoteFailure(error.value);
      }
    }

    method EndContainer(netmap: NetmapState)
      requires netmap.table.capacity == env.capacity
      modifies this, netmap, netmap.table
      ensures View(netmap) == OnEnd(env, old(View(netmap)))
    {
      hide CommitPeer, ApplyPatch, EndRegion;
      var ctx := Current(stack);
      if stack != [] {
        stack := stack[..|stack| - 1];
      }
      match ctx {
        case PeerObject => Commit(netmap);
        case PatchObject => Patch(netmap);
        case DerpNodeObject =>
          region := region.(nodes := Pushed(region.nodes, DerpNode(region.host, region.port, region.stun),
              MAX_DERP_NODES));
        case DerpRegionObject => FinishRegion(netmap);
        case Root => netmap.responses := netmap.responses + 1;
        case _ =>
      }
      key := [];
    }

    method SelfString(netmap: NetmapState, value: Bytes)
      modifies this`failed, netmap, netmap.table
      ensures Working(netmap) == OnSelfString(env, NameOf(key), old(Working(netmap)), value)
    {
      hide NameOf, Carriers, RemoveAll;
      match NameOf(key) {
        case KeyName =>
          netmap.nodeKey := env.nodeKey(value);
          if netmap.nodeKey.Some? {
            var ours := netmap.table.CarriersOf(netmap.nodeKey.value);
            if |ours| > MAX_OWN {
              failed := Some(Scanner.Panicked);
            } else {
              netmap.table.RemoveThese(ours);
            }
          }
        case DiscoKeyName => netmap.discoKey := env.discoKey(value);
        case _ =>
      }
    }

    method RecordString(netmap: NetmapState, value: Bytes)
      modifies this`pending, this`failed
      ensures Working(netmap) == OnRecordString(env, NameOf(key), old(Working(netmap)), value)
    {
      hide NameOf;
      match NameOf(key) {
        case KeyName =>
          var parsed := env.nodeKey(value);
          if parsed.Some? {
            pending := pending.(nodeKey := parsed);
          } else {
            NoteFailure(Scanner.Malformed);
          }
        case DiscoKeyName =>
          var parsed := env.discoKey(value);
          if parsed.Some? {
            pending := pending.(discoKey := parsed);
          } else {
            NoteFailure(Scanner.Malformed);
          }
        case _ =>
      }
    }

    method Address(netmap: NetmapState, ctx: Context, value: Bytes)
      requires ctx == SelfAddresses || ctx == PeerAddresses || ctx == PeerAllowedIps
      modifies this`pending, this`failed, netmap
      ensures Working(netmap) == OnString(env, ctx, key, old(Working(netmap)), value)
    {
      var parsed := env.cidr(value);
      if parsed.None? {
        NoteFailure(Scanner.Malformed);
      } else if ctx == SelfAddresses {
        netmap.addresses := Pushed(netmap.addresses, parsed.value, MAX_ADDRESSES);
      } else if ctx == PeerAddresses {
        pending := pending.(addresses := Pushed(pending.addresses, parsed.value, MAX_ADDRESSES));
      } else {
        pending := pending.(allowedIps := Pushed(pending.allowedIps, parsed.value, MAX_ALLOWED_IPS));
      }
    }

    method HandleString(netmap: NetmapState, value: Bytes)
      modifies this, netmap, netmap.table
      ensures View(netmap)
           == World(old(stack), [], OnString(env, Current(old(stack)), old(key), old(Working(netmap)), value))
    {
      hide NameOf, OnSelfString, OnRecordString;
      var ctx := Current(stack);
      match ctx {
        case SelfNode => SelfString(netmap, value);
        case SelfAddresses => Address(netmap, ctx, value);
        case PeerObject => RecordString(netmap, value);
        case PatchObject => RecordString(netmap, value);
        case PeerAddresses => Address(netmap, ctx, value);
        case PeerAllowedIps => Address(netmap, ctx, value);
        case PeerEndpoints => pending := OnEndpoint(env, pending, value);
        case PatchEndpoints => pending := OnEndpoint(env, pending, value);
        case DerpRegionObject =>
          if NameOf(key) == RegionCodeName {
            region := region.(code := Fitting(value, MAX_CODE));
          }
        case DerpNodeObject =>
          if NameOf(key) == HostName {
            region := region.(host := Fitting(value, MAX_HOST));
          }
        case _ =>
      }
      key := [];
    }

    method HandleNumber(netmap: NetmapState, value: int)
      modifies this, netmap.table
      ensures View(netmap)
           == World(old(stack), [], OnNumber(Current(old(stack)), old(key), old(Working(netmap)), value))
    {
      hide NameOf, Remove;
      var name := NameOf(key);
      match Current(stack) {
        case PeerObject => pending := OnRecordNumber(name, pending, value);
        case PatchObject => pending := OnRecordNumber(name, pending, value);
        case RemovedArray => var _ := netmap.table.RemovePeer(AsU64(value));
        case DerpRegionObject =>
          if name == RegionIdName {
            region := region.(id := AsU16(value));
          }
        case DerpNodeObject =>
          if name == DerpPortName {
            region := region.(port := AsU16(value));
          } else if name == StunPortName {
            region := region.(stun := AsU16(value));
          }
        case _ =>
      }
      key := [];
    }

    method HandleBool(netmap: NetmapState, value: bool)
      modifies this
      ensures View(netmap) == World(old(stack), [], OnBool(Current(old(stack)), old(key), old(Working(netmap)), value))
    {
      hide NameOf;
      if (Current(stack) == PeerObject || Current(stack) == PatchObject) && NameOf(key) == OnlineName {
        pending := pending.(online := Some(value));
      }
      key := [];
    }

    method HandleToken(netmap: NetmapState, t: Token)
      requires netmap.table.capacity == env.capacity
      modifies this, netmap, netmap.table
      ensures View(netmap) == OnToken(env, old(View(netmap)), t)
    {
      hide OnStart, OnEnd, OnString, OnNumber, OnBool;
      match t {
        case StartObject => StartContainer(netmap);
        case StartArray => StartContainer(netmap);
        case EndObject => EndContainer(netmap);
        case EndArray => EndContainer(netmap);
        case Key(name) => key := Fitting(name, MAX_KEY);
        case Text(value) => HandleString(netmap, value);
        case Int(value) => HandleNumber(netmap, value);
        case Truth(value) => HandleBool(netmap, value);
        case Nothing => key := [];
      }
    }

    method HandleTokens(netmap: NetmapState, tokens: seq<Token>)
      requires netmap.table.capacity == env.capacity
      modifies this, netmap, netmap.table
      ensures View(netmap) == OnTokens(env, old(View(netmap)), tokens)
    {
      hide OnToken;
      assert tokens[0..] == tokens;
      for i := 0 to |tokens|
        invariant OnTokens(env, old(View(netmap)), tokens) == OnTokens(env, View(netmap), tokens[i..])
      {
        assert tokens[i..][1..] == tokens[i + 1..];
        HandleToken(netmap, tokens[i]);
      }
    }

    /** Feeds bytes of one response; the netmap may be read between calls. */
    method Push(netmap: NetmapState, bytes: seq<byte>) returns (error: Option<Error>)
      requires netmap.table.capacity == env.capacity
      modifies this, scanner, netmap, netmap.table
      ensures var r := Scanner.Run(old(scanner.View()), bytes);
              && View(netmap) == OnTokens(env, old(View(netmap)), r.tokens)
              && r.next == if error.Some? then Err(error.value) else Ok(scanner.View())
    {
      hide Scanner.Run, OnTokens;
      ghost var steps;
      var tokens;
      tokens, error, steps := scanner.Push(bytes);
      HandleTokens(netmap, tokens);
    }

    /** Ends one response, with the scanner's error or the first one noted on the way. */
    method Finish(netmap: NetmapState) returns (error: Option<Error>)
      requires netmap.table.capacity == env.capacity
      modifies this, scanner, netmap, netmap.table
      ensures var r := Scanner.Finished(old(scanner.View()));
              && View(netmap) == OnTokens(env, old(View(netmap)), r.tokens)
              && error == if r.next.Err? then Some(r.next.error) else View(netmap).work.failed
    {
      hide Scanner.Finished, OnTokens;
      var tokens;
      tokens, error := scanner.Finish();
      HandleTokens(netmap, tokens);
      if error.None? {
        error := failed;
      }
    }
  }
}
