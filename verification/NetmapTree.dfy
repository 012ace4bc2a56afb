/** The parser read as recursion over the document, and what it does not read. */
module NetmapTree {
  import opened Common
  import opened Json
  import opened Netmap
  import opened NetmapNames

  /** A child of a container: an array's items have no name. */
  datatype Field = Field(key: Bytes, value: Json)

  function Count(v: Json): nat {
    match v
    case Arr(items) => |items|
    case Obj(members) => |members|
    case _ => 0
  }

  predicate Holds(v: Json) {
    v.Arr? || v.Obj?
  }

  /** Child `i`, under the name the parser keeps for it. */
  function Nth(v: Json, i: nat): (f: Field)
    requires i < Count(v)
    ensures f.value < v
  {
    match v
    case Arr(items) => Field([], items[i])
    case Obj(members) => Field(Fitting(members[i].name, MAX_KEY), members[i].value)
  }

  // Meaning of a document by recursion

  function VisitLeaf(env: Env, ctx: Context, key: Bytes, v: Json, w: Work): Work {
    match v
    case Str(s) => OnString(env, ctx, key, w, s)
    case Num(n) => OnNumber(ctx, key, w, n)
    case Bool(b) => OnBool(ctx, key, w, b)
    case _ => w
  }

  /** A value under a name, where a container there would be `inner`. */
  function Visit(env: Env, ctx: Context, inner: Context, key: Bytes, v: Json, w: Work): Work
    decreases v, Count(v) + 1
  {
    if !Holds(v) then VisitLeaf(env, ctx, key, v, w)
    else Ended(env.capacity, inner, VisitFields(env, inner, v, Count(v), Began(inner, key, w)))
  }

  /** The first `n` children of a container read in a context. */
  function VisitFields(env: Env, ctx: Context, v: Json, n: nat, w: Work): Work
    requires n <= Count(v)
    decreases v, n
  {
    if n == 0 then w
    else
      var f := Nth(v, n - 1);
      Visit(env, ctx, ChildOf(ctx, f.key), f.key, f.value, VisitFields(env, ctx, v, n - 1, w))
  }

  /** One response: the outermost container is the root, anything else says nothing. */
  function VisitDocument(env: Env, v: Json, w: Work): Work {
    Visit(env, Ignored, Root, [], v, w)
  }

  // The stream computes the recursion

  lemma VisitLeafStreams(env: Env, stack: seq<Context>, key: Bytes, v: Json, w: Work)
    requires !Holds(v)
    ensures OnTokens(env, World(stack, key, w), Tokens(v))
         == World(stack, [], VisitLeaf(env, Current(stack), key, v, w))
  {
    hide OnString, OnNumber, OnBool;
    var t := Tokens(v)[0];
    assert Tokens(v) == [t] && [t][1..] == [];
    var next := OnToken(env, World(stack, key, w), t);
    assert OnTokens(env, next, []) == next;
  }

  lemma OnTokensOne(env: Env, w: World, t: Token)
    ensures OnTokens(env, w, [t]) == OnToken(env, w, t)
  {
    hide OnToken;
    assert [t][1..] == [];
    var next := OnToken(env, w, t);
    assert OnTokens(env, next, []) == next;
  }

  lemma TokensOf(v: Json) returns (start: Token, end: Token)
    requires Holds(v)
    ensures Tokens(v) == [start] + FieldTokens(v, Count(v)) + [end]
    ensures start == StartArray || start == StartObject
    ensures end == EndArray || end == EndObject
  {
    if v.Arr? {
      start, end := StartArray, EndArray;
    } else {
      start, end := StartObject, EndObject;
    }
  }

  /** The tokens of the first `n` children. */
  function FieldTokens(v: Json, n: nat): seq<Token>
    requires Holds(v) && n <= Count(v)
  {
    if v.Arr? then ItemTokens(v.items, n) else MemberTokens(v.members, n)
  }

  function FieldsDepth(v: Json, n: nat): nat
    requires Holds(v) && n <= Count(v)
  {
    if v.Arr? then ItemsDepth(v.items, n) else MembersDepth(v.members, n)
  }

  /** A value's tokens do to the parser what the recursion says, whatever is around it. */
  lemma {:induction false} VisitStreams(env: Env, stack: seq<Context>, key: Bytes, v: Json, w: Work)
    requires |stack| + Depth(v) <= env.slots
    ensures OnTokens(env, World(stack, key, w), Tokens(v))
         == World(stack, [], Visit(env, Current(stack), Child(stack, key), key, v, w))
    decreases v, Count(v) + 1
  {
    hide OnTokens, Began, Ended, OnToken, VisitLeaf, Tokens;
    if !Holds(v) {
      VisitLeafStreams(env, stack, key, v, w);
    } else {
      var start, end := TokensOf(v);
      var ctx := Child(stack, key);
      var a := World(stack + [ctx], [], Began(ctx, key, w));
      StartToken(env, World(stack, key, w), start);
      OnTokensOne(env, World(stack, key, w), start);
      OnTokensAppend(env, World(stack, key, w), [start], FieldTokens(v, Count(v)));
      VisitFieldsStreams(env, stack, ctx, v, Count(v), a.work);
      var b := World(stack + [ctx], [], VisitFields(env, ctx, v, Count(v), a.work));
      OnTokensAppend(env, World(stack, key, w), [start] + FieldTokens(v, Count(v)), [end]);
      OnTokensOne(env, b, end);
      EndToken(env, stack, ctx, b.work, end);
    }
  }

  lemma StartToken(env: Env, w: World, t: Token)
    requires t == StartArray || t == StartObject
    requires |w.stack| < env.slots
    ensures OnToken(env, w, t)
         == World(w.stack + [Child(w.stack, w.key)], [], Began(Child(w.stack, w.key), w.key, w.work))
  {
    hide Began, Child;
  }

  lemma EndToken(env: Env, stack: seq<Context>, ctx: Context, w: Work, t: Token)
    requires t == EndArray || t == EndObject
    ensures OnToken(env, World(stack + [ctx], [], w), t) == World(stack, [], Ended(env.capacity, ctx, w))
  {
    hide Ended;
    assert (stack + [ctx])[..|stack|] == stack;
  }

  lemma {:induction false} VisitFieldsStreams(env: Env, stack: seq<Context>, ctx: Context, v: Json, n: nat, w: Work)
    requires Holds(v) && n <= Count(v) && |stack| + 1 + FieldsDepth(v, n) <= env.slots
    ensures OnTokens(env, World(stack + [ctx], [], w), FieldTokens(v, n))
         == World(stack + [ctx], [], VisitFields(env, ctx, v, n, w))
    decreases v, n
  {
    hide OnToken, Visit, Tokens, ChildOf;
    var from := World(stack + [ctx], [], w);
    if n > 0 {
      VisitFieldsStreams(env, stack, ctx, v, n - 1, w);
      var f, before := Nth(v, n - 1), FieldTokens(v, n - 1);
      var mid := World(stack + [ctx], [], VisitFields(env, ctx, v, n - 1, w));
      var named := mid.(key := f.key);
      VisitStreams(env, stack + [ctx], f.key, f.value, mid.work);
      if v.Arr? {
        OnTokensAppend(env, from, before, Tokens(f.value));
      } else {
        var t := Key(v.members[n - 1].name);
        OnTokensAppend(env, from, before, [t] + Tokens(f.value));
        OnTokensAppend(env, mid, [t], Tokens(f.value));
        OnTokensOne(env, mid, t);
        KeyToken(env, mid, v.members[n - 1].name);
      }
    }
  }

  lemma KeyToken(env: Env, w: World, name: Bytes)
    ensures OnToken(env, w, Key(name)) == w.(key := Fitting(name, MAX_KEY))
  {
  }

  /** A whole response, token by token, is the recursion. */
  lemma DocumentStreams(env: Env, v: Json, net: Net)
    requires Depth(v) <= env.slots
    ensures OnTokens(env, Start(net), Tokens(v)) == World([], [], VisitDocument(env, v, Start(net).work))
  {
    VisitStreams(env, [], [], v, Start(net).work);
  }

  // What is not read

  /** Contexts that give a meaning to members by name. */
  predicate Named(ctx: Context) {
    ctx == Root || ctx == SelfNode || ctx == PeerObject || ctx == PatchObject
    || ctx == DerpMapObject || ctx == DerpRegionObject || ctx == DerpNodeObject
  }

  /** The names a context reads. */
  function Reads(ctx: Context): set<Bytes> {
    match ctx
    case Root => Node() + Peers() + PeersChanged() + Patches() + Removed() + RelayMap()
    case SelfNode => Addresses() + NodeKey() + DiscoKey()
    case PeerObject =>
      Addresses() + AllowedIps() + Endpoints() + NodeKey() + DiscoKey() + Id() + HomeRegion() + Online()
    case PatchObject => Endpoints() + NodeKey() + DiscoKey() + Id() + HomeRegion() + Online()
    case DerpMapObject => Regions()
    case DerpRegionObject => Nodes() + RegionCode() + RegionId()
    case DerpNodeObject => Host() + RelayPort() + StunPort()
    case _ => {}
  }

  /** Nothing under this name in this context can matter. */
  predicate Unknown(ctx: Context, key: Bytes) {
    ctx == Ignored || (Named(ctx) && key !in Reads(ctx))
  }

  /** What the parser calls the names a context reads. */
  function ReadNames(ctx: Context): set<Name> {
    match ctx
    case Root => {NodeName, PeersName, PeersChangedName, PatchName, RemovedName, DerpMapName}
    case SelfNode => {AddressesName, KeyName, DiscoKeyName}
    case PeerObject =>
      {AddressesName, AllowedIpsName, EndpointsName, KeyName, DiscoKeyName, IdName, HomeDerpName, OnlineName}
    case PatchObject => {EndpointsName, KeyName, DiscoKeyName, IdName, HomeDerpName, OnlineName}
    case DerpMapObject => {RegionsName}
    case DerpRegionObject => {NodesName, RegionCodeName, RegionIdName}
    case DerpNodeObject => {HostName, DerpPortName, StunPortName}
    case _ => {}
  }

  lemma UnknownIsUnread(ctx: Context, key: Bytes)
    requires Unknown(ctx, key) && ctx != Ignored
    ensures Named(ctx) && NameOf(key) !in ReadNames(ctx)
  {
    hide NameOf, Node, Peers, PeersChanged, Patches, Removed, RelayMap, Addresses, AllowedIps, Endpoints, Regions,
         Nodes, NodeKey, DiscoKey, Id, HomeRegion, RegionCode, RegionId, Host, RelayPort, StunPort, Online;
    match ctx {
      case Root => SectionsAreSpelled(key);
      case SelfNode =>
        ListsAreSpelled(key);
        KeysAreSpelled(key);
      case DerpMapObject => ListsAreSpelled(key);
      case DerpRegionObject =>
        ListsAreSpelled(key);
        CodesAreSpelled(key);
        HostsAreSpelled(key);
      case DerpNodeObject =>
        HostsAreSpelled(key);
        PortsAreSpelled(key);
      case _ =>
        ListsAreSpelled(key);
        KeysAreSpelled(key);
        CodesAreSpelled(key);
        PortsAreSpelled(key);
    }
  }

  /** Inside an ignored container nothing has any effect, however deep it goes. */
  lemma {:induction false} IgnoredIsSilent(env: Env, ctx: Context, key: Bytes, v: Json, w: Work)
    requires ctx == Ignored || (!Holds(v) && Unknown(ctx, key))
    ensures Visit(env, ctx, Ignored, key, v, w) == w
    decreases v, Count(v) + 1
  {
    hide NameOf, Unknown;
    if Holds(v) {
      IgnoredFields(env, v, Count(v), w);
    } else if ctx != Ignored {
      UnknownIsUnread(ctx, key);
    }
  }

  lemma {:induction false} IgnoredFields(env: Env, v: Json, n: nat, w: Work)
    requires n <= Count(v)
    ensures VisitFields(env, Ignored, v, n, w) == w
    decreases v, n
  {
    if n > 0 {
      IgnoredFields(env, v, n - 1, w);
      IgnoredIsSilent(env, Ignored, Nth(v, n - 1).key, Nth(v, n - 1).value, w);
    }
  }

  /** A member with an unrecognised name changes neither netmap, nor record, nor error. */
  lemma UnknownIsSilent(env: Env, ctx: Context, key: Bytes, v: Json, w: Work)
    requires Unknown(ctx, key)
    ensures Visit(env, ctx, ChildOf(ctx, key), key, v, w) == w
  {
    hide NameOf, Unknown;
    if ctx != Ignored {
      UnknownIsUnread(ctx, key);
    }
    assert ChildOf(ctx, key) == Ignored;
    if Holds(v) {
      IgnoredFields(env, v, Count(v), w);
    } else {
      IgnoredIsSilent(env, ctx, key, v, w);
    }
  }

  /** The document without anything the parser has no name for. */
  function Strip(ctx: Context, v: Json): Json
    decreases v, Count(v) + 1
  {
    match v
    case Arr(items) => Arr(StripItems(ctx, v, Count(v)))
    case Obj(members) => Obj(StripMembers(ctx, v, Count(v)))
    case _ => v
  }

  function StripItems(ctx: Context, v: Json, n: nat): seq<Json>
    requires v.Arr? && n <= Count(v)
    decreases v, n
  {
    if n == 0 then []
    else if Unknown(ctx, []) then StripItems(ctx, v, n - 1)
    else StripItems(ctx, v, n - 1) + [Strip(ChildOf(ctx, []), Nth(v, n - 1).value)]
  }

  function StripMembers(ctx: Context, v: Json, n: nat): seq<Member>
    requires v.Obj? && n <= Count(v)
    decreases v, n
  {
    if n == 0 then []
    else
      var f := Nth(v, n - 1);
      if Unknown(ctx, f.key) then StripMembers(ctx, v, n - 1)
      else StripMembers(ctx, v, n - 1) + [Member(v.members[n - 1].name, Strip(ChildOf(ctx, f.key), f.value))]
  }

  /** A prefix of a container is visited as the container's first children. */
  lemma {:induction false} PrefixItems(env: Env, ctx: Context, a: seq<Json>, b: seq<Json>, n: nat, w: Work)
    requires n <= |a| && n <= |b| && a[..n] == b[..n]
    ensures VisitFields(env, ctx, Arr(a), n, w) == VisitFields(env, ctx, Arr(b), n, w)
    decreases n
  {
    hide Visit;
    if n > 0 {
      assert a[n - 1] == a[..n][n - 1] && b[n - 1] == b[..n][n - 1];
      assert a[..n - 1] == a[..n][..n - 1] && b[..n - 1] == b[..n][..n - 1];
      PrefixItems(env, ctx, a, b, n - 1, w);
    }
  }

  lemma {:induction false} PrefixMembers(env: Env, ctx: Context, a: seq<Member>, b: seq<Member>, n: nat, w: Work)
    requires n <= |a| && n <= |b| && a[..n] == b[..n]
    ensures VisitFields(env, ctx, Obj(a), n, w) == VisitFields(env, ctx, Obj(b), n, w)
    decreases n
  {
    hide Visit;
    if n > 0 {
      assert a[n - 1] == a[..n][n - 1] && b[n - 1] == b[..n][n - 1];
      assert a[..n - 1] == a[..n][..n - 1] && b[..n - 1] == b[..n][..n - 1];
      PrefixMembers(env, ctx, a, b, n - 1, w);
    }
  }

  lemma VisitsAlike(env: Env, ctx: Context, inner: Context, key: Bytes, u: Json, v: Json, w: Work)
    requires Holds(u) && Holds(v)
    requires VisitFields(env, inner, u, Count(u), Began(inner, key, w))
          == VisitFields(env, inner, v, Count(v), Began(inner, key, w))
    ensures Visit(env, ctx, inner, key, u, w) == Visit(env, ctx, inner, key, v, w)
  {
    hide VisitFields, Began, Ended;
  }

  /** Dropping every unrecognised member, at every depth, changes nothing. */
  lemma {:induction false} StripIsInvisible(env: Env, ctx: Context, inner: Context, key: Bytes, v: Json, w: Work)
    ensures Visit(env, ctx, inner, key, Strip(inner, v), w) == Visit(env, ctx, inner, key, v, w)
    decreases v, Count(v) + 1
  {
    hide Visit, VisitFields, Began;
    if v.Arr? {
      StripItemsInvisible(env, inner, v, Count(v), Began(inner, key, w));
      VisitsAlike(env, ctx, inner, key, Arr(StripItems(inner, v, Count(v))), v, w);
    } else if v.Obj? {
      StripMembersInvisible(env, inner, v, Count(v), Began(inner, key, w));
      VisitsAlike(env, ctx, inner, key, Obj(StripMembers(inner, v, Count(v))), v, w);
    }
  }

  lemma {:induction false} StripItemsInvisible(env: Env, ctx: Context, v: Json, n: nat, w: Work)
    requires v.Arr? && n <= Count(v)
    ensures var kept := StripItems(ctx, v, n);
            VisitFields(env, ctx, Arr(kept), |kept|, w) == VisitFields(env, ctx, v, n, w)
    decreases v, n
  {
    hide Visit, Unknown, ChildOf, Strip;
    if n > 0 {
      var f, before := Nth(v, n - 1), StripItems(ctx, v, n - 1);
      StripItemsInvisible(env, ctx, v, n - 1, w);
      var sofar := VisitFields(env, ctx, v, n - 1, w);
      if Unknown(ctx, []) {
        UnknownIsSilent(env, ctx, [], f.value, sofar);
      } else {
        var kept := StripItems(ctx, v, n);
        PrefixItems(env, ctx, kept, before, |before|, w);
        StripIsInvisible(env, ctx, ChildOf(ctx, []), [], f.value, sofar);
      }
    }
  }

  lemma {:induction false} StripMembersInvisible(env: Env, ctx: Context, v: Json, n: nat, w: Work)
    requires v.Obj? && n <= Count(v)
    ensures var kept := StripMembers(ctx, v, n);
            VisitFields(env, ctx, Obj(kept), |kept|, w) == VisitFields(env, ctx, v, n, w)
    decreases v, n
  {
    hide Visit, Unknown, ChildOf, Strip;
    if n > 0 {
      var f, before := Nth(v, n - 1), StripMembers(ctx, v, n - 1);
      StripMembersInvisible(env, ctx, v, n - 1, w);
      var sofar := VisitFields(env, ctx, v, n - 1, w);
      if Unknown(ctx, f.key) {
        UnknownIsSilent(env, ctx, f.key, f.value, sofar);
      } else {
        var kept := StripMembers(ctx, v, n);
        PrefixMembers(env, ctx, kept, before, |before|, w);
        StripIsInvisible(env, ctx, ChildOf(ctx, f.key), f.key, f.value, sofar);
      }
    }
  }

  /** Two responses that differ only in unrecognised members leave the same parser and netmap. */
  lemma UnknownMembersDoNotMatter(env: Env, v: Json, u: Json, net: Net)
    requires Strip(Root, v) == Strip(Root, u)
    requires Depth(v) <= env.slots && Depth(u) <= env.slots
    ensures OnTokens(env, Start(net), Tokens(v)) == OnTokens(env, Start(net), Tokens(u))
  {
    hide Visit, Strip;
    var w := Start(net).work;
    DocumentStreams(env, v, net);
    DocumentStreams(env, u, net);
    StripIsInvisible(env, Ignored, Root, [], v, w);
    StripIsInvisible(env, Ignored, Root, [], u, w);
  }

  /** In particular one such member, inserted anywhere among the members of any container. */
  lemma InsertedIsStripped(ctx: Context, a: seq<Member>, m: Member, b: seq<Member>)
    requires Unknown(ctx, Fitting(m.name, MAX_KEY))
    ensures Strip(ctx, Obj(a + [m] + b)) == Strip(ctx, Obj(a + b))
  {
    InsertedMembers(ctx, a, m, b, |b|);
  }

  lemma {:induction false} InsertedMembers(ctx: Context, a: seq<Member>, m: Member, b: seq<Member>, k: nat)
    requires k <= |b| && Unknown(ctx, Fitting(m.name, MAX_KEY))
    ensures StripMembers(ctx, Obj(a + [m] + b), |a| + 1 + k) == StripMembers(ctx, Obj(a + b), |a| + k)
    decreases k
  {
    hide Unknown, Strip, ChildOf;
    var with, without := a + [m] + b, a + b;
    if k == 0 {
      assert with[..|a|] == without[..|a|];
      PrefixStrip(ctx, with, without, |a|);
      assert with[|a|] == m;
    } else {
      InsertedMembers(ctx, a, m, b, k - 1);
      assert with[|a| + k] == b[k - 1] && without[|a| + k - 1] == b[k - 1];
    }
  }

  lemma {:induction false} PrefixStrip(ctx: Context, a: seq<Member>, b: seq<Member>, n: nat)
    requires n <= |a| && n <= |b| && a[..n] == b[..n]
    ensures StripMembers(ctx, Obj(a), n) == StripMembers(ctx, Obj(b), n)
    decreases n
  {
    hide Unknown, Strip;
    if n > 0 {
      assert a[n - 1] == a[..n][n - 1] && b[n - 1] == b[..n][n - 1];
      assert a[..n - 1] == a[..n][..n - 1] && b[..n - 1] == b[..n][..n - 1];
      PrefixStrip(ctx, a, b, n - 1);
    }
  }
}
