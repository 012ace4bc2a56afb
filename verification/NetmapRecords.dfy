/** What a record says, read off its members, and that the parser collects exactly that. */
module NetmapRecords {
  import opened Common
  import opened Json
  import opened Netmap
  import opened NetmapNames
  import opened NetmapReading
  import opened NetmapTree

  // The record a parser should have collected from the first members

  function RecordOf(env: Env, ctx: Context, v: Json, n: nat): Pending
    requires n <= Count(v)
  {
    Pending(
      IdOf(v, n),
      LastParsed(env.nodeKey, v, n, NodeKey()),
      LastParsed(env.discoKey, v, n, DiscoKey()),
      LastBool(v, n, Online()),
      HomeOf(v, n),
      if ctx == PeerObject then Keep(Parsed(env.cidr, Listed(v, n, Addresses())), 4) else [],
      if ctx == PeerObject then Keep(Parsed(env.cidr, Listed(v, n, AllowedIps())), 8) else [],
      Keep(Parsed(env.socket, Listed(v, n, Endpoints())), 8),
      Listed(v, n, Endpoints()) != [])
  }

  /** What the parser commits is the peer the record describes. */
  lemma BuiltIsPeer(env: Env, v: Json)
    ensures var p := RecordOf(env, PeerObject, v, Count(v));
            PeerOf(env, v) == if p.nodeKey.None? then None else Some(Built(p))
  {
    hide LastParsed, LastBool, Listed, Parsed, Keep, IdOf, HomeOf;
  }

  function Collected(p: Pending): Patch {
    Patch(p.online, p.homeDerp, p.discoKey, if p.endpointsPresent then Some(p.endpoints) else None)
  }

  /** What it merges is the patch the record describes. */
  lemma CollectedIsPatch(env: Env, v: Json)
    ensures var p := RecordOf(env, PatchObject, v, Count(v));
            PatchOf(env, v) == Collected(p) && p.id == IdOf(v, Count(v))
  {
    hide LastParsed, LastBool, Listed, Parsed, Keep, IdOf, HomeOf;
  }

  lemma NthIs(v: Json, i: nat)
    requires i < Count(v)
    ensures Nth(v, i) == Field(Fitting(NameAt(v, i), MAX_KEY), ValueAt(v, i))
  {
  }

  /** A child under the name the parser keeps, and under its own. */
  lemma NthKept(v: Json, i: nat)
    requires i < Count(v)
    ensures var k := NameOf(Nth(v, i).key);
            && Nth(v, i).value == ValueAt(v, i)
            && (k == IdName <==> NameAt(v, i) in Id())
            && (k == HomeDerpName <==> NameAt(v, i) in HomeRegion())
            && (k == OnlineName <==> NameAt(v, i) in Online())
            && (k == KeyName <==> NameAt(v, i) in NodeKey())
            && (k == DiscoKeyName <==> NameAt(v, i) in DiscoKey())
            && (k == AddressesName <==> NameAt(v, i) in Addresses())
            && (k == AllowedIpsName <==> NameAt(v, i) in AllowedIps())
            && (k == EndpointsName <==> NameAt(v, i) in Endpoints())
  {
    hide NameOf;
    hide Id, HomeRegion, Online, NodeKey, DiscoKey, Addresses, AllowedIps, Endpoints;
    NamesAreKept(NameAt(v, i));
    NthIs(v, i);
  }

  // Lists

  lemma {:induction false} ParsedAppend(parse: Bytes -> Option<Bytes>, a: seq<Bytes>, b: seq<Bytes>)
    ensures Parsed(parse, a + b) == Parsed(parse, a) + Parsed(parse, b)
    decreases |b|
  {
    if b == [] {
      assert a + b == a;
    } else {
      assert (a + b)[..|a + b| - 1] == a + b[..|b| - 1];
      ParsedAppend(parse, a, b[..|b| - 1]);
    }
  }

  lemma KeepTwice(a: seq<Bytes>, b: seq<Bytes>, room: nat)
    ensures Keep(Keep(a, room) + b, room) == Keep(a + b, room)
  {
  }

  lemma KeepPushed(a: seq<Bytes>, x: Bytes, room: nat)
    ensures Pushed(Keep(a, room), x, room) == Keep(a + [x], room)
  {
  }

  predicate IsList(ctx: Context) {
    ctx == PeerAddresses || ctx == PeerAllowedIps || ctx == PeerEndpoints || ctx == PatchEndpoints
  }

  /** A record with strings added to one of its lists. */
  function Extended(env: Env, ctx: Context, p: Pending, s: seq<Bytes>): Pending {
    match ctx
    case PeerAddresses => p.(addresses := Keep(p.addresses + Parsed(env.cidr, s), MAX_ADDRESSES))
    case PeerAllowedIps => p.(allowedIps := Keep(p.allowedIps + Parsed(env.cidr, s), MAX_ALLOWED_IPS))
    case _ =>
      p.(endpoints := Keep(p.endpoints + Parsed(env.socket, s), MAX_ENDPOINTS),
         endpointsPresent := p.endpointsPresent || s != [])
  }

  predicate Bounded(p: Pending) {
    |p.addresses| <= MAX_ADDRESSES && |p.allowedIps| <= MAX_ALLOWED_IPS && |p.endpoints| <= MAX_ENDPOINTS
  }

  lemma ExtendedNone(env: Env, ctx: Context, p: Pending)
    requires IsList(ctx) && Bounded(p)
    ensures Extended(env, ctx, p, []) == p
  {
    assert p.addresses + [] == p.addresses && p.allowedIps + [] == p.allowedIps && p.endpoints + [] == p.endpoints;
  }

  lemma ExtendedOne(env: Env, ctx: Context, key: Bytes, w: Work, p: Pending, s: seq<Bytes>, x: Bytes)
    requires IsList(ctx) && w.pending == Extended(env, ctx, p, s)
    ensures OnString(env, ctx, key, w, x).pending == Extended(env, ctx, p, s + [x])
    ensures OnString(env, ctx, key, w, x).net == w.net
  {
    hide Keep, Parsed, Pushed, NameOf;
    if ctx == PeerAddresses {
      Grows(env.cidr, p.addresses, s, x, MAX_ADDRESSES);
    } else if ctx == PeerAllowedIps {
      Grows(env.cidr, p.allowedIps, s, x, MAX_ALLOWED_IPS);
    } else {
      Grows(env.socket, p.endpoints, s, x, MAX_ENDPOINTS);
    }
  }

  /** One more string is one more entry if it parses and there is room. */
  lemma Grows(parse: Bytes -> Option<Bytes>, a: seq<Bytes>, s: seq<Bytes>, x: Bytes, room: nat)
    ensures Keep(a + Parsed(parse, s + [x]), room)
         == if parse(x).Some? then Pushed(Keep(a + Parsed(parse, s), room), parse(x).value, room)
            else Keep(a + Parsed(parse, s), room)
  {
    hide Keep;
    var b := Parsed(parse, s);
    assert (s + [x])[..|s|] == s;
    assert Parsed(parse, s + [x]) == b + if parse(x).Some? then [parse(x).value] else [];
    if parse(x).Some? {
      KeepPushed(a + b, parse(x).value, room);
      assert a + b + [parse(x).value] == a + (b + [parse(x).value]);
    } else {
      assert b + [] == b;
    }
  }

  /** Reading a list adds its strings and touches nothing else of the netmap. */
  lemma {:induction false} ListReads(env: Env, ctx: Context, v: Json, n: nat, w: Work)
    requires IsList(ctx) && n <= Count(v) && Bounded(w.pending)
    ensures VisitFields(env, ctx, v, n, w).pending == Extended(env, ctx, w.pending, StringsOf(v, n))
    ensures VisitFields(env, ctx, v, n, w).net == w.net
    decreases n
  {
    hide Extended, OnString;
    if n == 0 {
      ExtendedNone(env, ctx, w.pending);
    } else {
      ListReads(env, ctx, v, n - 1, w);
      var f, mid := Nth(v, n - 1), VisitFields(env, ctx, v, n - 1, w);
      ListChild(env, ctx, f, mid);
      if f.value.Str? {
        ExtendedOne(env, ctx, f.key, mid, w.pending, StringsOf(v, n - 1), f.value.s);
      } else {
        assert StringsOf(v, n - 1) + [] == StringsOf(v, n - 1);
      }
    }
  }

  lemma ListChild(env: Env, ctx: Context, f: Field, w: Work)
    requires IsList(ctx)
    ensures Visit(env, ctx, ChildOf(ctx, f.key), f.key, f.value, w)
         == if f.value.Str? then OnString(env, ctx, f.key, w, f.value.s) else w
  {
    hide OnString, NameOf;
    if Holds(f.value) {
      IgnoredFields(env, f.value, Count(f.value), w);
    }
  }

  // Records

  predicate IsRecord(ctx: Context) {
    ctx == PeerObject || ctx == PatchObject
  }

  lemma RecordNone(env: Env, ctx: Context, v: Json)
    ensures RecordOf(env, ctx, v, 0) == NoPending()
  {
  }

  lemma RecordBounded(env: Env, ctx: Context, v: Json, n: nat)
    requires n <= Count(v)
    ensures Bounded(RecordOf(env, ctx, v, n))
  {
  }

  lemma RecordLeaf(env: Env, ctx: Context, v: Json, n: nat, w: Work)
    requires IsRecord(ctx) && 0 < n <= Count(v) && !Holds(Nth(v, n - 1).value)
    requires w.pending == RecordOf(env, ctx, v, n - 1)
    ensures var f := Nth(v, n - 1);
            && VisitLeaf(env, ctx, f.key, f.value, w).pending == RecordOf(env, ctx, v, n)
            && VisitLeaf(env, ctx, f.key, f.value, w).net == w.net
  {
    hide RecordOf, OnString, OnNumber, OnBool;
    match Nth(v, n - 1).value {
      case Str(_) => RecordText(env, ctx, v, n, w);
      case _ => RecordScalar(env, ctx, v, n, w);
    }
  }

  lemma ListsSilent(v: Json, n: nat)
    requires 0 < n <= Count(v) && !Holds(Nth(v, n - 1).value)
    ensures Listed(v, n, Addresses()) == Listed(v, n - 1, Addresses())
    ensures Listed(v, n, AllowedIps()) == Listed(v, n - 1, AllowedIps())
    ensures Listed(v, n, Endpoints()) == Listed(v, n - 1, Endpoints())
  {
    ListedSilent(v, n, Addresses());
    ListedSilent(v, n, AllowedIps());
    ListedSilent(v, n, Endpoints());
  }

  lemma TextIsNoNumber(v: Json, n: nat)
    requires 0 < n <= Count(v) && ValueAt(v, n - 1).Str?
    ensures IdOf(v, n) == IdOf(v, n - 1) && HomeOf(v, n) == HomeOf(v, n - 1)
    ensures LastBool(v, n, Online()) == LastBool(v, n - 1, Online())
  {
    hide Id, HomeRegion, Online;
  }

  lemma RecordText(env: Env, ctx: Context, v: Json, n: nat, w: Work)
    requires IsRecord(ctx) && 0 < n <= Count(v) && Nth(v, n - 1).value.Str?
    requires w.pending == RecordOf(env, ctx, v, n - 1)
    ensures var f := Nth(v, n - 1);
            && OnString(env, ctx, f.key, w, f.value.s).pending == RecordOf(env, ctx, v, n)
            && OnString(env, ctx, f.key, w, f.value.s).net == w.net
  {
    hide Keep, Parsed, NameOf, Listed, LastNumber, LastBool, IdOf, HomeOf;
    hide Id, HomeRegion, Online, NodeKey, DiscoKey, Addresses, AllowedIps, Endpoints;
    NthKept(v, n - 1);
    ListsSilent(v, n);
    TextIsNoNumber(v, n);
  }

  lemma RecordScalar(env: Env, ctx: Context, v: Json, n: nat, w: Work)
    requires IsRecord(ctx) && 0 < n <= Count(v) && !Holds(Nth(v, n - 1).value) && !Nth(v, n - 1).value.Str?
    requires w.pending == RecordOf(env, ctx, v, n - 1)
    ensures var f := Nth(v, n - 1);
            && VisitLeaf(env, ctx, f.key, f.value, w).pending == RecordOf(env, ctx, v, n)
            && VisitLeaf(env, ctx, f.key, f.value, w).net == w.net
  {
    hide Keep, Parsed, NameOf, Listed;
    hide Id, HomeRegion, Online, NodeKey, DiscoKey, Addresses, AllowedIps, Endpoints;
    NthKept(v, n - 1);
    ListsSilent(v, n);
  }

  lemma ListedSilent(v: Json, n: nat, names: set<Bytes>)
    requires 0 < n <= Count(v)
    requires !Holds(Nth(v, n - 1).value) || NameAt(v, n - 1) !in names
    ensures Listed(v, n, names) == Listed(v, n - 1, names)
  {
    hide NameOf;
    assert Listed(v, n - 1, names) + [] == Listed(v, n - 1, names);
  }

  /** A list member of a record, or any other container in it. */
  lemma RecordContainer(env: Env, ctx: Context, v: Json, n: nat, w: Work)
    requires IsRecord(ctx) && 0 < n <= Count(v) && Holds(Nth(v, n - 1).value)
    requires w.pending == RecordOf(env, ctx, v, n - 1)
    ensures var f := Nth(v, n - 1);
            var after := Visit(env, ctx, ChildOf(ctx, f.key), f.key, f.value, w);
            after.pending == RecordOf(env, ctx, v, n) && after.net == w.net
  {
    hide Visit, RecordOf, NameOf, Extended;
    var f := Nth(v, n - 1);
    var child := ChildOf(ctx, f.key);
    RecordBounded(env, ctx, v, n - 1);
    if IsList(child) {
      ListMember(env, child, f, w);
      RecordLists(env, ctx, v, n);
    } else {
      assert child == Ignored;
      IgnoredContainer(env, ctx, f, w);
      RecordSkips(env, ctx, v, n);
    }
  }

  lemma ListMember(env: Env, child: Context, f: Field, w: Work)
    requires IsList(child) && Holds(f.value) && Bounded(w.pending)
    ensures forall ctx :: Visit(env, ctx, child, f.key, f.value, w).pending
                       == Extended(env, child, w.pending, StringsOf(f.value, Count(f.value)))
    ensures forall ctx :: Visit(env, ctx, child, f.key, f.value, w).net == w.net
  {
    hide Extended, VisitFields;
    ListReads(env, child, f.value, Count(f.value), w);
  }

  lemma IgnoredContainer(env: Env, ctx: Context, f: Field, w: Work)
    requires Holds(f.value)
    ensures Visit(env, ctx, Ignored, f.key, f.value, w) == w
  {
    hide VisitFields;
    IgnoredFields(env, f.value, Count(f.value), w);
  }

  lemma RecordSkips(env: Env, ctx: Context, v: Json, n: nat)
    requires IsRecord(ctx) && 0 < n <= Count(v) && Holds(Nth(v, n - 1).value)
    requires ChildOf(ctx, Nth(v, n - 1).key) == Ignored
    ensures RecordOf(env, ctx, v, n) == RecordOf(env, ctx, v, n - 1)
  {
    hide Keep, Parsed, NameOf, Listed, LastNumber, LastBool, LastParsed;
    hide Id, HomeRegion, Online, NodeKey, DiscoKey, Addresses, AllowedIps, Endpoints;
    hide Nth;
    NthKept(v, n - 1);
    ScalarsSkip(env, v, n);
    if ctx == PeerObject {
      ListedSilent(v, n, Addresses());
      ListedSilent(v, n, AllowedIps());
    }
    ListedSilent(v, n, Endpoints());
  }

  /** A container is none of a record's numbers, flags or keys. */
  lemma ScalarsSkip(env: Env, v: Json, n: nat)
    requires 0 < n <= Count(v) && Holds(Nth(v, n - 1).value)
    ensures LastNumber(v, n, Id()) == LastNumber(v, n - 1, Id())
    ensures LastNumber(v, n, HomeRegion()) == LastNumber(v, n - 1, HomeRegion())
    ensures LastBool(v, n, Online()) == LastBool(v, n - 1, Online())
    ensures LastParsed(env.nodeKey, v, n, NodeKey()) == LastParsed(env.nodeKey, v, n - 1, NodeKey())
    ensures LastParsed(env.discoKey, v, n, DiscoKey()) == LastParsed(env.discoKey, v, n - 1, DiscoKey())
  {
    hide NameOf;
  }

  lemma ListNames(ctx: Context, key: Bytes)
    requires IsRecord(ctx) && IsList(ChildOf(ctx, key))
    ensures ChildOf(ctx, key) == PeerAddresses <==> NameOf(key) == AddressesName
    ensures ChildOf(ctx, key) == PeerAllowedIps <==> NameOf(key) == AllowedIpsName
    ensures ChildOf(ctx, key) == PeerEndpoints || ChildOf(ctx, key) == PatchEndpoints <==> NameOf(key) == EndpointsName
    ensures NameOf(key) != EndpointsName ==> ctx == PeerObject
  {
    hide NameOf;
  }

  lemma RecordLists(env: Env, ctx: Context, v: Json, n: nat)
    requires IsRecord(ctx) && 0 < n <= Count(v) && Holds(Nth(v, n - 1).value)
    requires IsList(ChildOf(ctx, Nth(v, n - 1).key))
    ensures RecordOf(env, ctx, v, n)
         == Extended(env, ChildOf(ctx, Nth(v, n - 1).key), RecordOf(env, ctx, v, n - 1),
                     StringsOf(Nth(v, n - 1).value, Count(Nth(v, n - 1).value)))
  {
    hide RecordOf, Extended, NameOf, StringsOf, ChildOf, Nth;
    ListNames(ctx, Nth(v, n - 1).key);
    var name := NameOf(Nth(v, n - 1).key);
    if name == AddressesName {
      AddressesGrow(env, v, n);
    } else if name == AllowedIpsName {
      AllowedIpsGrow(env, v, n);
    } else {
      EndpointsGrow(env, ctx, ChildOf(ctx, Nth(v, n - 1).key), v, n);
    }
  }

  lemma AddressesGrow(env: Env, v: Json, n: nat)
    requires 0 < n <= Count(v) && Holds(Nth(v, n - 1).value) && NameOf(Nth(v, n - 1).key) == AddressesName
    ensures RecordOf(env, PeerObject, v, n)
         == Extended(env, PeerAddresses, RecordOf(env, PeerObject, v, n - 1),
                     StringsOf(Nth(v, n - 1).value, Count(Nth(v, n - 1).value)))
  {
    hide Keep, Parsed, NameOf, StringsOf, Listed, LastNumber, LastBool, LastParsed, Nth;
    hide Id, HomeRegion, Online, NodeKey, DiscoKey, Addresses, AllowedIps, Endpoints;
    NthKept(v, n - 1);
    ScalarsSkip(env, v, n);
    ListGrows(env.cidr, v, n, Addresses(), MAX_ADDRESSES);
    ListedSilent(v, n, AllowedIps());
    ListedSilent(v, n, Endpoints());
  }

  lemma AllowedIpsGrow(env: Env, v: Json, n: nat)
    requires 0 < n <= Count(v) && Holds(Nth(v, n - 1).value) && NameOf(Nth(v, n - 1).key) == AllowedIpsName
    ensures RecordOf(env, PeerObject, v, n)
         == Extended(env, PeerAllowedIps, RecordOf(env, PeerObject, v, n - 1),
                     StringsOf(Nth(v, n - 1).value, Count(Nth(v, n - 1).value)))
  {
    hide Keep, Parsed, NameOf, StringsOf, Listed, LastNumber, LastBool, LastParsed, Nth;
    hide Id, HomeRegion, Online, NodeKey, DiscoKey, Addresses, AllowedIps, Endpoints;
    NthKept(v, n - 1);
    ScalarsSkip(env, v, n);
    ListGrows(env.cidr, v, n, AllowedIps(), MAX_ALLOWED_IPS);
    ListedSilent(v, n, Addresses());
    ListedSilent(v, n, Endpoints());
  }

  lemma EndpointsGrow(env: Env, ctx: Context, list: Context, v: Json, n: nat)
    requires list == PeerEndpoints || list == PatchEndpoints
    requires 0 < n <= Count(v) && Holds(Nth(v, n - 1).value) && NameOf(Nth(v, n - 1).key) == EndpointsName
    ensures RecordOf(env, ctx, v, n)
         == Extended(env, list, RecordOf(env, ctx, v, n - 1),
                     StringsOf(Nth(v, n - 1).value, Count(Nth(v, n - 1).value)))
  {
    hide Keep, Parsed, NameOf, StringsOf, Listed, LastNumber, LastBool, LastParsed, Nth;
    hide Id, HomeRegion, Online, NodeKey, DiscoKey, Addresses, AllowedIps, Endpoints;
    NthKept(v, n - 1);
    ScalarsSkip(env, v, n);
    ListGrows(env.socket, v, n, Endpoints(), MAX_ENDPOINTS);
    ListedSilent(v, n, Addresses());
    ListedSilent(v, n, AllowedIps());
  }

  lemma ListGrows(parse: Bytes -> Option<Bytes>, v: Json, n: nat, names: set<Bytes>, room: nat)
    requires 0 < n <= Count(v) && Holds(Nth(v, n - 1).value) && NameAt(v, n - 1) in names
    ensures var more := StringsOf(Nth(v, n - 1).value, Count(Nth(v, n - 1).value));
            && Listed(v, n, names) == Listed(v, n - 1, names) + more
            && Keep(Parsed(parse, Listed(v, n, names)), room)
               == Keep(Keep(Parsed(parse, Listed(v, n - 1, names)), room) + Parsed(parse, more), room)
  {
    hide Keep, Parsed, NameOf, StringsOf;
    var before, more := Listed(v, n - 1, names), StringsOf(Nth(v, n - 1).value, Count(Nth(v, n - 1).value));
    ParsedAppend(parse, before, more);
    KeepTwice(Parsed(parse, before), Parsed(parse, more), room);
  }

  /** The parser's pending record is what the members say, for every prefix of them. */
  lemma {:induction false} RecordReads(env: Env, ctx: Context, v: Json, n: nat, w: Work)
    requires IsRecord(ctx) && n <= Count(v) && w.pending == NoPending()
    ensures VisitFields(env, ctx, v, n, w).pending == RecordOf(env, ctx, v, n)
    ensures VisitFields(env, ctx, v, n, w).net == w.net
    decreases n
  {
    hide RecordOf, VisitLeaf, ChildOf;
    if n == 0 {
      RecordNone(env, ctx, v);
    } else {
      RecordReads(env, ctx, v, n - 1, w);
      var mid := VisitFields(env, ctx, v, n - 1, w);
      if Holds(Nth(v, n - 1).value) {
        RecordContainer(env, ctx, v, n, mid);
      } else {
        RecordLeaf(env, ctx, v, n, mid);
      }
    }
  }
}
