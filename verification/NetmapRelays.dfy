/** What a relay region says, and that the parser collects exactly that. */
module NetmapRelays {
  import opened Common
  import opened Json
  import opened Netmap
  import opened NetmapNames
  import opened NetmapReading
  import opened NetmapRecords
  import opened NetmapTree

  /** A child under the name the parser keeps, and under its own. */
  lemma RelayKept(v: Json, i: nat)
    requires i < Count(v)
    ensures var k := NameOf(Nth(v, i).key);
            && Nth(v, i).value == ValueAt(v, i)
            && (k == HostName <==> NameAt(v, i) in Host())
            && (k == DerpPortName <==> NameAt(v, i) in RelayPort())
            && (k == StunPortName <==> NameAt(v, i) in StunPort())
            && (k == NodesName <==> NameAt(v, i) in Nodes())
            && (k == RegionCodeName <==> NameAt(v, i) in RegionCode())
            && (k == RegionIdName <==> NameAt(v, i) in RegionId())
  {
    hide NameOf, Host, RelayPort, StunPort, Nodes, RegionCode, RegionId;
    NamesAreKept(NameAt(v, i));
    NthIs(v, i);
  }

  predicate SameButRegion(a: Work, b: Work) {
    a.net == b.net && a.failed == b.failed && a.pending == b.pending
  }

  // Nodes

  function Holding(r: Region, node: DerpNode): Region {
    r.(host := node.host, port := node.port, stun := node.stun)
  }

  lemma NodeLeaf(env: Env, v: Json, n: nat, w: Work, r: Region)
    requires 0 < n <= Count(v) && !Holds(ValueAt(v, n - 1)) && w.region == Holding(r, NodeOf(v, n - 1))
    ensures VisitLeaf(env, DerpNodeObject, Nth(v, n - 1).key, Nth(v, n - 1).value, w)
         == w.(region := Holding(r, NodeOf(v, n)))
  {
    hide NameOf, VisitLeaf, Nth, Host, RelayPort, StunPort, Nodes, RegionCode, RegionId, NodeOf, Fitting;
    RelayKept(v, n - 1);
    NodeMachine(env, Nth(v, n - 1).key, ValueAt(v, n - 1), w);
    NodeStep(v, n);
  }

  lemma NodeMachine(env: Env, key: Bytes, v: Json, w: Work)
    requires !Holds(v)
    ensures VisitLeaf(env, DerpNodeObject, key, v, w)
         == if v.Str? && NameOf(key) == HostName then w.(region := w.region.(host := Fitting(v.s, 64)))
            else if v.Num? && NameOf(key) == DerpPortName then w.(region := w.region.(port := v.n % 0x1_0000))
            else if v.Num? && NameOf(key) == StunPortName then w.(region := w.region.(stun := v.n % 0x1_0000))
            else w
  {
    hide NameOf, Fitting;
  }

  /** A member that is no container: another host, another port, or nothing. */
  lemma NodeStep(v: Json, n: nat)
    requires 0 < n <= Count(v) && !Holds(ValueAt(v, n - 1))
    ensures var f, name, before := ValueAt(v, n - 1), NameAt(v, n - 1), NodeOf(v, n - 1);
            NodeOf(v, n)
            == if f.Str? && name in Host() then before.(host := Fitting(f.s, 64))
               else if f.Num? && name in RelayPort() && name in StunPort() then
                 before.(port := f.n % 0x1_0000, stun := f.n % 0x1_0000)
               else if f.Num? && name in RelayPort() then before.(port := f.n % 0x1_0000)
               else if f.Num? && name in StunPort() then before.(stun := f.n % 0x1_0000)
               else before
  {
    hide Host, RelayPort, StunPort;
  }

  lemma NodeSkips(v: Json, n: nat)
    requires 0 < n <= Count(v) && Holds(ValueAt(v, n - 1))
    ensures NodeOf(v, n) == NodeOf(v, n - 1)
  {
    hide Host, RelayPort, StunPort;
  }

  /** The members of a node: its last host and ports, and the defaults of those it does not mention. */
  lemma {:induction false} NodeReads(env: Env, v: Json, n: nat, w: Work)
    requires n <= Count(v) && w.region.host == [] && w.region.port == 443 && w.region.stun == 0
    ensures VisitFields(env, DerpNodeObject, v, n, w) == w.(region := Holding(w.region, NodeOf(v, n)))
    decreases n
  {
    hide VisitLeaf, NodeOf;
    if n == 0 {
      NodeNone(v);
    } else {
      NodeReads(env, v, n - 1, w);
      NthIs(v, n - 1);
      var f, mid := Nth(v, n - 1), VisitFields(env, DerpNodeObject, v, n - 1, w);
      if Holds(f.value) {
        IgnoredContainer(env, DerpNodeObject, f, mid);
        NodeSkips(v, n);
      } else {
        NodeLeaf(env, v, n, mid, w.region);
      }
    }
  }

  lemma NodeNone(v: Json)
    ensures NodeOf(v, 0) == DerpNode([], 443, 0)
  {
  }

  lemma NodeVisit(env: Env, f: Field, w: Work)
    requires Holds(f.value)
    ensures var after := Visit(env, DerpNodes, DerpNodeObject, f.key, f.value, w);
            && SameButRegion(after, w) && after.region.id == w.region.id && after.region.code == w.region.code
            && after.region.nodes == Pushed(w.region.nodes, NodeOf(f.value, Count(f.value)), 4)
  {
    hide VisitFields, NodeOf, Pushed;
    NodeReads(env, f.value, Count(f.value), w.(region := w.region.(host := [], port := 443, stun := 0)));
  }

  lemma KeepPushedNode(a: seq<DerpNode>, x: DerpNode)
    ensures Pushed(Keep(a, 4), x, 4) == Keep(a + [x], 4)
  {
  }

  lemma {:induction false} NodesRead(env: Env, v: Json, n: nat, w: Work, before: seq<DerpNode>)
    requires n <= Count(v) && w.region.nodes == Keep(before, 4)
    ensures var after := VisitFields(env, DerpNodes, v, n, w);
            && SameButRegion(after, w) && after.region.id == w.region.id && after.region.code == w.region.code
            && after.region.nodes == Keep(before + NodesIn(v, n), 4)
    decreases n
  {
    hide Visit, NodeOf, Keep, Pushed;
    if n == 0 {
      assert before + [] == before;
    } else {
      NodesRead(env, v, n - 1, w, before);
      NthIs(v, n - 1);
      var f, mid := Nth(v, n - 1), VisitFields(env, DerpNodes, v, n - 1, w);
      var sofar := before + NodesIn(v, n - 1);
      if Holds(f.value) {
        NodeVisit(env, f, mid);
        KeepPushedNode(sofar, NodeOf(f.value, Count(f.value)));
        assert sofar + [NodeOf(f.value, Count(f.value))] == before + NodesIn(v, n);
      } else {
        NodeNoise(env, f, mid);
        assert sofar == before + NodesIn(v, n);
      }
    }
  }

  lemma NodeNoise(env: Env, f: Field, w: Work)
    requires !Holds(f.value)
    ensures Visit(env, DerpNodes, DerpNodeObject, f.key, f.value, w) == w
  {
    hide NameOf;
  }

  // Regions

  /** The region collected from the first members. */
  predicate Collects(w: Work, region: DerpRegion) {
    w.region.id == region.id && w.region.code == region.code && w.region.nodes == region.nodes
  }

  lemma RegionLeaf(env: Env, name: Bytes, v: Json, n: nat, w: Work)
    requires 0 < n <= Count(v) && !Holds(ValueAt(v, n - 1)) && Collects(w, RegionOf(name, v, n - 1))
    ensures var after := VisitLeaf(env, DerpRegionObject, Nth(v, n - 1).key, Nth(v, n - 1).value, w);
            SameButRegion(after, w) && Collects(after, RegionOf(name, v, n))
  {
    hide NameOf, VisitLeaf, Nth, Host, RelayPort, StunPort, Nodes, RegionCode, RegionId, RegionOf, Fitting;
    RelayKept(v, n - 1);
    RegionMachine(env, Nth(v, n - 1).key, ValueAt(v, n - 1), w);
    RegionStep(name, v, n);
  }

  lemma RegionMachine(env: Env, key: Bytes, v: Json, w: Work)
    requires !Holds(v)
    ensures VisitLeaf(env, DerpRegionObject, key, v, w)
         == if v.Num? && NameOf(key) == RegionIdName then w.(region := w.region.(id := v.n % 0x1_0000))
            else if v.Str? && NameOf(key) == RegionCodeName then w.(region := w.region.(code := Fitting(v.s, 16)))
            else w
  {
    hide NameOf, Fitting;
  }

  /** A member that is no container: another number, another code, or nothing. */
  lemma RegionStep(name: Bytes, v: Json, n: nat)
    requires 0 < n <= Count(v) && !Holds(ValueAt(v, n - 1))
    ensures var f, before := ValueAt(v, n - 1), RegionOf(name, v, n - 1);
            RegionOf(name, v, n)
            == if f.Num? && NameAt(v, n - 1) in RegionId() then before.(id := f.n % 0x1_0000)
               else if f.Str? && NameAt(v, n - 1) in RegionCode() then before.(code := Fitting(f.s, 16))
               else before
  {
    hide RegionCode, RegionId, Nodes, ParseU16, Keep, NodesIn;
    assert NodesOf(v, n - 1) + [] == NodesOf(v, n - 1);
  }

  lemma ScalarsSkipRegion(name: Bytes, v: Json, n: nat)
    requires 0 < n <= Count(v) && Holds(ValueAt(v, n - 1))
    ensures RegionOf(name, v, n).id == RegionOf(name, v, n - 1).id
    ensures RegionOf(name, v, n).code == RegionOf(name, v, n - 1).code
  {
    hide Nodes, RegionCode, RegionId, ParseU16, NodesOf, Keep;
  }

  lemma RegionContainer(env: Env, name: Bytes, v: Json, n: nat, w: Work)
    requires 0 < n <= Count(v) && Holds(ValueAt(v, n - 1)) && Collects(w, RegionOf(name, v, n - 1))
    ensures var f := Nth(v, n - 1);
            var after := Visit(env, DerpRegionObject, ChildOf(DerpRegionObject, f.key), f.key, f.value, w);
            SameButRegion(after, w) && Collects(after, RegionOf(name, v, n))
  {
    hide NameOf, VisitFields, Nodes, RegionCode, RegionId, Host, RelayPort, StunPort, ParseU16, NodesIn, Keep;
    hide LastNumber, LastText;
    RelayKept(v, n - 1);
    ScalarsSkipRegion(name, v, n);
    var f := Nth(v, n - 1);
    if NameAt(v, n - 1) in Nodes() {
      NodesRead(env, f.value, Count(f.value), w, NodesOf(v, n - 1));
    } else {
      IgnoredContainer(env, DerpRegionObject, f, w);
      assert NodesOf(v, n - 1) + [] == NodesOf(v, n - 1);
    }
  }

  lemma RegionNone(name: Bytes, v: Json)
    ensures RegionOf(name, v, 0) == DerpRegion(ParseU16(Fitting(name, MAX_KEY)), [], [])
  {
  }

  /** The members of a region. */
  lemma {:induction false} RegionReads(env: Env, name: Bytes, v: Json, n: nat, w: Work)
    requires n <= Count(v) && w.region == NoRegion().(id := ParseU16(Fitting(name, MAX_KEY)))
    ensures var after := VisitFields(env, DerpRegionObject, v, n, w);
            SameButRegion(after, w) && Collects(after, RegionOf(name, v, n))
    decreases n
  {
    hide VisitLeaf, ChildOf, RegionOf, ParseU16;
    if n == 0 {
      RegionNone(name, v);
    } else {
      RegionReads(env, name, v, n - 1, w);
      NthIs(v, n - 1);
      var mid := VisitFields(env, DerpRegionObject, v, n - 1, w);
      if Holds(ValueAt(v, n - 1)) {
        RegionContainer(env, name, v, n, mid);
      } else {
        RegionLeaf(env, name, v, n, mid);
      }
    }
  }

  /** A whole region, from its first member to its end, is inserted as it is described. */
  lemma RegionIsInserted(env: Env, name: Bytes, v: Json, w: Work)
    requires Holds(v)
    ensures var after := Visit(env, DerpRegions, DerpRegionObject, Fitting(name, MAX_KEY), v, w);
            var r := InsertRegion(w.net.derp, RegionOf(name, v, Count(v)));
            && (r.Ok? ==> after.failed == w.failed && after.net == w.net.(derp := r.value))
            && (r.Err? ==> after.failed.Some? && after.net == w.net)
  {
    hide VisitFields, RegionOf, InsertRegion, ParseU16;
    var begun := w.(region := NoRegion().(id := ParseU16(Fitting(name, MAX_KEY))));
    RegionReads(env, name, v, Count(v), begun);
  }
}
