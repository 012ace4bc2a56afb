/** The member names of a response, as they are spelled, and that the parser tells them apart by exactly that. */
module NetmapNames {
  import opened Common
  import opened Netmap

  function Node(): set<Bytes> { {Ascii("Node")} }

  function Peers(): set<Bytes> { {Ascii("Peers")} }

  function PeersChanged(): set<Bytes> { {Ascii("PeersChanged")} }

  function Patches(): set<Bytes> { {Ascii("PeersChangedPatch")} }

  function Removed(): set<Bytes> { {Ascii("PeersRemoved")} }

  function RelayMap(): set<Bytes> { {Ascii("DERPMap")} }

  function Addresses(): set<Bytes> { {Ascii("Addresses")} }

  function AllowedIps(): set<Bytes> { {Ascii("AllowedIPs")} }

  function Endpoints(): set<Bytes> { {Ascii("Endpoints")} }

  function Regions(): set<Bytes> { {Ascii("Regions")} }

  function Nodes(): set<Bytes> { {Ascii("Nodes")} }

  function NodeKey(): set<Bytes> { {Ascii("Key")} }

  function DiscoKey(): set<Bytes> { {Ascii("DiscoKey")} }

  function Id(): set<Bytes> { {Ascii("ID"), Ascii("NodeID")} }

  function HomeRegion(): set<Bytes> { {Ascii("HomeDERP"), Ascii("DERPRegion")} }

  function RegionCode(): set<Bytes> { {Ascii("RegionCode")} }

  function RegionId(): set<Bytes> { {Ascii("RegionID")} }

  function Host(): set<Bytes> { {Ascii("HostName")} }

  function RelayPort(): set<Bytes> { {Ascii("DERPPort")} }

  function StunPort(): set<Bytes> { {Ascii("STUNPort")} }

  function Online(): set<Bytes> { {Ascii("Online")} }

  lemma Differ(a: string, b: string, i: nat)
    requires |a| == |b| && i < |a| && a[i] as int % 0x100 != b[i] as int % 0x100
    ensures Ascii(a) != Ascii(b)
  {
    assert Ascii(a)[i] != Ascii(b)[i];
  }

  lemma SectionsAreSpelled(key: Bytes)
    ensures NameOf(key) == NodeName <==> key in Node()
    ensures NameOf(key) == PeersName <==> key in Peers()
    ensures NameOf(key) == PeersChangedName <==> key in PeersChanged()
    ensures NameOf(key) == PatchName <==> key in Patches()
    ensures NameOf(key) == RemovedName <==> key in Removed()
    ensures NameOf(key) == DerpMapName <==> key in RelayMap()
  {
    hide Ascii;
    Differ("PeersRemoved", "PeersChanged", 5);
  }

  lemma ListsAreSpelled(key: Bytes)
    ensures NameOf(key) == AddressesName <==> key in Addresses()
    ensures NameOf(key) == AllowedIpsName <==> key in AllowedIps()
    ensures NameOf(key) == EndpointsName <==> key in Endpoints()
    ensures NameOf(key) == NodesName <==> key in Nodes()
    ensures NameOf(key) == RegionsName <==> key in Regions()
  {
    hide Ascii;
    Differ("Endpoints", "Addresses", 0);
    Differ("Nodes", "Peers", 0);
    Differ("Regions", "DERPMap", 0);
  }

  lemma KeysAreSpelled(key: Bytes)
    ensures NameOf(key) == KeyName <==> key in NodeKey()
    ensures NameOf(key) == DiscoKeyName <==> key in DiscoKey()
    ensures NameOf(key) == IdName <==> key in Id()
  {
    hide Ascii;
  }

  lemma CodesAreSpelled(key: Bytes)
    ensures NameOf(key) == HomeDerpName <==> key in HomeRegion()
    ensures NameOf(key) == RegionCodeName <==> key in RegionCode()
  {
    hide Ascii;
    Differ("HomeDERP", "DiscoKey", 0);
    Differ("DERPRegion", "AllowedIPs", 0);
    Differ("RegionCode", "AllowedIPs", 0);
    Differ("RegionCode", "DERPRegion", 0);
  }

  lemma HostsAreSpelled(key: Bytes)
    ensures NameOf(key) == RegionIdName <==> key in RegionId()
    ensures NameOf(key) == HostName <==> key in Host()
  {
    hide Ascii;
    Differ("RegionID", "DiscoKey", 0);
    Differ("RegionID", "HomeDERP", 0);
    Differ("HostName", "DiscoKey", 0);
    Differ("HostName", "HomeDERP", 2);
    Differ("HostName", "RegionID", 0);
  }

  lemma PortsAreSpelled(key: Bytes)
    ensures NameOf(key) == DerpPortName <==> key in RelayPort()
    ensures NameOf(key) == StunPortName <==> key in StunPort()
    ensures NameOf(key) == OnlineName <==> key in Online()
  {
    hide Ascii;
    Differ("DERPPort", "DiscoKey", 1);
    Differ("DERPPort", "HomeDERP", 0);
    Differ("DERPPort", "RegionID", 0);
    Differ("DERPPort", "HostName", 0);
    Differ("STUNPort", "DiscoKey", 0);
    Differ("STUNPort", "HomeDERP", 0);
    Differ("STUNPort", "RegionID", 0);
    Differ("STUNPort", "HostName", 0);
    Differ("STUNPort", "DERPPort", 0);
    Differ("Online", "NodeID", 0);
  }

  /** Every name is told apart by exactly its spellings. */
  predicate Spelled(key: Bytes) {
    && (NameOf(key) == NodeName <==> key in Node())
    && (NameOf(key) == PeersName <==> key in Peers())
    && (NameOf(key) == PeersChangedName <==> key in PeersChanged())
    && (NameOf(key) == PatchName <==> key in Patches())
    && (NameOf(key) == RemovedName <==> key in Removed())
    && (NameOf(key) == DerpMapName <==> key in RelayMap())
    && (NameOf(key) == AddressesName <==> key in Addresses())
    && (NameOf(key) == AllowedIpsName <==> key in AllowedIps())
    && (NameOf(key) == EndpointsName <==> key in Endpoints())
    && (NameOf(key) == RegionsName <==> key in Regions())
    && (NameOf(key) == NodesName <==> key in Nodes())
    && (NameOf(key) == KeyName <==> key in NodeKey())
    && (NameOf(key) == DiscoKeyName <==> key in DiscoKey())
    && (NameOf(key) == IdName <==> key in Id())
    && (NameOf(key) == HomeDerpName <==> key in HomeRegion())
    && (NameOf(key) == RegionCodeName <==> key in RegionCode())
    && (NameOf(key) == RegionIdName <==> key in RegionId())
    && (NameOf(key) == HostName <==> key in Host())
    && (NameOf(key) == DerpPortName <==> key in RelayPort())
    && (NameOf(key) == StunPortName <==> key in StunPort())
    && (NameOf(key) == OnlineName <==> key in Online())
  }

  lemma NamesAreSpelled(key: Bytes)
    ensures Spelled(key)
  {
    hide NameOf, Node, Peers, PeersChanged, Patches, Removed, RelayMap, Addresses, AllowedIps, Endpoints, Regions,
         Nodes, NodeKey, DiscoKey, Id, HomeRegion, RegionCode, RegionId, Host, RelayPort, StunPort, Online;
    SectionsAreSpelled(key);
    ListsAreSpelled(key);
    KeysAreSpelled(key);
    CodesAreSpelled(key);
    HostsAreSpelled(key);
    PortsAreSpelled(key);
  }

  // Names longer than the parser keeps are none of these

  lemma NamesAreShort(name: Bytes)
    requires |name| == 0 || |name| > MAX_KEY
    ensures name !in Node()
    ensures name !in Peers()
    ensures name !in PeersChanged()
    ensures name !in Patches()
    ensures name !in Removed()
    ensures name !in RelayMap()
    ensures name !in Addresses()
    ensures name !in AllowedIps()
    ensures name !in Endpoints()
    ensures name !in Regions()
    ensures name !in Nodes()
    ensures name !in NodeKey()
    ensures name !in DiscoKey()
    ensures name !in Id()
    ensures name !in HomeRegion()
    ensures name !in RegionCode()
    ensures name !in RegionId()
    ensures name !in Host()
    ensures name !in RelayPort()
    ensures name !in StunPort()
    ensures name !in Online()
  {
    hide Ascii;
  }

  lemma OtherKey()
    ensures NameOf([]) == OtherName
  {
    hide Ascii;
  }

  /** The same of a name as the document has it. */
  predicate Kept(name: Bytes) {
    var key := Fitting(name, MAX_KEY);
    && (NameOf(key) == NodeName <==> name in Node())
    && (NameOf(key) == PeersName <==> name in Peers())
    && (NameOf(key) == PeersChangedName <==> name in PeersChanged())
    && (NameOf(key) == PatchName <==> name in Patches())
    && (NameOf(key) == RemovedName <==> name in Removed())
    && (NameOf(key) == DerpMapName <==> name in RelayMap())
    && (NameOf(key) == AddressesName <==> name in Addresses())
    && (NameOf(key) == AllowedIpsName <==> name in AllowedIps())
    && (NameOf(key) == EndpointsName <==> name in Endpoints())
    && (NameOf(key) == RegionsName <==> name in Regions())
    && (NameOf(key) == NodesName <==> name in Nodes())
    && (NameOf(key) == KeyName <==> name in NodeKey())
    && (NameOf(key) == DiscoKeyName <==> name in DiscoKey())
    && (NameOf(key) == IdName <==> name in Id())
    && (NameOf(key) == HomeDerpName <==> name in HomeRegion())
    && (NameOf(key) == RegionCodeName <==> name in RegionCode())
    && (NameOf(key) == RegionIdName <==> name in RegionId())
    && (NameOf(key) == HostName <==> name in Host())
    && (NameOf(key) == DerpPortName <==> name in RelayPort())
    && (NameOf(key) == StunPortName <==> name in StunPort())
    && (NameOf(key) == OnlineName <==> name in Online())
  }

  lemma NamesAreKept(name: Bytes)
    ensures Kept(name)
  {
    hide NameOf, Node, Peers, PeersChanged, Patches, Removed, RelayMap, Addresses, AllowedIps, Endpoints, Regions,
         Nodes, NodeKey, DiscoKey, Id, HomeRegion, RegionCode, RegionId, Host, RelayPort, StunPort, Online;
    if |name| <= MAX_KEY {
      NamesAreSpelled(name);
    } else {
      NamesAreShort(name);
      OtherKey();
    }
  }
}
