/**
 The HPACK tables (crates/micro-h2/src/hpack/dynamic.rs and static_table.rs)
 beside the dynamic table that sections 2.3.2 and 4.1 to 4.4 of RFC 7541 define.
 */
module HpackTable {
  import opened Common

  type Text = seq<byte>
  datatype Field = Field(name: Text, value: Text)

  const ENTRY_OVERHEAD := 32
  const MAX_ENTRIES := 64
  const MAX_ENTRY_LEN := 128
  const STATIC_LEN := 61
  const DYNAMIC_BASE := 62

  function SizeOf(f: Field): nat {
    |f.name| + |f.value| + ENTRY_OVERHEAD
  }

  /** Section 4.1: the size of a table is the sum of its entries' sizes. */
  function Total(entries: seq<Field>): nat {
    if entries == [] then 0 else Total(entries[..|entries| - 1]) + SizeOf(entries[|entries| - 1])
  }

  /** Entries are newest first. */
  datatype Table = Table(entries: seq<Field>, capacity: nat)

  /** Section 4.3: drop the oldest until what is left fits the limit. */
  function Fit(entries: seq<Field>, limit: int): (r: seq<Field>)
    ensures r <= entries
    ensures r == [] || Total(r) <= limit
  {
    if entries == [] || Total(entries) <= limit then entries else Fit(entries[..|entries| - 1], limit)
  }

  // ---------------------------------------------------------------------
  // The table of the standard.

  /** Section 4.4: make room, then add; an entry larger than the table leaves it empty. */
  function RfcInsert(t: Table, f: Field): Table {
    var kept := Fit(t.entries, t.capacity - SizeOf(f));
    if SizeOf(f) > t.capacity then Table([], t.capacity) else Table([f] + kept, t.capacity)
  }

  function RfcResize(t: Table, capacity: nat): Table {
    Table(Fit(t.entries, capacity), capacity)
  }

  // ---------------------------------------------------------------------
  // The table of the code.

  /** What the code is able to remember. */
  predicate Short(f: Field) {
    |f.name| <= MAX_ENTRY_LEN && |f.value| <= MAX_ENTRY_LEN
  }

  function Insert(t: Table, f: Field): Table {
    var kept := Fit(t.entries, t.capacity - SizeOf(f));
    if SizeOf(f) > t.capacity || !Short(f) then Table(kept, t.capacity)
    else Table([f] + (if |kept| >= MAX_ENTRIES then kept[..|kept| - 1] else kept), t.capacity)
  }

  function Resize(t: Table, capacity: nat): Table {
    Table(Fit(t.entries, capacity), capacity)
  }

  predicate WellFormed(t: Table) {
    |t.entries| <= MAX_ENTRIES && forall i :: 0 <= i < |t.entries| ==> Short(t.entries[i])
  }

  lemma InsertWellFormed(t: Table, f: Field)
    requires WellFormed(t)
    ensures WellFormed(Insert(t, f))
  {
    var kept := Fit(t.entries, t.capacity - SizeOf(f));
    assert forall i :: 0 <= i < |kept| ==> kept[i] == t.entries[i];
  }

  class DynamicTable {
    var entries: seq<Field>
    var size: nat
    var capacity: nat

    function View(): Table
      reads this
    {
      Table(entries, capacity)
    }

    ghost predicate Valid()
      reads this
    {
      size == Total(entries) && WellFormed(View())
    }

    constructor (capacity: nat)
      ensures Valid() && View() == Table([], capacity)
    {
      entries := [];
      size := 0;
      this.capacity := capacity;
    }

    method EvictOldest()
      requires Valid()
      modifies this
      ensures Valid() && capacity == old(capacity)
      ensures entries == if old(entries) == [] then [] else old(entries)[..|old(entries)| - 1]
    {
      if entries != [] {
        var n := |entries| - 1;
        size := size - SizeOf(entries[n]);
        entries := entries[..n];
      }
    }

    method EvictToFit(incoming: nat)
      requires Valid()
      modifies this
      ensures Valid() && capacity == old(capacity)
      ensures entries == Fit(old(entries), capacity - incoming)
    {
      while size + incoming > capacity && entries != []
        invariant Valid() && capacity == old(capacity)
        invariant Fit(entries, capacity - incoming) == Fit(old(entries), capacity - incoming)
        decreases |entries|
      {
        EvictOldest();
      }
    }

    method SetCapacity(newCapacity: nat)
      requires Valid()
      modifies this
      ensures Valid() && View() == Resize(old(View()), newCapacity)
    {
      capacity := newCapacity;
      EvictToFit(0);
    }

    method InsertField(f: Field)
      requires Valid()
      modifies this
      ensures Valid() && View() == Insert(old(View()), f)
    {
      EvictToFit(SizeOf(f));
      if SizeOf(f) > capacity || |f.name| > MAX_ENTRY_LEN || |f.value| > MAX_ENTRY_LEN {
        return;
      }
      if |entries| >= MAX_ENTRIES {
        EvictOldest();
      }
      TotalFront(f, entries);
      size := size + SizeOf(f);
      entries := [f] + entries;
    }
  }

  lemma {:induction false} TotalFront(f: Field, entries: seq<Field>)
    ensures Total([f] + entries) == SizeOf(f) + Total(entries)
  {
    var all := [f] + entries;
    if entries == [] {
      assert all[..0] == [];
    } else {
      TotalFront(f, entries[..|entries| - 1]);
      assert all[..|all| - 1] == [f] + entries[..|entries| - 1];
    }
  }

  // ---------------------------------------------------------------------
  // Refinement.

  /** In step: the code's table is a newest-first prefix of the standard's. */
  predicate InStep(code: Table, rfc: Table) {
    code.capacity == rfc.capacity && code.entries <= rfc.entries
  }

  lemma {:induction false} TotalOfPrefix(a: seq<Field>, b: seq<Field>)
    requires a <= b
    ensures Total(a) <= Total(b)
  {
    if |a| < |b| {
      TotalOfPrefix(a, b[..|b| - 1]);
    } else {
      assert a == b;
    }
  }

  /** Evicting the tail of a prefix leaves a prefix. */
  lemma {:induction false} FitOfPrefix(a: seq<Field>, b: seq<Field>, limit: int)
    requires a <= b
    ensures Fit(a, limit) <= Fit(b, limit)
    decreases |a| + |b|
  {
    TotalOfPrefix(a, b);
    if a != [] && Total(b) > limit {
      if |a| == |b| {
        assert a == b;
      } else {
        FitOfPrefix(a, b[..|b| - 1], limit);
      }
    }
  }

  lemma ResizeInStep(code: Table, rfc: Table, capacity: nat)
    requires InStep(code, rfc)
    ensures InStep(Resize(code, capacity), RfcResize(rfc, capacity))
  {
    FitOfPrefix(code.entries, rfc.entries, capacity);
  }

  /**
   Exactly when an insertion keeps the tables in step: when the field is short
   enough to be remembered, or too large for the table anyway, or making room
   for it empties the table.
   */
  lemma InsertInStepIff(code: Table, rfc: Table, f: Field)
    requires InStep(code, rfc) && WellFormed(code)
    ensures InStep(Insert(code, f), RfcInsert(rfc, f)) <==>
              Short(f) || SizeOf(f) > code.capacity || Fit(code.entries, code.capacity - SizeOf(f)) == []
  {
    var limit := code.capacity - SizeOf(f);
    FitOfPrefix(code.entries, rfc.entries, limit);
    var kept := Fit(code.entries, limit);
    if SizeOf(f) <= code.capacity && !Short(f) && kept != [] {
      assert kept[0] == code.entries[0] && Short(kept[0]);
      assert RfcInsert(rfc, f).entries[0] == f;
    }
  }

  datatype Op = InsertOp(field: Field) | ResizeOp(capacity: nat)

  function Apply(t: Table, op: Op): Table {
    match op
    case InsertOp(f) => Insert(t, f)
    case ResizeOp(c) => Resize(t, c)
  }

  function RfcApply(t: Table, op: Op): Table {
    match op
    case InsertOp(f) => RfcInsert(t, f)
    case ResizeOp(c) => RfcResize(t, c)
  }

  function ApplyAll(t: Table, ops: seq<Op>): Table {
    if ops == [] then t else Apply(ApplyAll(t, ops[..|ops| - 1]), ops[|ops| - 1])
  }

  function RfcApplyAll(t: Table, ops: seq<Op>): Table {
    if ops == [] then t else RfcApply(RfcApplyAll(t, ops[..|ops| - 1]), ops[|ops| - 1])
  }

  /** Any history of insertions of short fields and of resizes keeps the tables in step. */
  lemma {:induction false} HistoryInStep(capacity: nat, ops: seq<Op>)
    requires forall i :: 0 <= i < |ops| && ops[i].InsertOp? ==> Short(ops[i].field)
    ensures InStep(ApplyAll(Table([], capacity), ops), RfcApplyAll(Table([], capacity), ops))
    ensures WellFormed(ApplyAll(Table([], capacity), ops))
  {
    if ops != [] {
      var n := |ops| - 1;
      HistoryInStep(capacity, ops[..n]);
      var code, rfc := ApplyAll(Table([], capacity), ops[..n]), RfcApplyAll(Table([], capacity), ops[..n]);
      match ops[n] {
        case InsertOp(f) =>
          InsertInStepIff(code, rfc, f);
          InsertWellFormed(code, f);
        case ResizeOp(c) =>
          ResizeInStep(code, rfc, c);
          assert forall i :: 0 <= i < |Resize(code, c).entries| ==> Resize(code, c).entries[i] == code.entries[i];
      }
    }
  }

  // ---------------------------------------------------------------------
  // How much of the standard's table is remembered.

  function Newest(entries: seq<Field>, n: nat): (r: seq<Field>)
    ensures r <= entries && |r| <= n
  {
    if |entries| <= n then entries else entries[..n]
  }

  /** The code's table is the newest sixty-four entries of the standard's. */
  predicate Mirrors(code: Table, rfc: Table) {
    code.capacity == rfc.capacity && code.entries == Newest(rfc.entries, 64)
  }

  /** Evicting and forgetting the oldest commute. */
  lemma {:induction false} FitOfNewest(b: seq<Field>, limit: int, n: nat)
    ensures Fit(Newest(b, n), limit) == Newest(Fit(b, limit), n)
  {
    if |b| > n {
      TotalOfPrefix(Newest(b, n), b);
      if Total(b) > limit {
        assert Newest(b[..|b| - 1], n) == Newest(b, n);
        FitOfNewest(b[..|b| - 1], limit, n);
      }
    }
  }

  lemma ResizeMirrors(code: Table, rfc: Table, capacity: nat)
    requires Mirrors(code, rfc)
    ensures Mirrors(Resize(code, capacity), RfcResize(rfc, capacity))
  {
    FitOfNewest(rfc.entries, capacity, 64);
  }

  /** Exactly when an insertion leaves it so: the code remembers the field, or no table this size can hold it. */
  lemma InsertMirrorsIff(code: Table, rfc: Table, f: Field)
    requires Mirrors(code, rfc) && WellFormed(code)
    ensures Mirrors(Insert(code, f), RfcInsert(rfc, f)) <==> Short(f) || SizeOf(f) > code.capacity
  {
    hide Fit;
    var limit := code.capacity - SizeOf(f);
    FitOfNewest(rfc.entries, limit, 64);
    var kept, all := Fit(code.entries, limit), Fit(rfc.entries, limit);
    if SizeOf(f) > code.capacity {
      FitNothing(code.entries, limit);
    } else {
      assert Newest([f] + all, 64) == [f] + Newest(all, 63);
      assert Newest(all, 63) == if |kept| >= 64 then kept[..63] else kept;
      assert Newest([f] + all, 64)[0] == f;
      assert kept != [] ==> kept[0] == code.entries[0] && Short(kept[0]);
    }
  }

  lemma {:induction false} FitNothing(entries: seq<Field>, limit: int)
    requires limit < 0
    ensures Fit(entries, limit) == []
  {
    if entries != [] {
      FitNothing(entries[..|entries| - 1], limit);
    }
  }

  /** Over any history of short fields and resizes the code remembers exactly the newest sixty-four. */
  lemma {:induction false} HistoryMirrors(capacity: nat, ops: seq<Op>)
    requires forall i :: 0 <= i < |ops| && ops[i].InsertOp? ==> Short(ops[i].field)
    ensures Mirrors(ApplyAll(Table([], capacity), ops), RfcApplyAll(Table([], capacity), ops))
  {
    if ops != [] {
      var n := |ops| - 1;
      HistoryMirrors(capacity, ops[..n]);
      HistoryInStep(capacity, ops[..n]);
      var code, rfc := ApplyAll(Table([], capacity), ops[..n]), RfcApplyAll(Table([], capacity), ops[..n]);
      match ops[n] {
        case InsertOp(f) => InsertMirrorsIff(code, rfc, f);
        case ResizeOp(c) => ResizeMirrors(code, rfc, c);
      }
    }
  }

  // ---------------------------------------------------------------------
  // The static table and lookup.

  type ShortField = f: Field | Short(f) witness Field([], [])

  function E(name: string, value: string): ShortField
    requires |name| <= MAX_ENTRY_LEN && |value| <= MAX_ENTRY_LEN
  {
    Field(Ascii(name), Ascii(value))
  }

  /** Appendix A of RFC 7541. */
  function StaticEntries(): (r: seq<ShortField>)
    ensures |r| == STATIC_LEN
  {
    Static1To14() + Static15To31() + Static32To46() + Static47To61()
  }

  function Static1To14(): (r: seq<ShortField>)
    ensures |r| == 14
  {
    [E(":authority", ""), E(":method", "GET"), E(":method", "POST"), E(":path", "/"), E(":path", "/index.html"),
     E(":scheme", "http"), E(":scheme", "https"), E(":status", "200"), E(":status", "204"), E(":status", "206"),
     E(":status", "304"), E(":status", "400"), E(":status", "404"), E(":status", "500")]
  }

  function Static15To31(): (r: seq<ShortField>)
    ensures |r| == 17
  {
    [E("accept-charset", ""), E("accept-encoding", "gzip, deflate"), E("accept-language", ""),
     E("accept-ranges", ""), E("accept", ""), E("access-control-allow-origin", ""), E("age", ""), E("allow", ""),
     E("authorization", ""), E("cache-control", ""), E("content-disposition", ""), E("content-encoding", ""),
     E("content-language", ""), E("content-length", ""), E("content-location", ""), E("content-range", ""),
     E("content-type", "")]
  }

  function Static32To46(): (r: seq<ShortField>)
    ensures |r| == 15
  {
    [E("cookie", ""), E("date", ""), E("etag", ""), E("expect", ""), E("expires", ""), E("from", ""),
     E("host", ""), E("if-match", ""), E("if-modified-since", ""), E("if-none-match", ""), E("if-range", ""),
     E("if-unmodified-since", ""), E("last-modified", ""), E("link", ""), E("location", "")]
  }

  function Static47To61(): (r: seq<ShortField>)
    ensures |r| == 15
  {
    [E("max-forwards", ""), E("proxy-authenticate", ""), E("proxy-authorization", ""), E("range", ""),
     E("referer", ""), E("refresh", ""), E("retry-after", ""), E("server", ""), E("set-cookie", ""),
     E("strict-transport-security", ""), E("transfer-encoding", ""), E("user-agent", ""), E("vary", ""),
     E("via", ""), E("www-authenticate", "")]
  }

  /** Resolve a 1-based index over both tables; zero and anything past the end resolve to nothing. */
  function Lookup(known: seq<Field>, entries: seq<Field>, index: nat): (r: Option<Field>)
    requires |known| == STATIC_LEN
  {
    if index == 0 then None
    else if index < DYNAMIC_BASE then Some(known[index - 1])
    else if index - DYNAMIC_BASE < |entries| then Some(entries[index - DYNAMIC_BASE])
    else None
  }

  /** In step, an index the code can resolve is the field the standard means by it. */
  lemma LookupInStep(known: seq<Field>, code: Table, rfc: Table, index: nat)
    requires InStep(code, rfc) && |known| == STATIC_LEN
    ensures Lookup(known, code.entries, index).Some? ==>
              Lookup(known, rfc.entries, index) == Lookup(known, code.entries, index)
  {
  }

  /**
   Out of step is silent: once a field too long to be remembered has been
   indexed over a non-empty table, the code answers the newest index with a
   field other than the one the standard means.
   */
  lemma LongFieldMisleads(known: seq<Field>, code: Table, rfc: Table, f: Field)
    requires InStep(code, rfc) && WellFormed(code) && |known| == STATIC_LEN
    requires !Short(f) && SizeOf(f) <= code.capacity && Fit(code.entries, code.capacity - SizeOf(f)) != []
    ensures var said := Lookup(known, Insert(code, f).entries, DYNAMIC_BASE);
            var meant := Lookup(known, RfcInsert(rfc, f).entries, DYNAMIC_BASE);
            said.Some? && meant == Some(f) && said != meant
  {
    var kept := Fit(code.entries, code.capacity - SizeOf(f));
    assert kept[0] == code.entries[0] && Short(kept[0]);
  }

  /** First static entry matching a field exactly, and first matching a name. */
  function FindIn(entries: seq<Field>, f: Field): (r: Option<nat>)
    ensures r.Some? ==> r.value < |entries| && entries[r.value] == f && forall i :: 0 <= i < r.value ==> entries[i] != f
    ensures r.None? ==> forall i :: 0 <= i < |entries| ==> entries[i] != f
  {
    if entries == [] then None
    else if entries[0] == f then Some(0)
    else
      var r := FindIn(entries[1..], f);
      if r.Some? then Some(r.value + 1) else None
  }

  function FindNameIn(entries: seq<Field>, name: Text): (r: Option<nat>)
    ensures r.Some? ==> r.value < |entries| && entries[r.value].name == name
                        && forall i :: 0 <= i < r.value ==> entries[i].name != name
    ensures r.None? ==> forall i :: 0 <= i < |entries| ==> entries[i].name != name
  {
    if entries == [] then None
    else if entries[0].name == name then Some(0)
    else
      var r := FindNameIn(entries[1..], name);
      if r.Some? then Some(r.value + 1) else None
  }
}
