/** The writer: a document built in a fixed buffer, with separators inserted by depth. */
module JsonWriter {
  import opened Common
  import opened Json

  const MAX_DEPTH := 8

  datatype JsonError = Overflow | TooDeep

  /** What has been written, and for each open container whether it is still empty. */
  datatype Doc = Doc(text: seq<byte>, empty: seq<bool>)

  // A document under construction is `None` once anything has gone wrong.

  function Raw(d: Option<Doc>, room: nat, bytes: seq<byte>): Option<Doc> {
    if d.None? || |d.value.text| + |bytes| > room then None
    else Some(d.value.(text := d.value.text + bytes))
  }

  function Marked(empty: seq<bool>, top: bool): seq<bool> {
    if empty == [] then [] else empty[|empty| - 1 := top]
  }

  function Separate(d: Option<Doc>, room: nat): Option<Doc> {
    if d.None? || d.value.empty == [] then d
    else if d.value.empty[|d.value.empty| - 1] then Some(d.value.(empty := Marked(d.value.empty, false)))
    else Raw(d, room, [COMMA])
  }

  function Deeper(d: Option<Doc>): Option<Doc> {
    if d.None? || |d.value.empty| >= MAX_DEPTH then None
    else Some(d.value.(empty := d.value.empty + [true]))
  }

  function Shallower(d: Option<Doc>): Option<Doc> {
    if d.None? || d.value.empty == [] then d
    else Some(d.value.(empty := d.value.empty[..|d.value.empty| - 1]))
  }

  function Begin(d: Option<Doc>, room: nat, bracket: byte): Option<Doc> {
    Deeper(Raw(Separate(d, room), room, [bracket]))
  }

  function End(d: Option<Doc>, room: nat, bracket: byte): Option<Doc> {
    Raw(Shallower(d), room, [bracket])
  }

  /** After a member's name no comma is due before its value. */
  function Named(d: Option<Doc>, room: nat, name: seq<byte>): Option<Doc> {
    var named := Raw(Raw(Separate(d, room), room, Quoted(name)), room, [COLON]);
    if named.None? then None else Some(named.value.(empty := Marked(named.value.empty, true)))
  }

  class Writer {
    const out: array<byte>
    var len: nat
    const empty: array<bool>
    var depth: nat
    var failed: Option<JsonError>

    ghost predicate Valid()
      reads this
    {
      len <= out.Length && empty.Length == MAX_DEPTH && depth <= MAX_DEPTH
    }

    ghost function Value(): Option<Doc>
      requires Valid()
      reads this, out, empty
    {
      if failed.Some? then None else Some(Doc(out[..len], empty[..depth]))
    }

    constructor (buffer: array<byte>)
      ensures Valid() && out == buffer && fresh(empty) && Value() == Some(Doc([], []))
    {
      out := buffer;
      len := 0;
      empty := new bool[MAX_DEPTH](_ => true);
      depth := 0;
      failed := None;
    }

    /** The finished document, or that something did not fit. */
    method Finish() returns (r: Result<seq<byte>, JsonError>)
      requires Valid()
      ensures Value() == if r.Ok? then Some(Doc(r.value, empty[..depth])) else None
    {
      match failed {
        case Some(e) => return Err(e);
        case None => return Ok(out[..len]);
      }
    }

    method RawBytes(bytes: seq<byte>)
      requires Valid()
      modifies this, out
      ensures Valid() && depth == old(depth) && Value() == Raw(old(Value()), out.Length, bytes)
    {
      if failed.Some? {
        return;
      }
      var end := len + |bytes|;
      if end > out.Length {
        failed := Some(Overflow);
        return;
      }
      ghost var before := out[..len];
      forall i | 0 <= i < |bytes| {
        out[len + i] := bytes[i];
      }
      assert out[..end] == before + bytes;
      assert empty[..depth] == old(empty[..depth]);
      len := end;
    }

    method SeparateItem()
      requires Valid()
      modifies this, out, empty
      ensures Valid() && Value() == Separate(old(Value()), out.Length)
    {
      if depth == 0 {
        return;
      }
      if empty[depth - 1] {
        empty[depth - 1] := false;
        assert failed.None? ==> Value().value.empty == Marked(old(Value()).value.empty, false);
      } else {
        RawBytes([COMMA]);
      }
    }

    method PushDepth()
      requires Valid()
      modifies this, empty
      ensures Valid() && Value() == Deeper(old(Value()))
    {
      if depth >= MAX_DEPTH {
        failed := Some(TooDeep);
        return;
      }
      ghost var before := empty[..depth];
      empty[depth] := true;
      depth := depth + 1;
      assert empty[..depth] == before + [true];
    }

    method PopDepth()
      requires Valid()
      modifies this
      ensures Valid() && Value() == Shallower(old(Value()))
    {
      depth := Since(depth, 1);
      assert old(depth) > 0 ==> empty[..depth] == empty[..old(depth)][..depth];
    }

    method BeginContainer(bracket: byte)
      requires Valid()
      modifies this, out, empty
      ensures Valid() && Value() == Begin(old(Value()), out.Length, bracket)
    {
      SeparateItem();
      RawBytes([bracket]);
      PushDepth();
    }

    method EndContainer(bracket: byte)
      requires Valid()
      modifies this, out
      ensures Valid() && Value() == End(old(Value()), out.Length, bracket)
    {
      PopDepth();
      RawBytes([bracket]);
    }

    method NameMember(name: seq<byte>)
      requires Valid()
      modifies this, out, empty
      ensures Valid() && Value() == Named(old(Value()), out.Length, name)
    {
      SeparateItem();
      StringLiteral(name);
      RawBytes([COLON]);
      ghost var before := Value();
      if depth > 0 {
        empty[depth - 1] := true;
      }
      assert failed.None? ==> Value().value.empty == Marked(before.value.empty, true);
    }

    method Leaf(text: seq<byte>)
      requires Valid()
      modifies this, out, empty
      ensures Valid() && Value() == Raw(Separate(old(Value()), out.Length), out.Length, text)
    {
      SeparateItem();
      RawBytes(text);
    }

    /** Runs of plain bytes are copied whole; what JSON forbids is escaped in between. */
    method StringLiteral(value: seq<byte>)
      requires Valid()
      modifies this, out
      ensures Valid() && depth == old(depth) && Value() == Raw(old(Value()), out.Length, Quoted(value))
    {
      hide Raw, Escaped, EscapeOf;
      ghost var before := Value();
      ghost var sofar := [QUOTE];
      RawBytes([QUOTE]);
      var start := 0;
      assert Escaped(value[..0]) == [] by {
        EscapedNothing(value[..0]);
      }
      for i := 0 to |value|
        invariant Valid() && depth == old(depth) && start <= i
        invariant sofar + value[start..i] == [QUOTE] + Escaped(value[..i])
        invariant Value() == Raw(before, out.Length, sofar)
      {
        var escape := EscapeOf(value[i]);
        EscapedGrows(value, start, i, sofar);
        if escape != [value[i]] {
          RawBytes(value[start..i]);
          RawBytes(escape);
          RawTwice(before, out.Length, sofar, value[start..i]);
          RawTwice(before, out.Length, sofar + value[start..i], escape);
          sofar := sofar + value[start..i] + escape;
          start := i + 1;
        }
      }
      assert value[..|value|] == value && value[start..] == value[start..|value|];
      RawBytes(value[start..]);
      RawBytes([QUOTE]);
      RawTwice(before, out.Length, sofar, value[start..]);
      RawTwice(before, out.Length, sofar + value[start..], [QUOTE]);
    }
  }

  lemma EscapedNothing(s: seq<byte>)
    requires s == []
    ensures Escaped(s) == []
  {
  }

  lemma EscapedGrows(value: seq<byte>, start: nat, i: nat, sofar: seq<byte>)
    requires start <= i < |value| && sofar + value[start..i] == [QUOTE] + Escaped(value[..i])
    ensures sofar + value[start..i] + EscapeOf(value[i]) + value[i + 1..i + 1] == [QUOTE] + Escaped(value[..i + 1])
    ensures EscapeOf(value[i]) == [value[i]] ==> sofar + value[start..i + 1] == [QUOTE] + Escaped(value[..i + 1])
  {
    hide EscapeOf;
    assert value[..i + 1][..i] == value[..i];
    var done, next := Escaped(value[..i]), EscapeOf(value[i]);
    assert Escaped(value[..i + 1]) == done + next;
    assert [QUOTE] + (done + next) == [QUOTE] + done + next;
    assert value[i + 1..i + 1] == [];
    if next == [value[i]] {
      assert sofar + value[start..i + 1] == sofar + value[start..i] + next;
    }
  }

  /** Writing in pieces fits, and reads, exactly as writing at once. */
  lemma RawTwice(d: Option<Doc>, room: nat, a: seq<byte>, b: seq<byte>)
    ensures Raw(Raw(d, room, a), room, b) == Raw(d, room, a + b)
  {
    if d.Some? {
      assert d.value.text + (a + b) == d.value.text + a + b;
    }
  }

  // Whole values

  function CommaDue(d: Doc): seq<byte> {
    CommaUnless(d.empty == [] || d.empty[|d.empty| - 1])
  }

  /** A value written where the document stands, if its nesting and its text fit. */
  function Item(d: Option<Doc>, room: nat, need: nat, bytes: seq<byte>): Option<Doc> {
    if d.None? || |d.value.empty| + need > MAX_DEPTH || |d.value.text| + |CommaDue(d.value)| + |bytes| > room then None
    else Some(Doc(d.value.text + CommaDue(d.value) + bytes, Marked(d.value.empty, false)))
  }

  /** A container opened where the document stands, holding `body` so far. */
  function Inside(d: Option<Doc>, room: nat, need: nat, body: seq<byte>, first: bool): Option<Doc> {
    if d.None? || |d.value.empty| + 1 + need > MAX_DEPTH then None
    else if |d.value.text| + |CommaDue(d.value)| + |body| > room then None
    else Some(Doc(d.value.text + CommaDue(d.value) + body, Marked(d.value.empty, false) + [first]))
  }

  lemma LeafIsItem(d: Option<Doc>, room: nat, bytes: seq<byte>)
    requires d.Some? ==> |d.value.empty| <= MAX_DEPTH
    ensures Raw(Separate(d, room), room, bytes) == Item(d, room, 0, bytes)
  {
    if d.Some? {
      assert d.value.text + [] == d.value.text;
      if d.value.empty != [] && !d.value.empty[|d.value.empty| - 1] {
        assert Marked(d.value.empty, false) == d.value.empty;
      }
    }
  }

  lemma BeginIsInside(d: Option<Doc>, room: nat, bracket: byte)
    requires d.Some? ==> |d.value.empty| <= MAX_DEPTH
    ensures Begin(d, room, bracket) == Inside(d, room, 0, [bracket], true)
  {
    LeafIsItem(d, room, [bracket]);
  }

  lemma ItemInside(d: Option<Doc>, room: nat, need: nat, body: seq<byte>, first: bool, deep: nat, bytes: seq<byte>)
    ensures Item(Inside(d, room, need, body, first), room, deep, bytes)
         == Inside(d, room, Max(need, deep), body + (CommaUnless(first) + bytes), false)
  {
    if Inside(d, room, need, body, first).Some? {
      var inside := Inside(d, room, need, body, first).value;
      var outer, due := Marked(d.value.empty, false), d.value.text + CommaDue(d.value);
      assert Marked(outer + [first], false) == outer + [false];
      assert due + body + CommaUnless(first) + bytes == due + (body + (CommaUnless(first) + bytes));
    }
  }

  lemma NamedInside(d: Option<Doc>, room: nat, need: nat, body: seq<byte>, first: bool, name: seq<byte>)
    ensures Named(Inside(d, room, need, body, first), room, name)
         == Inside(d, room, need, body + (CommaUnless(first) + Quoted(name) + [COLON]), true)
  {
    hide Quoted;
    var inside, text := Inside(d, room, need, body, first), Quoted(name);
    RawTwice(Separate(inside, room), room, text, [COLON]);
    LeafIsItem(inside, room, text + [COLON]);
    ItemInside(d, room, need, body, first, 0, text + [COLON]);
    assert CommaUnless(first) + (text + [COLON]) == CommaUnless(first) + text + [COLON];
    if d.Some? {
      var outer := Marked(d.value.empty, false);
      assert Marked(outer + [false], true) == outer + [true];
    }
  }

  lemma EndIsItem(d: Option<Doc>, room: nat, need: nat, body: seq<byte>, first: bool, bracket: byte)
    ensures End(Inside(d, room, need, body, first), room, bracket) == Item(d, room, 1 + need, body + [bracket])
  {
    if d.Some? {
      var outer, due := Marked(d.value.empty, false), d.value.text + CommaDue(d.value);
      assert (outer + [first])[..|outer|] == outer;
      assert due + body + [bracket] == due + (body + [bracket]);
    }
  }

  /** Any tree, by the writer's own calls. */
  method WriteValue(w: Writer, v: Json)
    requires w.Valid() && Printable(v)
    modifies w, w.out, w.empty
    ensures w.Valid() && w.Value() == Item(old(w.Value()), w.out.Length, Depth(v), Render(v))
    decreases v
  {
    ghost var before, room := w.Value(), w.out.Length;
    match v {
      case Null =>
        w.Leaf(NullText());
        LeafIsItem(before, room, NullText());
      case Bool(b) =>
        var text := if b then TrueText() else FalseText();
        w.Leaf(text);
        LeafIsItem(before, room, text);
      case Num(n) =>
        w.Leaf(Decimal(n));
        LeafIsItem(before, room, Decimal(n));
      case Str(s) =>
        w.SeparateItem();
        w.StringLiteral(s);
        LeafIsItem(before, room, Quoted(s));
      case Arr(items) => WriteArray(w, items);
      case Obj(members) => WriteObject(w, members);
    }
  }

  method WriteArray(w: Writer, items: seq<Json>)
    requires w.Valid() && forall i :: 0 <= i < |items| ==> Printable(items[i])
    modifies w, w.out, w.empty
    ensures w.Valid() && w.Value() == Item(old(w.Value()), w.out.Length, Depth(Arr(items)), Render(Arr(items)))
    decreases items
  {
    hide Item, Inside, Begin, End, Depth, Render;
    ghost var before, room := w.Value(), w.out.Length;
    w.BeginContainer(0x5B);
    BeginIsInside(before, room, 0x5B);
    assert [0x5B] + RenderItems(items, 0) == [0x5B];
    for i := 0 to |items|
      invariant w.Valid()
      invariant w.Value() == Inside(before, room, ItemsDepth(items, i), [0x5B] + RenderItems(items, i), i == 0)
    {
      WriteValue(w, items[i]);
      ghost var body, more := [0x5B] + RenderItems(items, i), CommaUnless(i == 0) + Render(items[i]);
      ItemInside(before, room, ItemsDepth(items, i), body, i == 0, Depth(items[i]), Render(items[i]));
      assert [0x5B] + (RenderItems(items, i) + more) == body + more;
    }
    w.EndContainer(0x5D);
    EndIsItem(before, room, ItemsDepth(items, |items|), [0x5B] + RenderItems(items, |items|), |items| == 0, 0x5D);
    ArrayText(items);
  }

  lemma ArrayText(items: seq<Json>)
    requires forall i :: 0 <= i < |items| ==> Printable(items[i])
    ensures Render(Arr(items)) == [0x5B] + RenderItems(items, |items|) + [0x5D]
    ensures Depth(Arr(items)) == 1 + ItemsDepth(items, |items|)
  {
  }

  lemma ObjectText(members: seq<Member>)
    requires forall i :: 0 <= i < |members| ==> Printable(members[i].value)
    ensures Render(Obj(members)) == [0x7B] + RenderMembers(members, |members|) + [0x7D]
    ensures Depth(Obj(members)) == 1 + MembersDepth(members, |members|)
  {
  }

  method WriteObject(w: Writer, members: seq<Member>)
    requires w.Valid() && forall i :: 0 <= i < |members| ==> Printable(members[i].value)
    modifies w, w.out, w.empty
    ensures w.Valid() && w.Value() == Item(old(w.Value()), w.out.Length, Depth(Obj(members)), Render(Obj(members)))
    decreases members
  {
    hide Item, Inside, Begin, End, Depth, Render, Named, Quoted;
    ghost var before, room := w.Value(), w.out.Length;
    w.BeginContainer(0x7B);
    BeginIsInside(before, room, 0x7B);
    assert [0x7B] + RenderMembers(members, 0) == [0x7B];
    for i := 0 to |members|
      invariant w.Valid()
      invariant w.Value() == Inside(before, room, MembersDepth(members, i), [0x7B] + RenderMembers(members, i), i == 0)
    {
      var m := members[i];
      w.NameMember(m.name);
      WriteValue(w, m.value);
      MemberInside(before, room, MembersDepth(members, i), [0x7B] + RenderMembers(members, i), i == 0, m);
      assert [0x7B] + (RenderMembers(members, i) + RenderMember(m, i == 0))
          == [0x7B] + RenderMembers(members, i) + RenderMember(m, i == 0);
    }
    w.EndContainer(0x7D);
    EndIsItem(before, room, MembersDepth(members, |members|), [0x7B] + RenderMembers(members, |members|),
        |members| == 0, 0x7D);
    ObjectText(members);
  }

  lemma MemberInside(d: Option<Doc>, room: nat, need: nat, body: seq<byte>, first: bool, m: Member)
    requires Printable(m.value)
    ensures Item(Named(Inside(d, room, need, body, first), room, m.name), room, Depth(m.value), Render(m.value))
         == Inside(d, room, Max(need, Depth(m.value)), body + RenderMember(m, first), false)
  {
    hide Item, Inside, Named, Quoted, Depth, Render;
    NamedInside(d, room, need, body, first, m.name);
    var named, text := CommaUnless(first) + Quoted(m.name) + [COLON], Render(m.value);
    ItemInside(d, room, need, body + named, true, Depth(m.value), text);
    assert body + named + (CommaUnless(true) + text) == body + (named + text);
  }

  /** A document comes out whole or not at all, and only for want of room or depth. */
  method WriteDocument(buffer: array<byte>, v: Json) returns (r: Result<seq<byte>, JsonError>)
    requires Printable(v)
    modifies buffer
    ensures r.Ok? <==> Depth(v) <= MAX_DEPTH && |Render(v)| <= buffer.Length
    ensures r.Ok? ==> r.value == Render(v)
  {
    hide Render, Depth;
    var w := new Writer(buffer);
    WriteValue(w, v);
    r := w.Finish();
  }
}
