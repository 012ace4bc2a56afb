/** The scanner undoes the writer, however the text is cut: the writer's text is one spelling of its tree. */
module JsonRoundTrip {
  import opened Common
  import opened Json
  import opened JsonReading
  import opened JsonSpelling
  import opened Scanner
  import Utf8

  /** Strings fit the scanner's buffer and are text. */
  predicate Legible(s: seq<byte>) {
    |s| <= MAX_STRING && Utf8.Valid(s)
  }

  predicate Scannable(v: Json) {
    match v
    case Str(s) => Legible(s)
    case Arr(items) => forall i :: 0 <= i < |items| ==> Scannable(items[i])
    case Obj(members) => forall i :: 0 <= i < |members| ==> Legible(members[i].name) && Scannable(members[i].value)
    case _ => true
  }

  /** A number past the range of `i64` is read as zero. */
  function AsReadNumber(n: int): int {
    if n < 0x8000_0000_0000_0000 then n else 0
  }

  function AsRead(v: Json): (r: Json) {
    match v
    case Num(n) => Num(AsReadNumber(n))
    case Arr(items) => Arr(seq(|items|, i requires 0 <= i < |items| => AsRead(items[i])))
    case Obj(members) =>
      Obj(seq(|members|, i requires 0 <= i < |members| => Member(members[i].name, AsRead(members[i].value))))
    case _ => v
  }

  /** Every number is below two to the sixty-third. */
  predicate Small(v: Json) {
    match v
    case Num(n) => n < 0x8000_0000_0000_0000
    case Arr(items) => forall i :: 0 <= i < |items| ==> Small(items[i])
    case Obj(members) => forall i :: 0 <= i < |members| ==> Small(members[i].value)
    case _ => true
  }

  // The writer's spelling

  function PlainPiece(b: byte): (p: Piece)
    ensures PieceFits(p)
  {
    if b == QUOTE || b == BACKSLASH || b == 0x0A || b == 0x0D || b == 0x09 then Short(b)
    else if b < 0x20 then Code(b, [false, false, false, false])
    else Raw(b)
  }

  /** Every byte is escaped as the writer escapes it, and stands for itself. */
  lemma PlainByte(b: byte)
    ensures PieceText(PlainPiece(b)) == EscapeOf(b) && PieceBytes(PlainPiece(b)) == [b]
  {
  }

  function PlainPieces(s: Bytes): (ps: seq<Piece>)
    ensures PiecesFit(ps)
  {
    if s == [] then [] else PlainPieces(s[..|s| - 1]) + [PlainPiece(s[|s| - 1])]
  }

  lemma {:induction false} PlainText(s: Bytes)
    ensures PiecesText(PlainPieces(s)) == Escaped(s) && PiecesBytes(PlainPieces(s)) == s
  {
    hide PlainPiece, PieceText, PieceBytes, EscapeOf;
    if s != [] {
      var n := |s| - 1;
      PlainText(s[..n]);
      PlainByte(s[n]);
      assert PlainPieces(s)[..|PlainPieces(s)| - 1] == PlainPieces(s[..n]);
      assert s == s[..n] + [s[n]];
    }
  }

  function Plain(v: Json): Spelling
    requires Printable(v)
    decreases v, 0
  {
    match v
    case Num(n) => Number(false, n, [])
    case Str(s) => Quote(PlainPieces(s))
    case Arr(items) => List([], seq(|items|, i requires 0 <= i < |items| => PlainItem(items[i])))
    case Obj(members) => Record([], seq(|members|, i requires 0 <= i < |members| => PlainEntry(members[i])))
    case _ => Word(v)
  }

  function PlainItem(v: Json): Item
    requires Printable(v)
    decreases v, 1
  {
    Item([], Plain(v), [])
  }

  function PlainEntry(m: Member): Entry
    requires Printable(m.value)
    decreases m, 2
  {
    Entry([], PlainPieces(m.name), [], PlainItem(m.value))
  }

  function Pow10(k: nat): nat {
    if k == 0 then 1 else 10 * Pow10(k - 1)
  }

  /** Any 64-bit number has at most twenty digits. */
  lemma TwentyDigits()
    ensures Pow10(20) > 0x1_0000_0000_0000_0000
  {
    assert Pow10(5) == 100_000;
    assert Pow10(10) == 10_000_000_000;
    assert Pow10(15) == 1_000_000_000_000_000;
  }

  lemma {:induction false} DecimalShort(n: nat, k: nat)
    requires k > 0 && n < Pow10(k)
    ensures |Decimal(n)| <= k
    decreases k
  {
    if n >= 10 {
      DecimalShort(n / 10, k - 1);
    }
  }

  lemma {:induction false} PlainFits(v: Json)
    requires Printable(v) && Scannable(v)
    ensures Fits(Plain(v))
  {
    match v {
      case Num(n) =>
        TwentyDigits();
        DecimalShort(n, 20);
      case Str(s) => PlainText(s);
      case Arr(items) =>
        forall i | 0 <= i < |items| ensures ItemFits(PlainItem(items[i])) {
          PlainFits(items[i]);
        }
      case Obj(members) =>
        forall i | 0 <= i < |members| ensures EntryFits(PlainEntry(members[i])) {
          PlainText(members[i].name);
          PlainFits(members[i].value);
        }
      case _ =>
    }
  }

  /** What the writer writes spells the tree, numbers past the range of `i64` aside. */
  lemma {:induction false} PlainSpells(v: Json)
    requires Printable(v) && Scannable(v) && Fits(Plain(v))
    ensures Write(Plain(v)) == Render(v) && Meaning(Plain(v)) == AsRead(v)
    decreases v, 1
  {
    match v {
      case Num(n) =>
        assert [] + Decimal(n) + [] == Decimal(n);
      case Str(s) => PlainText(s);
      case Arr(items) => ArraySpells(v);
      case Obj(members) => ObjectSpells(v);
      case _ =>
    }
  }

  lemma {:induction false} ArraySpells(v: Json)
    requires v.Arr? && Printable(v) && Scannable(v) && Fits(Plain(v))
    ensures Write(Plain(v)) == Render(v) && Meaning(Plain(v)) == AsRead(v)
    decreases v, 0
  {
    PlainItems(v.items, Plain(v).items, |v.items|);
    assert Meaning(Plain(v)).items == AsRead(v).items;
  }

  lemma {:induction false} ObjectSpells(v: Json)
    requires v.Obj? && Printable(v) && Scannable(v) && Fits(Plain(v))
    ensures Write(Plain(v)) == Render(v) && Meaning(Plain(v)) == AsRead(v)
    decreases v, 0
  {
    PlainEntries(v.members, Plain(v).entries, |v.members|);
    assert Meaning(Plain(v)).members == AsRead(v).members;
  }

  lemma {:induction false} PlainItems(items: seq<Json>, plain: seq<Item>, n: nat)
    requires n <= |items| == |plain| && forall i :: 0 <= i < |items| ==> Printable(items[i]) && Scannable(items[i])
    requires forall i :: 0 <= i < |items| ==> plain[i] == PlainItem(items[i]) && ItemFits(plain[i])
    ensures WriteItems(plain, n) == RenderItems(items, n)
    ensures forall i :: 0 <= i < n ==> ItemMeaning(plain[i]) == AsRead(items[i])
    decreases items, 0, n
  {
    hide PlainItem, AsRead, Scannable, ItemFits, WriteItem, Render, ItemMeaning;
    if n > 0 {
      PlainItems(items, plain, n - 1);
      ItemSpells(items[n - 1]);
      var sofar, comma := RenderItems(items, n - 1), CommaUnless(n == 1);
      assert sofar + comma + WriteItem(plain[n - 1]) == sofar + (comma + WriteItem(plain[n - 1]));
    }
  }

  lemma ItemSpells(v: Json)
    requires Printable(v) && Scannable(v) && ItemFits(PlainItem(v))
    ensures WriteItem(PlainItem(v)) == Render(v) && ItemMeaning(PlainItem(v)) == AsRead(v)
    decreases v, 2
  {
    PlainSpells(v);
    hide Write, Render, Meaning, AsRead, Plain;
    assert [] + Render(v) + [] == Render(v);
  }

  lemma {:induction false} PlainEntries(members: seq<Member>, plain: seq<Entry>, n: nat)
    requires n <= |members| == |plain| && forall i :: 0 <= i < |members| ==> Printable(members[i].value)
    requires forall i :: 0 <= i < |members| ==> Legible(members[i].name) && Scannable(members[i].value)
    requires forall i :: 0 <= i < |members| ==> plain[i] == PlainEntry(members[i]) && EntryFits(plain[i])
    ensures WriteEntries(plain, n) == RenderMembers(members, n)
    ensures forall i :: 0 <= i < n ==> EntryMeaning(plain[i]) == Member(members[i].name, AsRead(members[i].value))
    decreases members, 0, n
  {
    hide PlainEntry, AsRead, Legible, Scannable, EntryFits, WriteEntry, RenderMember, EntryMeaning;
    if n > 0 {
      PlainEntries(members, plain, n - 1);
      EntrySpells(members[n - 1], n == 1);
      var sofar, comma := RenderMembers(members, n - 1), CommaUnless(n == 1);
      assert sofar + comma + WriteEntry(plain[n - 1]) == sofar + (comma + WriteEntry(plain[n - 1]));
    }
  }

  lemma EntrySpells(m: Member, first: bool)
    requires Printable(m.value) && Legible(m.name) && Scannable(m.value) && EntryFits(PlainEntry(m))
    ensures CommaUnless(first) + WriteEntry(PlainEntry(m)) == RenderMember(m, first)
    ensures EntryMeaning(PlainEntry(m)) == Member(m.name, AsRead(m.value))
    decreases m, 2
  {
    assert Fits(Plain(m.value));
    PlainSpells(m.value);
    hide Write, Render, Plain, PiecesText, PiecesBytes, Escaped, Meaning, AsRead, Fits;
    PlainText(m.name);
    var q, text := Quoted(m.name), Render(m.value);
    assert LiteralText(PlainPieces(m.name)) == q;
    NoGaps(CommaUnless(first), q, text);
  }

  lemma NoGaps(comma: Bytes, name: Bytes, text: Bytes)
    ensures comma + ([] + name + [] + [COLON] + ([] + text + [])) == comma + name + [COLON] + text
  {
    assert [] + name + [] == name && [] + text + [] == text;
  }

  lemma {:induction false} SameDepth(v: Json)
    ensures Depth(AsRead(v)) == Depth(v)
    decreases v, 1
  {
    match v {
      case Arr(items) => SameItemsDepth(items, AsRead(v).items, |items|);
      case Obj(members) => SameMembersDepth(members, AsRead(v).members, |members|);
      case _ =>
    }
  }

  lemma {:induction false} SameItemsDepth(items: seq<Json>, read: seq<Json>, n: nat)
    requires n <= |items| == |read| && forall i :: 0 <= i < |items| ==> read[i] == AsRead(items[i])
    ensures ItemsDepth(read, n) == ItemsDepth(items, n)
    decreases items, 0, n
  {
    if n > 0 {
      SameDepth(items[n - 1]);
      SameItemsDepth(items, read, n - 1);
    }
  }

  lemma {:induction false} SameMembersDepth(members: seq<Member>, read: seq<Member>, n: nat)
    requires n <= |members| == |read| && forall i :: 0 <= i < |members| ==> read[i].value == AsRead(members[i].value)
    ensures MembersDepth(read, n) == MembersDepth(members, n)
    decreases members, 0, n
  {
    if n > 0 {
      SameDepth(members[n - 1].value);
      SameMembersDepth(members, read, n - 1);
    }
  }

  // The laws

  /** Every tree the writer prints, cut anywhere, is read back as the tree's own tokens. */
  lemma WrittenIsRead(v: Json, chunks: seq<seq<byte>>)
    requires Printable(v) && Scannable(v) && Depth(v) <= MAX_DEPTH
    requires Join(chunks) == Render(v)
    ensures var r := RunChunks(Fresh(), chunks);
            && r.next.Ok? && Finished(r.next.value).next.Ok?
            && r.tokens + Finished(r.next.value).tokens == Tokens(AsRead(v))
    ensures Document(Render(v)).tokens == Tokens(AsRead(v))
  {
    hide Run, Render, Tokens, Write, Meaning, Plain, Document, RunChunks;
    PlainFits(v);
    PlainSpells(v);
    SameDepth(v);
    assert [] + Render(v) + [] == Render(v);
    SpelledIsRead(PlainItem(v), chunks);
  }

  /** Only numbers of sixty-four bits are lost. */
  lemma {:induction false} SmallIsReadExactly(v: Json)
    requires Small(v)
    ensures AsRead(v) == v
  {
    match v {
      case Arr(items) =>
        forall i | 0 <= i < |items| ensures AsRead(v).items[i] == items[i] {
          SmallIsReadExactly(items[i]);
        }
        assert AsRead(v).items == items;
      case Obj(members) =>
        forall i | 0 <= i < |members| ensures AsRead(v).members[i] == members[i] {
          SmallIsReadExactly(members[i].value);
        }
        assert AsRead(v).members == members;
      case _ =>
    }
  }

  lemma {:induction false} SameShape(v: Json)
    ensures |Tokens(AsRead(v))| == |Tokens(v)|
    decreases v
  {
    match v {
      case Arr(items) => ItemsSameShape(items, AsRead(v).items, |items|);
      case Obj(members) => MembersSameShape(members, AsRead(v).members, |members|);
      case _ =>
    }
  }

  lemma {:induction false} ItemsSameShape(items: seq<Json>, read: seq<Json>, n: nat)
    requires n <= |items| == |read| && forall i :: 0 <= i < |items| ==> read[i] == AsRead(items[i])
    ensures |ItemTokens(read, n)| == |ItemTokens(items, n)|
    decreases items, n
  {
    hide Tokens, AsRead;
    if n > 0 {
      ItemsSameShape(items, read, n - 1);
      SameShape(items[n - 1]);
    }
  }

  lemma {:induction false} MembersSameShape(members: seq<Member>, read: seq<Member>, n: nat)
    requires n <= |members| == |read| && forall i :: 0 <= i < |members| ==> read[i].value == AsRead(members[i].value)
    ensures |MemberTokens(read, n)| == |MemberTokens(members, n)|
    decreases members, n
  {
    hide Tokens, AsRead;
    if n > 0 {
      MembersSameShape(members, read, n - 1);
      SameShape(members[n - 1].value);
    }
  }

  lemma Halves(a: seq<Token>, b: seq<Token>, c: seq<Token>, d: seq<Token>)
    requires a + b == c + d && |a| == |c|
    ensures a == c && b == d
  {
    assert a == (a + b)[..|a|] && c == (c + d)[..|c|];
    assert b == (a + b)[|a|..] && d == (c + d)[|c|..];
  }

  /** Tokens that come back unchanged mean that every number was small. */
  lemma {:induction false} ExactMeansSmall(v: Json)
    requires Tokens(AsRead(v)) == Tokens(v)
    ensures Small(v)
    decreases v
  {
    match v {
      case Arr(items) =>
        var n := |items|;
        var read := AsRead(v).items;
        ItemsSameShape(items, read, n);
        Halves([StartArray] + ItemTokens(read, n), [EndArray], [StartArray] + ItemTokens(items, n), [EndArray]);
        Halves([StartArray], ItemTokens(read, n), [StartArray], ItemTokens(items, n));
        ItemsExact(items, n);
      case Obj(members) =>
        var n := |members|;
        var read := AsRead(v).members;
        MembersSameShape(members, read, n);
        Halves([StartObject] + MemberTokens(read, n), [EndObject], [StartObject] + MemberTokens(members, n),
            [EndObject]);
        Halves([StartObject], MemberTokens(read, n), [StartObject], MemberTokens(members, n));
        MembersExact(members, n);
      case _ =>
    }
  }

  lemma {:induction false} ItemsExact(items: seq<Json>, n: nat)
    requires n <= |items| && ItemTokens(AsRead(Arr(items)).items, n) == ItemTokens(items, n)
    ensures forall i :: 0 <= i < n ==> Small(items[i])
    decreases items, n
  {
    if n > 0 {
      var read := AsRead(Arr(items)).items;
      ItemsSameShape(items, read, n - 1);
      Halves(ItemTokens(read, n - 1), Tokens(read[n - 1]), ItemTokens(items, n - 1), Tokens(items[n - 1]));
      ItemsExact(items, n - 1);
      ExactMeansSmall(items[n - 1]);
    }
  }

  lemma {:induction false} MembersExact(members: seq<Member>, n: nat)
    requires n <= |members| && MemberTokens(AsRead(Obj(members)).members, n) == MemberTokens(members, n)
    ensures forall i :: 0 <= i < n ==> Small(members[i].value)
    decreases members, n
  {
    if n > 0 {
      var read := AsRead(Obj(members)).members;
      var name, value := [Key(members[n - 1].name)], members[n - 1].value;
      MembersSameShape(members, read, n - 1);
      Halves(MemberTokens(read, n - 1), name + Tokens(AsRead(value)), MemberTokens(members, n - 1),
          name + Tokens(value));
      Halves(name, Tokens(AsRead(value)), name, Tokens(value));
      MembersExact(members, n - 1);
      ExactMeansSmall(value);
    }
  }

  /** The round trip is exact if and only if every number is below two to the sixty-third. */
  lemma RoundTripIff(v: Json, chunks: seq<seq<byte>>)
    requires Printable(v) && Scannable(v) && Depth(v) <= MAX_DEPTH
    requires Join(chunks) == Render(v)
    ensures var r := RunChunks(Fresh(), chunks);
            r.next.Ok? && (r.tokens + Finished(r.next.value).tokens == Tokens(v) <==> Small(v))
  {
    WrittenIsRead(v, chunks);
    if Small(v) {
      SmallIsReadExactly(v);
    } else if Tokens(AsRead(v)) == Tokens(v) {
      ExactMeansSmall(v);
    }
  }

  /** A count the writer prints and the scanner loses. */
  lemma LargeNumberIsLost(chunks: seq<seq<byte>>)
    requires Join(chunks) == Render(Num(0x8000_0000_0000_0000))
    ensures var r := RunChunks(Fresh(), chunks);
            r.next.Ok? && r.tokens + Finished(r.next.value).tokens == [Int(0)]
  {
    WrittenIsRead(Num(0x8000_0000_0000_0000), chunks);
  }
}
