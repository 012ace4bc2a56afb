/**
 How a JSON text may spell a tree: white space between the tokens, any escape in a string,
 any number of section 6 of RFC 8259.
 */
module JsonSpelling {
  import opened Common
  import opened Json
  import Utf8

  type Bytes = seq<byte>

  /** A stretch of a string literal. */
  datatype Piece =
    | Raw(b: byte)
    | Short(b: byte)
    | Code(v: nat, upper: seq<bool>)
    | Pair(c: nat, upper: seq<bool>)

  datatype Spelling =
    | Word(v: Json)
    | Number(negative: bool, n: nat, tail: Bytes)
    | Quote(pieces: seq<Piece>)
    | List(gap: Bytes, items: seq<Item>)
    | Record(gap: Bytes, entries: seq<Entry>)

  datatype Item = Item(before: Bytes, value: Spelling, after: Bytes)

  datatype Entry = Entry(before: Bytes, name: seq<Piece>, gap: Bytes, item: Item)

  predicate Blank(s: Bytes) {
    forall i :: 0 <= i < |s| ==> s[i] == 0x20 || s[i] == 0x09 || s[i] == 0x0A || s[i] == 0x0D
  }

  // Strings

  /** What follows the backslash of a short escape, and the byte it stands for. */
  function ShortFor(b: byte): Option<byte> {
    if b == 0x22 || b == 0x5C || b == 0x2F then Some(b)
    else if b == 0x08 then Some(0x62)
    else if b == 0x0C then Some(0x66)
    else if b == 0x0A then Some(0x6E)
    else if b == 0x0D then Some(0x72)
    else if b == 0x09 then Some(0x74)
    else None
  }

  predicate PieceFits(p: Piece) {
    match p
    case Raw(b) => b >= 0x20 && b != 0x22 && b != 0x5C
    case Short(b) => ShortFor(b).Some?
    case Code(v, upper) => v < 0x1_0000 && Utf8.Scalar(v) && |upper| == 4
    case Pair(c, upper) => 0x1_0000 <= c < 0x11_0000 && |upper| == 8
  }

  function Hex(d: nat, upper: bool): byte
    requires d < 16
  {
    if d < 10 then 0x30 + d else if upper then 0x41 + (d - 10) else 0x61 + (d - 10)
  }

  function CodeText(v: nat, upper: seq<bool>): Bytes
    requires v < 0x1_0000 && |upper| == 4
  {
    [0x5C, 0x75, Hex(v / 4096, upper[0]), Hex(v / 256 % 16, upper[1]), Hex(v / 16 % 16, upper[2]),
     Hex(v % 16, upper[3])]
  }

  function PieceText(p: Piece): Bytes
    requires PieceFits(p)
  {
    match p
    case Raw(b) => [b]
    case Short(b) => [0x5C, ShortFor(b).value]
    case Code(v, upper) => CodeText(v, upper)
    case Pair(c, upper) =>
      CodeText(0xD800 + (c - 0x1_0000) / 0x400, upper[..4]) + CodeText(0xDC00 + (c - 0x1_0000) % 0x400, upper[4..])
  }

  function PieceBytes(p: Piece): Bytes
    requires PieceFits(p)
  {
    match p
    case Raw(b) => [b]
    case Short(b) => [b]
    case Code(v, _) => Utf8.Encode(v)
    case Pair(c, _) => Utf8.Encode(c)
  }

  predicate PiecesFit(ps: seq<Piece>) {
    forall i :: 0 <= i < |ps| ==> PieceFits(ps[i])
  }

  function PiecesText(ps: seq<Piece>): Bytes
    requires PiecesFit(ps)
  {
    if ps == [] then [] else PiecesText(ps[..|ps| - 1]) + PieceText(ps[|ps| - 1])
  }

  /** The text a string literal stands for. */
  function PiecesBytes(ps: seq<Piece>): Bytes
    requires PiecesFit(ps)
  {
    if ps == [] then [] else PiecesBytes(ps[..|ps| - 1]) + PieceBytes(ps[|ps| - 1])
  }

  function LiteralText(ps: seq<Piece>): Bytes
    requires PiecesFit(ps)
  {
    [0x22] + PiecesText(ps) + [0x22]
  }

  /** A literal the scanner has room for. */
  predicate LiteralFits(ps: seq<Piece>) {
    PiecesFit(ps) && |PiecesBytes(ps)| <= 256 && Utf8.Valid(PiecesBytes(ps))
  }

  // Numbers

  /** A fraction or an exponent. */
  predicate IsTail(s: Bytes) {
    s == [] || ((s[0] == 0x2E || s[0] == 0x65 || s[0] == 0x45) && forall i :: 0 <= i < |s| ==> NumberPart(s[i]))
  }

  predicate NumberPart(b: byte) {
    0x30 <= b <= 0x39 || b == 0x2D || b == 0x2B || b == 0x2E || b == 0x65 || b == 0x45
  }

  function NumberText(negative: bool, n: nat, tail: Bytes): Bytes {
    (if negative then [0x2D] else []) + Decimal(n) + tail
  }

  /** Integers of sixty-four bits are themselves; fractions, exponents and larger ones are read as zero. */
  function NumberMeans(negative: bool, n: nat, tail: Bytes): int {
    if tail != [] then 0
    else if negative then if n <= 0x8000_0000_0000_0000 then -(n as int) else 0
    else if n < 0x8000_0000_0000_0000 then n
    else 0
  }

  // Values

  predicate Fits(t: Spelling) {
    match t
    case Word(v) => v.Null? || v.Bool?
    case Number(negative, n, tail) => IsTail(tail) && |NumberText(negative, n, tail)| <= 256
    case Quote(pieces) => LiteralFits(pieces)
    case List(gap, items) => Blank(gap) && forall i :: 0 <= i < |items| ==> ItemFits(items[i])
    case Record(gap, entries) => Blank(gap) && forall i :: 0 <= i < |entries| ==> EntryFits(entries[i])
  }

  predicate ItemFits(x: Item) {
    Blank(x.before) && Fits(x.value) && Blank(x.after)
  }

  predicate EntryFits(x: Entry) {
    Blank(x.before) && LiteralFits(x.name) && Blank(x.gap) && ItemFits(x.item)
  }

  function Write(t: Spelling): Bytes
    requires Fits(t)
  {
    match t
    case Word(v) => if v.Null? then Ascii("null") else if v.b then Ascii("true") else Ascii("false")
    case Number(negative, n, tail) => NumberText(negative, n, tail)
    case Quote(pieces) => LiteralText(pieces)
    case List(gap, items) => [0x5B] + (if items == [] then gap else WriteItems(items, |items|)) + [0x5D]
    case Record(gap, entries) => [0x7B] + (if entries == [] then gap else WriteEntries(entries, |entries|)) + [0x7D]
  }

  function WriteItem(x: Item): Bytes
    requires ItemFits(x)
  {
    x.before + Write(x.value) + x.after
  }

  function WriteEntry(x: Entry): Bytes
    requires EntryFits(x)
  {
    x.before + LiteralText(x.name) + x.gap + [0x3A] + WriteItem(x.item)
  }

  function WriteItems(items: seq<Item>, n: nat): Bytes
    requires n <= |items| && forall i :: 0 <= i < |items| ==> ItemFits(items[i])
    decreases items, n
  {
    if n == 0 then [] else WriteItems(items, n - 1) + (if n == 1 then [] else [0x2C]) + WriteItem(items[n - 1])
  }

  function WriteEntries(entries: seq<Entry>, n: nat): Bytes
    requires n <= |entries| && forall i :: 0 <= i < |entries| ==> EntryFits(entries[i])
    decreases entries, n
  {
    if n == 0 then [] else WriteEntries(entries, n - 1) + (if n == 1 then [] else [0x2C]) + WriteEntry(entries[n - 1])
  }

  /** The tree a text spells. */
  function Meaning(t: Spelling): (v: Json)
    requires Fits(t)
  {
    match t
    case Word(v) => v
    case Number(negative, n, tail) => Num(NumberMeans(negative, n, tail))
    case Quote(pieces) => Str(PiecesBytes(pieces))
    case List(_, items) => Arr(seq(|items|, i requires 0 <= i < |items| => ItemMeaning(items[i])))
    case Record(_, entries) =>
      Obj(seq(|entries|, i requires 0 <= i < |entries| => EntryMeaning(entries[i])))
  }

  function ItemMeaning(x: Item): (v: Json)
    requires ItemFits(x)
  {
    Meaning(x.value)
  }

  function EntryMeaning(x: Entry): Member
    requires EntryFits(x)
  {
    Member(PiecesBytes(x.name), ItemMeaning(x.item))
  }
}
