/** JSON values, the text the writer gives them and the tokens a reader should see. */
module Json {
  import opened Common

  datatype Json =
    | Null
    | Bool(b: bool)
    | Num(n: int)
    | Str(s: seq<byte>)
    | Arr(items: seq<Json>)
    | Obj(members: seq<Member>)

  datatype Member = Member(name: seq<byte>, value: Json)

  datatype Token =
    | StartObject
    | EndObject
    | StartArray
    | EndArray
    | Key(name: seq<byte>)
    | Text(text: seq<byte>)
    | Int(value: int)
    | Truth(truth: bool)
    | Nothing

  const QUOTE: byte := 0x22
  const BACKSLASH: byte := 0x5C
  const COMMA: byte := 0x2C
  const COLON: byte := 0x3A

  /** Levels of nesting a value needs. */
  function Depth(v: Json): nat {
    match v
    case Arr(items) => 1 + ItemsDepth(items, |items|)
    case Obj(members) => 1 + MembersDepth(members, |members|)
    case _ => 0
  }

  function ItemsDepth(items: seq<Json>, n: nat): nat
    requires n <= |items|
    decreases items, n
  {
    if n == 0 then 0 else Max(ItemsDepth(items, n - 1), Depth(items[n - 1]))
  }

  function MembersDepth(members: seq<Member>, n: nat): nat
    requires n <= |members|
    decreases members, n
  {
    if n == 0 then 0 else Max(MembersDepth(members, n - 1), Depth(members[n - 1].value))
  }

  // Text

  function Decimal(n: nat): (s: seq<byte>)
    ensures |s| > 0
  {
    if n < 10 then [0x30 + n] else Decimal(n / 10) + [0x30 + n % 10]
  }

  /** A lower-case hexadecimal digit. */
  function HexDigit(d: nat): byte
    requires d < 16
  {
    if d < 10 then 0x30 + d else 0x61 + d - 10
  }

  /** How one byte stands inside a string literal. */
  function EscapeOf(b: byte): seq<byte> {
    if b == QUOTE then [BACKSLASH, QUOTE]
    else if b == BACKSLASH then [BACKSLASH, BACKSLASH]
    else if b == 0x0A then [BACKSLASH, 0x6E]
    else if b == 0x0D then [BACKSLASH, 0x72]
    else if b == 0x09 then [BACKSLASH, 0x74]
    else if b < 0x20 then [BACKSLASH, 0x75, 0x30, 0x30, HexDigit(b / 16), HexDigit(b % 16)]
    else [b]
  }

  function Escaped(s: seq<byte>): seq<byte> {
    if s == [] then [] else Escaped(s[..|s| - 1]) + EscapeOf(s[|s| - 1])
  }

  function Quoted(s: seq<byte>): seq<byte> {
    [QUOTE] + Escaped(s) + [QUOTE]
  }

  function TrueText(): seq<byte> {
    [0x74, 0x72, 0x75, 0x65]
  }

  function FalseText(): seq<byte> {
    [0x66, 0x61, 0x6C, 0x73, 0x65]
  }

  function NullText(): seq<byte> {
    [0x6E, 0x75, 0x6C, 0x6C]
  }

  function CommaUnless(first: bool): seq<byte> {
    if first then [] else [COMMA]
  }

  predicate Printable(v: Json) {
    match v
    case Num(n) => 0 <= n < 0x1_0000_0000_0000_0000
    case Arr(items) => forall i :: 0 <= i < |items| ==> Printable(items[i])
    case Obj(members) => forall i :: 0 <= i < |members| ==> Printable(members[i].value)
    case _ => true
  }

  /** The compact text of a value. */
  function Render(v: Json): seq<byte>
    requires Printable(v)
  {
    match v
    case Null => NullText()
    case Bool(b) => if b then TrueText() else FalseText()
    case Num(n) => Decimal(n)
    case Str(s) => Quoted(s)
    case Arr(items) => [0x5B] + RenderItems(items, |items|) + [0x5D]
    case Obj(members) => [0x7B] + RenderMembers(members, |members|) + [0x7D]
  }

  /** The first `n` items, with the commas between them. */
  function RenderItems(items: seq<Json>, n: nat): seq<byte>
    requires n <= |items| && forall i :: 0 <= i < |items| ==> Printable(items[i])
    decreases items, n
  {
    if n == 0 then [] else RenderItems(items, n - 1) + (CommaUnless(n == 1) + Render(items[n - 1]))
  }

  function RenderMember(m: Member, first: bool): seq<byte>
    requires Printable(m.value)
    decreases m
  {
    CommaUnless(first) + Quoted(m.name) + [COLON] + Render(m.value)
  }

  function RenderMembers(members: seq<Member>, n: nat): seq<byte>
    requires n <= |members| && forall i :: 0 <= i < |members| ==> Printable(members[i].value)
    decreases members, n
  {
    if n == 0 then [] else RenderMembers(members, n - 1) + RenderMember(members[n - 1], n == 1)
  }

  // Tokens

  function Tokens(v: Json): seq<Token> {
    match v
    case Null => [Nothing]
    case Bool(b) => [Truth(b)]
    case Num(n) => [Int(n)]
    case Str(s) => [Text(s)]
    case Arr(items) => [StartArray] + ItemTokens(items, |items|) + [EndArray]
    case Obj(members) => [StartObject] + MemberTokens(members, |members|) + [EndObject]
  }

  function ItemTokens(items: seq<Json>, n: nat): seq<Token>
    requires n <= |items|
    decreases items, n
  {
    if n == 0 then [] else ItemTokens(items, n - 1) + Tokens(items[n - 1])
  }

  function MemberTokens(members: seq<Member>, n: nat): seq<Token>
    requires n <= |members|
    decreases members, n
  {
    if n == 0 then [] else MemberTokens(members, n - 1) + ([Key(members[n - 1].name)] + Tokens(members[n - 1].value))
  }
}
