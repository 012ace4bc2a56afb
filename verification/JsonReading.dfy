/** The scanner reads every spelling of a tree as the tree's tokens. */
module JsonReading {
  import opened Common
  import opened Json
  import opened JsonSpelling
  import opened Scanner
  import Utf8

  // Reading, composed

  predicate Reads(s: Scan, bytes: seq<byte>, tokens: seq<Token>, e: Scan) {
    Run(s, bytes) == Scanned(tokens, Ok(e))
  }

  lemma ReadsBoth(s: Scan, a: seq<byte>, t: seq<Token>, m: Scan, b: seq<byte>, u: seq<Token>, e: Scan)
    requires Reads(s, a, t, m) && Reads(m, b, u, e)
    ensures Reads(s, a + b, t + u, e)
  {
    hide Run;
    RunAppend(s, a, b);
  }

  lemma ReadsNone(s: Scan)
    ensures Reads(s, [], [], s)
  {
  }

  lemma ReadsOne(s: Scan, b: byte)
    requires Eat(s, b).next.Ok?
    ensures Reads(s, [b], Eat(s, b).tokens, Eat(s, b).next.value)
  {
    hide Eat;
    var first := Eat(s, b);
    assert [b][1..] == [];
    RunNothing(first.next.value);
    assert first.tokens + [] == first.tokens;
  }

  /** A byte that is read in silence, and what follows it. */
  lemma ReadsCons(s: Scan, b: byte, m: Scan, rest: seq<byte>, t: seq<Token>, e: Scan)
    requires Eat(s, b) == Go(m) && Reads(m, rest, t, e)
    ensures Reads(s, [b] + rest, t, e)
  {
    hide Eat;
    ReadsOne(s, b);
    ReadsBoth(s, [b], [], m, rest, t, e);
    assert [] + t == t;
  }

  // Strings

  /** One hexadecimal digit before the last. */
  lemma HexStep(s: Scan, b: byte, d: nat)
    requires s.mode.Unicode? && s.mode.seen < 3 && s.codePoint < 4096 && HexValue(b) == Some(d)
    ensures Eat(s, b) == Go(s.(codePoint := s.codePoint * 16 + d, mode := Unicode(s.mode.seen + 1)))
  {
    hide HexValue;
  }

  lemma LastHexStep(s: Scan, b: byte, d: nat)
    requires s.mode == Unicode(3) && s.codePoint < 4096 && HexValue(b) == Some(d)
    ensures Eat(s, b) == FinishEscape(s.(codePoint := s.codePoint * 16 + d))
  {
    hide HexValue, FinishEscape;
  }

  /** The number four digits stand for. */
  function FromHex(d: seq<nat>): nat
    requires |d| == 4
  {
    ((d[0] * 16 + d[1]) * 16 + d[2]) * 16 + d[3]
  }

  predicate HexDigits(h: seq<byte>, d: seq<nat>) {
    |h| == 4 && |d| == 4 && forall i :: 0 <= i < 4 ==> HexValue(h[i]) == Some(d[i]) && d[i] < 16
  }

  /** Four hexadecimal digits. */
  lemma ReadsHex(s: Scan, h: seq<byte>, d: seq<nat>, e: Scan)
    requires s.mode == Unicode(0) && s.codePoint == 0 && HexDigits(h, d)
    requires FinishEscape(s.(codePoint := FromHex(d), mode := Unicode(3))) == Go(e)
    ensures Reads(s, h, [], e)
  {
    hide HexValue, FinishEscape, Run, Eat, Reads;
    var s1 := s.(codePoint := s.codePoint * 16 + d[0], mode := Unicode(1));
    var s2 := s1.(codePoint := s1.codePoint * 16 + d[1], mode := Unicode(2));
    var s3 := s2.(codePoint := s2.codePoint * 16 + d[2], mode := Unicode(3));
    HexStep(s, h[0], d[0]);
    HexStep(s1, h[1], d[1]);
    HexStep(s2, h[2], d[2]);
    LastHexStep(s3, h[3], d[3]);
    ReadsNone(e);
    ReadsCons(s3, h[3], e, [], [], e);
    ReadsCons(s2, h[2], s3, [h[3]] + [], [], e);
    ReadsCons(s1, h[1], s2, [h[2]] + ([h[3]] + []), [], e);
    ReadsCons(s, h[0], s1, [h[1]] + ([h[2]] + ([h[3]] + [])), [], e);
    assert h == [h[0]] + ([h[1]] + ([h[2]] + ([h[3]] + [])));
  }

  /** One `\u` escape, from inside a string. */
  lemma ReadsEscape(s: Scan, h: seq<byte>, d: seq<nat>, e: Scan)
    requires s.mode == InString && HexDigits(h, d)
    requires FinishEscape(s.(codePoint := FromHex(d), mode := Unicode(3))) == Go(e)
    ensures Reads(s, [BACKSLASH, 0x75] + h, [], e)
  {
    hide HexValue, FinishEscape, Run, HexDigits, FromHex;
    var s1, s2 := s.(mode := Escape), s.(mode := Unicode(0), codePoint := 0);
    ReadsHex(s2, h, d, e);
    assert Eat(s, BACKSLASH) == Go(s1);
    assert Eat(s1, 0x75) == Go(s2);
    ReadsCons(s1, 0x75, s2, h, [], e);
    ReadsCons(s, BACKSLASH, s1, [0x75] + h, [], e);
    assert [BACKSLASH, 0x75] + h == [BACKSLASH] + ([0x75] + h);
  }

  predicate Ready(s: Scan, mode: Mode, stack: seq<Container>) {
    s.mode == mode && s.stack == stack && s.surrogate.None?
  }

  lemma {:induction false} ReadsLetters(s: Scan, word: seq<byte>) returns (e: Scan)
    requires Ready(s, Value, s.stack) && 0 < |word| <= MAX_STRING
    requires word[0] == 0x74 || word[0] == 0x66 || word[0] == 0x6E
    requires forall i :: 0 <= i < |word| ==> Letter(word[i])
    ensures Reads(s, word, [], e) && Ready(e, InLiteral, s.stack) && e.buffer == word
    decreases |word|
  {
    hide Run;
    if |word| == 1 {
      assert word == [word[0]];
      e := s.(buffer := word, mode := InLiteral);
      assert Eat(s, word[0]) == Go(e);
      ReadsOne(s, word[0]);
    } else {
      var n := |word| - 1;
      var m := ReadsLetters(s, word[..n]);
      assert word == word[..n] + [word[n]];
      e := m.(buffer := word);
      assert Eat(m, word[n]) == Go(e);
      ReadsOne(m, word[n]);
      ReadsBoth(s, word[..n], [], m, [word[n]], [], e);
    }
  }

  // Whole values

  /** What is still to be emitted when a value's text has been read. */
  predicate Settles(m: Scan, u: seq<Token>, e: Scan) {
    match m.mode
    case InNumber => EmitNumber(m) == Scanned(u, Ok(e))
    case InLiteral => EmitLiteral(m) == Scanned(u, Ok(e))
    case _ => u == [] && m == e
  }

  /** The bytes read so far and a flush emit `tokens` and leave a value behind. */
  predicate Delivers(
    s: Scan, bytes: seq<byte>, tokens: seq<Token>, stack: seq<Container>,
    t: seq<Token>, m: Scan, u: seq<Token>, e: Scan)
  {
    Reads(s, bytes, t, m) && Settles(m, u, e) && t + u == tokens && Ready(e, AfterValue, stack)
  }

  /** A delimiter after a value emits what was due and acts as it would after the value. */
  lemma Delimited(
    s: Scan, bytes: seq<byte>, tokens: seq<Token>, stack: seq<Container>,
    t: seq<Token>, m: Scan, u: seq<Token>, e: Scan, b: byte)
    requires Delivers(s, bytes, tokens, stack, t, m, u, e)
    requires b == COMMA || b == 0x7D || b == 0x5D
    requires StepAfter(e, b).next.Ok?
    ensures Reads(s, bytes + [b], tokens + StepAfter(e, b).tokens, StepAfter(e, b).next.value)
  {
    hide Run;
    var last := StepAfter(e, b);
    assert Eat(m, b) == Prepend(u, last);
    ReadsOne(m, b);
    ReadsBoth(s, bytes, t, m, [b], u + last.tokens, last.next.value);
    Regroup(t, u, last.tokens);
  }

  lemma ReadsComma(
    s: Scan, bytes: seq<byte>, tokens: seq<Token>, outer: seq<Container>, inner: Container,
    t: seq<Token>, m: Scan, u: seq<Token>, e: Scan)
    returns (after: Scan)
    requires Delivers(s, bytes, tokens, outer + [inner], t, m, u, e)
    ensures Reads(s, bytes + [COMMA], tokens, after)
    ensures Ready(after, Value, outer + [if inner.Object? then Object(true) else Array])
  {
    hide Run;
    Delimited(s, bytes, tokens, outer + [inner], t, m, u, e, COMMA);
    after := StepAfter(e, COMMA).next.value;
    assert tokens + [] == tokens;
    assert SetExpecting(outer + [inner], true) == outer + [if inner.Object? then Object(true) else Array];
  }

  lemma ReadsWord(s: Scan, word: seq<byte>) returns (t: seq<Token>, m: Scan, u: seq<Token>, e: Scan)
    requires Ready(s, Value, s.stack) && Literal(word).Some?
    ensures Delivers(s, word, [Literal(word).value], s.stack, t, m, u, e)
  {
    hide Run;
    m := ReadsLetters(s, word);
    t, u, e := [], [Literal(word).value], m.(mode := AfterValue);
    assert [] + u == u;
  }

  /** The bracket that closes a container: after a value, or at once when it is empty. */
  lemma ReadsClose(
    s: Scan, a: Scan, open: byte, body: seq<byte>, close: byte, start: Token, inside: seq<Token>,
    outer: seq<Container>, inner: Container, t: seq<Token>, m: Scan, u: seq<Token>, e: Scan)
    returns (after: Scan)
    requires Reads(s, [open], [start], a)
    requires if body == [] then Ready(a, Value, outer + [inner]) && inside == []
             else Delivers(a, body, inside, outer + [inner], t, m, u, e)
    requires (close == 0x7D && inner.Object?) || (close == 0x5D && inner.Array?)
    ensures Reads(s, [open] + body + [close], [start] + inside + [if inner.Object? then EndObject else EndArray], after)
    ensures Ready(after, AfterValue, outer)
  {
    hide Run;
    var final := if inner.Object? then EndObject else EndArray;
    assert (outer + [inner])[..|outer|] == outer;
    if body == [] {
      after := Closed(a, outer);
      assert Eat(a, close) == Scanned([final], Ok(after));
      ReadsOne(a, close);
      ReadsBoth(s, [open], [start], a, [close], [final], after);
      assert [open] + body + [close] == [open] + [close];
      assert [start] + inside + [final] == [start] + [final];
    } else {
      after := Closed(e, outer);
      assert StepAfter(e, close) == Scanned([final], Ok(after));
      Delimited(a, body, inside, outer + [inner], t, m, u, e, close);
      ReadsBoth(s, [open], [start], a, body + [close], inside + [final], after);
      assert [open] + body + [close] == [open] + (body + [close]);
      Regroup([start], inside, [final]);
    }
  }

  lemma WholeDelivers(s: Scan, bytes: seq<byte>, tokens: seq<Token>, stack: seq<Container>, after: Scan)
    requires Reads(s, bytes, tokens, after) && Ready(after, AfterValue, stack)
    ensures Delivers(s, bytes, tokens, stack, tokens, after, [], after)
  {
  }

  lemma ContinueDelivers(
    s: Scan, a: seq<byte>, before: seq<Token>, from: Scan, b: seq<byte>, tokens: seq<Token>, stack: seq<Container>,
    t: seq<Token>, m: Scan, u: seq<Token>, e: Scan)
    requires Reads(s, a, before, from) && Delivers(from, b, tokens, stack, t, m, u, e)
    ensures Delivers(s, a + b, before + tokens, stack, before + t, m, u, e)
  {
    hide Run;
    ReadsBoth(s, a, before, from, b, t, m);
    Regroup(before, t, u);
  }

  // White space

  lemma {:induction false} ReadsBlank(s: Scan, gap: Bytes)
    requires Blank(gap) && (s.mode == Value || s.mode == AfterValue || s.mode == ExpectColon)
    ensures Reads(s, gap, [], s)
    decreases |gap|
  {
    hide Run;
    if gap == [] {
      ReadsNone(s);
    } else {
      ReadsBlank(s, gap[1..]);
      assert Eat(s, gap[0]) == Go(s);
      ReadsCons(s, gap[0], s, gap[1..], [], s);
      assert gap == [gap[0]] + gap[1..];
    }
  }

  /** White space after a value emits what was due. */
  lemma BlankDelivers(
    s: Scan, bytes: Bytes, tokens: seq<Token>, stack: seq<Container>,
    t: seq<Token>, m: Scan, u: seq<Token>, e: Scan, gap: Bytes)
    returns (t': seq<Token>, m': Scan, u': seq<Token>, e': Scan)
    requires Delivers(s, bytes, tokens, stack, t, m, u, e) && Blank(gap)
    ensures Delivers(s, bytes + gap, tokens, stack, t', m', u', e')
  {
    hide Run;
    if gap == [] {
      assert bytes + gap == bytes;
      t', m', u', e' := t, m, u, e;
    } else {
      var last := StepAfter(e, gap[0]);
      assert last == Go(e);
      assert Eat(m, gap[0]) == Prepend(u, last);
      ReadsOne(m, gap[0]);
      assert u + [] == u;
      ReadsBoth(s, bytes, t, m, [gap[0]], u, e);
      ReadsBlank(e, gap[1..]);
      ReadsBoth(s, bytes + [gap[0]], tokens, e, gap[1..], [], e);
      assert tokens + [] == tokens;
      assert bytes + [gap[0]] + gap[1..] == bytes + gap;
      t', m', u', e' := tokens, e, [], e;
    }
  }

  // Strings

  lemma HexReads(d: nat, upper: bool)
    requires d < 16
    ensures HexValue(Hex(d, upper)) == Some(d)
  {
  }

  lemma HexOf(v: nat, upper: seq<bool>, d: seq<nat>)
    requires v < 0x1_0000 && |upper| == 4 && d == [v / 4096, v / 256 % 16, v / 16 % 16, v % 16]
    ensures HexDigits(CodeText(v, upper)[2..], d) && FromHex(d) == v
  {
    hide Hex, HexValue;
    HexReads(d[0], upper[0]);
    HexReads(d[1], upper[1]);
    HexReads(d[2], upper[2]);
    HexReads(d[3], upper[3]);
    assert v / 256 == d[0] * 16 + d[1];
    assert v / 16 == v / 256 * 16 + d[2];
  }

  lemma ReadsCode(s: Scan, v: nat, upper: seq<bool>, e: Scan)
    requires s.mode == InString && v < 0x1_0000 && |upper| == 4
    requires FinishEscape(s.(codePoint := v, mode := Unicode(3))) == Go(e)
    ensures Reads(s, CodeText(v, upper), [], e)
  {
    hide FinishEscape, Run, Hex;
    var d := [v / 4096, v / 256 % 16, v / 16 % 16, v % 16];
    HexOf(v, upper, d);
    ReadsEscape(s, CodeText(v, upper)[2..], d, e);
    assert CodeText(v, upper) == [BACKSLASH, 0x75] + CodeText(v, upper)[2..];
  }

  lemma ReadsShort(s: Scan, b: byte, e: Scan)
    requires s.mode == InString && |s.buffer| < MAX_STRING && ShortFor(b).Some? && e == s.(buffer := s.buffer + [b])
    ensures Reads(s, [BACKSLASH, ShortFor(b).value], [], e)
  {
    hide Run;
    var mid := s.(mode := Escape);
    var code := ShortFor(b).value;
    assert Eat(s, BACKSLASH) == Go(mid);
    assert Eat(mid, code) == Go(e);
    ReadsNone(e);
    ReadsCons(mid, code, e, [], [], e);
    ReadsCons(s, BACKSLASH, mid, [code] + [], [], e);
    assert [BACKSLASH, code] == [BACKSLASH] + ([code] + []);
  }

  lemma ReadsPair(s: Scan, c: nat, upper: seq<bool>) returns (e: Scan)
    requires s.mode == InString && s.surrogate.None? && PieceFits(Pair(c, upper))
    requires |s.buffer| + |Utf8.Encode(c)| <= MAX_STRING
    ensures Reads(s, PieceText(Pair(c, upper)), [], e)
    ensures e == s.(buffer := s.buffer + Utf8.Encode(c), codePoint := e.codePoint)
  {
    hide Run, Utf8.Encode, CodeText;
    var high, low := 0xD800 + (c - 0x1_0000) / 1024, 0xDC00 + (c - 0x1_0000) % 1024;
    var half := s.(surrogate := Some(high), codePoint := high);
    e := s.(buffer := s.buffer + Utf8.Encode(c), codePoint := low);
    assert 0x1_0000 + (high - 0xD800) * 1024 + (low - 0xDC00) == c;
    ReadsCode(s, high, upper[..4], half);
    ReadsCode(half, low, upper[4..], e);
    ReadsBoth(s, CodeText(high, upper[..4]), [], half, CodeText(low, upper[4..]), [], e);
  }

  lemma ReadsPiece(s: Scan, p: Piece) returns (e: Scan)
    requires s.mode == InString && s.surrogate.None? && PieceFits(p) && |s.buffer| + |PieceBytes(p)| <= MAX_STRING
    ensures Reads(s, PieceText(p), [], e)
    ensures e == s.(buffer := s.buffer + PieceBytes(p), codePoint := e.codePoint)
  {
    hide Run, Utf8.Encode, CodeText;
    e := s.(buffer := s.buffer + PieceBytes(p));
    match p {
      case Raw(b) =>
        assert Eat(s, b) == Go(e);
        ReadsOne(s, b);
      case Short(b) => ReadsShort(s, b, e);
      case Code(v, upper) =>
        e := e.(codePoint := v);
        ReadsCode(s, v, upper, e);
      case Pair(c, upper) => e := ReadsPair(s, c, upper);
    }
  }

  lemma {:induction false} ReadsPieces(s: Scan, ps: seq<Piece>) returns (e: Scan)
    requires s.mode == InString && s.surrogate.None? && PiecesFit(ps)
    requires |s.buffer| + |PiecesBytes(ps)| <= MAX_STRING
    ensures Reads(s, PiecesText(ps), [], e)
    ensures e == s.(buffer := s.buffer + PiecesBytes(ps), codePoint := e.codePoint)
  {
    hide Run, PieceText, PieceBytes;
    if ps == [] {
      ReadsNone(s);
      assert s.buffer + [] == s.buffer;
      e := s;
    } else {
      var n := |ps| - 1;
      var m := ReadsPieces(s, ps[..n]);
      e := ReadsPiece(m, ps[n]);
      ReadsBoth(s, PiecesText(ps[..n]), [], m, PieceText(ps[n]), [], e);
      assert s.buffer + PiecesBytes(ps) == s.buffer + PiecesBytes(ps[..n]) + PieceBytes(ps[n]);
    }
  }

  /** A whole literal, whether it is a name or a value. */
  lemma ReadsLiteral(s: Scan, ps: seq<Piece>) returns (t: seq<Token>, e: Scan)
    requires Ready(s, Value, s.stack) && LiteralFits(ps)
    ensures Reads(s, LiteralText(ps), t, e)
    ensures !ExpectsKey(s.stack) ==> t == [Text(PiecesBytes(ps))] && Ready(e, AfterValue, s.stack)
    ensures ExpectsKey(s.stack) ==> t == [Key(PiecesBytes(ps))] && Ready(e, ExpectColon, SetExpecting(s.stack, false))
  {
    hide Run, PiecesText, PiecesBytes, Utf8.Valid;
    var a, text := s.(buffer := [], mode := InString), PiecesBytes(ps);
    assert Eat(s, QUOTE) == Go(a);
    var b := ReadsPieces(a, ps);
    assert [] + text == text;
    var last := Eat(b, QUOTE);
    t, e := last.tokens, last.next.value;
    ReadsOne(b, QUOTE);
    ReadsBoth(a, PiecesText(ps), [], b, [QUOTE], t, e);
    assert [] + t == t;
    ReadsCons(s, QUOTE, a, PiecesText(ps) + [QUOTE], t, e);
    assert LiteralText(ps) == [QUOTE] + (PiecesText(ps) + [QUOTE]);
  }

  // Numbers

  /** Digits, signs, points and exponents are collected as they come. */
  lemma {:induction false} ReadsNumber(s: Scan, text: Bytes) returns (e: Scan)
    requires Ready(s, Value, s.stack) && 0 < |text| <= MAX_STRING
    requires text[0] == 0x2D || Digit(text[0])
    requires forall i :: 0 <= i < |text| ==> NumberByte(text[i])
    ensures Reads(s, text, [], e) && Ready(e, Scanner.InNumber, s.stack) && e.buffer == text
    decreases |text|
  {
    hide Run;
    if |text| == 1 {
      assert text == [text[0]];
      e := s.(buffer := text, mode := Scanner.InNumber);
      assert Eat(s, text[0]) == Go(e);
      ReadsOne(s, text[0]);
    } else {
      var n := |text| - 1;
      var m := ReadsNumber(s, text[..n]);
      assert text == text[..n] + [text[n]];
      e := m.(buffer := text);
      assert Eat(m, text[n]) == Go(e);
      ReadsOne(m, text[n]);
      ReadsBoth(s, text[..n], [], m, [text[n]], [], e);
    }
  }

  lemma {:induction false} DecimalValue(n: nat)
    ensures forall i :: 0 <= i < |Decimal(n)| ==> Digit(Decimal(n)[i])
    ensures DigitsValue(Decimal(n)) == n
  {
    if n < 10 {
      assert Decimal(n)[..0] == [];
    } else {
      DecimalValue(n / 10);
      assert Decimal(n)[..|Decimal(n)| - 1] == Decimal(n / 10);
    }
  }

  lemma NumberShape(negative: bool, n: nat, tail: Bytes)
    requires IsTail(tail)
    ensures var text := NumberText(negative, n, tail);
            && text != [] && (text[0] == 0x2D || Digit(text[0]))
            && forall i :: 0 <= i < |text| ==> NumberByte(text[i])
  {
    hide Decimal, DigitsValue;
    DecimalValue(n);
    var text, sign := NumberText(negative, n, tail), if negative then [0x2D] else [];
    forall i | 0 <= i < |text| ensures NumberByte(text[i]) {
      assert text[i] == if i < |sign| then 0x2D
                        else if i - |sign| < |Decimal(n)| then Decimal(n)[i - |sign|]
                        else tail[i - |sign| - |Decimal(n)|];
    }
  }

  /** The number a text stands for is the one the scanner takes it for. */
  lemma IntegerOfNumber(negative: bool, n: nat, tail: Bytes)
    requires IsTail(tail)
    ensures Integer(NumberText(negative, n, tail)) == NumberMeans(negative, n, tail)
  {
    hide Decimal, DigitsValue;
    DecimalValue(n);
    var text, sign := NumberText(negative, n, tail), if negative then [0x2D] else [];
    var digits := Decimal(n) + tail;
    assert text == sign + digits;
    assert if negative then text[1..] == digits else text == digits;
    assert digits[0] == Decimal(n)[0] && Digit(Decimal(n)[0]);
    assert text[0] == if negative then 0x2D else digits[0];
    if tail == [] {
      assert digits == Decimal(n);
      assert AllDigits(digits) && DigitsValue(digits) == n;
      if negative {
        assert text[0] == 0x2D && text[1..] == Decimal(n);
      } else {
        assert text == Decimal(n);
      }
    } else {
      assert !Digit(digits[|Decimal(n)|]);
    }
  }

  lemma ReadsNumeral(s: Scan, negative: bool, n: nat, tail: Bytes)
    returns (t: seq<Token>, m: Scan, u: seq<Token>, e: Scan)
    requires Ready(s, Value, s.stack) && IsTail(tail) && |NumberText(negative, n, tail)| <= 256
    ensures Delivers(s, NumberText(negative, n, tail), [Int(NumberMeans(negative, n, tail))], s.stack, t, m, u, e)
  {
    hide Run, NumberText, NumberMeans, Integer;
    NumberShape(negative, n, tail);
    m := ReadsNumber(s, NumberText(negative, n, tail));
    IntegerOfNumber(negative, n, tail);
    t, u, e := [], [Int(NumberMeans(negative, n, tail))], m.(mode := AfterValue);
    assert [] + u == u;
  }

  // Whole values

  lemma ReadsLeaf(s: Scan, x: Spelling) returns (t: seq<Token>, m: Scan, u: seq<Token>, e: Scan)
    requires Fits(x) && !x.List? && !x.Record? && Ready(s, Value, s.stack) && !ExpectsKey(s.stack)
    ensures Delivers(s, Write(x), Tokens(Meaning(x)), s.stack, t, m, u, e)
  {
    hide Run, NumberText, NumberMeans, PiecesText, PiecesBytes;
    match x {
      case Number(negative, n, tail) => t, m, u, e := ReadsNumeral(s, negative, n, tail);
      case Quote(ps) =>
        t, m := ReadsLiteral(s, ps);
        u, e := [], m;
        assert t + [] == t;
      case Word(v) =>
        assert Write(x) == if v.Null? then NullText() else if v.b then TrueText() else FalseText();
        t, m, u, e := ReadsWord(s, Write(x));
    }
  }

  lemma {:induction false} ReadsSpelling(s: Scan, x: Spelling)
    returns (t: seq<Token>, m: Scan, u: seq<Token>, e: Scan)
    requires Fits(x) && |s.stack| + Depth(Meaning(x)) <= MAX_DEPTH
    requires Ready(s, Value, s.stack) && !ExpectsKey(s.stack)
    ensures Delivers(s, Write(x), Tokens(Meaning(x)), s.stack, t, m, u, e)
    decreases x, 1
  {
    match x {
      case List(_, _) => t, m, u, e := ReadsList(s, x);
      case Record(_, _) => t, m, u, e := ReadsRecord(s, x);
      case _ => t, m, u, e := ReadsLeaf(s, x);
    }
  }

  /** A value with the white space around it. */
  lemma ReadsItem(s: Scan, x: Item) returns (t: seq<Token>, m: Scan, u: seq<Token>, e: Scan)
    requires ItemFits(x) && |s.stack| + Depth(ItemMeaning(x)) <= MAX_DEPTH
    requires Ready(s, Value, s.stack) && !ExpectsKey(s.stack)
    ensures Delivers(s, WriteItem(x), Tokens(ItemMeaning(x)), s.stack, t, m, u, e)
    decreases x, 2
  {
    hide Run, Delivers, Write, Tokens, Reads, Meaning, Fits;
    var text, tokens := Write(x.value), Tokens(ItemMeaning(x));
    ReadsBlank(s, x.before);
    t, m, u, e := ReadsSpelling(s, x.value);
    ContinueDelivers(s, x.before, [], s, text, tokens, s.stack, t, m, u, e);
    assert [] + tokens == tokens;
    t, m, u, e := BlankDelivers(s, x.before + text, tokens, s.stack, [] + t, m, u, e, x.after);
  }

  /** The bracket that closes a container without values, behind its white space. */
  lemma ReadsEmpty(s: Scan, a: Scan, open: byte, gap: Bytes, close: byte, start: Token, outer: seq<Container>,
                   inner: Container) returns (after: Scan)
    requires Reads(s, [open], [start], a) && Ready(a, Value, outer + [inner]) && Blank(gap)
    requires (close == 0x7D && inner.Object?) || (close == 0x5D && inner.Array?)
    ensures Reads(s, [open] + gap + [close], [start] + [] + [if inner.Object? then EndObject else EndArray], after)
    ensures Ready(after, AfterValue, outer)
  {
    hide Run;
    var final := if inner.Object? then EndObject else EndArray;
    assert (outer + [inner])[..|outer|] == outer;
    ReadsBlank(a, gap);
    ReadsBoth(s, [open], [start], a, gap, [], a);
    after := Closed(a, outer);
    assert Eat(a, close) == Scanned([final], Ok(after));
    ReadsOne(a, close);
    ReadsBoth(s, [open] + gap, [start] + [], a, [close], [final], after);
  }

  lemma ReadsList(s: Scan, x: Spelling) returns (t: seq<Token>, m: Scan, u: seq<Token>, e: Scan)
    requires x.List? && Fits(x) && |s.stack| + Depth(Meaning(x)) <= MAX_DEPTH && Ready(s, Value, s.stack)
    ensures Delivers(s, Write(x), Tokens(Meaning(x)), s.stack, t, m, u, e)
    decreases x, 0
  {
    hide Run, WriteItems, ItemTokens, Delivers;
    var n, a := |x.items|, s.(stack := s.stack + [Array], mode := Value);
    assert Eat(s, 0x5B) == Scanned([StartArray], Ok(a));
    ReadsOne(s, 0x5B);
    var inside := ItemTokens(Meaning(x).items, n);
    var after;
    if n == 0 {
      assert inside == [] by {
        NoItems(Meaning(x).items);
      }
      after := ReadsEmpty(s, a, 0x5B, x.gap, 0x5D, StartArray, s.stack, Array);
    } else {
      t, m, u, e := ReadsItems(a, x.items, Meaning(x).items, n, s.stack);
      ItemsSome(x.items, n);
      after := ReadsClose(s, a, 0x5B, WriteItems(x.items, n), 0x5D, StartArray, inside, s.stack, Array, t, m, u, e);
    }
    t, m, u, e := Tokens(Meaning(x)), after, [], after;
    WholeDelivers(s, Write(x), t, s.stack, after);
  }

  lemma NoItems(items: seq<Json>)
    ensures ItemTokens(items, 0) == []
  {
  }

  lemma WriteSome(x: Spelling)
    requires Fits(x)
    ensures Write(x) != []
  {
  }

  lemma ItemsSome(items: seq<Item>, n: nat)
    requires 0 < n <= |items| && forall i :: 0 <= i < |items| ==> ItemFits(items[i])
    ensures WriteItems(items, n) != []
  {
    hide Write;
    WriteSome(items[n - 1].value);
  }

  lemma {:induction false} ReadsItems(a: Scan, items: seq<Item>, read: seq<Json>, n: nat, outer: seq<Container>)
    returns (t: seq<Token>, m: Scan, u: seq<Token>, e: Scan)
    requires n <= |items| == |read| && forall i :: 0 <= i < |items| ==> ItemFits(items[i])
    requires forall i :: 0 <= i < |items| ==> read[i] == ItemMeaning(items[i])
    requires |outer| + 1 + ItemsDepth(read, n) <= MAX_DEPTH
    requires Ready(a, Value, outer + [Array])
    ensures n > 0 ==> Delivers(a, WriteItems(items, n), ItemTokens(read, n), outer + [Array], t, m, u, e)
    decreases items, n
  {
    hide Run, Delivers, WriteItem, Tokens, Reads, WriteItems, ItemTokens, Meaning, Fits;
    if n > 0 {
      var item, stack := items[n - 1], outer + [Array];
      ItemsUnfold(items, read, n);
      var sofar, before := WriteItems(items, n - 1), ItemTokens(read, n - 1);
      var from, comma := a, if n == 1 then [] else [0x2C];
      if n > 1 {
        t, m, u, e := ReadsItems(a, items, read, n - 1, outer);
        from := ReadsComma(a, sofar, before, outer, Array, t, m, u, e);
      } else {
        ReadsNone(a);
      }
      assert sofar + comma == if n > 1 then sofar + [COMMA] else [];
      t, m, u, e := ReadsItem(from, item);
      ContinueDelivers(a, sofar + comma, before, from, WriteItem(item), Tokens(read[n - 1]), stack, t, m, u, e);
      t := before + t;
    } else {
      t, m, u, e := [], a, [], a;
    }
  }

  lemma ItemsUnfold(items: seq<Item>, read: seq<Json>, n: nat)
    requires 0 < n <= |items| == |read| && forall i :: 0 <= i < |items| ==> ItemFits(items[i])
    ensures WriteItems(items, n) == WriteItems(items, n - 1) + (if n == 1 then [] else [0x2C]) + WriteItem(items[n - 1])
    ensures ItemTokens(read, n) == ItemTokens(read, n - 1) + Tokens(read[n - 1])
    ensures n == 1 ==> WriteItems(items, n - 1) == [] && ItemTokens(read, n - 1) == []
  {
    hide WriteItem, Tokens;
  }

  lemma ReadsRecord(s: Scan, x: Spelling) returns (t: seq<Token>, m: Scan, u: seq<Token>, e: Scan)
    requires x.Record? && Fits(x) && |s.stack| + Depth(Meaning(x)) <= MAX_DEPTH && Ready(s, Value, s.stack)
    ensures Delivers(s, Write(x), Tokens(Meaning(x)), s.stack, t, m, u, e)
    decreases x, 0
  {
    hide Run, WriteEntries, MemberTokens, Delivers;
    var n, a := |x.entries|, s.(stack := s.stack + [Object(true)], mode := Value);
    assert Eat(s, 0x7B) == Scanned([StartObject], Ok(a));
    ReadsOne(s, 0x7B);
    var inside := MemberTokens(Meaning(x).members, n);
    var after;
    if n == 0 {
      assert inside == [] by {
        NoMembers(Meaning(x).members);
      }
      after := ReadsEmpty(s, a, 0x7B, x.gap, 0x7D, StartObject, s.stack, Object(true));
    } else {
      t, m, u, e := ReadsEntries(a, x.entries, Meaning(x).members, n, s.stack);
      EntriesSome(x.entries, n);
      after := ReadsClose(s, a, 0x7B, WriteEntries(x.entries, n), 0x7D, StartObject, inside, s.stack, Object(false),
                          t, m, u, e);
    }
    t, m, u, e := Tokens(Meaning(x)), after, [], after;
    WholeDelivers(s, Write(x), t, s.stack, after);
  }

  lemma NoMembers(members: seq<Member>)
    ensures MemberTokens(members, 0) == []
  {
  }

  lemma EntriesSome(entries: seq<Entry>, n: nat)
    requires 0 < n <= |entries| && forall i :: 0 <= i < |entries| ==> EntryFits(entries[i])
    ensures WriteEntries(entries, n) != []
  {
    hide WriteItem;
  }

  lemma {:induction false} ReadsEntries(a: Scan, entries: seq<Entry>, read: seq<Member>, n: nat, outer: seq<Container>)
    returns (t: seq<Token>, m: Scan, u: seq<Token>, e: Scan)
    requires n <= |entries| == |read| && forall i :: 0 <= i < |entries| ==> EntryFits(entries[i])
    requires forall i :: 0 <= i < |entries| ==>
               read[i] == EntryMeaning(entries[i])
    requires |outer| + 1 + MembersDepth(read, n) <= MAX_DEPTH
    requires Ready(a, Value, outer + [Object(true)])
    ensures n > 0 ==>
              Delivers(a, WriteEntries(entries, n), MemberTokens(read, n), outer + [Object(false)], t, m, u, e)
    decreases entries, n
  {
    hide Run, Delivers, WriteEntry, Tokens, Reads, WriteEntries, MemberTokens, Meaning, Fits, LiteralFits;
    if n > 0 {
      var entry, stack := entries[n - 1], outer + [Object(false)];
      EntriesUnfold(entries, read, n);
      var sofar, before := WriteEntries(entries, n - 1), MemberTokens(read, n - 1);
      var from, comma := a, if n == 1 then [] else [0x2C];
      if n > 1 {
        t, m, u, e := ReadsEntries(a, entries, read, n - 1, outer);
        from := ReadsComma(a, sofar, before, outer, Object(false), t, m, u, e);
      } else {
        ReadsNone(a);
      }
      assert sofar + comma == if n > 1 then sofar + [COMMA] else [];
      t, m, u, e := ReadsEntry(from, entry, outer);
      var inside := [Key(read[n - 1].name)] + Tokens(read[n - 1].value);
      ContinueDelivers(a, sofar + comma, before, from, WriteEntry(entry), inside, stack, t, m, u, e);
      t := before + t;
    } else {
      t, m, u, e := [], a, [], a;
    }
  }

  lemma EntriesUnfold(entries: seq<Entry>, read: seq<Member>, n: nat)
    requires 0 < n <= |entries| == |read| && forall i :: 0 <= i < |entries| ==> EntryFits(entries[i])
    ensures WriteEntries(entries, n)
         == WriteEntries(entries, n - 1) + (if n == 1 then [] else [0x2C]) + WriteEntry(entries[n - 1])
    ensures MemberTokens(read, n) == MemberTokens(read, n - 1) + ([Key(read[n - 1].name)] + Tokens(read[n - 1].value))
    ensures n == 1 ==> WriteEntries(entries, n - 1) == [] && MemberTokens(read, n - 1) == []
  {
    hide WriteEntry, Tokens;
  }

  /** A name, its colon and the white space around them. */
  lemma ReadsName(s: Scan, x: Entry, outer: seq<Container>) returns (e: Scan)
    requires EntryFits(x) && Ready(s, Value, outer + [Object(true)])
    ensures Reads(s, x.before + LiteralText(x.name) + x.gap + [0x3A], [Key(PiecesBytes(x.name))], e)
    ensures Ready(e, Value, outer + [Object(false)])
  {
    assert PiecesFit(x.name);
    hide Run, Reads, LiteralText, LiteralFits, PiecesBytes, Fits, Blank;
    var key := [Key(PiecesBytes(x.name))];
    ReadsBlank(s, x.before);
    var t, m := ReadsLiteral(s, x.name);
    ReadsBoth(s, x.before, [], s, LiteralText(x.name), t, m);
    assert [] + t == key;
    assert SetExpecting(s.stack, false) == outer + [Object(false)];
    e := ReadsColon(m, x.gap);
    ReadsBoth(s, x.before + LiteralText(x.name), key, m, x.gap + [0x3A], [], e);
    assert key + [] == key;
    assert x.before + LiteralText(x.name) + (x.gap + [0x3A]) == x.before + LiteralText(x.name) + x.gap + [0x3A];
  }

  lemma ReadsColon(s: Scan, gap: Bytes) returns (e: Scan)
    requires s.mode == ExpectColon && Blank(gap)
    ensures Reads(s, gap + [0x3A], [], e) && e == s.(mode := Value)
  {
    hide Run;
    ReadsBlank(s, gap);
    e := s.(mode := Value);
    assert Eat(s, COLON) == Go(e);
    ReadsOne(s, COLON);
    ReadsBoth(s, gap, [], s, [COLON], [], e);
  }

  lemma ReadsEntry(s: Scan, x: Entry, outer: seq<Container>)
    returns (t: seq<Token>, m: Scan, u: seq<Token>, e: Scan)
    requires EntryFits(x) && |outer| + 1 + Depth(ItemMeaning(x.item)) <= MAX_DEPTH
    requires Ready(s, Value, outer + [Object(true)])
    ensures Delivers(s, WriteEntry(x), [Key(PiecesBytes(x.name))] + Tokens(ItemMeaning(x.item)),
                     outer + [Object(false)], t, m, u, e)
    decreases x, 3
  {
    assert PiecesFit(x.name);
    hide Run, Delivers, WriteItem, Tokens, LiteralText, LiteralFits, PiecesBytes, Meaning, Fits;
    var from := ReadsName(s, x, outer);
    t, m, u, e := ReadsItem(from, x.item);
    ContinueDelivers(s, x.before + LiteralText(x.name) + x.gap + [0x3A], [Key(PiecesBytes(x.name))], from,
                     WriteItem(x.item), Tokens(ItemMeaning(x.item)), outer + [Object(false)], t, m, u, e);
    t := [Key(PiecesBytes(x.name))] + t;
  }

  /**
   Every text that spells a tree nested at most sixteen deep, with strings of at most 256
   bytes, cut anywhere, is read without error as exactly the tree's tokens.
   */
  lemma SpelledIsRead(x: Item, chunks: seq<Bytes>)
    requires ItemFits(x) && Depth(ItemMeaning(x)) <= MAX_DEPTH && Join(chunks) == WriteItem(x)
    ensures var r := RunChunks(Fresh(), chunks);
            && r.next.Ok? && Finished(r.next.value).next.Ok?
            && r.tokens + Finished(r.next.value).tokens == Tokens(ItemMeaning(x))
    ensures Document(WriteItem(x)).next.Ok? && Document(WriteItem(x)).tokens == Tokens(ItemMeaning(x))
  {
    hide Run, WriteItem, Tokens, Meaning, Fits;
    ChunksDoNotMatter(Fresh(), chunks);
    var t, m, u, e := ReadsItem(Fresh(), x);
    assert Finished(m) == Scanned(u, Ok(e));
  }
}
