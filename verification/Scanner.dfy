/** The incremental scanner: a byte-at-a-time machine that holds one token. */
module Scanner {
  import opened Common
  import opened Json
  import Utf8

  const MAX_DEPTH := 16
  const MAX_STRING := 256

  /** `Panicked` stands for the end of the program: nothing is returned after it. */
  datatype Error = Syntax | Full | Malformed | Panicked

  datatype Container = Object(expectingKey: bool) | Array

  datatype Mode =
    | Value
    | InString
    | Escape
    | Unicode(seen: nat)
    | InNumber
    | InLiteral
    | AfterValue
    | ExpectColon

  datatype Scan = Scan(mode: Mode, stack: seq<Container>, buffer: seq<byte>, codePoint: nat, surrogate: Option<nat>,
      done: bool)

  /** What reading some bytes emits, and the state it leaves or the error it ends in. */
  datatype Scanned = Scanned(tokens: seq<Token>, next: Result<Scan, Error>)

  function Fresh(): Scan {
    Scan(Value, [], [], 0, None, false)
  }

  function Fail(e: Error): Scanned {
    Scanned([], Err(e))
  }

  function Go(s: Scan): Scanned {
    Scanned([], Ok(s))
  }

  predicate Space(b: byte) {
    b == 0x20 || b == 0x09 || b == 0x0A || b == 0x0C || b == 0x0D
  }

  predicate Digit(b: byte) {
    0x30 <= b <= 0x39
  }

  predicate NumberByte(b: byte) {
    Digit(b) || b == 0x2D || b == 0x2B || b == 0x2E || b == 0x65 || b == 0x45
  }

  predicate Letter(b: byte) {
    0x41 <= b <= 0x5A || 0x61 <= b <= 0x7A
  }

  function HexValue(b: byte): (v: Option<nat>)
    ensures v.Some? ==> v.value < 16
  {
    if Digit(b) then Some(b - 0x30)
    else if 0x61 <= b <= 0x66 then Some(b - 0x61 + 10)
    else if 0x41 <= b <= 0x46 then Some(b - 0x41 + 10)
    else None
  }

  function DigitsValue(s: seq<byte>): nat
    requires forall i :: 0 <= i < |s| ==> Digit(s[i])
  {
    if s == [] then 0
    else
      var last := s[|s| - 1];
      assert Digit(last);
      DigitsValue(s[..|s| - 1]) * 10 + (last as int - 0x30)
  }

  predicate AllDigits(s: seq<byte>) {
    forall i :: 0 <= i < |s| ==> Digit(s[i])
  }

  /** `str::parse::<i64>`, with zero for what it refuses. */
  function Integer(s: seq<byte>): int {
    var digits := if s != [] && (s[0] == 0x2D || s[0] == 0x2B) then s[1..] else s;
    if digits == [] || !AllDigits(digits) then 0
    else
      var n := if s[0] == 0x2D then -(DigitsValue(digits) as int) else DigitsValue(digits) as int;
      if -0x8000_0000_0000_0000 <= n < 0x8000_0000_0000_0000 then n else 0
  }

  function Literal(s: seq<byte>): Option<Token> {
    if s == TrueText() then Some(Truth(true))
    else if s == FalseText() then Some(Truth(false))
    else if s == NullText() then Some(Nothing)
    else None
  }

  predicate ExpectsKey(stack: seq<Container>) {
    stack != [] && stack[|stack| - 1] == Object(true)
  }

  function SetExpecting(stack: seq<Container>, expecting: bool): seq<Container> {
    if stack != [] && stack[|stack| - 1].Object? then stack[|stack| - 1 := Object(expecting)] else stack
  }

  function Pushed(s: Scan, bytes: seq<byte>): Scanned {
    if |s.buffer| + |bytes| > MAX_STRING then Fail(Full) else Go(s.(buffer := s.buffer + bytes, mode := InString))
  }

  function Open(s: Scan, c: Container, token: Token): Scanned {
    if |s.stack| >= MAX_DEPTH then Fail(Full) else Scanned([token], Ok(s.(stack := s.stack + [c], mode := Value)))
  }

  function Close(s: Scan, b: byte): Scanned {
    if s.stack == [] then Fail(Syntax)
    else
      var top, rest := s.stack[|s.stack| - 1], s.stack[..|s.stack| - 1];
      if b == 0x7D && top.Object? then Scanned([EndObject], Ok(Closed(s, rest)))
      else if b == 0x5D && top.Array? then Scanned([EndArray], Ok(Closed(s, rest)))
      else Fail(Syntax)
  }

  function Closed(s: Scan, rest: seq<Container>): Scan {
    s.(stack := rest, mode := AfterValue, done := s.done || rest == [])
  }

  function StepValue(s: Scan, b: byte): Scanned {
    if Space(b) then Go(s)
    else if b == 0x7B then Open(s, Object(true), StartObject)
    else if b == 0x5B then Open(s, Array, StartArray)
    else if b == 0x7D || b == 0x5D then Close(s, b)
    else if b == QUOTE then Go(s.(buffer := [], mode := InString))
    else if b == 0x2D || Digit(b) then Go(s.(buffer := [b], mode := InNumber))
    else if b == 0x74 || b == 0x66 || b == 0x6E then Go(s.(buffer := [b], mode := InLiteral))
    else Fail(Syntax)
  }

  function StepString(s: Scan, b: byte): Scanned {
    if b == QUOTE then
      if s.surrogate.Some? || !Utf8.Valid(s.buffer) then Fail(Syntax)
      else if ExpectsKey(s.stack) then
        Scanned([Key(s.buffer)], Ok(s.(stack := SetExpecting(s.stack, false), mode := ExpectColon)))
      else Scanned([Text(s.buffer)], Ok(s.(mode := AfterValue)))
    else if b == BACKSLASH then Go(s.(mode := Escape))
    else if b < 0x20 then Fail(Syntax)
    else Pushed(s, [b])
  }

  function StepEscape(s: Scan, b: byte): Scanned {
    if b == QUOTE || b == BACKSLASH || b == 0x2F then Pushed(s, [b])
    else if b == 0x62 then Pushed(s, [0x08])
    else if b == 0x66 then Pushed(s, [0x0C])
    else if b == 0x6E then Pushed(s, [0x0A])
    else if b == 0x72 then Pushed(s, [0x0D])
    else if b == 0x74 then Pushed(s, [0x09])
    else if b == 0x75 then Go(s.(codePoint := 0, mode := Unicode(0)))
    else Fail(Syntax)
  }

  /** A finished escape: half of a pair waits, anything else becomes UTF-8. */
  function FinishEscape(s: Scan): Scanned {
    var value := s.codePoint % 0x1_0000;
    if 0xD800 <= value < 0xDC00 then Go(s.(surrogate := Some(value), mode := InString))
    else if 0xDC00 <= value < 0xE000 then
      if s.surrogate.None? then Fail(Syntax)
      else
        var scalar := 0x1_0000 + (s.surrogate.value - 0xD800) * 1024 + (value - 0xDC00);
        if scalar < 0 || !Utf8.Scalar(scalar) then Fail(Syntax)
        else Pushed(s.(surrogate := None), Utf8.Encode(scalar))
    else if s.surrogate.Some? then Fail(Syntax)
    else Pushed(s, Utf8.Encode(value))
  }

  function StepUnicode(s: Scan, b: byte): Scanned
    requires s.mode.Unicode?
  {
    var digit := HexValue(b);
    if digit.None? then Fail(Syntax)
    else
      var next := s.(codePoint := s.codePoint * 16 % 0x1_0000_0000 + digit.value);
      if s.mode.seen < 3 then Go(next.(mode := Unicode(s.mode.seen + 1))) else FinishEscape(next)
  }

  function EmitNumber(s: Scan): Scanned {
    Scanned([Int(Integer(s.buffer))], Ok(s.(mode := AfterValue)))
  }

  function EmitLiteral(s: Scan): Scanned {
    var token := Literal(s.buffer);
    if token.None? then Fail(Syntax) else Scanned([token.value], Ok(s.(mode := AfterValue)))
  }

  function StepAfter(s: Scan, b: byte): Scanned {
    if Space(b) then Go(s)
    else if b == COMMA then Go(s.(stack := SetExpecting(s.stack, true), mode := Value))
    else if b == 0x7D || b == 0x5D then Close(s, b)
    else Fail(Syntax)
  }

  function StepColon(s: Scan, b: byte): Scanned {
    if Space(b) then Go(s) else if b != COLON then Fail(Syntax) else Go(s.(mode := Value))
  }

  /** The byte ends a number or a literal and is then read again. */
  predicate Rereads(s: Scan, b: byte) {
    (s.mode.InNumber? && !NumberByte(b)) || (s.mode.InLiteral? && !Letter(b))
  }

  function Collected(s: Scan, b: byte): Scanned {
    if |s.buffer| >= MAX_STRING then Fail(Full) else Go(s.(buffer := s.buffer + [b]))
  }

  /** One step of the machine. */
  function Step(s: Scan, b: byte): Scanned {
    match s.mode
    case Value => StepValue(s, b)
    case InString => StepString(s, b)
    case Escape => StepEscape(s, b)
    case Unicode(_) => StepUnicode(s, b)
    case InNumber => if Rereads(s, b) then EmitNumber(s) else Collected(s, b)
    case InLiteral => if Rereads(s, b) then EmitLiteral(s) else Collected(s, b)
    case AfterValue => StepAfter(s, b)
    case ExpectColon => StepColon(s, b)
  }

  function Prepend(tokens: seq<Token>, r: Scanned): Scanned {
    r.(tokens := tokens + r.tokens)
  }

  /** A byte read to its end: one step, or two when the first only closed a token. */
  function Eat(s: Scan, b: byte): Scanned {
    var first := Step(s, b);
    if first.next.Err? || !Rereads(s, b) then first else Prepend(first.tokens, Step(first.next.value, b))
  }

  /** A run of bytes. */
  function Run(s: Scan, bytes: seq<byte>): Scanned
    decreases |bytes|
  {
    if bytes == [] then Go(s)
    else
      var first := Eat(s, bytes[0]);
      if first.next.Err? then first else Prepend(first.tokens, Run(first.next.value, bytes[1..]))
  }

  /** The end of the document: a trailing number or literal is flushed, nothing may be open. */
  function Finished(s: Scan): Scanned {
    var flushed :=
      if s.mode.InNumber? then EmitNumber(s)
      else if s.mode.InLiteral? then EmitLiteral(s)
      else if s.mode.Value? || s.mode.AfterValue? then Go(s)
      else Fail(Syntax);
    if flushed.next.Ok? && flushed.next.value.stack != [] then flushed.(next := Err(Syntax)) else flushed
  }

  /** A whole document in one piece. */
  function Document(bytes: seq<byte>): Scanned {
    var r := Run(Fresh(), bytes);
    if r.next.Err? then r else Prepend(r.tokens, Finished(r.next.value))
  }

  // Cutting the input

  function Continue(r: Scanned, bytes: seq<byte>): Scanned {
    if r.next.Err? then r else Prepend(r.tokens, Run(r.next.value, bytes))
  }

  lemma {:induction false} RunAppend(s: Scan, a: seq<byte>, b: seq<byte>)
    ensures Run(s, a + b) == Continue(Run(s, a), b)
    decreases |a|
  {
    hide Eat;
    if a == [] {
      assert a + b == b;
      assert [] + Run(s, b).tokens == Run(s, b).tokens;
    } else {
      var first := Eat(s, a[0]);
      assert (a + b)[1..] == a[1..] + b;
      if first.next.Ok? {
        RunAppend(first.next.value, a[1..], b);
        var mid := Run(first.next.value, a[1..]);
        if mid.next.Ok? {
          var end := Run(mid.next.value, b).tokens;
          assert first.tokens + (mid.tokens + end) == first.tokens + mid.tokens + end;
        }
      }
    }
  }

  /** Chunks pushed one after another, stopping at the first error. */
  function RunChunks(s: Scan, chunks: seq<seq<byte>>): Scanned
    decreases |chunks|
  {
    if chunks == [] then Go(s)
    else
      var first := Run(s, chunks[0]);
      if first.next.Err? then first else Prepend(first.tokens, RunChunks(first.next.value, chunks[1..]))
  }

  /** Where the input is cut makes no difference. */
  lemma {:induction false} ChunksDoNotMatter(s: Scan, chunks: seq<seq<byte>>)
    ensures RunChunks(s, chunks) == Run(s, Join(chunks))
    decreases |chunks|
  {
    hide Run;
    if chunks == [] {
      assert Run(s, Join(chunks)) == Go(s) by {
        RunNothing(s);
      }
    } else {
      RunAppend(s, chunks[0], Join(chunks[1..]));
      var first := Run(s, chunks[0]);
      if first.next.Ok? {
        ChunksDoNotMatter(first.next.value, chunks[1..]);
      }
    }
  }

  lemma RunNothing(s: Scan)
    ensures Run(s, []) == Go(s)
  {
  }

  // The machine itself

  predicate Matches(spec: Scanned, tokens: seq<Token>, failed: Option<Error>, after: Scan) {
    tokens == spec.tokens && spec.next == if failed.Some? then Err(failed.value) else Ok(after)
  }

  class StreamScanner {
    var mode: Mode
    var stack: seq<Container>
    var buffer: seq<byte>
    var codePoint: nat
    var surrogate: Option<nat>
    var done: bool

    function View(): Scan
      reads this
    {
      Scan(mode, stack, buffer, codePoint, surrogate, done)
    }

    constructor ()
      ensures View() == Fresh()
    {
      mode, stack, buffer, codePoint, surrogate, done := Value, [], [], 0, None, false;
    }

    method PushByte(b: byte) returns (failed: Option<Error>)
      modifies this`buffer
      ensures Matches(Collected(old(View()), b), [], failed, View())
    {
      if |buffer| >= MAX_STRING {
        return Some(Full);
      }
      buffer := buffer + [b];
      return None;
    }

    /** The bytes of one character, or none of it: a short buffer is an error. */
    method PushCharacter(bytes: seq<byte>) returns (failed: Option<Error>)
      requires bytes != []
      modifies this`buffer, this`mode
      ensures Matches(Pushed(old(View()), bytes), [], failed, View())
    {
      for i := 0 to |bytes|
        invariant View() == old(View()).(buffer := old(buffer) + bytes[..i])
        invariant i > 0 ==> |old(buffer)| + i <= MAX_STRING
      {
        failed := PushByte(bytes[i]);
        if failed.Some? {
          return failed;
        }
        assert old(buffer) + bytes[..i + 1] == old(buffer) + bytes[..i] + [bytes[i]];
      }
      assert bytes[..|bytes|] == bytes;
      mode := InString;
      return None;
    }

    method OpenContainer(c: Container, token: Token) returns (tokens: seq<Token>, failed: Option<Error>)
      modifies this
      ensures Matches(Open(old(View()), c, token), tokens, failed, View())
    {
      if |stack| >= MAX_DEPTH {
        return [], Some(Full);
      }
      stack, mode := stack + [c], Value;
      return [token], None;
    }

    method CloseContainer(b: byte) returns (tokens: seq<Token>, failed: Option<Error>)
      modifies this
      ensures Matches(Close(old(View()), b), tokens, failed, View())
    {
      if stack == [] {
        return [], Some(Syntax);
      }
      var top := stack[|stack| - 1];
      stack := stack[..|stack| - 1];
      if b == 0x7D && top.Object? {
        tokens := [EndObject];
      } else if b == 0x5D && top.Array? {
        tokens := [EndArray];
      } else {
        return [], Some(Syntax);
      }
      mode := AfterValue;
      if stack == [] {
        done := true;
      }
      return tokens, None;
    }

    method EndEscape() returns (failed: Option<Error>)
      modifies this
      ensures Matches(FinishEscape(old(View())), [], failed, View())
    {
      hide Utf8.Encode;
      var value := codePoint % 0x1_0000;
      if 0xD800 <= value < 0xDC00 {
        surrogate, mode := Some(value), InString;
        return None;
      }
      var scalar: int := value;
      if 0xDC00 <= value < 0xE000 {
        if surrogate.None? {
          return Some(Syntax);
        }
        scalar := 0x1_0000 + (surrogate.value - 0xD800) * 1024 + (value - 0xDC00);
        surrogate := None;
      } else if surrogate.Some? {
        return Some(Syntax);
      }
      if scalar < 0 || !Utf8.Scalar(scalar) {
        return Some(Syntax);
      }
      failed := PushCharacter(Utf8.Encode(scalar));
    }

    method Emit() returns (tokens: seq<Token>, failed: Option<Error>)
      requires mode.InNumber? || mode.InLiteral?
      modifies this
      ensures Matches(if old(mode).InNumber? then EmitNumber(old(View())) else EmitLiteral(old(View())), tokens,
          failed, View())
    {
      if mode.InNumber? {
        mode := AfterValue;
        return [Int(Integer(buffer))], None;
      }
      var token := Literal(buffer);
      if token.None? {
        return [], Some(Syntax);
      }
      mode := AfterValue;
      return [token.value], None;
    }

    method StartValue(b: byte) returns (tokens: seq<Token>, failed: Option<Error>)
      modifies this
      ensures Matches(StepValue(old(View()), b), tokens, failed, View())
    {
      tokens, failed := [], None;
      if Space(b) {
        return;
      }
      if b == 0x7B {
        tokens, failed := OpenContainer(Object(true), StartObject);
      } else if b == 0x5B {
        tokens, failed := OpenContainer(Array, StartArray);
      } else if b == 0x7D || b == 0x5D {
        tokens, failed := CloseContainer(b);
      } else if b == QUOTE {
        buffer, mode := [], InString;
      } else if b == 0x2D || Digit(b) {
        buffer := [];
        failed := PushByte(b);
        assert [] + [b] == [b];
        mode := InNumber;
      } else if b == 0x74 || b == 0x66 || b == 0x6E {
        buffer := [];
        failed := PushByte(b);
        assert [] + [b] == [b];
        mode := InLiteral;
      } else {
        failed := Some(Syntax);
      }
    }

    method ReadString(b: byte) returns (tokens: seq<Token>, failed: Option<Error>)
      requires mode.InString?
      modifies this
      ensures Matches(StepString(old(View()), b), tokens, failed, View())
    {
      hide Utf8.Valid;
      tokens, failed := [], None;
      if b == QUOTE {
        if surrogate.Some? || !Utf8.Valid(buffer) {
          return [], Some(Syntax);
        }
        if ExpectsKey(stack) {
          tokens := [Key(buffer)];
          stack, mode := SetExpecting(stack, false), ExpectColon;
        } else {
          tokens := [Text(buffer)];
          mode := AfterValue;
        }
      } else if b == BACKSLASH {
        mode := Escape;
      } else if b < 0x20 {
        failed := Some(Syntax);
      } else {
        failed := PushByte(b);
      }
    }

    method ReadEscape(b: byte) returns (failed: Option<Error>)
      modifies this
      ensures Matches(StepEscape(old(View()), b), [], failed, View())
    {
      var literal: byte := b;
      match b {
        case 0x22 =>
        case 0x5C =>
        case 0x2F =>
        case 0x62 => literal := 0x08;
        case 0x66 => literal := 0x0C;
        case 0x6E => literal := 0x0A;
        case 0x72 => literal := 0x0D;
        case 0x74 => literal := 0x09;
        case 0x75 =>
          codePoint, mode := 0, Unicode(0);
          return None;
        case _ => return Some(Syntax);
      }
      failed := PushByte(literal);
      mode := InString;
    }

    method ReadUnicode(b: byte) returns (failed: Option<Error>)
      requires mode.Unicode?
      modifies this
      ensures Matches(StepUnicode(old(View()), b), [], failed, View())
    {
      var digit := HexValue(b);
      if digit.None? {
        return Some(Syntax);
      }
      codePoint := codePoint * 16 % 0x1_0000_0000 + digit.value;
      if mode.seen < 3 {
        mode := Unicode(mode.seen + 1);
        return None;
      }
      failed := EndEscape();
    }

    /** One byte; the answer says whether it was consumed. */
    method StepByte(b: byte) returns (tokens: seq<Token>, advance: bool, failed: Option<Error>)
      modifies this
      ensures Matches(Step(old(View()), b), tokens, failed, View())
      ensures advance == !Rereads(old(View()), b)
    {
      tokens, advance, failed := [], true, None;
      match mode {
        case Value => tokens, failed := StartValue(b);
        case InString => tokens, failed := ReadString(b);
        case Escape => failed := ReadEscape(b);
        case Unicode(_) => failed := ReadUnicode(b);
        case InNumber =>
          if NumberByte(b) {
            failed := PushByte(b);
          } else {
            advance := false;
            tokens, failed := Emit();
          }
        case InLiteral =>
          if Letter(b) {
            failed := PushByte(b);
          } else {
            advance := false;
            tokens, failed := Emit();
          }
        case AfterValue =>
          if Space(b) {
            return;
          }
          if b == COMMA {
            stack, mode := SetExpecting(stack, true), Value;
          } else if b == 0x7D || b == 0x5D {
            tokens, failed := CloseContainer(b);
          } else {
            failed := Some(Syntax);
          }
        case ExpectColon =>
          if Space(b) {
            return;
          }
          if b != COLON {
            failed := Some(Syntax);
          } else {
            mode := Value;
          }
      }
    }

    /** Feeds a chunk. Each byte is looked at no more than twice. */
    method Push(bytes: seq<byte>) returns (tokens: seq<Token>, failed: Option<Error>, ghost steps: nat)
      modifies this
      ensures Matches(Run(old(View()), bytes), tokens, failed, View())
      ensures steps <= 2 * |bytes|
    {
      hide Step;
      tokens, failed, steps := [], None, 0;
      var index := 0;
      ghost var again := false;
      ghost var goal := Run(View(), bytes);
      while index < |bytes|
        invariant failed.None? && index <= |bytes| && (again ==> index < |bytes| && mode == AfterValue)
        invariant goal == Prepend(tokens, Run(View(), bytes[index..]))
        invariant steps <= 2 * index + (if again then 1 else 0)
        decreases |bytes| - index, !again
      {
        ghost var here, sofar := View(), tokens;
        var more, advance;
        more, advance, failed := StepByte(bytes[index]);
        tokens := tokens + more;
        steps := steps + 1;
        TurnOfRun(here, bytes[index..], sofar);
        if failed.Some? {
          return;
        }
        again := !advance;
        if advance {
          assert bytes[index..][1..] == bytes[index + 1..];
          index := index + 1;
        }
      }
      assert bytes[index..] == [];
      assert tokens + [] == tokens;
    }

    /** Ends the document. */
    method Finish() returns (tokens: seq<Token>, failed: Option<Error>)
      modifies this
      ensures Matches(Finished(old(View())), tokens, failed, View())
    {
      tokens, failed := [], None;
      match mode {
        case InNumber => tokens, failed := Emit();
        case InLiteral => tokens, failed := Emit();
        case Value =>
        case AfterValue =>
        case _ => failed := Some(Syntax);
      }
      if failed.None? && stack != [] {
        failed := Some(Syntax);
      }
    }
  }

  /** One turn of the push loop: the byte is eaten, or its token closed and the byte still due. */
  lemma TurnOfRun(s: Scan, bytes: seq<byte>, sofar: seq<Token>)
    requires bytes != []
    ensures var first := Step(s, bytes[0]);
            && (first.next.Err? ==> Prepend(sofar, Run(s, bytes)) == Scanned(sofar + first.tokens, first.next))
            && (first.next.Ok? && !Rereads(s, bytes[0]) ==>
                  Prepend(sofar, Run(s, bytes)) == Prepend(sofar + first.tokens, Run(first.next.value, bytes[1..])))
            && (first.next.Ok? && Rereads(s, bytes[0]) ==>
                  && first.next.value.mode == AfterValue
                  && Prepend(sofar, Run(s, bytes)) == Prepend(sofar + first.tokens, Run(first.next.value, bytes)))
  {
    hide Step;
    var first := Step(s, bytes[0]);
    if first.next.Ok? {
      if Rereads(s, bytes[0]) {
        AfterToken(s, bytes[0]);
        RereadIsRun(first.next.value, first.tokens, bytes);
        Regroup(sofar, first.tokens, Run(first.next.value, bytes).tokens);
      } else {
        Regroup(sofar, first.tokens, Run(first.next.value, bytes[1..]).tokens);
      }
    }
  }

  lemma Regroup(a: seq<Token>, b: seq<Token>, c: seq<Token>)
    ensures a + (b + c) == a + b + c
  {
  }

  lemma AfterToken(s: Scan, b: byte)
    requires Rereads(s, b) && Step(s, b).next.Ok?
    ensures Step(s, b).next.value.mode == AfterValue
  {
  }

  /** After a closed token the byte due is read as any first byte is. */
  lemma RereadIsRun(s: Scan, before: seq<Token>, bytes: seq<byte>)
    requires bytes != [] && s.mode == AfterValue
    ensures var second := Prepend(before, Step(s, bytes[0]));
            Prepend(before, Run(s, bytes)) ==
              if second.next.Err? then second else Prepend(second.tokens, Run(second.next.value, bytes[1..]))
  {
    hide Step;
    var second := Step(s, bytes[0]);
    if second.next.Ok? {
      var rest := Run(second.next.value, bytes[1..]).tokens;
      assert before + (second.tokens + rest) == before + second.tokens + rest;
    }
  }
}
