/** What the tokens of any input say about nesting. */
module ScannerBalance {
  import opened Common
  import opened Json
  import opened Scanner

  datatype Bracket = Brace | Square

  function Kind(c: Container): Bracket {
    if c.Object? then Brace else Square
  }

  function Kinds(stack: seq<Container>): seq<Bracket> {
    seq(|stack|, i requires 0 <= i < |stack| => Kind(stack[i]))
  }

  /** The containers left open by a token; `None` when an end meets no start of its kind. */
  function Opened(open: seq<Bracket>, t: Token): Option<seq<Bracket>> {
    match t
    case StartObject => Some(open + [Brace])
    case StartArray => Some(open + [Square])
    case EndObject => if open != [] && open[|open| - 1] == Brace then Some(open[..|open| - 1]) else None
    case EndArray => if open != [] && open[|open| - 1] == Square then Some(open[..|open| - 1]) else None
    case _ => Some(open)
  }

  /** The starts not yet met by an end, provided no moment has more than `limit` of them. */
  function Unmatched(open: seq<Bracket>, tokens: seq<Token>, limit: nat): Option<seq<Bracket>>
    decreases |tokens|
  {
    if |open| > limit then None
    else if tokens == [] then Some(open)
    else
      var next := Opened(open, tokens[0]);
      if next.None? then None else Unmatched(next.value, tokens[1..], limit)
  }

  lemma {:induction false} UnmatchedAppend(open: seq<Bracket>, a: seq<Token>, b: seq<Token>, limit: nat)
    requires Unmatched(open, a, limit).Some?
    ensures Unmatched(open, a + b, limit) == Unmatched(Unmatched(open, a, limit).value, b, limit)
    decreases |a|
  {
    if a == [] {
      assert a + b == b;
    } else {
      assert (a + b)[1..] == a[1..] + b;
      UnmatchedAppend(Opened(open, a[0]).value, a[1..], b, limit);
    }
  }

  lemma UnmatchedOne(open: seq<Bracket>, t: Token, limit: nat)
    requires |open| <= limit
    ensures Unmatched(open, [t], limit) ==
            if Opened(open, t).Some? && |Opened(open, t).value| <= limit then Opened(open, t) else None
  {
    assert [t][1..] == [];
  }

  /** What a result says of the nesting the state stands at. */
  predicate Nested(from: seq<Container>, r: Scanned) {
    && |from| <= MAX_DEPTH
    && Unmatched(Kinds(from), r.tokens, MAX_DEPTH).Some?
    && (r.next.Ok? ==>
          && |r.next.value.stack| <= MAX_DEPTH
          && Unmatched(Kinds(from), r.tokens, MAX_DEPTH) == Some(Kinds(r.next.value.stack)))
  }

  lemma NestedSilent(s: Scan, r: Scanned)
    requires |s.stack| <= MAX_DEPTH && r.tokens == []
    requires r.next.Ok? ==> Kinds(r.next.value.stack) == Kinds(s.stack)
    ensures Nested(s.stack, r)
  {
    assert r.next.Ok? ==> |Kinds(r.next.value.stack)| == |r.next.value.stack|;
  }

  lemma NestedOne(s: Scan, r: Scanned, t: Token)
    requires |s.stack| <= MAX_DEPTH && r.tokens == [t] && r.next.Ok?
    requires |r.next.value.stack| <= MAX_DEPTH && Opened(Kinds(s.stack), t) == Some(Kinds(r.next.value.stack))
    ensures Nested(s.stack, r)
  {
    UnmatchedOne(Kinds(s.stack), t, MAX_DEPTH);
  }

  lemma KindsSetExpecting(stack: seq<Container>, expecting: bool)
    ensures Kinds(SetExpecting(stack, expecting)) == Kinds(stack)
  {
  }

  lemma OpenNests(s: Scan, c: Container, t: Token)
    requires |s.stack| <= MAX_DEPTH
    requires (t == StartObject && c.Object?) || (t == StartArray && c.Array?)
    ensures Nested(s.stack, Open(s, c, t))
  {
    var r := Open(s, c, t);
    if r.next.Ok? {
      assert Kinds(s.stack + [c]) == Kinds(s.stack) + [Kind(c)];
      NestedOne(s, r, t);
    }
  }

  lemma CloseNests(s: Scan, b: byte)
    requires |s.stack| <= MAX_DEPTH
    ensures Nested(s.stack, Close(s, b))
  {
    var r := Close(s, b);
    if r.next.Ok? {
      var n := |s.stack| - 1;
      assert Kinds(s.stack[..n]) == Kinds(s.stack)[..n];
      assert Kinds(s.stack)[n] == Kind(s.stack[n]);
      NestedOne(s, r, r.tokens[0]);
    }
  }

  lemma StringNests(s: Scan, b: byte)
    requires |s.stack| <= MAX_DEPTH
    ensures Nested(s.stack, StepString(s, b))
  {
    var r := StepString(s, b);
    KindsSetExpecting(s.stack, false);
    if r.tokens == [] {
      NestedSilent(s, r);
    } else {
      NestedOne(s, r, r.tokens[0]);
    }
  }

  lemma StepNests(s: Scan, b: byte)
    requires |s.stack| <= MAX_DEPTH
    ensures Nested(s.stack, Step(s, b))
  {
    hide Nested, Close, Open, StepString, SetExpecting, Opened;
    var r := Step(s, b);
    match s.mode {
      case Value =>
        OpenNests(s, Object(true), StartObject);
        OpenNests(s, Array, StartArray);
        CloseNests(s, b);
        if r.tokens == [] {
          if Space(b) || !(b == 0x7B || b == 0x5B || b == 0x7D || b == 0x5D) {
            NestedSilent(s, r);
          }
        }
      case InString => StringNests(s, b);
      case InNumber => TokenNests(s, b);
      case InLiteral => TokenNests(s, b);
      case AfterValue =>
        CloseNests(s, b);
        KindsSetExpecting(s.stack, true);
        if Space(b) || !(b == 0x7D || b == 0x5D) {
          NestedSilent(s, r);
        }
      case _ => NestedSilent(s, r);
    }
  }

  lemma TokenNests(s: Scan, b: byte)
    requires |s.stack| <= MAX_DEPTH && (s.mode.InNumber? || s.mode.InLiteral?)
    ensures Nested(s.stack, Step(s, b))
  {
    var r := Step(s, b);
    if r.tokens == [] {
      NestedSilent(s, r);
    } else {
      NestedOne(s, r, r.tokens[0]);
    }
  }

  lemma NestedThen(from: seq<Container>, first: Scanned, second: Scanned)
    requires Nested(from, first) && first.next.Ok? && Nested(first.next.value.stack, second)
    ensures Nested(from, Prepend(first.tokens, second))
  {
    UnmatchedAppend(Kinds(from), first.tokens, second.tokens, MAX_DEPTH);
  }

  lemma EatNests(s: Scan, b: byte)
    requires |s.stack| <= MAX_DEPTH
    ensures Nested(s.stack, Eat(s, b))
  {
    hide Step, Unmatched, Kinds;
    StepNests(s, b);
    var first := Step(s, b);
    if first.next.Ok? && Rereads(s, b) {
      StepNests(first.next.value, b);
      NestedThen(s.stack, first, Step(first.next.value, b));
    }
  }

  /** Whatever the bytes, the scanner's stack is what the emitted tokens leave open. */
  lemma {:induction false} RunNests(s: Scan, bytes: seq<byte>)
    requires |s.stack| <= MAX_DEPTH
    ensures Nested(s.stack, Run(s, bytes))
    decreases |bytes|
  {
    hide Eat, Unmatched, Kinds;
    if bytes == [] {
      NestedSilent(s, Run(s, bytes));
    } else {
      EatNests(s, bytes[0]);
      var first := Eat(s, bytes[0]);
      if first.next.Ok? {
        RunNests(first.next.value, bytes[1..]);
        NestedThen(s.stack, first, Run(first.next.value, bytes[1..]));
      }
    }
  }

  lemma FinishNests(s: Scan)
    requires |s.stack| <= MAX_DEPTH
    ensures Nested(s.stack, Finished(s))
    ensures Finished(s).next.Ok? ==> Finished(s).next.value.stack == []
  {
    var r := Finished(s);
    if r.tokens == [] {
      NestedSilent(s, r);
    } else {
      UnmatchedOne(Kinds(s.stack), r.tokens[0], MAX_DEPTH);
    }
  }

  /**
   * Any document at all, in any chunks: the tokens never close what is not open and never
   * nest past the limit, and if it finishes well they are balanced.
   */
  lemma DocumentBalanced(chunks: seq<seq<byte>>)
    ensures var r := Document(Join(chunks));
            && Unmatched([], r.tokens, MAX_DEPTH).Some?
            && (r.next.Ok? ==> Unmatched([], r.tokens, MAX_DEPTH) == Some([]))
    ensures var r := RunChunks(Fresh(), chunks);
            && Unmatched([], r.tokens, MAX_DEPTH).Some?
            && (r.next.Ok? ==> Unmatched([], r.tokens, MAX_DEPTH) == Some(Kinds(r.next.value.stack)))
  {
    hide Run, Unmatched;
    var s := Fresh();
    ChunksDoNotMatter(s, chunks);
    var r := Run(s, Join(chunks));
    RunNests(s, Join(chunks));
    assert Kinds(s.stack) == [];
    if r.next.Ok? {
      FinishNests(r.next.value);
      NestedThen(s.stack, r, Finished(r.next.value));
    }
  }
}
