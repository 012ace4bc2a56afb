/** The map stream from its chunks to the netmap: frame reader, scanner and parser together. */
module NetmapDriver {
  import opened Common
  import opened Netmap
  import opened NetmapObject
  import opened NetmapStream
  import Frames
  import Scanner

  /** The parser part way through a response. */
  predicate Midway(env: Env, net: Net, bodies: seq<Frames.Body>, current: seq<byte>, scan: Scanner.Scan, world: World) {
    && Serve(env, net, bodies).Ok?
    && Scanner.Run(Scanner.Fresh(), current).next == Ok(scan)
    && world == OnTokens(env, Start(Serve(env, net, bodies).value), Scanner.Run(Scanner.Fresh(), current).tokens)
  }

  lemma BeginsMidway(env: Env, net: Net, bodies: seq<Frames.Body>, now: Net)
    requires Serve(env, net, bodies) == Ok(now)
    ensures Midway(env, net, bodies, [], Scanner.Fresh(), Start(now))
  {
    Scanner.RunNothing(Scanner.Fresh());
  }

  lemma PushesOn(env: Env, net: Net, bodies: seq<Frames.Body>, current: seq<byte>, scan: Scanner.Scan, world: World,
      more: seq<byte>)
    requires Midway(env, net, bodies, current, scan, world)
    ensures var r := Scanner.Run(scan, more);
            && (r.next.Ok? ==> Midway(env, net, bodies, current + more, r.next.value, OnTokens(env, world, r.tokens)))
            && (r.next.Err? ==> Scanner.Run(Scanner.Fresh(), current + more).next.Err?)
  {
    hide Scanner.Run, OnTokens, Serve;
    Scanner.RunAppend(Scanner.Fresh(), current, more);
    var before := Scanner.Run(Scanner.Fresh(), current).tokens;
    OnTokensAppend(env, Start(Serve(env, net, bodies).value), before, Scanner.Run(scan, more).tokens);
  }

  /** A response that ends here is served or refused as a whole. */
  lemma EndsResponse(env: Env, net: Net, bodies: seq<Frames.Body>, current: Frames.Body, scan: Scanner.Scan,
      world: World)
    requires Midway(env, net, bodies, current, scan, world) && current != []
    ensures var f := Scanner.Finished(scan);
            Serve(env, net, bodies + [current]) ==
              if f.next.Err? then Err(f.next.error) else Outcome(OnTokens(env, world, f.tokens))
  {
    hide Scanner.Run, OnTokens, Scanner.Finished;
    var before := Scanner.Run(Scanner.Fresh(), current).tokens;
    assert (bodies + [current])[..|bodies|] == bodies;
    OnTokensAppend(env, Start(Serve(env, net, bodies).value), before, Scanner.Finished(scan).tokens);
  }

  /** A body whose beginning cannot be scanned is refused, and so is the stream. */
  lemma BadBeginning(env: Env, net: Net, bodies: seq<Frames.Body>, current: seq<byte>, sent: seq<Frames.Body>)
    requires |bodies| < |sent| && bodies == sent[..|bodies|] && current <= sent[|bodies|]
    requires Serve(env, net, bodies).Ok? && Scanner.Run(Scanner.Fresh(), current).next.Err?
    ensures Serve(env, net, sent).Err?
  {
    hide Scanner.Run, OnTokens;
    var body := sent[|bodies|];
    assert body == current + body[|current|..];
    Scanner.RunAppend(Scanner.Fresh(), current, body[|current|..]);
    if body == [] {
      Scanner.RunNothing(Scanner.Fresh());
    }
    var through := sent[..|bodies| + 1];
    assert through[..|bodies|] == bodies;
    assert Serve(env, net, through).Err?;
    ServeSticks(env, net, sent, |bodies| + 1);
  }

  lemma KeepaliveServes(env: Env, net: Net, bodies: seq<Frames.Body>)
    ensures Serve(env, net, bodies + [[]]) == Serve(env, net, bodies)
  {
    assert (bodies + [[]])[..|bodies|] == bodies;
  }

  /** Where the stream stands: the frame reader's books, and the parser's. */
  ghost predicate Standing(reader: Frames.FrameReader, parser: Parser, netmap: NetmapState, env: Env, net: Net,
                           bodies: seq<Frames.Body>, current: seq<byte>, fed: seq<byte>)
    reads reader, reader.header, parser, parser.scanner, netmap, netmap.table
  {
    && parser.env == env && netmap.table.capacity == env.capacity && reader.Valid()
    && Frames.Sound(reader.Value(), current) && Frames.Accounts(bodies, reader.Value(), current, fed)
    && (reader.Value() == Frames.Within(0) ==> current == [])
    && Midway(env, net, bodies, current, parser.scanner.View(), parser.View(netmap))
  }

  /** A piece of a body goes to the parser; a completed body ends its response. */
  method TakePiece(
    reader: Frames.FrameReader, parser: Parser, netmap: NetmapState, bytes: seq<byte>,
    ghost env: Env, ghost net: Net, ghost bodies: seq<Frames.Body>, ghost current: seq<byte>)
    returns (parser': Parser, error: Option<Error>, ghost bodies': seq<Frames.Body>, ghost current': seq<byte>)
    requires parser.env == env && netmap.table.capacity == env.capacity && reader.Valid() && reader.Value().Within?
    requires bytes != [] && reader.Value().left + |current + bytes| < 0x1_0000_0000
    requires Midway(env, net, bodies, current, parser.scanner.View(), parser.View(netmap))
    modifies reader, parser, parser.scanner, netmap, netmap.table
    ensures netmap.table.capacity == env.capacity && reader.Valid()
    ensures parser' == parser || (fresh(parser') && fresh(parser'.scanner))
    ensures error.Some? ==>
              || Scanner.Run(Scanner.Fresh(), current + bytes).next.Err?
              || (old(reader.Value()).left == 0 && Serve(env, net, bodies + [current + bytes]).Err?)
    ensures error.None? ==>
              parser'.env == env && Midway(env, net, bodies', current', parser'.scanner.View(), parser'.View(netmap))
    ensures error.None? && old(reader.Value()).left > 0 ==>
              bodies' == bodies && current' == current + bytes && reader.Value() == old(reader.Value())
    ensures error.None? && old(reader.Value()).left == 0 ==>
              bodies' == bodies + [current + bytes] && current' == [] && reader.Value() == Frames.Prefix([])
  {
    hide Midway, Serve, OnTokens, Scanner.Run, Scanner.Finished;
    parser', bodies', current' := parser, bodies, current + bytes;
    PushesOn(env, net, bodies, current, parser.scanner.View(), parser.View(netmap), bytes);
    error := parser.Push(netmap, bytes);
    if error.Some? {
      return;
    }
    if reader.IsComplete() {
      reader.FinishResponse();
      EndsResponse(env, net, bodies, current', parser.scanner.View(), parser.View(netmap));
      error := parser.Finish(netmap);
      if error.Some? {
        return;
      }
      bodies', current' := bodies + [current'], [];
      BeginsMidway(env, net, bodies', netmap.View());
      parser' := new Parser(parser.env);
    }
  }

  lemma PieceAccounts(bodies: seq<Frames.Body>, left: nat, current: seq<byte>, bytes: seq<byte>, fed: seq<byte>)
    requires Frames.Accounts(bodies, Frames.Within(left), current, fed) && |bytes| <= left
    ensures |current + bytes| < 0x1_0000_0000
    ensures Frames.Accounts(bodies, Frames.Within(left - |bytes|), current + bytes, fed + bytes)
    ensures |bytes| == left ==> Frames.Accounts(bodies + [current + bytes], Frames.Prefix([]), [], fed + bytes)
  {
    hide Frames.Wire, Frames.Unfinished;
    Frames.BodyGrows(bodies, left, current, bytes, fed);
    if |bytes| == left {
      Frames.BodyEnds(bodies, current + bytes, fed + bytes);
    }
  }

  /** An error met in a piece is an error of the stream that was sent. */
  lemma PieceFails(env: Env, net: Net, bodies: seq<Frames.Body>, current: seq<byte>, left: nat, fed: seq<byte>,
      rest: seq<byte>, sent: seq<Frames.Body>)
    requires Frames.Accounts(bodies, Frames.Within(left), current, fed) && fed + rest == Frames.Wire(sent)
    requires Serve(env, net, bodies).Ok?
    requires || Scanner.Run(Scanner.Fresh(), current).next.Err?
             || (left == 0 && |current| < 0x1_0000_0000 && Serve(env, net, bodies + [current]).Err?)
    ensures Serve(env, net, sent).Err?
  {
    hide Frames.Wire, Frames.Unfinished, Serve, Scanner.Run;
    Frames.PrefixDetermines(bodies, Frames.Within(left), current, rest, sent);
    if Scanner.Run(Scanner.Fresh(), current).next.Err? {
      BadBeginning(env, net, bodies, current, sent);
    } else {
      assert current == sent[|bodies|];
      assert sent[..|bodies| + 1] == bodies + [current];
      ServeSticks(env, net, sent, |bodies| + 1);
    }
  }

  /** One turn of the driver's loop. */
  method Turn(
    reader: Frames.FrameReader, parser: Parser, netmap: NetmapState, input: seq<byte>,
    ghost env: Env, ghost net: Net, ghost bodies: seq<Frames.Body>, ghost current: seq<byte>,
    ghost fed: seq<byte>, ghost rest: seq<byte>, ghost sent: seq<Frames.Body>)
    returns (
      parser': Parser, consumed: nat, more: bool, error: Option<Error>,
      ghost bodies': seq<Frames.Body>, ghost current': seq<byte>)
    requires Standing(reader, parser, netmap, env, net, bodies, current, fed)
    requires fed + input + rest == Frames.Wire(sent)
    modifies reader, reader.header, parser, parser.scanner, netmap, netmap.table
    ensures consumed <= |input| && reader.Valid()
    ensures parser' == parser || (fresh(parser') && fresh(parser'.scanner))
    ensures error.Some? ==> Serve(env, net, sent).Err?
    ensures error.None? ==> Standing(reader, parser', netmap, env, net, bodies', current', fed + input[..consumed])
    ensures error.None? && !more ==> input == [] && Frames.AtRest(reader.Value())
    ensures error.None? && more && consumed == 0 ==>
              old(reader.Value()) == Frames.Within(0) && Frames.AtRest(reader.Value())
  {
    hide Midway, Serve, Scanner.Run, Frames.Wire, Frames.Unfinished, Frames.Accounts, Frames.FromLittleEndian;
    ghost var before := reader.Value();
    parser', more, error, bodies', current' := parser, true, None, bodies, current;
    var piece;
    piece, consumed := reader.Next(input);
    ghost var got := input[..consumed];
    assert input == got + input[consumed..];
    assert fed + got + (input[consumed..] + rest) == fed + input + rest;
    match piece {
      case Piece(bytes) =>
        PieceAccounts(bodies, before.left, current, bytes, fed);
        parser', error, bodies', current' := TakePiece(reader, parser, netmap, bytes, env, net, bodies, current);
        if error.Some? {
          MidwayOk(env, net, bodies, current);
          PieceFails(env, net, bodies, current + bytes, before.left - |bytes|, fed + got, input[consumed..] + rest,
              sent);
        }
      case End =>
        Frames.BodyEnds(bodies, current, fed);
        bodies' := bodies + [[]];
        KeepaliveMidway(env, net, bodies, current, parser.scanner.View(), parser.View(netmap));
        assert fed + got == fed;
      case Need =>
        if before.Prefix? {
          Frames.PrefixGrows(bodies, before.bytes, got, fed);
        }
        more := consumed != 0;
        assert consumed == 0 ==> fed + got == fed;
    }
  }

  lemma MidwayOk(env: Env, net: Net, bodies: seq<Frames.Body>, current: seq<byte>)
    requires exists scan, world :: Midway(env, net, bodies, current, scan, world)
    ensures Serve(env, net, bodies).Ok?
  {
  }

  lemma KeepaliveMidway(env: Env, net: Net, bodies: seq<Frames.Body>, current: seq<byte>, scan: Scanner.Scan,
      world: World)
    requires Midway(env, net, bodies, current, scan, world)
    ensures Midway(env, net, bodies + [[]], current, scan, world)
  {
    hide Serve, Scanner.Run, OnTokens;
    KeepaliveServes(env, net, bodies);
  }

  /** One chunk of the stream, until the reader takes nothing and wants more. */
  method TakeChunk(
    reader: Frames.FrameReader, parser: Parser, netmap: NetmapState, chunk: seq<byte>,
    ghost env: Env, ghost net: Net, ghost bodies: seq<Frames.Body>, ghost current: seq<byte>,
    ghost fed: seq<byte>, ghost rest: seq<byte>, ghost sent: seq<Frames.Body>)
    returns (parser': Parser, error: Option<Error>, ghost bodies': seq<Frames.Body>, ghost current': seq<byte>)
    requires Standing(reader, parser, netmap, env, net, bodies, current, fed)
    requires fed + chunk + rest == Frames.Wire(sent)
    modifies reader, reader.header, parser, parser.scanner, netmap, netmap.table
    ensures parser' == parser || (fresh(parser') && fresh(parser'.scanner))
    ensures error.Some? ==> Serve(env, net, sent).Err?
    ensures error.None? ==>
              Standing(reader, parser', netmap, env, net, bodies', current',
                  fed + chunk) && Frames.AtRest(reader.Value())
  {
    hide Standing, Serve, Frames.Wire;
    parser', error, bodies', current' := parser, None, bodies, current;
    var input, more := chunk, true;
    ghost var taken := [];
    assert fed + taken == fed;
    StandingValid(reader, parser, netmap, env, net, bodies, current, fed);
    while more
      invariant reader.Valid() && taken + input == chunk && error.None?
      invariant parser' == parser || (fresh(parser') && fresh(parser'.scanner))
      invariant Standing(reader, parser', netmap, env, net, bodies', current', fed + taken)
      invariant !more ==> input == [] && Frames.AtRest(reader.Value())
      decreases more, 2 * |input| + if Frames.AtRest(reader.Value()) then 0 else 1
    {
      var consumed;
      assert fed + taken + input + rest == Frames.Wire(sent) by {
        assert fed + (taken + input) == fed + taken + input;
      }
      parser', consumed, more, error, bodies', current' :=
        Turn(reader, parser', netmap, input, env, net, bodies', current', fed + taken, rest, sent);
      if error.Some? {
        return;
      }
      assert fed + taken + input[..consumed] == fed + (taken + input[..consumed]);
      taken, input := taken + input[..consumed], input[consumed..];
    }
    assert taken == chunk;
  }

  lemma StandingValid(reader: Frames.FrameReader, parser: Parser, netmap: NetmapState, env: Env, net: Net,
                      bodies: seq<Frames.Body>, current: seq<byte>, fed: seq<byte>)
    requires Standing(reader, parser, netmap, env, net, bodies, current, fed)
    ensures reader.Valid()
  {
  }

  /**
   * The whole stream: however the wire is cut, the netmap ends as serving the responses one
   * by one leaves it, and an error is reported only when one of them is in error.
   */
  method ReadMap(netmap: NetmapState, env: Env, chunks: seq<seq<byte>>,
      ghost sent: seq<Frames.Body>) returns (error: Option<Error>)
    requires Join(chunks) == Frames.Wire(sent) && netmap.table.capacity == env.capacity
    modifies netmap, netmap.table
    ensures error.None? <==> Serve(env, old(netmap.View()), sent).Ok?
    ensures error.None? ==> Serve(env, old(netmap.View()), sent) == Ok(netmap.View())
  {
    hide Serve, Frames.Wire, Standing;
    ghost var net := netmap.View();
    var reader := new Frames.FrameReader();
    var parser := new Parser(env);
    ghost var bodies: seq<Frames.Body>, current: seq<byte>, fed: seq<byte> := [], [], [];
    Begins(reader, parser, netmap, env, net);
    assert chunks[0..] == chunks;
    for i := 0 to |chunks|
      invariant fresh(reader) && fresh(reader.header) && fresh(parser) && fresh(parser.scanner)
      invariant Standing(reader, parser, netmap, env, net, bodies, current, fed)
      invariant reader.Valid() && Frames.AtRest(reader.Value())
      invariant fed + Join(chunks[i..]) == Frames.Wire(sent)
    {
      ghost var rest := Join(chunks[i + 1..]);
      assert chunks[i..][1..] == chunks[i + 1..];
      assert fed + (chunks[i] + rest) == fed + chunks[i] + rest;
      parser, error, bodies, current := TakeChunk(reader, parser, netmap, chunks[i], env, net, bodies, current, fed,
          rest, sent);
      if error.Some? {
        return;
      }
      fed := fed + chunks[i];
      StandingValid(reader, parser, netmap, env, net, bodies, current, fed);
    }
    assert chunks[|chunks|..] == [];
    assert fed == Frames.Wire(sent);
    Ends(reader, parser, netmap, env, net, bodies, current, sent);
    error := None;
  }

  lemma Begins(reader: Frames.FrameReader, parser: Parser, netmap: NetmapState, env: Env, net: Net)
    requires reader.Valid() && reader.Value() == Frames.Prefix([])
    requires parser.env == env && netmap.table.capacity == env.capacity
    requires parser.scanner.View() == Scanner.Fresh() && parser.View(netmap) == Start(net)
    ensures Standing(reader, parser, netmap, env, net, [], [], [])
  {
    Frames.Nothing();
    BeginsMidway(env, net, [], net);
  }

  lemma Ends(reader: Frames.FrameReader, parser: Parser, netmap: NetmapState, env: Env, net: Net,
             bodies: seq<Frames.Body>, current: seq<byte>, sent: seq<Frames.Body>)
    requires Standing(reader, parser, netmap, env, net, bodies, current,
        Frames.Wire(sent)) && Frames.AtRest(reader.Value())
    ensures Serve(env, net, sent) == Ok(netmap.View())
  {
    hide Frames.Wire, Serve;
    Frames.StreamDetermines(bodies, reader.Value(), current, sent);
    Scanner.RunNothing(Scanner.Fresh());
  }
}
