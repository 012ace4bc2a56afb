/** From bytes to netmap: the scanner under the parser, and whole responses. */
module NetmapStream {
  import opened Common
  import opened Json
  import opened Netmap
  import NetmapDeltas
  import NetmapFold
  import NetmapReading
  import opened Scanner
  import opened ScannerBalance
  import opened JsonSpelling
  import JsonReading

  // The two stacks

  lemma TokenMirrors(env: Env, w: World, open: seq<Bracket>, t: Token)
    requires |w.stack| == |open| && Opened(open, t).Some? && |Opened(open, t).value| <= env.slots
    ensures |OnToken(env, w, t).stack| == |Opened(open, t).value|
  {
    hide OnString, OnNumber, OnBool, Began, Ended, Child;
  }

  /** The context stack is as deep as the starts not yet met by an end. */
  lemma {:induction false} StacksMirror(env: Env, w: World, open: seq<Bracket>, tokens: seq<Token>, limit: nat)
    requires |w.stack| == |open| && Unmatched(open, tokens, limit).Some? && limit <= env.slots
    ensures |OnTokens(env, w, tokens).stack| == |Unmatched(open, tokens, limit).value|
    decreases |tokens|
  {
    hide OnToken, Opened;
    if tokens != [] {
      var next := Opened(open, tokens[0]);
      assert |next.value| <= limit;
      TokenMirrors(env, w, open, tokens[0]);
      StacksMirror(env, OnToken(env, w, tokens[0]), next.value, tokens[1..], limit);
    }
  }

  lemma TokenFits(env: Env, more: nat, w: World, open: seq<Bracket>, t: Token)
    requires |w.stack| == |open| && Opened(open, t).Some? && |Opened(open, t).value| <= env.slots <= more
    ensures OnToken(env.(slots := more), w, t) == OnToken(env, w, t)
  {
    hide Began, Ended, Child, TakeOwnKey, NameOf, Find;
  }

  /** A context stack with more slots would do the same: a push never fails. */
  lemma {:induction false} SlotsSuffice(env: Env, more: nat, w: World, open: seq<Bracket>, tokens: seq<Token>,
      limit: nat)
    requires |w.stack| == |open| && Unmatched(open, tokens, limit).Some? && limit <= env.slots <= more
    ensures OnTokens(env.(slots := more), w, tokens) == OnTokens(env, w, tokens)
    decreases |tokens|
  {
    hide OnToken, Opened;
    if tokens != [] {
      var next := Opened(open, tokens[0]);
      assert |next.value| <= limit;
      TokenFits(env, more, w, open, tokens[0]);
      TokenMirrors(env, w, open, tokens[0]);
      SlotsSuffice(env, more, OnToken(env, w, tokens[0]), next.value, tokens[1..], limit);
    }
  }

  /** Whatever the bytes and wherever they are cut, both stacks are equally deep and sixteen slots are enough. */
  lemma AnyInputFits(env: Env, net: Net, chunks: seq<seq<byte>>, more: nat)
    requires env.slots == MAX_DEPTH && more >= MAX_DEPTH
    ensures var r := RunChunks(Fresh(), chunks);
            && OnTokens(env.(slots := more), Start(net), r.tokens) == OnTokens(env, Start(net), r.tokens)
            && (r.next.Ok? ==> |OnTokens(env, Start(net), r.tokens).stack| == |r.next.value.stack|)
  {
    hide OnTokens, RunChunks, Unmatched, Document;
    DocumentBalanced(chunks);
    var r := RunChunks(Fresh(), chunks);
    SlotsSuffice(env, more, Start(net), [], r.tokens, MAX_DEPTH);
    StacksMirror(env, Start(net), [], r.tokens, MAX_DEPTH);
  }

  // One response

  /** A response's bytes: the netmap they leave, or the error they end in. */
  function Respond(env: Env, net: Net, body: seq<byte>): Result<Net, Error> {
    var r := Document(body);
    if r.next.Err? then Err(r.next.error) else Outcome(OnTokens(env, Start(net), r.tokens))
  }

  function Outcome(w: World): Result<Net, Error> {
    if w.work.failed.Some? then Err(w.work.failed.value) else Ok(w.work.net)
  }

  /** A text the server may send: any spelling of a tree within the scanner's bounds. */
  predicate Sendable(x: Item) {
    ItemFits(x) && Depth(ItemMeaning(x)) <= MAX_DEPTH
  }

  /** Bytes that spell a tree do what its tokens do. */
  lemma TextResponds(env: Env, net: Net, x: Item)
    requires Sendable(x)
    ensures Respond(env, net, WriteItem(x)) == Outcome(OnTokens(env, Start(net), Tokens(ItemMeaning(x))))
  {
    hide WriteItem, OnTokens, Tokens, RunChunks, Run, ItemMeaning, ItemFits;
    var chunks := [WriteItem(x)];
    assert Join(chunks) == WriteItem(x) by {
      assert chunks[1..] == [];
      assert WriteItem(x) + [] == WriteItem(x);
    }
    JsonReading.SpelledIsRead(x, chunks);
    ChunksDoNotMatter(Fresh(), chunks);
  }

  // Streams of responses

  /** Responses one after another; an empty one is a keepalive, the first error ends the stream. */
  function Serve(env: Env, net: Net, bodies: seq<seq<byte>>): Result<Net, Error> {
    if bodies == [] then Ok(net)
    else
      var before, body := Serve(env, net, bodies[..|bodies| - 1]), bodies[|bodies| - 1];
      if before.Err? || body == [] then before else Respond(env, before.value, body)
  }

  predicate AllSendable(texts: seq<Option<Item>>) {
    forall i :: 0 <= i < |texts| ==> Sends(texts[i])
  }

  predicate Sends(x: Option<Item>) {
    x.Some? ==> Sendable(x.value)
  }

  function BodyOf(x: Option<Item>): seq<byte>
    requires Sends(x)
  {
    if x.None? then [] else WriteItem(x.value)
  }

  /** The bodies of a stream: texts, and the empty ones that keep the connection alive. */
  function Bodies(texts: seq<Option<Item>>): seq<seq<byte>>
    requires AllSendable(texts)
  {
    seq(|texts|, i requires 0 <= i < |texts| => BodyOf(texts[i]))
  }

  /** The trees they spell. */
  function Trees(texts: seq<Option<Item>>): seq<Json>
    requires AllSendable(texts)
  {
    if texts == [] then []
    else
      var n := |texts| - 1;
      assert Sends(texts[n]);
      Trees(texts[..n]) + if texts[n].None? then [] else [ItemMeaning(texts[n].value)]
  }

  lemma {:induction false} TreesAreShallow(texts: seq<Option<Item>>)
    requires AllSendable(texts)
    ensures forall i :: 0 <= i < |Trees(texts)| ==> Depth(Trees(texts)[i]) <= MAX_DEPTH
  {
    hide ItemMeaning, ItemFits;
    if texts != [] {
      TreesAreShallow(texts[..|texts| - 1]);
      assert Sends(texts[|texts| - 1]);
    }
  }

  /** Serving texts is reading the tokens of their trees one tree after another. */
  lemma {:induction false} ServedFolds(env: Env, net: Net, texts: seq<Option<Item>>)
    requires AllSendable(texts)
    ensures var served, docs := Serve(env, net, Bodies(texts)), Trees(texts);
            && (served.Ok? <==> NetmapFold.AllOk(env, net, docs))
            && (served.Ok? ==> served.value == NetmapFold.Streamed(env, net, docs))
    decreases |texts|
  {
    hide WriteItem, OnTokens, Tokens, Respond, ItemMeaning, ItemFits;
    if texts != [] {
      var n := |texts| - 1;
      ServedFolds(env, net, texts[..n]);
      assert Bodies(texts)[..n] == Bodies(texts[..n]);
      var docs := Trees(texts[..n]);
      if texts[n].None? {
        assert docs + [] == docs;
      } else {
        var x := texts[n].value;
        assert Sends(texts[n]);
        TextSome(x);
        assert (docs + [ItemMeaning(x)])[..|docs|] == docs;
        if Serve(env, net, Bodies(texts[..n])).Ok? {
          TextResponds(env, Serve(env, net, Bodies(texts[..n])).value, x);
        }
      }
    }
  }

  lemma TextSome(x: Item)
    requires ItemFits(x)
    ensures WriteItem(x) != []
  {
    JsonReading.WriteSome(x.value);
  }

  /**
   From bytes, for a client that starts with nothing: a stream of texts, however they spell
   their trees and with keepalives anywhere between, is served without an error exactly when
   every delta the trees spell out goes through in turn, and the netmap then holds what folding
   those deltas leaves.
   */
  lemma ServedStream(env: Env, texts: seq<Option<Item>>)
    requires env.slots == MAX_DEPTH
    requires AllSendable(texts)
    ensures var l, ds := NetmapDeltas.NoLedger(), NetmapReading.AllDeltas(env, Trees(texts));
            var served := Serve(env, NoNet(), Bodies(texts));
            && (served.Ok? <==> NetmapDeltas.AllAccepted(env.capacity, l, ds))
            && (served.Ok? ==> NetmapFold.Holding(served.value, NetmapDeltas.ApplyAll(l, ds)))
  {
    assert NetmapFold.Holding(NoNet(), NetmapDeltas.NoLedger());
    hide Serve, NetmapFold.Streamed, NetmapFold.AllOk, NetmapReading.AllDeltas, NetmapDeltas.ApplyAll;
    hide NetmapDeltas.AllAccepted, NetmapFold.Holding, Trees, Bodies, Sendable;
    ServedFolds(env, NoNet(), texts);
    TreesAreShallow(texts);
    NetmapFold.StreamFolds(env, NoNet(), NetmapDeltas.NoLedger(), Trees(texts));
  }

  lemma {:induction false} ServeSticks(env: Env, net: Net, bodies: seq<seq<byte>>, n: nat)
    requires n <= |bodies| && Serve(env, net, bodies[..n]).Err?
    ensures Serve(env, net, bodies).Err?
    decreases |bodies|
  {
    if n < |bodies| {
      assert bodies[..|bodies| - 1][..n] == bodies[..n];
      ServeSticks(env, net, bodies[..|bodies| - 1], n);
    } else {
      assert bodies[..n] == bodies;
    }
  }
}
