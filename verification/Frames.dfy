/** Splitting the map stream into responses: a little-endian length, then that many bytes. */
module Frames {
  import opened Common

  const HEADER_LEN := 4

  type Body = b: seq<byte> | |b| < 0x1_0000_0000

  /** The four bytes of a length, low byte first. */
  function LittleEndian(n: u32): (s: seq<byte>)
    ensures |s| == HEADER_LEN
  {
    [n % 0x100, n / 0x100 % 0x100, n / 0x1_0000 % 0x100, n / 0x100_0000]
  }

  function FromLittleEndian(s: seq<byte>): (n: u32)
    requires |s| == HEADER_LEN
  {
    s[0] as int + s[1] as int * 0x100 + s[2] as int * 0x1_0000 + s[3] as int * 0x100_0000
  }

  /** What the server sends for a list of responses. */
  function Wire(bodies: seq<Body>): seq<byte> {
    if bodies == [] then [] else LittleEndian(|bodies[0]|) + bodies[0] + Wire(bodies[1..])
  }

  datatype Chunk = Piece(bytes: seq<byte>) | End | Need

  /** Where the reader stands: part of a length prefix, or bytes of a body still to come. */
  datatype View = Prefix(bytes: seq<byte>) | Within(left: nat)

  predicate Sound(v: View, current: seq<byte>) {
    match v
    case Prefix(bytes) => |bytes| < HEADER_LEN && current == []
    case Within(left) => left + |current| < 0x1_0000_0000
  }

  /** Bytes taken from the stream that no delivered body accounts for yet. */
  function Unfinished(v: View, current: seq<byte>): seq<byte>
    requires Sound(v, current)
  {
    match v
    case Prefix(bytes) => bytes
    case Within(left) => LittleEndian(left + |current|) + current
  }

  class FrameReader {
    const header: array<byte>
    var headerFilled: nat
    var remaining: Option<nat>

    ghost predicate Valid()
      reads this, header
    {
      && header.Length == HEADER_LEN && headerFilled < HEADER_LEN
      && (remaining.Some? ==> headerFilled == 0 && remaining.value < 0x1_0000_0000)
    }

    ghost function Value(): View
      requires Valid()
      reads this, header
    {
      if remaining.Some? then Within(remaining.value) else Prefix(header[..headerFilled])
    }

    constructor ()
      ensures Valid() && fresh(header) && Value() == Prefix([])
    {
      header := new byte[HEADER_LEN];
      headerFilled := 0;
      remaining := None;
    }

    method TakePrefix(input: seq<byte>) returns (consumed: nat)
      requires Valid() && Value().Prefix?
      modifies this, header
      ensures Valid() && consumed <= |input|
      ensures var got := old(Value()).bytes + input[..consumed];
              Value() == if |got| == HEADER_LEN then Within(FromLittleEndian(got)) else Prefix(got)
      ensures consumed == 0 ==> input == []
    {
      ghost var before := header[..headerFilled];
      var take := Min(|input|, HEADER_LEN - headerFilled);
      forall i | 0 <= i < take {
        header[headerFilled + i] := input[i];
      }
      assert header[..headerFilled + take] == before + input[..take];
      headerFilled := headerFilled + take;
      if headerFilled == HEADER_LEN {
        assert header[..] == header[..headerFilled];
        remaining := Some(FromLittleEndian(header[..]));
        headerFilled := 0;
      }
      return take;
    }

    /** One call never spans a boundary: it reports a piece, the end, or that it needs more. */
    method Next(input: seq<byte>) returns (chunk: Chunk, consumed: nat)
      requires Valid()
      modifies this, header
      ensures Valid() && consumed <= |input|
      ensures old(Value()).Prefix? ==>
                && chunk == Need && (consumed == 0 ==> input == [])
                && var got := old(Value()).bytes + input[..consumed];
                   Value() == if |got| == HEADER_LEN then Within(FromLittleEndian(got)) else Prefix(got)
      ensures old(Value()) == Within(0) ==> chunk == End && consumed == 0 && Value() == Prefix([])
      ensures old(Value()).Within? && old(Value()).left > 0 ==>
                && consumed == Min(|input|, old(Value()).left)
                && chunk == (if input == [] then Need else Piece(input[..consumed]))
                && Value() == Within(old(Value()).left - consumed)
    {
      if remaining.None? {
        consumed := TakePrefix(input);
        return Need, consumed;
      }
      if remaining.value == 0 {
        remaining := None;
        return End, 0;
      }
      if input == [] {
        return Need, 0;
      }
      var take := Min(|input|, remaining.value);
      remaining := Some(remaining.value - take);
      return Piece(input[..take]), take;
    }

    predicate IsComplete()
      reads this
    {
      remaining == Some(0)
    }

    method FinishResponse()
      requires Valid()
      modifies this
      ensures Valid() && Value() == Prefix([])
    {
      remaining := None;
      headerFilled := 0;
    }
  }

  lemma LengthRoundTrip(n: u32)
    ensures FromLittleEndian(LittleEndian(n)) == n
  {
    assert n == n % 0x100 + 0x100 * (n / 0x100 % 0x100) + 0x1_0000 * (n / 0x1_0000);
    assert n / 0x1_0000 == n / 0x1_0000 % 0x100 + 0x100 * (n / 0x100_0000);
  }

  lemma PrefixRoundTrip(s: seq<byte>)
    requires |s| == HEADER_LEN
    ensures LittleEndian(FromLittleEndian(s)) == s
  {
    var n := FromLittleEndian(s);
    assert n == s[0] as int + 0x100 * (s[1] as int + s[2] as int * 0x100 + s[3] as int * 0x1_0000);
    assert n / 0x100 == s[1] as int + 0x100 * (s[2] as int + s[3] as int * 0x100);
    assert n / 0x1_0000 == s[2] as int + 0x100 * s[3] as int;
    assert n / 0x100_0000 == s[3] as int;
  }

  lemma {:induction false} WireAppend(bodies: seq<Body>, body: Body)
    ensures Wire(bodies + [body]) == Wire(bodies) + LittleEndian(|body|) + body
  {
    if bodies == [] {
      assert [body][1..] == [];
      assert Wire([]) == [];
    } else {
      assert (bodies + [body])[1..] == bodies[1..] + [body];
      WireAppend(bodies[1..], body);
    }
  }

  /** Nothing more can be done until bytes arrive. */
  predicate AtRest(v: View) {
    v != Within(0)
  }

  /** The books of the driver: what was delivered and what is in hand make up what was fed. */
  predicate Accounts(bodies: seq<Body>, v: View, current: seq<byte>, fed: seq<byte>) {
    Sound(v, current) && Wire(bodies) + Unfinished(v, current) == fed
  }

  lemma PrefixGrows(bodies: seq<Body>, got: seq<byte>, more: seq<byte>, fed: seq<byte>)
    requires Accounts(bodies, Prefix(got), [], fed) && |got + more| <= HEADER_LEN
    ensures var v := if |got + more| == HEADER_LEN then Within(FromLittleEndian(got + more)) else Prefix(got + more);
            Accounts(bodies, v, [], fed + more)
  {
    if |got + more| == HEADER_LEN {
      PrefixRoundTrip(got + more);
      assert LittleEndian(FromLittleEndian(got + more)) + [] == got + more;
    }
    assert Wire(bodies) + (got + more) == fed + more;
  }

  lemma BodyGrows(bodies: seq<Body>, left: nat, current: seq<byte>, more: seq<byte>, fed: seq<byte>)
    requires Accounts(bodies, Within(left), current, fed) && |more| <= left
    ensures Accounts(bodies, Within(left - |more|), current + more, fed + more)
  {
    var n := left + |current|;
    assert LittleEndian(n) + (current + more) == LittleEndian(n) + current + more;
    assert Wire(bodies) + (LittleEndian(n) + current + more) == fed + more;
  }

  lemma BodyEnds(bodies: seq<Body>, current: Body, fed: seq<byte>)
    requires Accounts(bodies, Within(0), current, fed)
    ensures Accounts(bodies + [current], Prefix([]), [], fed)
  {
    WireAppend(bodies, current);
    assert Wire(bodies + [current]) + [] == fed;
  }

  /**
   * The driver's loop over one chunk of the stream. A completed response and a zero-length
   * one are both boundaries; the loop stops when the reader takes nothing and wants more.
   */
  method Feed(reader: FrameReader, chunk: seq<byte>, bodies: seq<Body>, current: seq<byte>, ghost fed: seq<byte>)
    returns (bodies': seq<Body>, current': seq<byte>)
    requires reader.Valid() && Accounts(bodies, reader.Value(), current, fed) && AtRest(reader.Value())
    modifies reader, reader.header
    ensures reader.Valid() && AtRest(reader.Value())
    ensures Accounts(bodies', reader.Value(), current', fed + chunk)
  {
    hide Wire, LittleEndian, FromLittleEndian, Unfinished;
    bodies', current' := bodies, current;
    var input := chunk;
    ghost var taken := [];
    assert fed + taken == fed;
    var more := true;
    while more
      invariant reader.Valid() && taken + input == chunk
      invariant Sound(reader.Value(), current') && Accounts(bodies', reader.Value(), current', fed + taken)
      invariant reader.Value() == Within(0) ==> current' == []
      invariant !more ==> input == [] && AtRest(reader.Value())
      decreases more, 2 * |input| + if AtRest(reader.Value()) then 0 else 1
    {
      ghost var before := reader.Value();
      var piece, consumed := reader.Next(input);
      ghost var got := input[..consumed];
      assert fed + (taken + got) == fed + taken + got;
      match piece {
        case Piece(bytes) =>
          BodyGrows(bodies', before.left, current', bytes, fed + taken);
          current' := current' + bytes;
          if reader.IsComplete() {
            BodyEnds(bodies', current', fed + taken + got);
            reader.FinishResponse();
            bodies', current' := bodies' + [current'], [];
          }
        case End =>
          BodyEnds(bodies', current', fed + taken);
          bodies' := bodies' + [[]];
        case Need =>
          if before.Prefix? {
            PrefixGrows(bodies', before.bytes, got, fed + taken);
          }
          more := consumed != 0;
      }
      taken, input := taken + got, input[consumed..];
    }
    assert taken == chunk;
  }

  lemma Nothing()
    ensures Accounts([], Prefix([]), [], [])
  {
  }

  /** The whole stream, in whatever chunks it arrives. */
  method ReadStream(chunks: seq<seq<byte>>, ghost sent: seq<Body>) returns (bodies: seq<Body>)
    requires Join(chunks) == Wire(sent)
    ensures bodies == sent
  {
    hide Wire, LittleEndian, FromLittleEndian, Accounts;
    var reader := new FrameReader();
    bodies := [];
    var current := [];
    ghost var fed: seq<byte> := [];
    Nothing();
    assert chunks[0..] == chunks;
    for i := 0 to |chunks|
      invariant reader.Valid() && fresh(reader) && fresh(reader.header) && AtRest(reader.Value())
      invariant Accounts(bodies, reader.Value(), current, fed)
      invariant fed + Join(chunks[i..]) == Wire(sent)
    {
      bodies, current := Feed(reader, chunks[i], bodies, current, fed);
      assert chunks[i..][1..] == chunks[i + 1..];
      fed := fed + chunks[i];
    }
    assert fed == Wire(sent);
    StreamDetermines(bodies, reader.Value(), current, sent);
  }

  lemma WireUnfolds(sent: seq<Body>)
    requires Wire(sent) != []
    ensures sent != [] && Wire(sent) == LittleEndian(|sent[0]|) + sent[0] + Wire(sent[1..])
  {
    hide LittleEndian;
  }

  lemma WireParts(sent: seq<Body>)
    requires Wire(sent) != []
    ensures sent != [] && Wire(sent) == LittleEndian(|sent[0]|) + (sent[0] + Wire(sent[1..]))
  {
    WireUnfolds(sent);
    hide LittleEndian, Wire;
    var length, rest := LittleEndian(|sent[0]|), Wire(sent[1..]);
    assert length + sent[0] + rest == length + (sent[0] + rest);
  }

  /** Two length-prefixed readings of the same bytes give the same length and the same rest. */
  lemma SameHead(n: u32, m: u32, s: seq<byte>, t: seq<byte>)
    requires LittleEndian(n) + s == LittleEndian(m) + t
    ensures n == m && s == t
  {
    hide LittleEndian;
    var all := LittleEndian(n) + s;
    assert all[..HEADER_LEN] == LittleEndian(n) && all[HEADER_LEN..] == s;
    assert all[..HEADER_LEN] == LittleEndian(m) && all[HEADER_LEN..] == t;
    LengthRoundTrip(n);
    LengthRoundTrip(m);
  }

  lemma SameBody(a: seq<byte>, b: seq<byte>, s: seq<byte>, t: seq<byte>)
    requires a + s == b + t && |a| == |b|
    ensures a == b && s == t
  {
    assert a == (a + s)[..|a|] && b == (b + t)[..|b|];
    assert s == (a + s)[|a|..] && t == (b + t)[|b|..];
  }

  /** What rests between boundaries of a whole stream is nothing. */
  lemma NothingRests(v: View, current: seq<byte>, sent: seq<Body>)
    requires AtRest(v) && Sound(v, current) && Unfinished(v, current) == Wire(sent)
    ensures sent == [] && v == Prefix([]) && current == []
  {
    hide Wire, LittleEndian;
    if sent != [] {
      assert Wire(sent) != [] by {
        WireHasHeader(sent);
      }
      WireParts(sent);
      if v.Within? {
        SameHead(v.left + |current|, |sent[0]|, current, sent[0] + Wire(sent[1..]));
      }
    } else {
      assert Wire(sent) == [] by {
        WireEmpty();
      }
    }
  }

  lemma WireEmpty()
    ensures Wire([]) == []
  {
  }

  lemma WireHasHeader(sent: seq<Body>)
    requires sent != []
    ensures |Wire(sent)| >= HEADER_LEN
  {
  }

  /** A stream has one reading. */
  lemma {:induction false} StreamDetermines(bodies: seq<Body>, v: View, current: seq<byte>, sent: seq<Body>)
    requires AtRest(v) && Accounts(bodies, v, current, Wire(sent))
    ensures bodies == sent && v == Prefix([]) && current == []
    decreases |bodies|
  {
    hide Wire, LittleEndian, Unfinished;
    var rest := Unfinished(v, current);
    if bodies == [] {
      WireEmpty();
      assert Wire(bodies) + rest == rest;
      NothingRests(v, current, sent);
    } else {
      var n, after := |bodies[0]|, Wire(bodies[1..]);
      WireHasHeader(bodies);
      WireParts(bodies);
      WireParts(sent);
      assert LittleEndian(n) + (bodies[0] + after) + rest == LittleEndian(n) + (bodies[0] + (after + rest));
      SameHead(n, |sent[0]|, bodies[0] + (after + rest), sent[0] + Wire(sent[1..]));
      SameBody(bodies[0], sent[0], after + rest, Wire(sent[1..]));
      StreamDetermines(bodies[1..], v, current, sent[1..]);
    }
  }

  /** Midway through a stream, what was delivered and what is in hand are what was sent so far. */
  lemma {:induction false} PrefixDetermines(bodies: seq<Body>, v: View, current: seq<byte>, rest: seq<byte>,
      sent: seq<Body>)
    requires Sound(v, current) && Wire(bodies) + Unfinished(v, current) + rest == Wire(sent)
    ensures |bodies| <= |sent| && bodies == sent[..|bodies|]
    ensures v.Within? ==> |bodies| < |sent| && |sent[|bodies|]| == v.left + |current| && current <= sent[|bodies|]
    decreases |bodies|
  {
    hide Wire, LittleEndian, Unfinished;
    var held := Unfinished(v, current);
    if bodies == [] {
      WireEmpty();
      assert Wire(bodies) + held == held;
      if v.Within? {
        WithinDetermines(v.left, current, rest, sent);
      }
    } else {
      var n, after := |bodies[0]|, Wire(bodies[1..]);
      WireHasHeader(bodies);
      WireParts(bodies);
      WireParts(sent);
      var tail := after + held + rest;
      assert LittleEndian(n) + (bodies[0] + after) + held + rest == LittleEndian(n) + (bodies[0] + tail);
      SameHead(n, |sent[0]|, bodies[0] + tail, sent[0] + Wire(sent[1..]));
      SameBody(bodies[0], sent[0], tail, Wire(sent[1..]));
      PrefixDetermines(bodies[1..], v, current, rest, sent[1..]);
      assert bodies == [bodies[0]] + bodies[1..] && sent == [sent[0]] + sent[1..];
    }
  }

  lemma WithinDetermines(left: nat, current: seq<byte>, rest: seq<byte>, sent: seq<Body>)
    requires Sound(Within(left), current) && Unfinished(Within(left), current) + rest == Wire(sent)
    ensures sent != [] && |sent[0]| == left + |current| && current <= sent[0]
  {
    hide Wire, LittleEndian;
    var n := left + |current|;
    assert LittleEndian(n) + current + rest == LittleEndian(n) + (current + rest);
    WireParts(sent);
    SameHead(n, |sent[0]|, current + rest, sent[0] + Wire(sent[1..]));
    assert current == (current + rest)[..|current|];
    assert sent[0][..|current|] == (sent[0] + Wire(sent[1..]))[..|current|];
  }
}
