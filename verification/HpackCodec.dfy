/**
 Header blocks: `Decoder::decode` (crates/micro-h2/src/hpack/decode.rs) beside a
 decoder read off sections 3.1, 5.2 and 6 of RFC 7541, and `encode_header`
 (encode.rs), whose output the decoder undoes.
 */
module HpackCodec {
  import opened Common
  import opened HpackTable
  import opened HpackInteger
  import Utf8

  const MAX_STRING := 512

  /** The two constants of the standard: its static table and its Huffman code. */
  datatype Standard = Standard(known: seq<Field>, huffman: Text -> Option<Text>)

  predicate Proper(c: Standard) {
    |c.known| == STATIC_LEN
  }

  lemma Regroup<T>(a: seq<T>, b: seq<T>, c: seq<T>)
    ensures a + b + c == a + (b + c)
  {
  }

  // ---------------------------------------------------------------------
  // The code.

  function DecodeString(c: Standard, input: seq<byte>): (r: Result<(Text, seq<byte>), Fault>)
    ensures r.Ok? ==> |r.value.1| < |input|
  {
    if input == [] then Err(Incomplete)
    else
      var len := DecodeInt(input, 7);
      if len.Err? then Err(len.error)
      else
        var (n, rest) := len.value;
        if n > |rest| then Err(Incomplete)
        else
          var decoded := if input[0] >= 0x80 then c.huffman(rest[..n]) else Some(rest[..n]);
          if decoded.None? then Err(Hpack)
          else if !Utf8.Valid(decoded.value) then Err(Hpack)
          else if |decoded.value| > MAX_STRING then Err(BufferTooSmall)
          else Ok((decoded.value, rest[n..]))
  }

  /** One turn of the loop: the table after it, the header it reports, the input left. */
  datatype Turn = Turn(table: Table, emitted: seq<Field>, rest: seq<byte>)

  function LiteralName(c: Standard, t: Table, index: u64, rest: seq<byte>): (r: Result<(Text, seq<byte>), Fault>)
    requires Proper(c)
    ensures r.Ok? ==> |r.value.1| <= |rest|
  {
    if index == 0 then DecodeString(c, rest)
    else
      var known := Lookup(c.known, t.entries, index);
      if known.None? then Err(Hpack)
      else if |known.value.name| > MAX_STRING then Err(BufferTooSmall)
      else Ok((known.value.name, rest))
  }

  function DecodeOne(c: Standard, t: Table, input: seq<byte>): (r: Result<Turn, Fault>)
    requires input != [] && Proper(c)
    ensures r.Ok? ==> |r.value.rest| < |input|
  {
    var first := input[0];
    if first >= 0x80 then
      var index := DecodeInt(input, 7);
      if index.Err? then Err(index.error)
      else
        var f := Lookup(c.known, t.entries, index.value.0);
        if f.None? then Err(Hpack) else Ok(Turn(t, [f.value], index.value.1))
    else if 0x20 <= first < 0x40 then
      var size := DecodeInt(input, 5);
      if size.Err? then Err(size.error) else Ok(Turn(Resize(t, size.value.0), [], size.value.1))
    else
      var indexing := first >= 0x40;
      var index := DecodeInt(input, if indexing then 6 else 4);
      if index.Err? then Err(index.error)
      else
        var name := LiteralName(c, t, index.value.0, index.value.1);
        if name.Err? then Err(name.error)
        else
          var value := DecodeString(c, name.value.1);
          if value.Err? then Err(value.error)
          else
            var f := Field(name.value.0, value.value.0);
            Ok(Turn(if indexing then Insert(t, f) else t, [f], value.value.1))
  }

  /** What decoding a block leaves: the table, the headers reported, and the fault if it stopped short. */
  datatype Outcome = Outcome(table: Table, headers: seq<Field>, fault: Option<Fault>)

  function DecodeBlock(c: Standard, t: Table, input: seq<byte>): (r: Outcome)
    requires Proper(c)
    decreases |input|
  {
    if input == [] then Outcome(t, [], None)
    else
      var turn := DecodeOne(c, t, input);
      if turn.Err? then Outcome(t, [], Some(turn.error))
      else
        var rest := DecodeBlock(c, turn.value.table, turn.value.rest);
        Outcome(rest.table, turn.value.emitted + rest.headers, rest.fault)
  }

  class Decoder {
    const table: DynamicTable

    ghost predicate Valid()
      reads this, table
    {
      table.Valid()
    }

    constructor (capacity: nat)
      ensures Valid() && fresh(table) && table.View() == Table([], capacity)
    {
      table := new DynamicTable(capacity);
    }

    /** The body of the loop: one representation off the front of `left`. */
    method DecodeTurn(c: Standard, left: seq<byte>) returns (emitted: seq<Field>, rest: seq<byte>, fault: Option<Fault>)
      requires Valid() && Proper(c) && left != []
      modifies table
      ensures Valid()
      ensures fault.None? ==> DecodeOne(c, old(table.View()), left) == Ok(Turn(table.View(), emitted, rest))
      ensures fault.Some? ==> DecodeOne(c, old(table.View()), left) == Err(fault.value)
                              && table.View() == old(table.View())
    {
      emitted, rest, fault := [], [], None;
      var first := left[0];
      if first >= 0x80 {
        var index := DecodeInteger(left, 7);
        if index.Err? {
          return [], [], Some(index.error);
        }
        var f := Lookup(c.known, table.entries, index.value.0);
        if f.None? {
          return [], [], Some(Hpack);
        }
        return [f.value], index.value.1, None;
      }
      if 0x20 <= first < 0x40 {
        var size := DecodeInteger(left, 5);
        if size.Err? {
          return [], [], Some(size.error);
        }
        table.SetCapacity(size.value.0);
        return [], size.value.1, None;
      }
      var indexing := first >= 0x40;
      var index := DecodeInteger(left, if indexing then 6 else 4);
      if index.Err? {
        return [], [], Some(index.error);
      }
      var name := LiteralName(c, table.View(), index.value.0, index.value.1);
      if name.Err? {
        return [], [], Some(name.error);
      }
      var value := DecodeString(c, name.value.1);
      if value.Err? {
        return [], [], Some(value.error);
      }
      var f := Field(name.value.0, value.value.0);
      if indexing {
        table.InsertField(f);
      }
      return [f], value.value.1, None;
    }

    /** `decode`: the loop over `input`, reporting headers as they are found. */
    method Decode(c: Standard, input: seq<byte>) returns (headers: seq<Field>, fault: Option<Fault>)
      requires Valid() && Proper(c)
      modifies table
      ensures Valid()
      ensures Outcome(table.View(), headers, fault) == DecodeBlock(c, old(table.View()), input)
    {
      headers, fault := [], None;
      var left := input;
      ghost var want := DecodeBlock(c, table.View(), input);
      while left != []
        invariant Valid()
        invariant var rest := DecodeBlock(c, table.View(), left);
                  want == Outcome(rest.table, headers + rest.headers, rest.fault)
        decreases |left|
      {
        var emitted, rest, stop := DecodeTurn(c, left);
        if stop.Some? {
          assert headers + [] == headers;
          return headers, stop;
        }
        Regroup(headers, emitted, DecodeBlock(c, table.View(), rest).headers);
        headers := headers + emitted;
        left := rest;
      }
      assert headers + [] == headers;
    }
  }

  // ---------------------------------------------------------------------
  // The standard: parse a representation, then act on it.

  function RfcString(c: Standard, input: seq<byte>): (r: Option<(Text, seq<byte>)>)
    ensures r.Some? ==> |r.value.1| < |input|
  {
    var len := RfcInt(input, 7);
    if len.None? || len.value.0 > |len.value.1| then None
    else
      var (n, rest) := len.value;
      var text := if input[0] >= 0x80 then c.huffman(rest[..n]) else Some(rest[..n]);
      if text.None? then None else Some((text.value, rest[n..]))
  }

  datatype Rep =
    | Indexed(index: nat)
    | SizeUpdate(size: nat)
    | Literal(indexing: bool, nameIndex: nat, name: Text, value: Text)

  /** Section 6, from the pattern of the first byte. */
  function ParseRep(c: Standard, input: seq<byte>): (r: Option<(Rep, seq<byte>)>)
    requires input != []
    ensures r.Some? ==> |r.value.1| < |input|
  {
    var first := input[0];
    var pattern := if first >= 0x80 then 7 else if first >= 0x40 then 6 else if first >= 0x20 then 5 else 4;
    var head := RfcInt(input, pattern);
    if head.None? then None
    else
      var (n, rest) := head.value;
      if pattern == 7 then Some((Indexed(n), rest))
      else if pattern == 5 then Some((SizeUpdate(n), rest))
      else
        var name := if n == 0 then RfcString(c, rest) else Some(([], rest));
        if name.None? then None
        else
          var value := RfcString(c, name.value.1);
          if value.None? then None
          else Some((Literal(pattern == 6, n, name.value.0, value.value.0), value.value.1))
  }

  /** Section 3.2: the table after a representation and the header it stands for. */
  function Interpret(c: Standard, t: Table, rep: Rep): (r: Option<(Table, seq<Field>)>)
    requires Proper(c)
  {
    match rep
    case Indexed(i) =>
      var f := Lookup(c.known, t.entries, i);
      if f.None? then None else Some((t, [f.value]))
    case SizeUpdate(n) => Some((RfcResize(t, n), []))
    case Literal(indexing, i, name, value) =>
      var known := if i == 0 then Some(Field(name, [])) else Lookup(c.known, t.entries, i);
      if known.None? then None
      else
        var f := Field(known.value.name, value);
        Some((if indexing then RfcInsert(t, f) else t, [f]))
  }

  datatype RfcOutcome = RfcOutcome(table: Table, headers: seq<Field>, ok: bool)

  function RfcBlock(c: Standard, t: Table, input: seq<byte>): (r: RfcOutcome)
    requires Proper(c)
    decreases |input|
  {
    if input == [] then RfcOutcome(t, [], true)
    else
      var parsed := ParseRep(c, input);
      if parsed.None? then RfcOutcome(t, [], false)
      else
        var done := Interpret(c, t, parsed.value.0);
        if done.None? then RfcOutcome(t, [], false)
        else
          var rest := RfcBlock(c, done.value.0, parsed.value.1);
          RfcOutcome(rest.table, done.value.1 + rest.headers, rest.ok)
  }

  // ---------------------------------------------------------------------
  // Where the two agree.

  /** The integer at the front, if there is one, fits 64 bits. */
  predicate Fits64(input: seq<byte>, prefix: nat)
    requires 1 <= prefix <= 8
  {
    RfcInt(input, prefix).Some? ==> RfcInt(input, prefix).value.0 < TWO64
  }

  /** Every integer of the representation at the front fits 64 bits. */
  predicate SmallInts(c: Standard, input: seq<byte>)
    requires input != []
  {
    var first := input[0];
    var pattern := if first >= 0x80 then 7 else if first >= 0x40 then 6 else if first >= 0x20 then 5 else 4;
    && Fits64(input, pattern)
    && ((pattern == 6 || pattern == 4) && RfcInt(input, pattern).Some? ==>
          var (n, rest) := RfcInt(input, pattern).value;
          && (n == 0 ==> Fits64(rest, 7))
          && var name := if n == 0 then RfcString(c, rest) else Some(([], rest));
             name.Some? ==> Fits64(name.value.1, 7))
  }

  /** A field that may be indexed without the tables parting company. */
  predicate Storable(t: Table, f: Field) {
    Short(f) || SizeOf(f) > t.capacity
  }

  /** A block the code reads as the standard does: its integers fit and what it
      indexes is storable at that point. */
  predicate Tame(c: Standard, t: Table, input: seq<byte>)
    requires Proper(c)
    decreases |input|
  {
    input != [] ==>
      && SmallInts(c, input)
      && (ParseRep(c, input).Some? ==>
            var (rep, rest) := ParseRep(c, input).value;
            var done := Interpret(c, t, rep);
            done.Some? ==>
              && (rep.Literal? && rep.indexing ==> Storable(t, done.value.1[0]))
              && Tame(c, done.value.0, rest))
  }

  lemma IntAgrees(input: seq<byte>, prefix: nat)
    requires 1 <= prefix <= 8 && Fits64(input, prefix) && DecodeInt(input, prefix).Ok?
    ensures RfcInt(input, prefix) == Some(DecodeInt(input, prefix).value)
  {
    DecodedIntegerIff(input, prefix);
  }

  lemma StringAgrees(c: Standard, input: seq<byte>)
    requires Fits64(input, 7) && DecodeString(c, input).Ok?
    ensures RfcString(c, input) == Some(DecodeString(c, input).value)
  {
    IntAgrees(input, 7);
  }

  /** One turn of the code does what the standard does for that representation. */
  lemma TurnAgrees(c: Standard, code: Table, rfc: Table, input: seq<byte>)
    requires Proper(c) && InStep(code, rfc) && WellFormed(code) && input != []
    requires Tame(c, rfc, input) && DecodeOne(c, code, input).Ok?
    ensures var turn := DecodeOne(c, code, input).value;
            && ParseRep(c, input).Some? && ParseRep(c, input).value.1 == turn.rest
            && var done := Interpret(c, rfc, ParseRep(c, input).value.0);
               && done.Some? && done.value.1 == turn.emitted
               && InStep(turn.table, done.value.0) && WellFormed(turn.table)
  {
    var first := input[0];
    if first >= 0x80 {
      IntAgrees(input, 7);
      LookupInStep(c.known, code, rfc, DecodeInt(input, 7).value.0);
    } else if 0x20 <= first < 0x40 {
      IntAgrees(input, 5);
      var n := DecodeInt(input, 5).value.0;
      ResizeInStep(code, rfc, n);
      assert forall i :: 0 <= i < |Resize(code, n).entries| ==> Resize(code, n).entries[i] == code.entries[i];
    } else {
      LiteralAgrees(c, code, rfc, input);
    }
  }

  lemma LiteralAgrees(c: Standard, code: Table, rfc: Table, input: seq<byte>)
    requires Proper(c) && InStep(code, rfc) && WellFormed(code) && input != []
    requires input[0] < 0x80 && !(0x20 <= input[0] < 0x40)
    requires Tame(c, rfc, input) && DecodeOne(c, code, input).Ok?
    ensures var turn := DecodeOne(c, code, input).value;
            && ParseRep(c, input).Some? && ParseRep(c, input).value.1 == turn.rest
            && var done := Interpret(c, rfc, ParseRep(c, input).value.0);
               && done.Some? && done.value.1 == turn.emitted
               && InStep(turn.table, done.value.0) && WellFormed(turn.table)
  {
    var indexing := input[0] >= 0x40;
    var prefix := if indexing then 6 else 4;
    IntAgrees(input, prefix);
    var (n, rest) := DecodeInt(input, prefix).value;
    if n == 0 {
      StringAgrees(c, rest);
    } else {
      LookupInStep(c.known, code, rfc, n);
    }
    var (name, rest') := LiteralName(c, code, n, rest).value;
    StringAgrees(c, rest');
    var f := Field(name, DecodeString(c, rest').value.0);
    var (rep, left) := ParseRep(c, input).value;
    assert Interpret(c, rfc, rep) == Some((if indexing then RfcInsert(rfc, f) else rfc, [f]));
    if indexing {
      InsertInStepIff(code, rfc, f);
      InsertWellFormed(code, f);
    }
  }

  /**
   Never a different header: on a tame block the headers the code reports are a
   prefix of the standard's, and if it reports no fault they are all of them and
   the tables are in step again.
   */
  lemma {:induction false} BlockAgrees(c: Standard, code: Table, rfc: Table, input: seq<byte>)
    requires Proper(c) && InStep(code, rfc) && WellFormed(code) && Tame(c, rfc, input)
    ensures var got, want := DecodeBlock(c, code, input), RfcBlock(c, rfc, input);
            && got.headers <= want.headers
            && (got.fault.None? ==> want.ok && got.headers == want.headers
                                    && InStep(got.table, want.table) && WellFormed(got.table))
    decreases |input|
  {
    if input != [] && DecodeOne(c, code, input).Ok? {
      TurnAgrees(c, code, rfc, input);
      var turn := DecodeOne(c, code, input).value;
      BlockAgrees(c, turn.table, Interpret(c, rfc, ParseRep(c, input).value.0).value.0, turn.rest);
    }
  }

  /** Blocks one after another, stopping at the first fault, which ends the connection. */
  function DecodeLife(c: Standard, t: Table, blocks: seq<seq<byte>>): (r: Outcome)
    requires Proper(c)
    decreases |blocks|
  {
    if blocks == [] then Outcome(t, [], None)
    else
      var one := DecodeBlock(c, t, blocks[0]);
      if one.fault.Some? then one
      else
        var rest := DecodeLife(c, one.table, blocks[1..]);
        Outcome(rest.table, one.headers + rest.headers, rest.fault)
  }

  function RfcLife(c: Standard, t: Table, blocks: seq<seq<byte>>): (r: RfcOutcome)
    requires Proper(c)
    decreases |blocks|
  {
    if blocks == [] then RfcOutcome(t, [], true)
    else
      var one := RfcBlock(c, t, blocks[0]);
      if !one.ok then one
      else
        var rest := RfcLife(c, one.table, blocks[1..]);
        RfcOutcome(rest.table, one.headers + rest.headers, rest.ok)
  }

  predicate TameLife(c: Standard, t: Table, blocks: seq<seq<byte>>)
    requires Proper(c)
    decreases |blocks|
  {
    blocks != [] ==> Tame(c, t, blocks[0]) && TameLife(c, RfcBlock(c, t, blocks[0]).table, blocks[1..])
  }

  lemma {:induction false} LifeAgreesFrom(c: Standard, code: Table, rfc: Table, blocks: seq<seq<byte>>)
    requires Proper(c) && InStep(code, rfc) && WellFormed(code) && TameLife(c, rfc, blocks)
    ensures var got, want := DecodeLife(c, code, blocks), RfcLife(c, rfc, blocks);
            && got.headers <= want.headers
            && (got.fault.None? ==> want.ok && got.headers == want.headers)
    decreases |blocks|
  {
    if blocks != [] {
      BlockAgrees(c, code, rfc, blocks[0]);
      var one := DecodeBlock(c, code, blocks[0]);
      if one.fault.None? {
        LifeAgreesFrom(c, one.table, RfcBlock(c, rfc, blocks[0]).table, blocks[1..]);
      }
    }
  }

  /** Over a decoder's whole life, from an empty table of any capacity: the
      standard's headers, or a fault after a prefix of them. */
  lemma LifeAgrees(c: Standard, capacity: nat, blocks: seq<seq<byte>>)
    requires Proper(c) && TameLife(c, Table([], capacity), blocks)
    ensures var got, want := DecodeLife(c, Table([], capacity), blocks), RfcLife(c, Table([], capacity), blocks);
            got.headers <= want.headers && (got.fault.None? ==> want.ok && got.headers == want.headers)
  {
    LifeAgreesFrom(c, Table([], capacity), Table([], capacity), blocks);
  }

  // ---------------------------------------------------------------------
  // Size updates. Sections 4.2 and 6.3 allow them only at the start of a block
  // and up to an agreed limit; the code takes any, anywhere.

  predicate Lawful(rep: Rep, limit: nat, atStart: bool) {
    rep.SizeUpdate? ==> atStart && rep.size <= limit
  }

  /** The standard with its rules on size updates: a block that breaks them is refused there. */
  function StrictBlock(c: Standard, t: Table, input: seq<byte>, limit: nat, atStart: bool): (r: RfcOutcome)
    requires Proper(c)
    decreases |input|
  {
    if input == [] then RfcOutcome(t, [], true)
    else
      var parsed := ParseRep(c, input);
      if parsed.None? || !Lawful(parsed.value.0, limit, atStart) then RfcOutcome(t, [], false)
      else
        var done := Interpret(c, t, parsed.value.0);
        if done.None? then RfcOutcome(t, [], false)
        else
          var rest := StrictBlock(c, done.value.0, parsed.value.1, limit, parsed.value.0.SizeUpdate?);
          RfcOutcome(rest.table, done.value.1 + rest.headers, rest.ok)
  }

  function StrictLife(c: Standard, t: Table, blocks: seq<seq<byte>>, limit: nat): (r: RfcOutcome)
    requires Proper(c)
    decreases |blocks|
  {
    if blocks == [] then RfcOutcome(t, [], true)
    else
      var one := StrictBlock(c, t, blocks[0], limit, true);
      if !one.ok then one
      else
        var rest := StrictLife(c, one.table, blocks[1..], limit);
        RfcOutcome(rest.table, one.headers + rest.headers, rest.ok)
  }

  /** Where the rules are kept they change nothing; where they are broken the headers so far are the same. */
  lemma {:induction false} StrictBlockIsRfc(c: Standard, t: Table, input: seq<byte>, limit: nat, atStart: bool)
    requires Proper(c)
    ensures var strict, lax := StrictBlock(c, t, input, limit, atStart), RfcBlock(c, t, input);
            strict.headers <= lax.headers && (strict.ok ==> strict == lax)
    decreases |input|
  {
    hide ParseRep, Interpret;
    if input != [] && ParseRep(c, input).Some? {
      var (rep, rest) := ParseRep(c, input).value;
      if Interpret(c, t, rep).Some? {
        StrictBlockIsRfc(c, Interpret(c, t, rep).value.0, rest, limit, rep.SizeUpdate?);
      }
    }
  }

  lemma {:induction false} StrictLifeIsRfc(c: Standard, t: Table, blocks: seq<seq<byte>>, limit: nat)
    requires Proper(c)
    ensures var strict, lax := StrictLife(c, t, blocks, limit), RfcLife(c, t, blocks);
            strict.headers <= lax.headers && (strict.ok ==> strict == lax)
    decreases |blocks|
  {
    hide StrictBlock, RfcBlock;
    if blocks != [] {
      StrictBlockIsRfc(c, t, blocks[0], limit, true);
      var one := StrictBlock(c, t, blocks[0], limit, true);
      if one.ok {
        StrictLifeIsRfc(c, one.table, blocks[1..], limit);
      } else if RfcBlock(c, t, blocks[0]).ok {
        var lax := RfcBlock(c, t, blocks[0]);
        PrefixGrows(one.headers, lax.headers, RfcLife(c, lax.table, blocks[1..]).headers);
      }
    }
  }

  lemma PrefixGrows<T>(a: seq<T>, b: seq<T>, c: seq<T>)
    requires a <= b
    ensures a <= b + c
  {
  }

  /** The static table of Appendix A with a Huffman code. */
  function Appendix(huffman: Text -> Option<Text>): (c: Standard)
    ensures Proper(c)
  {
    Standard(StaticEntries(), huffman)
  }

  /**
   With the static table of Appendix A, under any Huffman code and any limit on size
   updates: of a life the standard accepts the code reports all headers, or a fault
   after a prefix of them; of one it refuses, one of the two lists of headers is a
   prefix of the other, so at no place do they differ.
   */
  lemma StandardLife(huffman: Text -> Option<Text>, capacity: nat, limit: nat, blocks: seq<seq<byte>>)
    requires TameLife(Appendix(huffman), Table([], capacity), blocks)
    ensures var c := Appendix(huffman);
            var got := DecodeLife(c, Table([], capacity), blocks);
            var want := StrictLife(c, Table([], capacity), blocks, limit);
            && (want.ok ==> got.headers <= want.headers && (got.fault.None? ==> got.headers == want.headers))
            && (got.headers <= want.headers || want.headers <= got.headers)
  {
    hide Appendix, DecodeLife, RfcLife, StrictLife, TameLife;
    var c := Appendix(huffman);
    LifeAgrees(c, capacity, blocks);
    StrictLifeIsRfc(c, Table([], capacity), blocks, limit);
    PrefixesCompare(
      DecodeLife(c, Table([], capacity), blocks).headers,
      StrictLife(c, Table([], capacity), blocks, limit).headers,
      RfcLife(c, Table([], capacity), blocks).headers);
  }

  lemma PrefixesCompare<T>(a: seq<T>, b: seq<T>, whole: seq<T>)
    requires a <= whole && b <= whole
    ensures a <= b || b <= a
  {
  }

  // ---------------------------------------------------------------------
  // The encoder.

  /** The length of a string that is not Huffman-coded. */
  function LengthWire(n: u64): (s: seq<byte>) {
    EncodeInt(n, 7, 0)
  }

  function EncodeString(text: Text): seq<byte>
    requires |text| < TWO64
  {
    LengthWire(|text|) + text
  }

  /** Everything of a literal but its value: a name index, or zero and the name. */
  function EncodeName(known: seq<Field>, name: Text): (s: seq<byte>)
    requires |known| == STATIC_LEN && |name| < TWO64
  {
    var named := FindNameIn(known, name);
    if named.Some? then EncodeInt(named.value + 1, 4, 0) else EncodeInt(0, 4, 0) + EncodeString(name)
  }

  function EncodeField(known: seq<Field>, f: Field): (s: seq<byte>)
    requires |known| == STATIC_LEN && |f.name| < TWO64 && |f.value| < TWO64
  {
    var exact := FindIn(known, f);
    if exact.Some? then EncodeInt(exact.value + 1, 7, 0x80)
    else EncodeName(known, f.name) + EncodeString(f.value)
  }

  /** A header that is in the static table goes out as its index alone, in one byte. */
  lemma KnownHeaderIsOneByte(known: seq<Field>, f: Field, i: nat)
    requires |known| == STATIC_LEN && |f.name| < TWO64 && |f.value| < TWO64
    requires i < STATIC_LEN && known[i] == f && forall j :: 0 <= j < i ==> known[j] != f
    ensures EncodeField(known, f) == [(0x80 + i + 1) as byte]
  {
    assert FindIn(known, f) == Some(i);
  }

  /** The front of a literal without indexing under a known name: four bits of the index, or all ones and the rest. */
  function NameIndex(i: nat): seq<byte>
    requires 1 <= i <= STATIC_LEN
  {
    if i < 15 then [i as byte] else [0x0F, (i - 15) as byte]
  }

  /** Any other header with a known name goes out as a literal without indexing, under the first entry of that name. */
  lemma NamedHeaderIsLiteral(known: seq<Field>, f: Field, i: nat)
    requires |known| == STATIC_LEN && |f.name| < TWO64 && |f.value| < TWO64
    requires forall j :: 0 <= j < STATIC_LEN ==> known[j] != f
    requires i < STATIC_LEN && known[i].name == f.name && forall j :: 0 <= j < i ==> known[j].name != f.name
    ensures EncodeField(known, f) == NameIndex(i + 1) + EncodeString(f.value)
  {
    hide EncodeString;
    assert FindIn(known, f).None? && FindNameIn(known, f.name) == Some(i);
    assert EncodeInt(i + 1, 4, 0) == NameIndex(i + 1);
  }

  /** And one with a new name spells it out. */
  lemma NewHeaderIsLiteral(known: seq<Field>, f: Field)
    requires |known| == STATIC_LEN && |f.name| < TWO64 && |f.value| < TWO64
    requires forall j :: 0 <= j < STATIC_LEN ==> known[j].name != f.name
    ensures EncodeField(known, f) == [0x00] + EncodeString(f.name) + EncodeString(f.value)
  {
    hide EncodeString;
    assert FindIn(known, f).None? && FindNameIn(known, f.name).None?;
    assert EncodeInt(0, 4, 0) == [0x00];
  }

  /** Strings are never Huffman-coded. */
  lemma StringIsPlain(text: Text)
    requires |text| < TWO64
    ensures EncodeString(text)[0] < 0x80
  {
  }

  /** A header the decoder can materialise. */
  predicate Encodable(f: Field) {
    |f.name| <= MAX_STRING && |f.value| <= MAX_STRING && Utf8.Valid(f.name) && Utf8.Valid(f.value)
  }

  /** The integer round trip at the prefixes the encoder uses, with what the first byte then looks like. */
  lemma LengthRoundTrip(n: u64, rest: seq<byte>)
    ensures var wire := EncodeInt(n, 7, 0) + rest;
            wire != [] && DecodeInt(wire, 7) == Ok((n, rest)) && wire[0] < 0x80
  {
    IntegerRoundTrip(n, 7, 0, rest);
  }

  lemma IndexRoundTrip(n: u64, rest: seq<byte>)
    ensures var wire := EncodeInt(n, 7, 0x80) + rest;
            wire != [] && DecodeInt(wire, 7) == Ok((n, rest)) && wire[0] >= 0x80
  {
    IntegerRoundTrip(n, 7, 0x80, rest);
  }

  lemma LiteralRoundTrip(n: u64, rest: seq<byte>)
    ensures var wire := EncodeInt(n, 4, 0) + rest;
            wire != [] && DecodeInt(wire, 4) == Ok((n, rest)) && wire[0] < 0x10
  {
    IntegerRoundTrip(n, 4, 0, rest);
  }

  lemma LengthThenText(n: u64, text: Text, rest: seq<byte>)
    ensures var wire := LengthWire(n) + text + rest;
            wire != [] && wire[0] < 0x80 && DecodeInt(wire, 7) == Ok((n, text + rest))
  {
    LengthRoundTrip(n, text + rest);
    Regroup(LengthWire(n), text, rest);
  }

  lemma StringRoundTrip(c: Standard, text: Text, rest: seq<byte>)
    requires |text| <= MAX_STRING && Utf8.Valid(text)
    ensures DecodeString(c, EncodeString(text) + rest) == Ok((text, rest))
  {
    hide DecodeString, DecodeInt, LengthWire, Utf8.Valid;
    LengthThenText(|text|, text, rest);
    TextThenRest(text, rest);
    PlainString(c, EncodeString(text) + rest, |text|, text + rest);
  }

  lemma TextThenRest(text: Text, rest: seq<byte>)
    ensures (text + rest)[..|text|] == text && (text + rest)[|text|..] == rest
  {
  }

  lemma PlainString(c: Standard, wire: seq<byte>, n: nat, after: seq<byte>)
    requires wire != [] && wire[0] < 0x80 && DecodeInt(wire, 7) == Ok((n, after))
    requires n <= |after| && n <= MAX_STRING && Utf8.Valid(after[..n])
    ensures DecodeString(c, wire) == Ok((after[..n], after[n..]))
  {
  }

  lemma NamedRoundTrip(c: Standard, t: Table, name: Text, rest: seq<byte>)
    requires Proper(c) && |name| <= MAX_STRING && FindNameIn(c.known, name).Some?
    ensures var wire := EncodeName(c.known, name) + rest;
            && wire != [] && wire[0] < 0x10 && DecodeInt(wire, 4).Ok?
            && var (index, after) := DecodeInt(wire, 4).value;
               LiteralName(c, t, index, after) == Ok((name, rest))
  {
    hide DecodeInt, EncodeInt;
    var i := FindNameIn(c.known, name).value;
    LiteralRoundTrip(i + 1, rest);
    assert EncodeName(c.known, name) == EncodeInt(i + 1, 4, 0);
    assert Lookup(c.known, t.entries, i + 1) == Some(c.known[i]);
  }

  lemma NewNameRoundTrip(c: Standard, t: Table, name: Text, rest: seq<byte>)
    requires Proper(c) && |name| <= MAX_STRING && Utf8.Valid(name) && FindNameIn(c.known, name).None?
    ensures var wire := EncodeName(c.known, name) + rest;
            && wire != [] && wire[0] < 0x10 && DecodeInt(wire, 4).Ok?
            && var (index, after) := DecodeInt(wire, 4).value;
               LiteralName(c, t, index, after) == Ok((name, rest))
  {
    var text := EncodeString(name);
    StringRoundTrip(c, name, rest);
    ZeroThenText(text, rest);
    assert EncodeName(c.known, name) == ZeroName() + text;
  }

  function ZeroName(): seq<byte> {
    EncodeInt(0, 4, 0)
  }

  lemma ZeroThenText(text: seq<byte>, rest: seq<byte>)
    ensures var wire := ZeroName() + text + rest;
            wire != [] && wire[0] < 0x10 && DecodeInt(wire, 4) == Ok((0, text + rest))
  {
    LiteralRoundTrip(0, text + rest);
    Regroup(ZeroName(), text, rest);
  }

  lemma NameRoundTrip(c: Standard, t: Table, name: Text, rest: seq<byte>)
    requires Proper(c) && |name| <= MAX_STRING && Utf8.Valid(name)
    ensures var wire := EncodeName(c.known, name) + rest;
            && wire != [] && wire[0] < 0x10 && DecodeInt(wire, 4).Ok?
            && var (index, after) := DecodeInt(wire, 4).value;
               LiteralName(c, t, index, after) == Ok((name, rest))
  {
    if FindNameIn(c.known, name).Some? {
      NamedRoundTrip(c, t, name, rest);
    } else {
      NewNameRoundTrip(c, t, name, rest);
    }
  }

  lemma FieldRoundTrip(c: Standard, t: Table, f: Field, rest: seq<byte>)
    requires Proper(c) && Encodable(f)
    ensures EncodeField(c.known, f) + rest != []
    ensures DecodeOne(c, t, EncodeField(c.known, f) + rest) == Ok(Turn(t, [f], rest))
  {
    var exact := FindIn(c.known, f);
    if exact.Some? {
      IndexRoundTrip(exact.value + 1, rest);
    } else {
      var tail := EncodeString(f.value) + rest;
      StringRoundTrip(c, f.value, rest);
      NameRoundTrip(c, t, f.name, tail);
      Regroup(EncodeName(c.known, f.name), EncodeString(f.value), rest);
    }
  }

  function EncodeAll(known: seq<Field>, fields: seq<Field>): seq<byte>
    requires |known| == STATIC_LEN && forall i :: 0 <= i < |fields| ==> Encodable(fields[i])
  {
    if fields == [] then []
    else
      assert Encodable(fields[0]);
      EncodeField(known, fields[0]) + EncodeAll(known, fields[1..])
  }

  /** Any list of headers survives encoding and decoding, in order, and leaves the decoder's table alone. */
  lemma {:induction false} HeadersRoundTrip(c: Standard, t: Table, fields: seq<Field>)
    requires Proper(c) && forall i :: 0 <= i < |fields| ==> Encodable(fields[i])
    ensures DecodeBlock(c, t, EncodeAll(c.known, fields)) == Outcome(t, fields, None)
  {
    hide DecodeOne, EncodeField;
    if fields != [] {
      var rest := EncodeAll(c.known, fields[1..]);
      FieldRoundTrip(c, t, fields[0], rest);
      HeadersRoundTrip(c, t, fields[1..]);
      assert [fields[0]] + fields[1..] == fields;
      OneTurn(c, t, EncodeField(c.known, fields[0]) + rest, fields[0], rest);
    }
  }

  /** The same with the static table of Appendix A. */
  lemma StandardRoundTrip(huffman: Text -> Option<Text>, t: Table, fields: seq<Field>)
    requires forall i :: 0 <= i < |fields| ==> Encodable(fields[i])
    ensures DecodeBlock(Appendix(huffman), t, EncodeAll(Appendix(huffman).known, fields)) == Outcome(t, fields, None)
  {
    hide Appendix, DecodeBlock, EncodeAll, Encodable;
    HeadersRoundTrip(Appendix(huffman), t, fields);
  }

  lemma OneTurn(c: Standard, t: Table, wire: seq<byte>, f: Field, rest: seq<byte>)
    requires Proper(c) && wire != [] && DecodeOne(c, t, wire) == Ok(Turn(t, [f], rest))
    ensures var later := DecodeBlock(c, t, rest);
            DecodeBlock(c, t, wire) == Outcome(later.table, [f] + later.headers, later.fault)
  {
  }

  lemma TakeOneMore(text: Text, i: nat)
    requires i < |text|
    ensures text[..i] + [text[i]] == text[..i + 1]
  {
  }

  method PutString(text: Text, out: array<byte>, len: nat) returns (r: Result<nat, Fault>)
    requires |text| < TWO64
    modifies out
    ensures var wire := EncodeString(text);
            && (r.Ok? <==> len + |wire| <= out.Length)
            && (r.Ok? ==> r.value == len + |wire| && out[..] == Splice(old(out[..]), len, wire))
            && (r.Err? ==> r.error == BufferTooSmall)
  {
    hide EncodeInt, Splice;
    ghost var head := LengthWire(|text|);
    r := EncodeInteger(|text|, 7, 0, out, len);
    if r.Err? {
      return;
    }
    var at := r.value;
    if at + |text| > out.Length {
      return Err(BufferTooSmall);
    }
    ghost var before := out[..];
    SpliceNothing(before, at);
    for i := 0 to |text|
      invariant out[..] == Splice(before, at, text[..i])
    {
      SpliceStep(before, at, text[..i], text[i]);
      TakeOneMore(text, i);
      PutByte(out, at + i, text[i]);
    }
    assert text[..|text|] == text;
    SpliceMore(old(out[..]), len, head, text);
    return Ok(at + |text|);
  }

  method PutName(known: seq<Field>, name: Text, out: array<byte>, len: nat) returns (r: Result<nat, Fault>)
    requires |known| == STATIC_LEN && |name| < TWO64
    modifies out
    ensures var wire := EncodeName(known, name);
            && (r.Ok? <==> len + |wire| <= out.Length)
            && (r.Ok? ==> r.value == len + |wire| && out[..] == Splice(old(out[..]), len, wire))
  {
    hide EncodeInt, Splice;
    var named := FindNameIn(known, name);
    if named.Some? {
      r := EncodeInteger(named.value + 1, 4, 0, out, len);
      return;
    }
    r := EncodeInteger(0, 4, 0, out, len);
    if r.Err? {
      return;
    }
    r := PutString(name, out, r.value);
    if r.Ok? {
      SpliceMore(old(out[..]), len, EncodeInt(0, 4, 0), EncodeString(name));
    }
  }

  /** `encode_header` appends exactly the encoding, or fails exactly when it does not fit. */
  method EncodeHeader(known: seq<Field>, f: Field, out: array<byte>, len: nat) returns (r: Result<nat, Fault>)
    requires |known| == STATIC_LEN && |f.name| < TWO64 && |f.value| < TWO64
    modifies out
    ensures var wire := EncodeField(known, f);
            && (r.Ok? <==> len + |wire| <= out.Length)
            && (r.Ok? ==> r.value == len + |wire| && out[..] == Splice(old(out[..]), len, wire))
  {
    var exact := FindIn(known, f);
    if exact.Some? {
      r := EncodeInteger(exact.value + 1, 7, 0x80, out, len);
      return;
    }
    r := PutName(known, f.name, out, len);
    if r.Err? {
      return;
    }
    r := PutString(f.value, out, r.value);
    if r.Ok? {
      SpliceMore(old(out[..]), len, EncodeName(known, f.name), EncodeString(f.value));
    }
  }
}
