/**
 Exactly which header blocks `Decoder::decode` reads: crates/micro-h2/src/hpack/decode.rs
 has bounds RFC 7541 has not (ten continuation bytes an integer, 512 bytes of UTF-8
 a string, sixty-four entries a table). A representation within them is read as the
 standard reads it; at the first one outside them the decoder stops.
 */
module HpackExact {
  import opened Common
  import opened HpackTable
  import opened HpackInteger
  import opened HpackCodec
  import Utf8

  // ---------------------------------------------------------------------
  // The bounds, in terms of the standard's own reading.

  /** An integer the code can read: 64 bits, and at most ten bytes after the first. */
  predicate IntegerInBounds(input: seq<byte>, prefix: nat)
    requires 1 <= prefix <= 8
  {
    var parsed := RfcInt(input, prefix);
    parsed.Some? && parsed.value.0 < TWO64 && |input| - |parsed.value.1| <= 11
  }

  /** A string the code can read: decodable where it is Huffman-coded, UTF-8, at most 512 bytes. */
  predicate StringInBounds(c: Standard, input: seq<byte>) {
    && IntegerInBounds(input, 7)
    && RfcString(c, input).Some?
    && var text := RfcString(c, input).value.0;
       Utf8.Valid(text) && |text| <= 512
  }

  /** The representation at the front is one the code can read against the standard's table `t`. */
  predicate InBounds(c: Standard, t: Table, input: seq<byte>)
    requires input != [] && Proper(c)
  {
    var first := input[0];
    var pattern := if first >= 0x80 then 7 else if first >= 0x40 then 6 else if first >= 0x20 then 5 else 4;
    && IntegerInBounds(input, pattern)
    && var (n, rest) := RfcInt(input, pattern).value;
       && (pattern != 5 ==> n < 62 + 64)
       && (pattern == 6 || pattern == 4 ==>
             && (n == 0 ==> StringInBounds(c, rest))
             && StringInBounds(c, if n == 0 then RfcString(c, rest).value.1 else rest))
       && ParseRep(c, input).Some?
       && Interpret(c, t, ParseRep(c, input).value.0).Some?
  }

  /** The standard's reading of a block, up to the first representation that is out of bounds. */
  function ReadAsFar(c: Standard, t: Table, input: seq<byte>): (r: RfcOutcome)
    requires Proper(c)
    decreases |input|
  {
    if input == [] then RfcOutcome(t, [], true)
    else if !InBounds(c, t, input) then RfcOutcome(t, [], false)
    else
      var (rep, left) := ParseRep(c, input).value;
      var (t', emitted) := Interpret(c, t, rep).value;
      var rest := ReadAsFar(c, t', left);
      RfcOutcome(rest.table, emitted + rest.headers, rest.ok)
  }

  /** No name of the static table is too long for the code's buffer. */
  predicate Brief(c: Standard) {
    forall i :: 0 <= i < |c.known| ==> |c.known[i].name| <= 512
  }

  // ---------------------------------------------------------------------
  // One representation.

  lemma IntegerReadIff(input: seq<byte>, prefix: nat)
    requires 1 <= prefix <= 8 && Fits64(input, prefix)
    ensures DecodeInt(input, prefix).Ok? <==> IntegerInBounds(input, prefix)
    ensures DecodeInt(input, prefix).Ok? ==> RfcInt(input, prefix) == Some(DecodeInt(input, prefix).value)
  {
    if RfcInt(input, prefix).Some? {
      IntegerDecodesIff(input, prefix);
    } else if DecodeInt(input, prefix).Ok? {
      DecodedIntegerIff(input, prefix);
    }
  }

  lemma StringReadIff(c: Standard, input: seq<byte>)
    requires Fits64(input, 7)
    ensures DecodeString(c, input).Ok? <==> StringInBounds(c, input)
    ensures DecodeString(c, input).Ok? ==> RfcString(c, input) == Some(DecodeString(c, input).value)
  {
    IntegerReadIff(input, 7);
  }

  /** The code resolves an index exactly when the standard does and it is among the entries the code still holds. */
  lemma LookupMirrors(c: Standard, code: Table, rfc: Table, index: nat)
    requires Proper(c) && Brief(c) && Mirrors(code, rfc) && WellFormed(code)
    ensures var got, want := Lookup(c.known, code.entries, index), Lookup(c.known, rfc.entries, index);
            && (got.Some? <==> want.Some? && index < 62 + 64)
            && (got.Some? ==> got == want && |got.value.name| <= 512)
  {
    if index >= 62 && index - 62 < |code.entries| {
      assert Short(code.entries[index - 62]);
    }
  }

  /** What one turn has to come to, for the code at `code` and the standard at `rfc`. */
  predicate ReadsTurn(c: Standard, code: Table, rfc: Table, input: seq<byte>)
    requires Proper(c) && input != []
  {
    var got := DecodeOne(c, code, input);
    && (got.Ok? <==> InBounds(c, rfc, input))
    && (got.Ok? ==>
          && ParseRep(c, input).value.1 == got.value.rest
          && var (rfc', emitted) := Interpret(c, rfc, ParseRep(c, input).value.0).value;
             got.value.emitted == emitted && Mirrors(got.value.table, rfc') && WellFormed(got.value.table))
  }

  lemma TurnReads(c: Standard, code: Table, rfc: Table, input: seq<byte>)
    requires Proper(c) && Brief(c) && Mirrors(code, rfc) && WellFormed(code) && input != [] && Tame(c, rfc, input)
    ensures ReadsTurn(c, code, rfc, input)
  {
    var first := input[0];
    if first >= 0x80 {
      IntegerReadIff(input, 7);
      if RfcInt(input, 7).Some? {
        LookupMirrors(c, code, rfc, RfcInt(input, 7).value.0);
      }
    } else if 0x20 <= first < 0x40 {
      IntegerReadIff(input, 5);
      if RfcInt(input, 5).Some? {
        var n := RfcInt(input, 5).value.0;
        ResizeMirrors(code, rfc, n);
        assert forall i :: 0 <= i < |Resize(code, n).entries| ==> Resize(code, n).entries[i] == code.entries[i];
      }
    } else {
      assert IsLiteral(input);
      LiteralReads(c, code, rfc, input);
    }
  }

  /** The name of a literal: an index the code still holds, or a string in bounds. */
  lemma NameReads(c: Standard, code: Table, rfc: Table, n: u64, rest: seq<byte>)
    requires Proper(c) && Brief(c) && Mirrors(code, rfc) && WellFormed(code) && (n == 0 ==> Fits64(rest, 7))
    ensures var got := LiteralName(c, code, n, rest);
            && (got.Ok? <==> if n == 0 then StringInBounds(c, rest)
                             else n < 62 + 64 && Lookup(c.known, rfc.entries, n).Some?)
            && (got.Ok? && n == 0 ==> RfcString(c, rest) == Some(got.value))
            && (got.Ok? && n > 0 ==> got.value == (Lookup(c.known, rfc.entries, n).value.name, rest))
  {
    if n == 0 {
      StringReadIff(c, rest);
    } else {
      LookupMirrors(c, code, rfc, n);
    }
  }

  predicate IsLiteral(input: seq<byte>) {
    input != [] && input[0] < 0x80 && !(0x20 <= input[0] < 0x40)
  }

  function LiteralPrefix(input: seq<byte>): nat
    requires IsLiteral(input)
  {
    if input[0] >= 0x40 then 6 else 4
  }

  /** What the code makes of a literal. */
  lemma LiteralCode(c: Standard, t: Table, input: seq<byte>)
    requires Proper(c) && IsLiteral(input)
    ensures var got, index := DecodeOne(c, t, input), DecodeInt(input, LiteralPrefix(input));
            if index.Err? then got.Err?
            else
              var name := LiteralName(c, t, index.value.0, index.value.1);
              if name.Err? then got.Err?
              else
                var value := DecodeString(c, name.value.1);
                if value.Err? then got.Err?
                else
                  var f := Field(name.value.0, value.value.0);
                  got == Ok(Turn(if input[0] >= 0x40 then Insert(t, f) else t, [f], value.value.1))
  {
    hide DecodeInt, LiteralName, DecodeString, Insert;
  }

  /** What the standard makes of it. */
  lemma LiteralStandard(c: Standard, t: Table, input: seq<byte>)
    requires Proper(c) && IsLiteral(input) && RfcInt(input, LiteralPrefix(input)).Some?
    ensures var (n, rest) := RfcInt(input, LiteralPrefix(input)).value;
            var known := Lookup(c.known, t.entries, n);
            if n == 0 && !StringInBounds(c, rest) then !InBounds(c, t, input)
            else
              var left := if n == 0 then RfcString(c, rest).value.1 else rest;
              && (InBounds(c, t, input) <==>
                    && IntegerInBounds(input, LiteralPrefix(input)) && n < 62 + 64
                    && (n > 0 ==> known.Some?) && StringInBounds(c, left))
              && (InBounds(c, t, input) ==>
                    var f := Field(if n == 0 then RfcString(c, rest).value.0 else known.value.name,
                                   RfcString(c, left).value.0);
                    && ParseRep(c, input).value.1 == RfcString(c, left).value.1
                    && Interpret(c, t, ParseRep(c, input).value.0)
                       == Some((if input[0] >= 0x40 then RfcInsert(t, f) else t, [f])))
  {
    hide RfcInt, Lookup, RfcString, RfcInsert, Utf8.Valid;
  }

  lemma LiteralReads(c: Standard, code: Table, rfc: Table, input: seq<byte>)
    requires Proper(c) && Brief(c) && Mirrors(code, rfc) && WellFormed(code) && IsLiteral(input) && Tame(c, rfc, input)
    ensures ReadsTurn(c, code, rfc, input)
  {
    var prefix := LiteralPrefix(input);
    assert code.capacity == rfc.capacity && Fits64(input, prefix);
    assert RfcInt(input, prefix).Some? && RfcInt(input, prefix).value.0 == 0 ==>
             Fits64(RfcInt(input, prefix).value.1, 7);
    LiteralCode(c, code, input);
    IntegerReadIff(input, prefix);
    if IntegerInBounds(input, prefix) {
      var (n, rest) := RfcInt(input, prefix).value;
      LiteralStandard(c, rfc, input);
      NameReads(c, code, rfc, n, rest);
      var name := LiteralName(c, code, n, rest);
      if name.Ok? {
        LiteralValue(c, code, rfc, input, name.value.0, name.value.1);
      }
    }
    hide DecodeOne, ParseRep, Interpret, InBounds, DecodeInt, RfcInt, DecodeString, RfcString, StringInBounds, Tame;
    hide LiteralName, Insert, RfcInsert, Lookup, Mirrors, WellFormed;
  }

  /** Its value, and the table it leaves. */
  lemma LiteralValue(c: Standard, code: Table, rfc: Table, input: seq<byte>, name: Text, left: seq<byte>)
    requires Proper(c) && Mirrors(code, rfc) && WellFormed(code) && IsLiteral(input) && Tame(c, rfc, input)
    requires RfcInt(input, LiteralPrefix(input)).Some?
    requires var (n, rest) := RfcInt(input, LiteralPrefix(input)).value;
             if n == 0 then RfcString(c, rest) == Some((name, left))
             else left == rest && Lookup(c.known, rfc.entries, n).Some?
                  && name == Lookup(c.known, rfc.entries, n).value.name
    ensures DecodeString(c, left).Ok? <==> StringInBounds(c, left)
    ensures DecodeString(c, left).Ok? ==>
              && RfcString(c, left) == Some(DecodeString(c, left).value)
              && var f := Field(name, RfcString(c, left).value.0);
                 input[0] >= 0x40 ==> Mirrors(Insert(code, f), RfcInsert(rfc, f)) && WellFormed(Insert(code, f))
  {
    assert code.capacity == rfc.capacity && SmallInts(c, input);
    assert Fits64(left, 7) by {
      hide RfcInt, RfcString;
    }
    StringReadIff(c, left);
    if DecodeString(c, left).Ok? && input[0] >= 0x40 {
      var f := Field(name, RfcString(c, left).value.0);
      assert Storable(rfc, f) by {
        hide RfcInt, RfcString, Lookup, RfcInsert, DecodeString;
      }
      InsertMirrorsIff(code, rfc, f);
      InsertWellFormed(code, f);
    }
    hide DecodeString, RfcString, Insert, RfcInsert, RfcInt, Lookup;
  }

  // ---------------------------------------------------------------------
  // Blocks and lives.

  /**
   The decoder reports the standard's headers up to the first representation out of
   bounds, and a fault exactly when there is one; its table stays the newest
   sixty-four of the standard's.
   */
  lemma {:induction false} BlockReads(c: Standard, code: Table, rfc: Table, input: seq<byte>)
    requires Proper(c) && Brief(c) && Mirrors(code, rfc) && WellFormed(code) && Tame(c, rfc, input)
    ensures var got, want := DecodeBlock(c, code, input), ReadAsFar(c, rfc, input);
            && got.headers == want.headers
            && (got.fault.None? <==> want.ok)
            && Mirrors(got.table, want.table) && WellFormed(got.table)
    decreases |input|
  {
    if input != [] {
      TurnReads(c, code, rfc, input);
      if InBounds(c, rfc, input) {
        var turn := DecodeOne(c, code, input).value;
        BlockReads(c, turn.table, Interpret(c, rfc, ParseRep(c, input).value.0).value.0, turn.rest);
      }
    }
  }

  /** A block in bounds throughout is read whole. */
  lemma {:induction false} ReadWhole(c: Standard, t: Table, input: seq<byte>)
    requires Proper(c) && ReadAsFar(c, t, input).ok
    ensures ReadAsFar(c, t, input) == RfcBlock(c, t, input)
    decreases |input|
  {
    if input != [] {
      var (rep, left) := ParseRep(c, input).value;
      ReadWhole(c, Interpret(c, t, rep).value.0, left);
    }
  }

  /** Blocks one after another, up to the first that is not read whole. */
  function LifeAsFar(c: Standard, t: Table, blocks: seq<seq<byte>>): (r: RfcOutcome)
    requires Proper(c)
    decreases |blocks|
  {
    if blocks == [] then RfcOutcome(t, [], true)
    else
      var one := ReadAsFar(c, t, blocks[0]);
      if !one.ok then one
      else
        var rest := LifeAsFar(c, one.table, blocks[1..]);
        RfcOutcome(rest.table, one.headers + rest.headers, rest.ok)
  }

  lemma {:induction false} LifeReads(c: Standard, code: Table, rfc: Table, blocks: seq<seq<byte>>)
    requires Proper(c) && Brief(c) && Mirrors(code, rfc) && WellFormed(code) && TameLife(c, rfc, blocks)
    ensures var got, want := DecodeLife(c, code, blocks), LifeAsFar(c, rfc, blocks);
            && got.headers == want.headers
            && (got.fault.None? <==> want.ok)
            && (want.ok ==> want == RfcLife(c, rfc, blocks))
    decreases |blocks|
  {
    if blocks != [] {
      BlockReads(c, code, rfc, blocks[0]);
      var one := ReadAsFar(c, rfc, blocks[0]);
      if one.ok {
        ReadWhole(c, rfc, blocks[0]);
        LifeReads(c, DecodeBlock(c, code, blocks[0]).table, one.table, blocks[1..]);
      }
    }
  }

  /**
   With the static table of Appendix A, from an empty table of any capacity: the
   decoder ends a life without a fault if and only if every representation of it is
   in bounds, and its headers are then exactly the standard's; otherwise they are the
   standard's up to the first that is not.
   */
  lemma StandardLifeReads(huffman: Text -> Option<Text>, capacity: nat, blocks: seq<seq<byte>>)
    requires TameLife(Appendix(huffman), Table([], capacity), blocks)
    ensures var c := Appendix(huffman);
            var got := DecodeLife(c, Table([], capacity), blocks);
            var want := LifeAsFar(c, Table([], capacity), blocks);
            && got.headers == want.headers
            && (got.fault.None? <==> want.ok)
            && (want.ok ==> RfcLife(c, Table([], capacity), blocks).ok
                            && got.headers == RfcLife(c, Table([], capacity), blocks).headers)
  {
    var c := Appendix(huffman);
    assert Brief(c) by {
      StaticIsShort();
    }
    hide Appendix, DecodeLife, RfcLife, LifeAsFar, TameLife;
    LifeReads(c, Table([], capacity), Table([], capacity), blocks);
  }

  lemma StaticIsShort()
    ensures forall i :: 0 <= i < |StaticEntries()| ==> Short(StaticEntries()[i])
  {
    var table: seq<ShortField> := StaticEntries();
    forall i | 0 <= i < |table|
      ensures Short(table[i])
    {
      var f: ShortField := table[i];
    }
  }

  /**
   And of a life the standard accepts, size updates and all, the decoder reports
   every header unless some representation is out of bounds.
   */
  lemma StrictLifeReads(huffman: Text -> Option<Text>, capacity: nat, limit: nat, blocks: seq<seq<byte>>)
    requires TameLife(Appendix(huffman), Table([], capacity), blocks)
    requires StrictLife(Appendix(huffman), Table([], capacity), blocks, limit).ok
    ensures var c := Appendix(huffman);
            var got := DecodeLife(c, Table([], capacity), blocks);
            var want := StrictLife(c, Table([], capacity), blocks, limit);
            && (got.fault.None? <==> LifeAsFar(c, Table([], capacity), blocks).ok)
            && (got.fault.None? ==> got.headers == want.headers)
  {
    hide Appendix, DecodeLife, RfcLife, StrictLife, LifeAsFar, TameLife;
    StandardLifeReads(huffman, capacity, blocks);
    StandardLife(huffman, capacity, limit, blocks);
  }

}
