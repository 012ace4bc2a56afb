/**
 HPACK integers (section 5.1 of RFC 7541): `encode_integer` of
 crates/micro-h2/src/hpack/encode.rs and `decode_integer` of decode.rs, beside
 the unbounded integers of the standard.
 */
module HpackInteger {
  import opened Common

  const TWO64 := 0x1_0000_0000_0000_0000

  datatype Fault = Incomplete | Hpack | BufferTooSmall

  function Pow2(n: nat): (p: nat)
    ensures p > 0
  {
    if n == 0 then 1 else 2 * Pow2(n - 1)
  }

  /** `1 << prefix_bits`. */
  function Span(prefix: nat): (r: nat)
    requires 1 <= prefix <= 8
    ensures 2 <= r <= 256
  {
    match prefix
    case 1 => 2
    case 2 => 4
    case 3 => 8
    case 4 => 16
    case 5 => 32
    case 6 => 64
    case 7 => 128
    case _ => 256
  }

  /** The bits of a byte inside the prefix. */
  function Low(b: byte, prefix: nat): (r: nat)
    requires 1 <= prefix <= 8
    ensures r < Span(prefix)
  {
    match prefix
    case 1 => b as int % 2
    case 2 => b as int % 4
    case 3 => b as int % 8
    case 4 => b as int % 16
    case 5 => b as int % 32
    case 6 => b as int % 64
    case 7 => b as int % 128
    case _ => b as int
  }

  /** The weight of the k-th seven-bit group, `1 << 7k`. */
  function Weight(k: nat): (w: nat)
    ensures w > 0
  {
    if k == 0 then 1 else 128 * Weight(k - 1)
  }

  lemma WeightNine()
    ensures Weight(9) == 0x8000_0000_0000_0000 && Weight(9) * 2 == TWO64
  {
    assert Weight(3) == 0x20_0000;
    assert Weight(6) == 0x400_0000_0000;
  }

  lemma {:induction false} WeightMonotone(i: nat, j: nat)
    requires i <= j
    ensures Weight(i) <= Weight(j)
  {
    if i < j {
      WeightMonotone(i, j - 1);
    }
  }

  // ---------------------------------------------------------------------
  // The standard.

  /** Continuation groups, least significant first; the last has its top bit clear. */
  function RfcGroups(input: seq<byte>): (r: Option<(nat, seq<byte>)>)
    ensures r.Some? ==> |r.value.1| < |input|
  {
    if input == [] then None
    else if input[0] < 0x80 then Some((input[0] as int, input[1..]))
    else
      var rest := RfcGroups(input[1..]);
      if rest.None? then None else Some((input[0] as int - 0x80 + 0x80 * rest.value.0, rest.value.1))
  }

  function RfcInt(input: seq<byte>, prefix: nat): (r: Option<(nat, seq<byte>)>)
    requires 1 <= prefix <= 8
    ensures r.Some? ==> |r.value.1| < |input|
  {
    if input == [] then None
    else
      var mask := Span(prefix) - 1;
      var low := Low(input[0], prefix);
      if low < mask then Some((low, input[1..]))
      else
        var groups := RfcGroups(input[1..]);
        if groups.None? then None else Some((mask + groups.value.0, groups.value.1))
  }

  // ---------------------------------------------------------------------
  // The code.

  /** `(byte & 0x7f) << 7k` in 64 bits: bits shifted out at the top are lost. */
  function Shifted(b: byte, k: nat): u64 {
    b as int % 0x80 * Weight(k) % TWO64
  }

  /** The loop of `decode_integer` with `k` groups already read. */
  function Groups(input: seq<byte>, value: u64, k: nat): (r: Result<(u64, seq<byte>), Fault>)
    ensures r.Ok? ==> |r.value.1| < |input|
  {
    if input == [] then Err(Incomplete)
    else if 7 * k > 63 then Err(Hpack)
    else
      var sum := value + Shifted(input[0], k);
      if sum >= TWO64 then Err(Hpack)
      else if input[0] < 0x80 then Ok((sum, input[1..]))
      else Groups(input[1..], sum, k + 1)
  }

  function DecodeInt(input: seq<byte>, prefix: nat): (r: Result<(u64, seq<byte>), Fault>)
    requires 1 <= prefix <= 8
    ensures r.Ok? ==> |r.value.1| < |input|
  {
    if input == [] then Err(Incomplete)
    else
      var mask := Span(prefix) - 1;
      var low := Low(input[0], prefix);
      if low < mask then Ok((low, input[1..])) else Groups(input[1..], mask, 0)
  }

  method DecodeInteger(input: seq<byte>, prefix: nat) returns (r: Result<(u64, seq<byte>), Fault>)
    requires 1 <= prefix <= 8
    ensures r == DecodeInt(input, prefix)
  {
    var mask := Span(prefix) - 1;
    if input == [] {
      return Err(Incomplete);
    }
    var low := Low(input[0], prefix);
    if low < mask {
      return Ok((low, input[1..]));
    }
    var value: u64 := mask;
    var shift := 0;
    ghost var k := 0;
    var rest := input[1..];
    while true
      invariant shift == 7 * k
      invariant Groups(rest, value, k) == DecodeInt(input, prefix)
      decreases |rest|
    {
      if rest == [] {
        return Err(Incomplete);
      }
      var b := rest[0];
      if shift > 63 {
        return Err(Hpack);
      }
      ShiftIsWeight(k);
      var sum := value + b as int % 0x80 * Pow2(shift) % TWO64;
      if sum >= TWO64 {
        return Err(Hpack);
      }
      value := sum;
      rest := rest[1..];
      if b < 0x80 {
        return Ok((value, rest));
      }
      shift := shift + 7;
      k := k + 1;
    }
  }

  lemma {:induction false} ShiftIsWeight(k: nat)
    ensures Pow2(7 * k) == Weight(k)
  {
    if k > 0 {
      ShiftIsWeight(k - 1);
      var n := 7 * (k - 1);
      assert Pow2(n + 2) == 4 * Pow2(n);
      assert Pow2(n + 4) == 4 * Pow2(n + 2);
      assert Pow2(n + 6) == 4 * Pow2(n + 4);
      assert Pow2(n + 7) == 2 * Pow2(n + 6);
    }
  }

  // ---------------------------------------------------------------------
  // What the code decodes, in terms of the standard.

  /** Up to the tenth group nothing is shifted out. */
  lemma ShiftedExact(b: byte, k: nat)
    requires k < 9
    ensures Shifted(b, k) == b as int % 0x80 * Weight(k)
  {
    WeightNine();
    WeightMonotone(k, 8);
    var g := b as int % 0x80;
    Scale(g, 127, Weight(k));
    Scale(0, g, Weight(k));
  }

  /** The tenth group keeps one bit. */
  lemma ShiftedTenth(b: byte)
    ensures Shifted(b, 9) == b as int % 2 * Weight(9)
    ensures Shifted(b, 9) == b as int % 0x80 * Weight(9) <==> b as int % 0x80 < 2
  {
    WeightNine();
    var g := b as int % 0x80;
    DivModUnique(g * Weight(9), TWO64, g / 2, g % 2 * Weight(9));
  }

  /**
   Whenever the loop succeeds it stops at the same byte as the standard, and its
   value is the standard's exactly when the standard's fits 64 bits.
   */
  lemma {:induction false} GroupsMeaning(input: seq<byte>, value: u64, k: nat)
    requires Groups(input, value, k).Ok?
    ensures RfcGroups(input).Some?
    ensures var (got, rest), (want, rest') := Groups(input, value, k).value, RfcGroups(input).value;
            && rest == rest'
            && (got == value + want * Weight(k) <==> value + want * Weight(k) < TWO64)
  {
    hide Shifted;
    WeightNine();
    if k < 9 {
      ShiftedExact(input[0], k);
    } else {
      ShiftedTenth(input[0]);
    }
    var g := input[0] as int % 0x80;
    if input[0] < 0x80 {
      if k == 9 && g >= 2 {
        assert g * Weight(9) >= 2 * Weight(9);
      }
    } else {
      var sum := value + Shifted(input[0], k);
      GroupsMeaning(input[1..], sum, k + 1);
      assert k + 1 <= 9;
      var want := RfcGroups(input[1..]).value.0;
      assert g == input[0] as int - 0x80;
      assert (g + 0x80 * want) * Weight(k) == g * Weight(k) + want * Weight(k + 1) by {
        assert Weight(k + 1) == 128 * Weight(k);
        Distribute(g, want, Weight(k));
      }
    }
  }

  lemma Distribute(g: int, want: int, w: int)
    ensures (g + 0x80 * want) * w == g * w + want * (128 * w)
  {
  }

  /** A decoded integer is the one the standard means if and only if that one fits 64 bits. */
  lemma DecodedIntegerIff(input: seq<byte>, prefix: nat)
    requires 1 <= prefix <= 8 && DecodeInt(input, prefix).Ok?
    ensures RfcInt(input, prefix).Some?
    ensures var (got, rest), (want, rest') := DecodeInt(input, prefix).value, RfcInt(input, prefix).value;
            rest == rest' && (got == want <==> want < TWO64)
  {
    var mask := Span(prefix) - 1;
    if Low(input[0], prefix) >= mask {
      GroupsMeaning(input[1..], mask, 0);
    }
  }

  /**
   An integer that fits 64 bits is decoded if and only if it takes at most ten
   continuation bytes, and then to its value.
   */
  lemma {:induction false} GroupsDecodeIff(input: seq<byte>, value: u64, k: nat)
    requires k <= 10 && RfcGroups(input).Some? && value + RfcGroups(input).value.0 * Weight(k) < TWO64
    ensures var (want, rest) := RfcGroups(input).value;
            && (Groups(input, value, k).Ok? <==> k + |input| - |rest| <= 10)
            && (Groups(input, value, k).Ok? ==> Groups(input, value, k).value == (value + want * Weight(k), rest))
    decreases |input|
  {
    hide Shifted;
    var (want, rest) := RfcGroups(input).value;
    if k < 10 {
      var g := input[0] as int % 0x80;
      if input[0] < 0x80 {
        ShiftedFits(input[0], g, value, k);
      } else {
        var high := RfcGroups(input[1..]).value.0;
        assert want == g + 0x80 * high;
        Distribute(g, high, Weight(k));
        assert Weight(k + 1) == 128 * Weight(k);
        Scale(0, high, Weight(k + 1));
        ShiftedFits(input[0], g, value, k);
        Scale(0, g, Weight(k));
        GroupsDecodeIff(input[1..], value + g * Weight(k), k + 1);
      }
    }
  }

  lemma IntegerDecodesIff(input: seq<byte>, prefix: nat)
    requires 1 <= prefix <= 8 && RfcInt(input, prefix).Some? && RfcInt(input, prefix).value.0 < TWO64
    ensures DecodeInt(input, prefix).Ok? <==> |input| - |RfcInt(input, prefix).value.1| <= 11
    ensures DecodeInt(input, prefix).Ok? ==> DecodeInt(input, prefix).value == RfcInt(input, prefix).value
  {
    var mask := Span(prefix) - 1;
    if Low(input[0], prefix) >= mask {
      assert Weight(0) == 1;
      GroupsDecodeIff(input[1..], mask, 0);
    }
  }

  /** The other case does occur: ten continuation bytes can denote 2^64 more than is returned. */
  lemma IntegerWraps()
    ensures var wire: seq<byte> := [0x0F, 0x80, 0x80, 0x80, 0x80, 0x80, 0x80, 0x80, 0x80, 0x80, 0x02];
            && DecodeInt(wire, 4) == Ok((15, []))
            && RfcInt(wire, 4) == Some((15 + TWO64, []))
  {
    hide Groups, RfcGroups;
    var wire: seq<byte> := [0x0F, 0x80, 0x80, 0x80, 0x80, 0x80, 0x80, 0x80, 0x80, 0x80, 0x02];
    TailWraps(wire[1..], 15);
  }

  /** Nine empty groups and a two: nothing is added, and 2^64 is meant. */
  lemma TailWraps(tail: seq<byte>, value: u64)
    requires |tail| == 10 && tail[9] == 0x02 && forall i :: 0 <= i < 9 ==> tail[i] == 0x80
    ensures Groups(tail, value, 0) == Ok((value, []))
    ensures RfcGroups(tail) == Some((TWO64, []))
  {
    assert tail[9..] == [0x02];
    LastGroup(value);
    hide Groups, RfcGroups, Weight;
    ZeroGroups(tail, value, 0, 9);
    ZeroRfcGroups(tail, 9);
    WeightNine();
  }

  lemma LastGroup(value: u64)
    ensures Groups([0x02], value, 9) == Ok((value, [])) && RfcGroups([0x02]) == Some((2, []))
  {
    hide Weight;
    ShiftedTenth(0x02);
  }

  /** Groups of zero with the continuation bit set add nothing and shift the rest up. */
  lemma {:induction false} ZeroGroups(input: seq<byte>, value: u64, k: nat, n: nat)
    requires n < |input| && k + n <= 9
    requires forall i :: 0 <= i < n ==> input[i] == 0x80
    ensures Groups(input, value, k) == Groups(input[n..], value, k + n)
    decreases n
  {
    if n > 0 {
      assert Shifted(0x80, k) == 0;
      ZeroGroups(input[1..], value, k + 1, n - 1);
      assert input[1..][n - 1..] == input[n..];
    } else {
      assert input[0..] == input;
    }
  }

  lemma WeightTimes(high: nat, n: nat)
    requires n > 0
    ensures 0x80 * (Weight(n - 1) * high) == Weight(n) * high
  {
  }

  lemma {:induction false} ZeroRfcGroups(input: seq<byte>, n: nat)
    requires n < |input| && RfcGroups(input[n..]).Some?
    requires forall i :: 0 <= i < n ==> input[i] == 0x80
    ensures var (high, rest) := RfcGroups(input[n..]).value;
            RfcGroups(input) == Some((Weight(n) * high, rest))
    decreases n
  {
    if n > 0 {
      assert input[1..][n - 1..] == input[n..];
      ZeroRfcGroups(input[1..], n - 1);
      WeightTimes(RfcGroups(input[n..]).value.0, n);
      hide Weight;
    } else {
      assert input[0..] == input;
    }
  }

  // ---------------------------------------------------------------------
  // Encoding.

  function EncodeGroups(remaining: nat): (s: seq<byte>)
    ensures |s| > 0
  {
    if remaining >= 0x80 then [remaining % 0x80 + 0x80] + EncodeGroups(remaining / 0x80) else [remaining]
  }

  /** Bits above the prefix, clear inside it. */
  predicate Flags(flags: byte, prefix: nat)
    requires 1 <= prefix <= 8
  {
    Low(flags, prefix) == 0 && flags as int + Span(prefix) <= 256
  }

  /** The first byte: as much of the value as the prefix holds. */
  function First(value: u64, prefix: nat, flags: byte): byte
    requires 1 <= prefix <= 8 && Flags(flags, prefix)
  {
    flags as int + Min(value, Span(prefix) - 1)
  }

  function EncodeInt(value: u64, prefix: nat, flags: byte): (s: seq<byte>)
    requires 1 <= prefix <= 8 && Flags(flags, prefix)
    ensures |s| > 0
  {
    var mask := Span(prefix) - 1;
    [First(value, prefix, flags)] + if value < mask then [] else EncodeGroups(value - mask)
  }

  /** Every continuation read back adds up to the number written, with at most ten groups. */
  lemma {:induction false} GroupsRoundTrip(remaining: nat, value: u64, k: nat, rest: seq<byte>)
    requires k <= 9 && value + remaining * Weight(k) < TWO64
    ensures Groups(EncodeGroups(remaining) + rest, value, k) == Ok((value + remaining * Weight(k), rest))
  {
    hide Shifted;
    var s := EncodeGroups(remaining) + rest;
    if remaining < 0x80 {
      assert s[1..] == rest && s[0] == remaining;
      ShiftedFits(remaining, remaining, value, k);
    } else {
      var g, up := remaining % 0x80, remaining / 0x80;
      GroupFits(remaining, value, k);
      ShiftedFits(g + 0x80, g, value, k);
      assert s[0] == g + 0x80 && s[1..] == EncodeGroups(up) + rest;
      GroupsRoundTrip(up, value + g * Weight(k), k + 1, rest);
    }
  }

  /** A number of more than one group leaves room for another, and splits into its lowest and the rest. */
  lemma GroupFits(remaining: nat, value: u64, k: nat)
    requires remaining >= 0x80 && k <= 9 && value + remaining * Weight(k) < TWO64
    ensures var g, up := remaining % 0x80, remaining / 0x80;
            && k < 9 && value + g * Weight(k) < TWO64
            && value + g * Weight(k) + up * Weight(k + 1) == value + remaining * Weight(k)
  {
    WeightNine();
    var g, up := remaining % 0x80, remaining / 0x80;
    assert remaining == g + 0x80 * up;
    Distribute(g, up, Weight(k));
    assert Weight(k + 1) == 128 * Weight(k);
    Scale(1, up, Weight(k + 1));
    Scale(0, g, Weight(k));
  }

  lemma Scale(a: int, b: int, w: int)
    requires a <= b && w >= 0
    ensures a * w <= b * w
  {
  }

  lemma ShiftedFits(b: byte, g: nat, value: u64, k: nat)
    requires k <= 9 && g == b as int % 0x80 && value + g * Weight(k) < TWO64
    ensures Shifted(b, k) == g * Weight(k)
  {
    hide Weight;
    var n := g * Weight(k);
    Scale(0, g, Weight(k));
    assert 0 <= n < TWO64;
    assert n % TWO64 == n;
  }

  /** Every 64-bit integer survives encoding and decoding at every prefix width, whatever follows it. */
  lemma IntegerRoundTrip(value: u64, prefix: nat, flags: byte, rest: seq<byte>)
    requires 1 <= prefix <= 8 && Flags(flags, prefix)
    ensures DecodeInt(EncodeInt(value, prefix, flags) + rest, prefix) == Ok((value, rest))
    ensures flags as int <= (EncodeInt(value, prefix, flags) + rest)[0] < flags as int + Span(prefix)
  {
    var mask := Span(prefix) - 1;
    FlagsSplit(flags, Min(value, mask), prefix);
    var more := if value < mask then [] else EncodeGroups(value - mask);
    GroupsFollow(First(value, prefix, flags), more, rest);
    if value < mask {
      assert more + rest == rest;
    } else {
      assert Weight(0) == 1;
      GroupsRoundTrip(value - mask, mask, 0, rest);
    }
  }

  lemma GroupsFollow(first: byte, groups: seq<byte>, rest: seq<byte>)
    ensures ([first] + groups + rest)[1..] == groups + rest
  {
  }

  lemma FlagsSplit(flags: byte, low: nat, prefix: nat)
    requires 1 <= prefix <= 8 && Flags(flags, prefix) && low < Span(prefix)
    ensures Low(flags as int + low, prefix) == low
  {
    ModOfSum(flags as int, low, Span(prefix));
  }

  lemma ModOfSum(f: nat, low: nat, p: nat)
    requires p > 0 && f % p == 0 && low < p
    ensures (f + low) % p == low
  {
    DivModUnique(f + low, p, f / p, low);
  }

  lemma DivModUnique(n: nat, p: nat, q: nat, r: nat)
    requires p > 0 && n == q * p + r && r < p
    ensures n / p == q && n % p == r
  {
    var q', r' := n / p, n % p;
    assert n == q' * p + r';
    if q' < q {
      Scale(q' + 1, q, p);
    } else if q' > q {
      Scale(q + 1, q', p);
    }
  }

  /** A buffer after `text` has been written over it at `len`. */
  function Splice(s: seq<byte>, len: nat, text: seq<byte>): (r: seq<byte>)
    requires len + |text| <= |s|
    ensures |r| == |s|
  {
    s[..len] + text + s[len + |text|..]
  }

  lemma SpliceMore(s: seq<byte>, len: nat, a: seq<byte>, b: seq<byte>)
    requires len + |a| + |b| <= |s|
    ensures Splice(Splice(s, len, a), len + |a|, b) == Splice(s, len, a + b)
  {
  }

  lemma SpliceStep(s: seq<byte>, len: nat, text: seq<byte>, x: byte)
    requires len + |text| < |s|
    ensures Splice(s, len, text)[len + |text| := x] == Splice(s, len, text + [x])
  {
  }

  lemma SpliceFirst(s: seq<byte>, len: nat, x: byte)
    requires len < |s|
    ensures s[len := x] == Splice(s, len, [x])
  {
  }

  lemma SpliceNothing(s: seq<byte>, len: nat)
    requires len <= |s|
    ensures Splice(s, len, []) == s
  {
  }

  /** The continuation loop of `encode_integer`. */
  method PutGroups(value: nat, out: array<byte>, len: nat) returns (r: Result<nat, Fault>)
    requires len <= out.Length
    modifies out
    ensures var text := EncodeGroups(value);
            && (r.Ok? <==> len + |text| <= out.Length)
            && (r.Ok? ==> r.value == len + |text| && out[..] == Splice(old(out[..]), len, text))
            && (r.Err? ==> r.error == BufferTooSmall)
  {
    var at, remaining := len, value;
    ghost var written: seq<byte> := [];
    SpliceNothing(out[..], len);
    while remaining >= 0x80
      invariant at == len + |written| <= out.Length
      invariant out[..] == Splice(old(out[..]), len, written)
      invariant written + EncodeGroups(remaining) == EncodeGroups(value)
    {
      if at >= out.Length {
        return Err(BufferTooSmall);
      }
      var group: byte := remaining % 0x80 + 0x80;
      SpliceStep(old(out[..]), len, written, group);
      GroupsGrow(written, remaining);
      PutByte(out, at, group);
      written := written + [group];
      at := at + 1;
      remaining := remaining / 0x80;
    }
    if at >= out.Length {
      return Err(BufferTooSmall);
    }
    SpliceStep(old(out[..]), len, written, remaining);
    PutByte(out, at, remaining);
    return Ok(at + 1);
  }

  lemma GroupsGrow(written: seq<byte>, remaining: nat)
    requires remaining >= 0x80
    ensures written + [remaining % 0x80 + 0x80] + EncodeGroups(remaining / 0x80) == written + EncodeGroups(remaining)
  {
  }

  method PutByte(out: array<byte>, at: nat, x: byte)
    requires at < out.Length
    modifies out
    ensures out[..] == old(out[..])[at := x]
  {
    out[at] := x;
  }

  /** `encode_integer` writes exactly that encoding at `len`, or fails exactly when it does not fit. */
  method EncodeInteger(value: u64, prefix: nat, flags: byte, out: array<byte>, len: nat) returns (r: Result<nat, Fault>)
    requires 1 <= prefix <= 8 && Flags(flags, prefix)
    modifies out
    ensures var text := EncodeInt(value, prefix, flags);
            && (r.Ok? <==> len + |text| <= out.Length)
            && (r.Ok? ==> r.value == len + |text| && out[..] == Splice(old(out[..]), len, text))
            && (r.Err? ==> r.error == BufferTooSmall)
  {
    var mask := Span(prefix) - 1;
    if len >= out.Length {
      return Err(BufferTooSmall);
    }
    var first := First(value, prefix, flags);
    SpliceFirst(out[..], len, first);
    PutByte(out, len, first);
    if value < mask {
      assert [first] + [] == [first];
      return Ok(len + 1);
    }
    r := PutGroups(value - mask, out, len + 1);
    if r.Ok? {
      SpliceMore(old(out[..]), len, [first], EncodeGroups(value - mask));
    }
  }
}
