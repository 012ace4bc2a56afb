/** Clamping the MSS option of a SYN (`clamp_mss`, firmware/src/nat.rs). */
module NatClamp {
  import opened Common
  import opened Checksum
  import opened NatRewrite

  /** The walk over the options of the segment at `h`, from offset `i`: the MSS option, if it reaches one. */
  function MssAt(p: Packet, h: nat, i: nat, end: nat): (r: Option<nat>)
    requires h + end <= |p|
    ensures r.Some? ==> i <= r.value && r.value + 4 <= end
    decreases end - i
  {
    if i >= end || p[h + i] == OPTION_END then None
    else if p[h + i] == OPTION_NOP then MssAt(p, h, i + 1, end)
    else if i + 1 >= end then None
    else
      var len := p[h + i + 1] as int;
      if len < 2 || i + len > end then None
      else if p[h + i] == OPTION_MSS && len == 4 then Some(i)
      else MssAt(p, h, i + len, end)
  }

  /** The offset of the MSS option that `clamp_mss` would act on. */
  function FindMss(p: Packet): (r: Option<nat>)
    ensures r.Some? ==> TcpOffset(p).Some? && TCP_HEADER_LEN <= r.value && TcpOffset(p).value + r.value + 4 <= |p|
  {
    var offset := TcpOffset(p);
    if offset.None? then None
    else
      var h := offset.value;
      var end := p[h + 12] as int / 16 * 4;
      if p[h + 13] as int / 2 % 2 == 0 || end <= TCP_HEADER_LEN || h + end > |p| then None
      else MssAt(p, h, TCP_HEADER_LEN, end)
  }

  /** MAX_MSS on the wire. */
  const LIMIT: seq<byte> := [4, 216]

  function ClampedAt(p: Packet, h: nat, at: nat): (r: Packet)
    requires h + TCP_HEADER_LEN <= |p| && h + at + 2 <= |p|
    ensures |r| == |p|
  {
    var sum := Adjust(Word16(p, h + 16), [p[h + at], p[h + at + 1]], LIMIT);
    Put(Put(p, h + 16, Bytes16(sum)), h + at, LIMIT)
  }

  function Clamped(p: Packet): (r: Packet)
    ensures |r| == |p|
  {
    var found := FindMss(p);
    if found.None? then p
    else
      var h := TcpOffset(p).value;
      if Word16(p, h + found.value + 2) > MAX_MSS then ClampedAt(p, h, found.value + 2) else p
  }

  /** The loop of `clamp_mss` over the options. */
  method WalkOptions(packet: array<byte>, h: nat, end: nat) returns (r: Option<nat>)
    requires h + end <= packet.Length
    ensures r == MssAt(packet[..], h, TCP_HEADER_LEN, end)
  {
    ghost var p := packet[..];
    var i := TCP_HEADER_LEN;
    while i < end
      invariant TCP_HEADER_LEN <= i
      invariant MssAt(p, h, i, end) == MssAt(p, h, TCP_HEADER_LEN, end)
    {
      var kind := packet[h + i];
      if kind == OPTION_END {
        return None;
      }
      if kind == OPTION_NOP {
        i := i + 1;
        continue;
      }
      if i + 1 >= end {
        return None;
      }
      var len := packet[h + i + 1] as int;
      if len < 2 || i + len > end {
        return None;
      }
      if kind == OPTION_MSS && len == 4 {
        return Some(i);
      }
      i := i + len;
    }
    return None;
  }

  method ClampMss(packet: array<byte>)
    modifies packet
    ensures packet[..] == Clamped(old(packet[..]))
  {
    hide MssAt, ClampedAt;
    var offset := TcpOffset(packet[..]);
    if offset.None? {
      return;
    }
    var h := offset.value;
    if packet[h + 13] as int / 2 % 2 == 0 {
      return;
    }
    var end := packet[h + 12] as int / 16 * 4;
    if end <= TCP_HEADER_LEN || h + end > packet.Length {
      return;
    }
    var found := WalkOptions(packet, h, end);
    if found.Some? {
      var at := found.value + 2;
      var mss := packet[h + at] as int * 256 + packet[h + at + 1] as int;
      if mss > MAX_MSS {
        Lower(packet, h, at);
      }
    }
  }

  /** Write the limit over an MSS value and adjust the checksum for it. */
  method Lower(packet: array<byte>, h: nat, at: nat)
    requires h + TCP_HEADER_LEN <= packet.Length && h + at + 2 <= packet.Length
    modifies packet
    ensures packet[..] == ClampedAt(old(packet[..]), h, at)
  {
    hide WordSum, Fold, Acc;
    var sum: u16 := packet[h + 16] as int * 256 + packet[h + 17] as int;
    sum := AdjustChecksum(sum, [packet[h + at], packet[h + at + 1]], LIMIT);
    CopyInto(packet, h + 16, Bytes16(sum));
    CopyInto(packet, h + at, LIMIT);
  }

  // ---------------------------------------------------------------------
  // Which packets are clamped, over their bytes.

  /** A TCP option other than the end of the list and a well-formed MSS. */
  datatype Passed = Nop | Other(kind: byte, body: seq<byte>)

  predicate WellFormed(o: Passed) {
    o.Other? ==> o.kind > 1 && |o.body| <= 253 && !(o.kind == 2 && |o.body| == 2)
  }

  function OptionBytes(o: Passed): (s: seq<byte>)
    requires WellFormed(o)
    ensures s != []
  {
    match o
    case Nop => [1]
    case Other(kind, body) => [kind, (|body| + 2) as byte] + body
  }

  function OptionsBytes(os: seq<Passed>): seq<byte>
    requires forall i :: 0 <= i < |os| ==> WellFormed(os[i])
  {
    if os == [] then [] else OptionBytes(os[0]) + OptionsBytes(os[1..])
  }

  function HeaderLen(p: Packet): nat
    requires p != []
  {
    p[0] as int % 16 * 4
  }

  /** An IPv4 TCP packet with the SYN bit set and room for options, whatever its other flags. */
  predicate Syn(p: Packet) {
    && |p| >= 20 && p[0] / 16 == 4 && p[9] == 6
    && var h := HeaderLen(p);
       && h + 20 <= |p|
       && p[h + 13] as int / 2 % 2 == 1
       && 20 < p[h + 12] as int / 16 * 4 <= |p| - h
  }

  function Options(p: Packet): seq<byte>
    requires Syn(p)
  {
    var h := HeaderLen(p);
    p[h + 20..h + p[h + 12] as int / 16 * 4]
  }

  /** Bytes that begin with `os` and then a four-byte MSS option. */
  predicate MssBehind(s: seq<byte>, os: seq<Passed>) {
    && (forall i :: 0 <= i < |os| ==> WellFormed(os[i]))
    && OptionsBytes(os) + [2, 4] <= s && |OptionsBytes(os)| + 4 <= |s|
  }

  predicate StartsWithMss(s: seq<byte>) {
    |s| >= 4 && s[0] == 2 && s[1] == 4
  }

  /** How far the walk moves on over an option that is not the MSS; nothing when it stops. */
  function Advance(s: seq<byte>): (r: Option<nat>)
    ensures r.Some? ==> 1 <= r.value <= |s|
  {
    if s == [] || s[0] == 0 then None
    else if s[0] == 1 then Some(1)
    else if |s| < 2 || s[1] < 2 || s[1] as int > |s| then None
    else Some(s[1] as int)
  }

  /** The walk over what is left of the options. */
  function MssIn(s: seq<byte>): (r: Option<nat>)
    ensures r.Some? ==> r.value + 4 <= |s|
  {
    if StartsWithMss(s) then Some(0)
    else if Advance(s).None? then None
    else
      var rest := MssIn(s[Advance(s).value..]);
      if rest.None? then None else Some(Advance(s).value + rest.value)
  }

  lemma WalkStep(p: Packet, h: nat, i: nat, end: nat)
    requires h + end <= |p| && i <= end
    ensures var s := p[h + i..h + end];
            if StartsWithMss(s) then MssAt(p, h, i, end) == Some(i)
            else if Advance(s).None? then MssAt(p, h, i, end) == None
            else MssAt(p, h, i, end) == MssAt(p, h, i + Advance(s).value, end)
  {
    var s := p[h + i..h + end];
    assert |s| > 0 ==> s[0] == p[h + i];
    assert |s| > 1 ==> s[1] == p[h + i + 1];
  }

  lemma {:induction false} WalkIsSuffixWalk(p: Packet, h: nat, i: nat, end: nat)
    requires h + end <= |p| && i <= end
    ensures var r := MssIn(p[h + i..h + end]);
            MssAt(p, h, i, end) == if r.None? then None else Some(i + r.value)
    decreases end - i
  {
    hide MssAt, Advance;
    var s := p[h + i..h + end];
    WalkStep(p, h, i, end);
    if !StartsWithMss(s) && Advance(s).Some? {
      var len := Advance(s).value;
      assert s[len..] == p[h + (i + len)..h + end];
      WalkIsSuffixWalk(p, h, i + len, end);
    }
  }

  /** The walk passes over well-formed options and stops at the MSS behind them. */
  lemma {:induction false} WalkFinds(s: seq<byte>, os: seq<Passed>)
    requires MssBehind(s, os)
    ensures MssIn(s) == Some(|OptionsBytes(os)|)
    decreases |os|
  {
    if os != [] {
      BehindTheFirst(s, os);
      AdvancesOver(s, os[0]);
      WalkFinds(s[|OptionBytes(os[0])|..], os[1..]);
      hide OptionBytes, OptionsBytes, Advance, StartsWithMss, MssBehind;
    }
  }

  lemma BehindTheFirst(s: seq<byte>, os: seq<Passed>)
    requires MssBehind(s, os) && os != []
    ensures OptionBytes(os[0]) <= s && MssBehind(s[|OptionBytes(os[0])|..], os[1..])
    ensures |OptionsBytes(os)| == |OptionBytes(os[0])| + |OptionsBytes(os[1..])|
  {
    hide OptionBytes;
    Regrouped(OptionBytes(os[0]), OptionsBytes(os[1..]), [2, 4], s);
  }

  lemma AdvancesOver(s: seq<byte>, o: Passed)
    requires WellFormed(o) && OptionBytes(o) <= s
    ensures !StartsWithMss(s) && Advance(s) == Some(|OptionBytes(o)|)
  {
    assert s[0] == OptionBytes(o)[0];
    assert o.Other? ==> s[1] == OptionBytes(o)[1];
  }

  lemma Regrouped(a: seq<byte>, b: seq<byte>, c: seq<byte>, s: seq<byte>)
    requires a + b + c <= s
    ensures a <= s && b + c <= s[|a|..]
  {
    assert s[..|a| + |b| + |c|] == a + b + c;
    assert s[|a|..][..|b| + |c|] == (a + b + c)[|a|..] == b + c;
  }

  /** What the walk stops at is behind well-formed options. */
  lemma {:induction false} WalkFound(s: seq<byte>) returns (os: seq<Passed>)
    requires MssIn(s).Some?
    ensures MssBehind(s, os) && MssIn(s) == Some(|OptionsBytes(os)|)
    decreases |s|
  {
    if StartsWithMss(s) {
      os := [];
    } else {
      var o := OptionRead(s);
      hide OptionBytes, Advance, StartsWithMss;
      var rest := WalkFound(s[Advance(s).value..]);
      os := [o] + rest;
      assert os[1..] == rest;
      Joined(OptionBytes(o), OptionsBytes(rest), [2, 4], s);
    }
  }

  lemma OptionRead(s: seq<byte>) returns (o: Passed)
    requires !StartsWithMss(s) && Advance(s).Some?
    ensures WellFormed(o) && OptionBytes(o) == s[..Advance(s).value]
  {
    o := if s[0] == 1 then Nop else Other(s[0], s[2..s[1] as int]);
  }

  lemma Joined(a: seq<byte>, b: seq<byte>, c: seq<byte>, s: seq<byte>)
    requires a <= s && b + c <= s[|a|..]
    ensures a + b + c <= s
  {
    assert s == a + s[|a|..];
  }

  /**
   A SYN, SYN-ACK included, with an MSS behind well-formed options leaves with the
   lesser of that MSS and 1240, and otherwise only its checksum differs.
   */
  lemma MssIsLowered(p: Packet, os: seq<Passed>)
    requires Syn(p) && MssBehind(Options(p), os)
    ensures Lowered(p, Clamped(p), HeaderLen(p) + 16, HeaderLen(p) + 22 + |OptionsBytes(os)|)
  {
    hide HeaderLen, MssIn, OptionsBytes, OptionBytes, ClampedAt, FindMss, Lowered, TcpOffset;
    FindsMss(p);
    WalkFinds(Options(p), os);
    ClampedWhere(p, HeaderLen(p), 20 + |OptionsBytes(os)|);
  }

  lemma FindsMss(p: Packet)
    ensures if !Syn(p) then FindMss(p) == None
            else
              && TcpOffset(p) == Some(HeaderLen(p))
              && FindMss(p) == if MssIn(Options(p)).None? then None else Some(20 + MssIn(Options(p)).value)
  {
    hide MssAt, MssIn;
    if Syn(p) {
      var h := HeaderLen(p);
      WalkIsSuffixWalk(p, h, 20, p[h + 12] as int / 16 * 4);
    }
  }

  /** The value at `at` is the lesser of what it was and 1240, and only it and the checksum may differ. */
  predicate Lowered(p: Packet, r: Packet, sum: nat, at: nat)
    requires at + 2 <= |p|
  {
    var mss := p[at] as int * 256 + p[at + 1] as int;
    && |r| == |p|
    && r[at] as int * 256 + r[at + 1] as int == (if mss <= 1240 then mss else 1240)
    && (mss <= 1240 ==> r == p)
    && forall i :: 0 <= i < |p| && i != at && i != at + 1 && i != sum && i != sum + 1 ==> r[i] == p[i]
  }

  lemma ClampedWhere(p: Packet, h: nat, at: nat)
    requires TcpOffset(p) == Some(h) && FindMss(p) == Some(at)
    ensures Lowered(p, Clamped(p), h + 16, h + at + 2)
  {
    hide Adjust, FindMss, TcpOffset;
  }

  /** Nothing else is touched: a packet that changes is such a SYN with a greater MSS. */
  lemma OnlySynsAreTouched(p: Packet) returns (os: seq<Passed>)
    requires Clamped(p) != p
    ensures Syn(p) && MssBehind(Options(p), os)
    ensures var at := HeaderLen(p) + 22 + |OptionsBytes(os)|;
            p[at] as int * 256 + p[at + 1] as int > 1240
  {
    hide ClampedAt, FindMss, MssIn, OptionsBytes;
    FindsMss(p);
    os := WalkFound(Options(p));
  }

  // ---------------------------------------------------------------------
  // The checksum afterwards.

  /** Two neighbouring bytes changed. */
  lemma PutPair(s: seq<byte>, at: nat, w: seq<byte>)
    requires at + 2 <= |s| && |w| == 2
    ensures WordSum(Put(s, at, w)) ==
            WordSum(s) + (w[0] as int - s[at] as int) * Weight(at) + (w[1] as int - s[at + 1] as int) * Weight(at + 1)
  {
    hide WordSum;
    ChangeByte(s, at, w[0]);
    ChangeByte(s[at := w[0]], at + 1, w[1]);
    assert Put(s, at, w) == s[at := w[0]][at + 1 := w[1]];
  }

  /** How far the covered sum moves: not at all when the value sits on a word,
      and by 255 times the skew of its two bytes when it straddles two. */
  function Skew(p: Packet, at: nat): int
    requires at + 2 <= |p|
  {
    if at % 2 == 0 then 0 else p[at] as int - p[at + 1] as int + 212
  }

  lemma SegmentClamped(seg: seq<byte>, at: nat, sum: u16)
    requires |seg| >= TCP_HEADER_LEN && TCP_HEADER_LEN <= at && at + 2 <= |seg|
    requires sum == Adjust(Word16(seg, 16), [seg[at], seg[at + 1]], LIMIT)
    ensures Same(WordSum(Put(Put(seg, 16, Bytes16(sum)), at, LIMIT)), WordSum(seg) + 255 * Skew(seg, at))
  {
    hide WordSum, Adjust, Weight, Same, Put;
    var one := Put(seg, 16, Bytes16(sum));
    var hi, lo, skew := seg[at] as int, seg[at + 1] as int, 255 * Skew(seg, at);
    PutWord(seg, 16, sum);
    PutPair(one, at, LIMIT);
    assert one[at] == seg[at] && one[at + 1] == seg[at + 1];
    var old_ := [seg[at], seg[at + 1]];
    AdjustBalances(Word16(seg, 16), old_, LIMIT);
    Pair(old_);
    Pair(LIMIT);
    ByteSkew(hi, lo, at, skew);
    SameMoves(sum + 1240, Word16(seg, 16) + WordSum(old_), WordSum(Put(one, at, LIMIT)), WordSum(seg) + skew);
  }

  lemma ByteSkew(hi: int, lo: int, at: nat, skew: int)
    requires skew == if at % 2 == 0 then 0 else 255 * (hi - lo + 212)
    ensures (4 - hi) * Weight(at) + (216 - lo) * Weight(at + 1) - skew == 1240 - (hi * 256 + lo)
  {
  }

  /** Writing past `h` is writing into the part from `h` on. */
  lemma PutBeyond(s: seq<byte>, h: nat, at: nat, w: seq<byte>)
    requires h + at + |w| <= |s|
    ensures Put(s, h + at, w)[h..] == Put(s[h..], at, w)
  {
    var a, b := Put(s, h + at, w)[h..], Put(s[h..], at, w);
    assert |a| == |b|;
    forall i | 0 <= i < |a| ensures a[i] == b[i] {
      assert a[i] == Put(s, h + at, w)[h + i];
    }
  }

  lemma ClampedShape(p: Packet, at: nat)
    requires Tcp(p) && TCP_HEADER_LEN <= at && Offset(p) + at + 2 <= |p|
    ensures var r, h := ClampedAt(p, Offset(p), at), Offset(p);
            Tcp(r) && Offset(r) == h && r[12..20] == p[12..20]
  {
    hide Adjust;
    var h := Offset(p);
    var sum := Adjust(Word16(p, h + 16), [p[h + at], p[h + at + 1]], LIMIT);
    var one := Put(p, h + 16, Bytes16(sum));
    SameShape(p, Put(one, h + at, LIMIT));
    SliceAway(p, h + 16, Bytes16(sum), 12, 20);
    SliceAway(one, h + at, LIMIT, 12, 20);
  }

  lemma ClampedParts(p: Packet, at: nat)
    requires Tcp(p) && TCP_HEADER_LEN <= at && Offset(p) + at + 2 <= |p|
    ensures var r, h := ClampedAt(p, Offset(p), at), Offset(p);
            && Tcp(r) && Offset(r) == h
            && r[12..20] == p[12..20]
            && Same(WordSum(r[h..]), WordSum(p[h..]) + 255 * Skew(p, h + at))
  {
    ClampedShape(p, at);
    ClampedSegment(p, Offset(p), at);
  }

  /** The segment alone, wherever a word-aligned header ends. */
  lemma ClampedSegment(p: Packet, h: nat, at: nat)
    requires h % 4 == 0 && TCP_HEADER_LEN <= at && h + at + 2 <= |p|
    ensures Same(WordSum(ClampedAt(p, h, at)[h..]), WordSum(p[h..]) + 255 * Skew(p, h + at))
  {
    hide WordSum, Adjust, Put, Same, Skew;
    var seg := p[h..];
    var sum := Adjust(Word16(p, h + 16), [p[h + at], p[h + at + 1]], LIMIT);
    PutBeyond(p, h, 16, Bytes16(sum));
    PutBeyond(Put(p, h + 16, Bytes16(sum)), h, at, LIMIT);
    SegmentReads(p, h, at);
    SegmentClamped(seg, at, sum);
  }

  lemma SegmentReads(p: Packet, h: nat, at: nat)
    requires h % 4 == 0 && TCP_HEADER_LEN <= at && h + at + 2 <= |p|
    ensures Word16(p[h..], 16) == Word16(p, h + 16)
    ensures [p[h..][at], p[h..][at + 1]] == [p[h + at], p[h + at + 1]]
    ensures Skew(p[h..], at) == Skew(p, h + at)
  {
  }

  /** Where the MSS value straddles two words and the two bytes are not skewed just so. */
  predicate Spoils(p: Packet)
    requires Tcp(p)
  {
    var found := FindMss(p);
    found.Some? &&
    var at := Offset(p) + found.value + 2;
    Word16(p,
        at) > MAX_MSS && at % 2 == 1 && p[at + 1] as int - p[at] as int != 212 && p[at] as int - p[at + 1] as int != 45
  }

  /**
   Exactly when clamping keeps a valid TCP checksum valid: unless the MSS is
   lowered at an odd offset, where it survives only for the byte pairs whose
   skew happens to vanish modulo 257.
   */
  lemma ClampKeepsTcpChecksumIff(p: Packet)
    requires Tcp(p) && TcpValid(p)
    ensures var r := Clamped(p);
            Tcp(r) && Offset(r) == Offset(p) && (TcpValid(r) <==> !Spoils(p))
  {
    hide ClampedAt, MssAt, TcpValid, TcpOffset;
    var found := FindMss(p);
    if found.Some? && Word16(p, Offset(p) + found.value + 2) > MAX_MSS {
      ClampedResidue(p, found.value + 2);
    }
  }

  lemma ClampedResidue(p: Packet, at: nat)
    requires Tcp(p) && TcpValid(p) && TCP_HEADER_LEN <= at && Offset(p) + at + 2 <= |p|
    ensures var r := ClampedAt(p, Offset(p), at);
            var x := Skew(p, Offset(p) + at);
            Tcp(r) && Offset(r) == Offset(p) && (TcpValid(r) <==> x == 0 || x == 257)
  {
    hide WordSum, Adjust, Fold, TcpOffset;
    var h, x := Offset(p), Skew(p, Offset(p) + at);
    ClampedParts(p, at);
    var r := ClampedAt(p, h, at);
    SameMoves(WordSum(r[h..]), WordSum(p[h..]) + 255 * x, Covered(r), Covered(p) + 255 * x);
    SkewedResidue(Covered(p), Covered(r), x);
  }

  lemma SkewedResidue(a: nat, b: nat, x: int)
    requires a > 0 && b > 0 && Same(b, a + 255 * x) && Fold(a) == ONES && -257 < x < 514
    ensures Fold(b) == ONES <==> x == 0 || x == 257
  {
    FoldsToOnes(a);
    FoldsToOnes(b);
    hide Fold;
    var q := (b - (a + 255 * x)) / ONES;
    assert b == a + 255 * x + ONES * q;
    CarryKeepsResidue(a + 255 * x, q);
    var k := a / ONES;
    assert a == ONES * k;
    CarryKeepsResidue(255 * x, k);
    assert (255 * x) % ONES == 0 <==> x % 257 == 0;
  }

  /**
   The whole path of a SYN through the gateway: clamped and then translated at
   either end, a packet with a twenty-byte IP header and a valid TCP checksum
   comes out with both checksums valid, unless its MSS sits at a spoiling odd
   offset, and then the TCP checksum comes out wrong.
   */
  lemma GatewayKeepsChecksums(p: Packet, end: End, ip: seq<byte>, port: u16)
    requires Tcp(p) && TcpValid(p) && Offset(p) == IPV4_HEADER_LEN && |ip| == 4
    ensures Tcp(Clamped(p))
    ensures var r := Rewrite(Clamped(p), end, ip, port);
            Tcp(r) && IpValid(r) && (TcpValid(r) <==> !Spoils(p))
  {
    ClampKeepsTcpChecksumIff(p);
    RewriteKeepsTcpChecksum(Clamped(p), end, ip, port);
    RewriteIpChecksumIff(Clamped(p), end, ip, port);
  }
}
