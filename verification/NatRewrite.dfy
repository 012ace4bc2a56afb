/**
 Translating TCP segments in place (firmware/src/nat.rs): addresses, ports and
 the MSS option change, and the checksums are carried along incrementally.
 */
module NatRewrite {
  import opened Common
  import opened Checksum

  const IPV4_HEADER_LEN := 20
  const TCP_HEADER_LEN := 20
  const PROTO_TCP := 6
  const MAX_MSS := 1240
  const OPTION_END := 0
  const OPTION_NOP := 1
  const OPTION_MSS := 2

  type Packet = seq<byte>

  /** Where the TCP header starts, if the packet looks like IPv4 TCP. */
  function TcpOffset(p: Packet): (r: Option<nat>)
    ensures r.Some? ==> r.value % 4 == 0 && r.value <= 60 && r.value + TCP_HEADER_LEN <= |p| && |p| >= IPV4_HEADER_LEN
  {
    if |p| < IPV4_HEADER_LEN || p[0] / 16 != 4 || p[9] != PROTO_TCP then None
    else
      var h := p[0] as int % 16 * 4;
      if |p| < h + TCP_HEADER_LEN then None else Some(h)
  }

  /** A TCP packet whose IP header is at least the standard twenty bytes. */
  predicate Tcp(p: Packet) {
    TcpOffset(p).Some? && TcpOffset(p).value >= IPV4_HEADER_LEN
  }

  function Offset(p: Packet): nat
    requires Tcp(p)
  {
    TcpOffset(p).value
  }

  /** The words a TCP checksum covers: addresses, protocol, length and the whole segment. */
  function Covered(p: Packet): (n: nat)
    requires Tcp(p)
    ensures n > 0
  {
    WordSum(p[12..20]) + PROTO_TCP + (|p| - Offset(p)) + WordSum(p[Offset(p)..])
  }

  predicate TcpValid(p: Packet)
    requires Tcp(p)
  {
    Fold(Covered(p)) == ONES
  }

  predicate IpValid(p: Packet)
    requires Tcp(p)
  {
    Fold(WordSum(p[..Offset(p)])) == ONES
  }

  // ---------------------------------------------------------------------
  // The rewrites, as functions of the packet.

  function FixIp(p: Packet): (r: Packet)
    requires |p| >= IPV4_HEADER_LEN
    ensures |r| == |p|
  {
    var z := Put(p, 10, [0, 0]);
    Put(z, 10, Bytes16(Complement(WordSum(z[..IPV4_HEADER_LEN]))))
  }

  /** Which end of the segment is translated. */
  datatype End = Source | Destination

  function AddressAt(end: End): nat {
    if end == Source then 12 else 16
  }

  function PortAt(end: End): nat {
    if end == Source then 0 else 2
  }

  /** The checksum field after both updates. */
  function NewSum(p: Packet, h: nat, end: End, ip: seq<byte>, port: u16): u16
    requires IPV4_HEADER_LEN <= h && h + TCP_HEADER_LEN <= |p| && |ip| == 4
  {
    var sum := Adjust(Word16(p, h + 16), p[AddressAt(end)..AddressAt(end) + 4], ip);
    Adjust(sum, p[h + PortAt(end)..h + PortAt(end) + 2], Bytes16(port))
  }

  /** The packet with address, port and TCP checksum replaced, before the IP checksum. */
  function Replaced(p: Packet, h: nat, end: End, ip: seq<byte>, port: u16, sum: u16): (r: Packet)
    requires IPV4_HEADER_LEN <= h && h + TCP_HEADER_LEN <= |p| && |ip| == 4
    ensures |r| == |p|
  {
    Put(Put(Put(p, h + 16, Bytes16(sum)), h + PortAt(end), Bytes16(port)), AddressAt(end), ip)
  }

  function Rewrite(p: Packet, end: End, ip: seq<byte>, port: u16): (r: Packet)
    requires Tcp(p) && |ip| == 4
    ensures |r| == |p|
  {
    FixIp(Replaced(p, Offset(p), end, ip, port, NewSum(p, Offset(p), end, ip, port)))
  }

  // ---------------------------------------------------------------------
  // The methods.

  method CopyInto(packet: array<byte>, at: nat, w: seq<byte>)
    requires at + |w| <= packet.Length
    modifies packet
    ensures packet[..] == Put(old(packet[..]), at, w)
  {
    forall i | 0 <= i < |w| {
      packet[at + i] := w[i];
    }
    assert forall i :: at <= i < at + |w| ==> packet[i] == w[i - at] by {
      forall i | at <= i < at + |w| ensures packet[i] == w[i - at] {
        assert packet[at + (i - at)] == w[i - at];
      }
    }
  }

  method RewriteIpChecksum(packet: array<byte>)
    requires packet.Length >= IPV4_HEADER_LEN
    modifies packet
    ensures packet[..] == FixIp(old(packet[..]))
  {
    CopyInto(packet, 10, [0, 0]);
    var sum := ComputeChecksum(packet[..IPV4_HEADER_LEN]);
    assert packet[..IPV4_HEADER_LEN] == packet[..][..IPV4_HEADER_LEN];
    CopyInto(packet, 10, Bytes16(sum));
  }

  /** The body of both rewrites, once the header has been recognised. */
  method RewriteAt(packet: array<byte>, h: nat, end: End, ip: seq<byte>, port: u16)
    requires IPV4_HEADER_LEN <= h && h + TCP_HEADER_LEN <= packet.Length && |ip| == 4
    modifies packet
    ensures packet[..] == FixIp(Replaced(old(packet[..]), h, end, ip, port, NewSum(old(packet[..]), h, end, ip, port)))
  {
    hide WordSum, Fold, Acc;
    var a, b := AddressAt(end), h + PortAt(end);
    var sum: u16 := packet[h + 16] as int * 256 + packet[h + 17] as int;
    assert packet[a..a + 4] == packet[..][a..a + 4] && packet[b..b + 2] == packet[..][b..b + 2];
    sum := AdjustChecksum(sum, packet[a..a + 4], ip);
    sum := AdjustChecksum(sum, packet[b..b + 2], Bytes16(port));
    CopyInto(packet, h + 16, Bytes16(sum));
    CopyInto(packet, b, Bytes16(port));
    CopyInto(packet, a, ip);
    RewriteIpChecksum(packet);
  }

  /** `rewrite_tcp_outbound` and `rewrite_tcp_inbound`, which differ only in the end they
      rewrite. The source indexes out of range when the header claims fewer than twenty bytes. */
  method RewriteTcp(packet: array<byte>, end: End, ip: seq<byte>, port: u16) returns (ok: bool)
    requires |ip| == 4
    requires TcpOffset(packet[..]).Some? ==> TcpOffset(packet[..]).value >= IPV4_HEADER_LEN
    modifies packet
    ensures ok <==> TcpOffset(old(packet[..])).Some?
    ensures packet[..] == if ok then Rewrite(old(packet[..]), end, ip, port) else old(packet[..])
  {
    var offset := TcpOffset(packet[..]);
    if offset.None? {
      return false;
    }
    RewriteAt(packet, offset.value, end, ip, port);
    return true;
  }

  // ---------------------------------------------------------------------
  // What a rewrite does to the checksums.

  lemma SliceOfSlice(s: seq<byte>, i: nat, j: nat, k: nat, l: nat)
    requires i <= j <= |s| && k <= l <= j - i
    ensures s[i..j][k..l] == s[i + k..i + l]
  {
    var a, b := s[i..j][k..l], s[i + k..i + l];
    assert |a| == |b|;
    forall m | 0 <= m < |a| ensures a[m] == b[m] {
      assert a[m] == s[i..j][k + m] == s[i + k + m];
    }
  }

  lemma SliceAway(s: seq<byte>, at: nat, w: seq<byte>, i: nat, j: nat)
    requires at + |w| <= |s| && i <= j <= |s| && (j <= at || at + |w| <= i)
    ensures Put(s, at, w)[i..j] == s[i..j]
  {
  }

  lemma SliceAgrees(s: seq<byte>, t: seq<byte>, i: nat, j: nat)
    requires i <= j <= |s| == |t| && forall k :: i <= k < j ==> s[k] == t[k]
    ensures s[i..j] == t[i..j]
  {
  }

  /** The checks on the header read bytes no rewrite touches. */
  lemma SameShape(p: Packet, q: Packet)
    requires Tcp(p) && |q| == |p| && q[0] == p[0] && q[9] == p[9]
    ensures Tcp(q) && Offset(q) == Offset(p)
  {
  }

  /** `FixIp` changes bytes 10 and 11 only. */
  lemma FixIpLeaves(p: Packet)
    requires |p| >= IPV4_HEADER_LEN
    ensures forall i :: 0 <= i < |p| && i != 10 && i != 11 ==> FixIp(p)[i] == p[i]
  {
  }

  /** The header checksum comes out right over the first twenty bytes. */
  lemma FixIpBalances(p: Packet)
    requires |p| >= IPV4_HEADER_LEN
    ensures Same(WordSum(FixIp(p)[..IPV4_HEADER_LEN]), 0)
  {
    var z := Put(p, 10, [0, 0]);
    var head := z[..20];
    var sum := Complement(WordSum(head));
    assert FixIp(p)[..20] == Put(head, 10, Bytes16(sum));
    PutSum(head, 10, Bytes16(sum));
    SliceAgrees(head, Put(head, 10, [0, 0]), 10, 12);
    assert Put(head, 10, [0, 0])[10..12] == [0, 0];
    Pair([0, 0]);
    ComplementCancels(WordSum(head));
  }

  /** What the replacements leave of the parts the checksums look at. */
  lemma ReplacedParts(p: Packet, h: nat, end: End, ip: seq<byte>, port: u16, sum: u16)
    requires IPV4_HEADER_LEN <= h && h + TCP_HEADER_LEN <= |p| && |ip| == 4
    ensures var r := Replaced(p, h, end, ip, port, sum);
            && r[12..20] == Put(p[12..20], AddressAt(end) - 12, ip)
            && r[h..] == Put(Put(p[h..], 16, Bytes16(sum)), PortAt(end), Bytes16(port))
            && r[20..h] == p[20..h] && r[0] == p[0] && r[9] == p[9]
  {
  }

  lemma RewriteParts(p: Packet, end: End, ip: seq<byte>, port: u16)
    requires Tcp(p) && |ip| == 4
    ensures var r, h := Rewrite(p, end, ip, port), Offset(p);
            && Tcp(r) && Offset(r) == h && r[0] > 0
            && r[12..20] == Put(p[12..20], AddressAt(end) - 12, ip)
            && r[h..] == Put(Put(p[h..], 16, Bytes16(NewSum(p, h, end, ip, port))), PortAt(end), Bytes16(port))
            && r[20..h] == p[20..h]
            && Same(WordSum(r[..IPV4_HEADER_LEN]), 0)
  {
    var h := Offset(p);
    var sum := NewSum(p, h, end, ip, port);
    var q := Replaced(p, h, end, ip, port, sum);
    ReplacedParts(p, h, end, ip, port, sum);
    FixIpLeaves(q);
    FixIpBalances(q);
    var r := FixIp(q);
    SameShape(p, r);
    SliceAgrees(r, q, 12, 20);
    SliceAgrees(r, q, h, |p|);
    SliceAgrees(r, q, 20, h);
  }

  /** The segment's sum once its checksum and port have been replaced. */
  lemma SegmentSum(seg: seq<byte>, b: nat, sum: u16, port: u16)
    requires |seg| >= TCP_HEADER_LEN && (b == 0 || b == 2)
    ensures WordSum(Put(Put(seg, 16, Bytes16(sum)), b, Bytes16(port)))
         == WordSum(seg) - Word16(seg, 16) + sum - Word16(seg, b) + port
  {
    hide WordSum, Put, Bytes16, Word16;
    var one := Put(seg, 16, Bytes16(sum));
    PutWord(seg, 16, sum);
    PutWord(one, b, port);
    WordAway(seg, 16, Bytes16(sum), b);
  }

  lemma WordAway(s: seq<byte>, at: nat, w: seq<byte>, b: nat)
    requires at + |w| <= |s| && b + 2 <= at
    ensures Word16(Put(s, at, w), b) == Word16(s, b)
  {
  }

  lemma PutWord(s: seq<byte>, at: nat, x: u16)
    requires at + 2 <= |s| && at % 2 == 0
    ensures WordSum(Put(s, at, Bytes16(x))) == WordSum(s) - Word16(s, at) + x
  {
    PutSum(s, at, Bytes16(x));
    WordIsSum(s, at);
  }

  /** The two updates together make up for the address and the port. */
  lemma NewSumBalances(p: Packet, h: nat, end: End, ip: seq<byte>, port: u16)
    requires IPV4_HEADER_LEN <= h && h + TCP_HEADER_LEN <= |p| && |ip| == 4
    ensures Same(NewSum(p, h, end, ip, port) + port + WordSum(ip),
                 Word16(p, h + 16) + Word16(p, h + PortAt(end)) + WordSum(p[AddressAt(end)..AddressAt(end) + 4]))
  {
    hide WordSum, Fold, Acc;
    var oldIp := p[AddressAt(end)..AddressAt(end) + 4];
    var oldPort := p[h + PortAt(end)..h + PortAt(end) + 2];
    var first := Adjust(Word16(p, h + 16), oldIp, ip);
    AdjustBalances(Word16(p, h + 16), oldIp, ip);
    AdjustBalances(first, oldPort, Bytes16(port));
    WordIsSum(p, h + PortAt(end));
    SameAdds(Word16(p, h + 16) + WordSum(oldIp), first + WordSum(ip), first + WordSum(oldPort),
             NewSum(p, h, end, ip, port) + port);
  }

  lemma SameAdds(a: int, b: int, c: int, d: int)
    requires Same(b, a) && Same(d, c)
    ensures Same(b + d, a + c)
  {
  }

  lemma SameMoves(a: int, b: int, c: int, d: int)
    requires Same(a, b) && c - d == a - b
    ensures Same(c, d)
  {
  }

  lemma AddressSum(p: Packet, end: End, ip: seq<byte>)
    requires |p| >= IPV4_HEADER_LEN && |ip| == 4
    ensures WordSum(Put(p[12..20], AddressAt(end) - 12, ip))
         == WordSum(p[12..20]) - WordSum(p[AddressAt(end)..AddressAt(end) + 4]) + WordSum(ip)
  {
    hide WordSum;
    var a := AddressAt(end) - 12;
    PutSum(p[12..20], a, ip);
    SliceOfSlice(p, 12, 20, a, a + 4);
  }

  lemma SegmentSumAt(p: Packet, h: nat, end: End, sum: u16, port: u16)
    requires IPV4_HEADER_LEN <= h && h + TCP_HEADER_LEN <= |p|
    ensures WordSum(Put(Put(p[h..], 16, Bytes16(sum)), PortAt(end), Bytes16(port)))
         == WordSum(p[h..]) - Word16(p, h + 16) + sum - Word16(p, h + PortAt(end)) + port
  {
    hide WordSum;
    SegmentSum(p[h..], PortAt(end), sum, port);
  }

  lemma RewriteBalances(p: Packet, end: End, ip: seq<byte>, port: u16)
    requires Tcp(p) && |ip| == 4
    ensures var r := Rewrite(p, end, ip, port);
            Tcp(r) && Same(Covered(r), Covered(p))
  {
    hide WordSum, Adjust, NewSum, Rewrite;
    var h := Offset(p);
    var sum := NewSum(p, h, end, ip, port);
    RewriteParts(p, end, ip, port);
    AddressSum(p, end, ip);
    SegmentSumAt(p, h, end, sum, port);
    NewSumBalances(p, h, end, ip, port);
    CoveredMoves(p, Rewrite(p, end, ip, port), end, ip, port, sum);
  }

  lemma CoveredMoves(p: Packet, r: Packet, end: End, ip: seq<byte>, port: u16, sum: u16)
    requires Tcp(p) && Tcp(r) && |r| == |p| && Offset(r) == Offset(p) && |ip| == 4
    requires WordSum(r[12..20]) == WordSum(p[12..20]) - WordSum(p[AddressAt(end)..AddressAt(end) + 4]) + WordSum(ip)
    requires var h := Offset(p);
             WordSum(r[h..]) == WordSum(p[h..]) - Word16(p, h + 16) + sum - Word16(p, h + PortAt(end)) + port
    requires var h := Offset(p);
             Same(sum + port + WordSum(ip),
                  Word16(p, h + 16) + Word16(p, h + PortAt(end)) + WordSum(p[AddressAt(end)..AddressAt(end) + 4]))
    ensures Same(Covered(r), Covered(p))
  {
    hide WordSum, TcpOffset;
    var h := Offset(p);
    SameMoves(sum + port + WordSum(ip),
              Word16(p, h + 16) + Word16(p, h + PortAt(end)) + WordSum(p[AddressAt(end)..AddressAt(end) + 4]),
              Covered(r), Covered(p));
  }

  /** A packet that arrives with a valid TCP checksum leaves with one, and an invalid one stays invalid. */
  lemma RewriteKeepsTcpChecksum(p: Packet, end: End, ip: seq<byte>, port: u16)
    requires Tcp(p) && |ip| == 4
    ensures var r := Rewrite(p, end, ip, port);
            Tcp(r) && (TcpValid(r) <==> TcpValid(p))
  {
    RewriteBalances(p, end, ip, port);
    SameResidue(Covered(p), Covered(Rewrite(p, end, ip, port)));
  }

  lemma SameResidue(a: nat, b: nat)
    requires a > 0 && b > 0 && Same(b, a)
    ensures Fold(a) == ONES <==> Fold(b) == ONES
  {
    FoldsToOnes(a);
    FoldsToOnes(b);
    var q := (b - a) / ONES;
    assert b == a + ONES * q;
    CarryKeepsResidue(a, q);
  }

  /** The IP checksum comes out valid exactly when the header options sum to
      nothing; a twenty-byte header has none. */
  lemma RewriteIpChecksumIff(p: Packet, end: End, ip: seq<byte>, port: u16)
    requires Tcp(p) && |ip| == 4
    ensures var r := Rewrite(p, end, ip, port);
            && Tcp(r)
            && (IpValid(r) <==> Same(WordSum(p[20..Offset(p)]), 0))
            && (Offset(p) == IPV4_HEADER_LEN ==> IpValid(r))
  {
    RewriteParts(p, end, ip, port);
    var h, r := Offset(p), Rewrite(p, end, ip, port);
    SliceOfSlice(r, 0, h, 0, 20);
    SliceOfSlice(r, 0, h, 20, h);
    HeaderValidIff(r[..h], p[20..h]);
    if h == 20 {
      assert p[20..h] == [];
    }
  }

  lemma HeaderValidIff(header: seq<byte>, options: seq<byte>)
    requires |header| >= 20 && header[0] > 0 && header[20..] == options && Same(WordSum(header[..20]), 0)
    ensures Fold(WordSum(header)) == ONES <==> Same(WordSum(options), 0)
  {
    hide WordSum, Fold;
    assert header == header[..20] + options;
    SplitSum(header[..20], options);
    HasWeight(header, 0);
    FoldsToOnes(WordSum(header));
  }

  /** A byte string with a positive byte has a positive sum. */
  lemma {:induction false} HasWeight(s: seq<byte>, i: nat)
    requires i < |s| && s[i] > 0
    ensures WordSum(s) > 0
  {
    if i < |s| - 1 {
      HasWeight(s[..|s| - 1], i);
    }
  }

  /** The bytes a rewrite may change. */
  predicate Translated(h: nat, end: End, i: nat) {
    || 10 <= i < 12
    || AddressAt(end) <= i < AddressAt(end) + 4
    || h + PortAt(end) <= i < h + PortAt(end) + 2
    || h + 16 <= i < h + 18
  }

  /** The fields a rewrite is for, and that nothing but them and the checksums changes. */
  lemma RewriteSetsFields(p: Packet, end: End, ip: seq<byte>, port: u16)
    requires Tcp(p) && |ip| == 4
    ensures var r, h := Rewrite(p, end, ip, port), Offset(p);
            && r[AddressAt(end)..AddressAt(end) + 4] == ip
            && Word16(r, h + PortAt(end)) == port
            && forall i :: 0 <= i < |p| && !Translated(h, end, i) ==> r[i] == p[i]
  {
    var h := Offset(p);
    var q := Replaced(p, h, end, ip, port, NewSum(p, h, end, ip, port));
    FixIpLeaves(q);
    ReplacedFields(p, h, end, ip, port, NewSum(p, h, end, ip, port));
    SliceAgrees(FixIp(q), q, AddressAt(end), AddressAt(end) + 4);
  }

  lemma ReplacedFields(p: Packet, h: nat, end: End, ip: seq<byte>, port: u16, sum: u16)
    requires IPV4_HEADER_LEN <= h && h + TCP_HEADER_LEN <= |p| && |ip| == 4
    ensures var q := Replaced(p, h, end, ip, port, sum);
            && q[AddressAt(end)..AddressAt(end) + 4] == ip
            && Word16(q, h + PortAt(end)) == port
            && Word16(q, h + 16) == sum
            && forall i :: 0 <= i < |p| && !Translated(h, end, i) ==> q[i] == p[i]
  {
  }

  // ---------------------------------------------------------------------
  // Incremental against full recomputation.

  /** The field itself is one word of what is covered. */
  lemma FieldIsCovered(p: Packet)
    requires Tcp(p)
    ensures Covered(p) - Word16(p, Offset(p) + 16) > 0
  {
    var seg := p[Offset(p)..];
    assert Word16(seg, 16) == Word16(p, Offset(p) + 16);
    WordInSum(seg, 16);
  }

  lemma WordInSum(seg: seq<byte>, at: nat)
    requires at + 2 <= |seg| && at % 2 == 0
    ensures WordSum(seg) >= Word16(seg, at)
  {
    PutSum(seg, at, [0, 0]);
    Pair([0, 0]);
    WordIsSum(seg, at);
  }

  /** The checksum a sender would compute afresh: over everything covered but the field itself. */
  function Recomputed(p: Packet): u16
    requires Tcp(p)
  {
    FieldIsCovered(p);
    Complement(Covered(p) - Word16(p, Offset(p) + 16))
  }

  /** An address, a port and a checksum field that leave nothing to update: all ones before, all zeros after. */
  predicate Vanishes(p: Packet, end: End, ip: seq<byte>, port: u16)
    requires Tcp(p)
  {
    var h := Offset(p);
    && Word16(p, h + 16) == ONES
    && p[AddressAt(end)..AddressAt(end) + 4] == [255, 255, 255, 255] && ip == [0, 0, 0, 0]
    && Word16(p, h + PortAt(end)) == ONES && port == 0
  }

  /**
   For a valid packet, the incrementally updated checksum is the one a full
   recomputation gives, except when every term of the update vanishes, where it
   is the other representation of zero.
   */
  lemma UpdateIsRecomputation(p: Packet, end: End, ip: seq<byte>, port: u16)
    requires Tcp(p) && |ip| == 4 && TcpValid(p)
    ensures var r, h := Rewrite(p, end, ip, port), Offset(p);
            && Tcp(r)
            && (Word16(r, h + 16) == Recomputed(r) <==> !Vanishes(p, end, ip, port))
            && (Word16(r, h + 16) != Recomputed(r) ==> Word16(r, h + 16) == ONES && Recomputed(r) == 0)
  {
    hide WordSum, Fold, Recomputed, Adjust;
    var r, h := Rewrite(p, end, ip, port), Offset(p);
    RewriteParts(p, end, ip, port);
    RewriteKeepsTcpChecksum(p, end, ip, port);
    ValidFieldIsRecomputed(r);
    var sum := NewSum(p, h, end, ip, port);
    ReplacedFields(p, h, end, ip, port, sum);
    FixIpLeaves(Replaced(p, h, end, ip, port, sum));
    NewSumOnesIff(p, h, end, ip, port);
  }

  lemma NewSumOnesIff(p: Packet, h: nat, end: End, ip: seq<byte>, port: u16)
    requires IPV4_HEADER_LEN <= h && h + TCP_HEADER_LEN <= |p| && |ip| == 4
    ensures NewSum(p, h, end, ip, port) == ONES <==>
              && Word16(p, h + 16) == ONES
              && p[AddressAt(end)..AddressAt(end) + 4] == [255, 255, 255, 255] && ip == [0, 0, 0, 0]
              && Word16(p, h + PortAt(end)) == ONES && port == 0
  {
    hide WordSum, Adjust;
    var address, oldPort := p[AddressAt(end)..AddressAt(end) + 4], p[h + PortAt(end)..h + PortAt(end) + 2];
    AddressUpdateVanishes(Word16(p, h + 16), address, ip);
    LastUpdateVanishes(Adjust(Word16(p, h + 16), address, ip), oldPort, port);
    WordIsSum(p, h + PortAt(end));
  }

  lemma Quad(w: seq<byte>)
    requires |w| == 4
    ensures WordSum(w) == w[0] as int * 256 + w[1] as int + w[2] as int * 256 + w[3] as int
  {
    TwoMore(w, 0);
    TwoMore(w, 2);
    assert w[..0] == [] && w[..4] == w;
  }

  /** Updating for four bytes gives all ones only from all ones, for all ones replaced by zeros. */
  lemma AddressUpdateVanishes(sum: u16, a: seq<byte>, b: seq<byte>)
    requires |a| == 4 && |b| == 4
    ensures Adjust(sum, a, b) == ONES <==> sum == ONES && a == [255, 255, 255, 255] && b == [0, 0, 0, 0]
  {
    hide WordSum;
    AdjustBalances(sum, a, b);
    Quad(a);
    Quad(b);
    assert a == [a[0], a[1], a[2], a[3]] && b == [b[0], b[1], b[2], b[3]];
  }

  /** A valid field is the recomputed one unless it is the other name of zero. */
  lemma ValidFieldIsRecomputed(r: Packet)
    requires Tcp(r) && TcpValid(r)
    ensures Word16(r, Offset(r) + 16) == Recomputed(r) <==> Word16(r, Offset(r) + 16) != ONES
    ensures Word16(r, Offset(r) + 16) == ONES ==> Recomputed(r) == 0
  {
    var field := Word16(r, Offset(r) + 16);
    FieldIsCovered(r);
    var rest := Covered(r) - field;
    FoldsToOnes(Covered(r));
    ComplementCancels(rest);
    OnlyZeroHasTwoNames(field, Recomputed(r), rest);
  }

  lemma OnlyZeroHasTwoNames(a: u16, b: u16, rest: int)
    requires (rest + a) % ONES == 0 && Same(rest + b, 0) && b != ONES
    ensures a == b <==> a != ONES
    ensures a == ONES ==> b == 0
  {
    var d := a - b;
    assert d == ONES * ((rest + a) / ONES - (rest + b) / ONES);
  }

  lemma LastUpdateVanishes(first: u16, oldPort: seq<byte>, port: u16)
    requires |oldPort| == 2
    ensures Adjust(first, oldPort, Bytes16(port)) == ONES <==> first == ONES && WordSum(oldPort) == ONES && port == 0
  {
    AdjustBalances(first, oldPort, Bytes16(port));
    WordSumBound(oldPort);
  }

  // ---------------------------------------------------------------------
  // Packets that show where the claims end.

  /** Any TCP packet becomes valid when the recomputed checksum is written into it. */
  lemma RecomputedIsValid(p: Packet)
    requires Tcp(p)
    ensures var q := Put(p, Offset(p) + 16, Bytes16(Recomputed(p)));
            Tcp(q) && Offset(q) == Offset(p) && TcpValid(q)
  {
    hide WordSum, Fold;
    var h, sum := Offset(p), Recomputed(p);
    var q := Put(p, h + 16, Bytes16(sum));
    SameShape(p, q);
    SliceAway(p, h + 16, Bytes16(sum), 12, 20);
    assert q[h..] == Put(p[h..], 16, Bytes16(sum));
    PutWord(p[h..], 16, sum);
    FieldIsCovered(p);
    ComplementCancels(Covered(p) - Word16(p, h + 16));
    FoldsToOnes(Covered(q));
  }
}
