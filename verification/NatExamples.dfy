/** Packets for which the translation does not do what one would wish (firmware/src/nat.rs). */
module NatExamples {
  import opened Common
  import opened Checksum
  import opened NatRewrite
  import opened NatClamp

  /** An IPv4 header of twenty bytes from 10.0.0.1 to 10.0.0.2, and TCP words up to the window. */
  function Head(offset: byte, flags: byte): (p: Packet)
    ensures |p| == 36
  {
    [69, 0, 0, 48, 0, 0, 0, 0, 64, 6] + [0, 0, 10, 0, 0, 1, 10, 0, 0, 2]
    + [4, 210, 1, 187, 0, 0, 0, 1, 0, 0] + [0, 0, offset, flags, 255, 255]
  }

  /** A SYN whose options begin with a no-operation, so that the MSS value sits at an odd offset. */
  function Syn(): (p: Packet)
    ensures |p| == 48
  {
    Head(112, 2) + [0, 0, 0, 0] + [1, 2, 4, 5, 180, 1, 1, 1]
  }

  /** The walk meets the option right after the no-operation. */
  lemma MssAfterNop(p: Packet)
    requires |p| == 48 && p[0] == 69 && p[9] == 6 && p[32] == 112 && p[33] == 2
    requires p[40] == 1 && p[41] == 2 && p[42] == 4
    ensures Tcp(p) && Offset(p) == 20 && FindMss(p) == Some(21)
  {
    assert MssAt(p, 20, 21, 28) == Some(21);
    assert MssAt(p, 20, 20, 28) == Some(21);
  }

  /** Clamping that SYN turns a valid TCP checksum into a wrong one. */
  lemma OddOffsetSpoils() returns (p: Packet)
    ensures Tcp(p) && TcpValid(p)
    ensures Tcp(Clamped(p)) && !TcpValid(Clamped(p))
  {
    hide WordSum, Fold, Recomputed, MssAt, Clamped, TcpValid;
    var syn := Syn();
    MssAfterNop(syn);
    RecomputedIsValid(syn);
    p := Put(syn, 36, Bytes16(Recomputed(syn)));
    MssAfterNop(p);
    assert p[43] == 5 && p[44] == 180;
    ClampKeepsTcpChecksumIff(p);
  }

  /** A header of six words: the options are four no-operations, the checksum is right. */
  function Optioned(): (p: Packet)
    ensures |p| == 44
  {
    [70, 0, 0, 44] + ([0, 0, 0, 0] + ([64, 6, 99, 200] + ([10, 0, 0, 1] + ([10, 0, 0, 2] + ([1, 1, 1, 1] + Rest())))))
  }

  function Rest(): (p: Packet)
    ensures |p| == 20
  {
    [0, 0, 0, 0, 0, 0, 0, 0, 0, 0] + [0, 0, 0, 0, 0, 0, 0, 0, 0, 0]
  }

  lemma OptionedIsValid()
    ensures Tcp(Optioned()) && Offset(Optioned()) == 24 && IpValid(Optioned()) && Optioned()[20..24] == [1, 1, 1, 1]
  {
    hide WordSum, Fold;
    var a, b, c, d, e, f := [70, 0, 0, 44], [0, 0, 0, 0], [64, 6, 99, 200], [10, 0, 0, 1], [10, 0, 0, 2], [1, 1, 1, 1];
    var header := a + (b + (c + (d + (e + f))));
    var p := Optioned();
    assert p[..24] == header;
    SplitSum(e, f);
    SplitSum(d, e + f);
    SplitSum(c, d + (e + f));
    SplitSum(b, c + (d + (e + f)));
    SplitSum(a, b + (c + (d + (e + f))));
    Quad(a);
    Quad(b);
    Quad(c);
    Quad(d);
    Quad(e);
    Quad(f);
    assert WordSum(header) == ONES;
    FoldsToOnes(ONES);
  }

  /** Rewriting it, at either end and to any address and port, leaves a wrong IP checksum. */
  lemma OptionsSpoilIpChecksum(end: End, ip: seq<byte>, port: u16)
    requires |ip| == 4
    ensures Tcp(Optioned()) && IpValid(Optioned())
    ensures Tcp(Rewrite(Optioned(), end, ip, port)) && !IpValid(Rewrite(Optioned(), end, ip, port))
  {
    hide WordSum, Fold, Rewrite, IpValid;
    OptionedIsValid();
    RewriteIpChecksumIff(Optioned(), end, ip, port);
    Quad([1, 1, 1, 1]);
  }

  /** From 255.255.255.255, port 65535, with a checksum of all ones that is right. */
  function AllOnes(): (p: Packet)
    ensures |p| == 40
  {
    [69, 0, 0, 40, 0, 0, 0, 0, 64, 6, 0, 0] + ([255, 255, 255, 255] + ([0, 0, 0, 0] + Segment()))
  }

  function Segment(): (p: Packet)
    ensures |p| == 20
  {
    [255, 255, 0, 0] + ([0, 0, 0, 0] + ([0, 0, 0, 0] + ([80, 0, 175, 229] + [255, 255, 0, 0])))
  }

  lemma SegmentSums()
    ensures WordSum(Segment()) == 3 * ONES - 26
  {
    hide WordSum;
    var a, b, c, d, e := [255, 255, 0, 0], [0, 0, 0, 0], [0, 0, 0, 0], [80, 0, 175, 229], [255, 255, 0, 0];
    SplitSum(d, e);
    SplitSum(c, d + e);
    SplitSum(b, c + (d + e));
    SplitSum(a, b + (c + (d + e)));
    Quad(a);
    Quad(b);
    Quad(d);
    Quad(e);
  }

  lemma AllOnesIsValid()
    ensures Tcp(AllOnes()) && Offset(AllOnes()) == 20 && TcpValid(AllOnes())
  {
    hide WordSum, Fold;
    var p := AllOnes();
    var from, to := [255, 255, 255, 255], [0, 0, 0, 0];
    assert p[12..20] == from + to && p[20..] == Segment();
    SplitSum(from, to);
    Quad(from);
    Quad(to);
    SegmentSums();
    assert Covered(p) == 5 * ONES;
    FoldsToOnes(5 * ONES);
  }

  /** Translated to 0.0.0.0, port 0, it keeps the checksum of all ones where a recomputation gives zero. */
  lemma WrongZero()
    ensures Tcp(AllOnes()) && TcpValid(AllOnes())
    ensures var r := Rewrite(AllOnes(), Source, [0, 0, 0, 0], 0);
            Tcp(r) && Word16(r, 36) == ONES && Recomputed(r) == 0
  {
    hide WordSum, Fold, Recomputed, Rewrite, TcpValid;
    AllOnesIsValid();
    var p := AllOnes();
    assert p[12..16] == [255, 255, 255, 255];
    assert Word16(p, 20) == ONES && Word16(p, 36) == ONES;
    UpdateIsRecomputation(p, Source, [0, 0, 0, 0], 0);
  }
}
