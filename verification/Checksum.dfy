/**
 Internet checksums: the full computation of firmware/src/inner.rs (RFC 1071)
 and the incremental update of firmware/src/nat.rs (section 3 of RFC 1624).
 */
module Checksum {
  import opened Common

  const ONES := 65535

  /** What a byte at this offset weighs in a sum of big-endian 16-bit words. */
  function Weight(at: nat): nat {
    if at % 2 == 0 then 256 else 1
  }

  /** The sum of the words of `s`, an odd last byte counting as the high half of a word. */
  function WordSum(s: seq<byte>): (n: nat) {
    if s == [] then 0 else WordSum(s[..|s| - 1]) + s[|s| - 1] as int * Weight(|s| - 1)
  }

  /** End-around carry until the sum fits sixteen bits. */
  function Fold(acc: nat): (r: nat)
    ensures r < 65536
    ensures r == 0 <==> acc == 0
  {
    if acc < 65536 then acc else Fold(acc % 65536 + acc / 65536)
  }

  lemma {:induction false} FoldKeepsResidue(acc: nat)
    ensures Fold(acc) % ONES == acc % ONES
  {
    if acc >= 65536 {
      FoldKeepsResidue(acc % 65536 + acc / 65536);
      CarryKeepsResidue(acc % 65536 + acc / 65536, acc / 65536);
    }
  }

  lemma CarryKeepsResidue(a: int, k: int)
    ensures (a + ONES * k) % ONES == a % ONES
  {
  }

  /** A sum folds to all ones exactly when it is a positive multiple of 65535. */
  lemma FoldsToOnes(acc: nat)
    ensures Fold(acc) == ONES <==> acc > 0 && acc % ONES == 0
  {
    FoldKeepsResidue(acc);
    var r := Fold(acc);
    assert r % ONES == 0 <==> r == 0 || r == ONES;
  }

  /** The one's complement of the one's complement sum. */
  function Complement(acc: nat): u16 {
    ONES - Fold(acc)
  }

  const WRAP := 0x1_0000_0000

  /** A `u32` accumulator wraps around. */
  function Wrapped(n: nat): u32 {
    n % WRAP
  }

  lemma WrappedOnce(a: nat, b: nat)
    ensures Wrapped(Wrapped(a) + b) == Wrapped(a + b)
  {
    assert a + b == Wrapped(a) + b + WRAP * (a / WRAP);
  }

  lemma WrappedSmall(n: nat)
    requires n < WRAP
    ensures Wrapped(n) == n
  {
  }

  /** `checksum`: words summed in a loop, then folded. */
  method ComputeChecksum(bytes: seq<byte>) returns (r: u16)
    ensures r == Complement(Wrapped(WordSum(bytes)))
    ensures |bytes| <= 0x2_0000 ==> r == Complement(WordSum(bytes))
  {
    hide Wrapped, WordSum, Complement;
    var sum: u32 := 0;
    var i := 0;
    WordSumNone(bytes[..0]);
    WrappedSmall(0);
    while i + 1 < |bytes|
      invariant 0 <= i <= |bytes| && i % 2 == 0
      invariant sum == Wrapped(WordSum(bytes[..i])) && WordSum(bytes[..i]) <= ONES * (i / 2)
    {
      TwoMore(bytes, i);
      var word := bytes[i] as int * 256 + bytes[i + 1] as int;
      WrappedOnce(WordSum(bytes[..i]), word);
      sum := Wrapped(sum + word);
      i := i + 2;
    }
    if i < |bytes| {
      OneMore(bytes, i);
      WrappedOnce(WordSum(bytes[..i]), bytes[i] as int * 256);
      sum := Wrapped(sum + bytes[i] as int * 256);
      i := i + 1;
    }
    assert bytes[..i] == bytes;
    if |bytes| <= 0x2_0000 {
      WrappedSmall(WordSum(bytes));
    }
    r := FoldDown(sum);
  }

  lemma WordSumNone(s: seq<byte>)
    requires s == []
    ensures WordSum(s) == 0
  {
  }

  lemma OneMore(s: seq<byte>, i: nat)
    requires i < |s| && i % 2 == 0
    ensures WordSum(s[..i + 1]) == WordSum(s[..i]) + s[i] as int * 256
  {
    assert s[..i + 1][..i] == s[..i];
  }

  lemma TwoMore(s: seq<byte>, i: nat)
    requires i + 1 < |s| && i % 2 == 0
    ensures WordSum(s[..i + 2]) == WordSum(s[..i]) + s[i] as int * 256 + s[i + 1] as int
  {
    assert s[..i + 2][..i + 1] == s[..i + 1];
    assert s[..i + 1][..i] == s[..i];
  }

  /** The folding loop and the final complement. */
  method FoldDown(start: nat) returns (r: u16)
    requires start < 0x1_0000_0000
    ensures r == Complement(start)
  {
    var acc := start;
    while acc >= 65536
      invariant Fold(acc) == Fold(start)
    {
      acc := acc % 65536 + acc / 65536;
    }
    r := ONES - acc;
  }

  /** The accumulator of `adjust_checksum`: the complemented old sum and old words, plus the new words. */
  function Acc(oldSum: u16, old_: seq<byte>, new_: seq<byte>): (r: nat)
    requires |old_| % 2 == 0 && |new_| % 2 == 0
  {
    WordSumBound(old_);
    ONES - oldSum + (ONES * (|old_| / 2) - WordSum(old_)) + WordSum(new_)
  }

  lemma {:induction false} WordSumBound(s: seq<byte>)
    requires |s| % 2 == 0
    ensures WordSum(s) <= ONES * (|s| / 2)
  {
    if s != [] {
      var n := |s| - 2;
      WordSumBound(s[..n]);
      TwoMore(s, n);
      assert s[..n + 2] == s;
    }
  }

  function Adjust(oldSum: u16, old_: seq<byte>, new_: seq<byte>): (r: u16)
    requires |old_| % 2 == 0 && |new_| % 2 == 0
  {
    Complement(Acc(oldSum, old_, new_))
  }

  /** The whole words of a slice; an odd last byte is passed over. */
  function Whole(s: seq<byte>): (r: seq<byte>)
    ensures |r| % 2 == 0 && (|s| % 2 == 0 ==> r == s)
  {
    s[..|s| - |s| % 2]
  }

  lemma AccSmall(oldSum: u16, old_: seq<byte>, new_: seq<byte>)
    requires |old_| % 2 == 0 && |new_| % 2 == 0 && |old_| <= 0x1_0000 && |new_| <= 0x1_0000
    ensures Acc(oldSum, old_, new_) < WRAP
  {
    WordSumBound(new_);
  }

  /** The words of a slice added one by one to a wrapping accumulator, complemented or not. */
  method AddWords(start: u32, words: seq<byte>, complemented: bool) returns (acc: u32)
    requires |words| % 2 == 0
    ensures WordSum(words) <= ONES * (|words| / 2)
    ensures acc == Wrapped(start + if complemented then ONES * (|words| / 2) - WordSum(words) else WordSum(words))
  {
    hide Wrapped, WordSum;
    acc := start;
    var i := 0;
    ghost var added: nat := 0;
    WordSumNone(words[..0]);
    WrappedSmall(start);
    while i < |words|
      invariant 0 <= i <= |words| && i % 2 == 0 && WordSum(words[..i]) <= ONES * (i / 2)
      invariant added == if complemented then ONES * (i / 2) - WordSum(words[..i]) else WordSum(words[..i])
      invariant acc == Wrapped(start + added)
    {
      TwoMore(words, i);
      var word: u16 := words[i] as int * 256 + words[i + 1] as int;
      var term := if complemented then ONES - word else word;
      WrappedOnce(start + added, term);
      acc := Wrapped(acc + term);
      added := added + term;
      i := i + 2;
    }
    assert words[..i] == words;
  }

  method AdjustChecksum(oldSum: u16, old_: seq<byte>, new_: seq<byte>) returns (r: u16)
    ensures r == Complement(Wrapped(Acc(oldSum, Whole(old_), Whole(new_))))
    ensures |old_| <= 0x1_0000 && |new_| <= 0x1_0000 ==> r == Adjust(oldSum, Whole(old_), Whole(new_))
  {
    hide Wrapped, WordSum, Complement;
    var before := Whole(old_);
    var after := Whole(new_);
    var acc := AddWords(ONES - oldSum, before, true);
    WrappedOnce(ONES - oldSum + (ONES * (|before| / 2) - WordSum(before)), WordSum(after));
    acc := AddWords(acc, after, false);
    if |old_| <= 0x1_0000 && |new_| <= 0x1_0000 {
      AccSmall(oldSum, before, after);
      WrappedSmall(Acc(oldSum, before, after));
    }
    r := FoldDown(acc);
  }

  // ---------------------------------------------------------------------
  // Congruences.

  /** Congruence modulo 65535. */
  predicate Same(a: int, b: int) {
    (a - b) % ONES == 0
  }

  lemma ComplementCancels(acc: nat)
    ensures Same(acc + Complement(acc), 0)
    ensures Complement(acc) == ONES <==> acc == 0
  {
    FoldKeepsResidue(acc);
    var f := Fold(acc);
    assert acc - f == ONES * (acc / ONES - f / ONES);
  }

  /** The updated checksum makes up exactly for the words that changed. */
  lemma AdjustBalances(oldSum: u16, old_: seq<byte>, new_: seq<byte>)
    requires |old_| % 2 == 0 && |new_| % 2 == 0
    ensures Same(Adjust(oldSum, old_, new_) + WordSum(new_), oldSum + WordSum(old_))
    ensures Adjust(oldSum, old_, new_) == ONES <==> Acc(oldSum, old_, new_) == 0
  {
    var acc := Acc(oldSum, old_, new_);
    ComplementCancels(acc);
    var r := Adjust(oldSum, old_, new_);
    var k := |old_| / 2 + 1;
    assert acc == ONES * k - oldSum - WordSum(old_) + WordSum(new_);
    SameShift(acc + r, r + WordSum(new_) - oldSum - WordSum(old_), k);
  }

  lemma SameShift(a: int, b: int, k: int)
    requires a == b + ONES * k && Same(a, 0)
    ensures b % ONES == 0
  {
  }

  // ---------------------------------------------------------------------
  // Changing bytes.

  /** Changing one byte moves the sum by its weight. */
  lemma {:induction false} ChangeByte(s: seq<byte>, at: nat, x: byte)
    requires at < |s|
    ensures WordSum(s[at := x]) == WordSum(s) + (x as int - s[at] as int) * Weight(at)
  {
    var n := |s| - 1;
    if at == n {
      assert s[at := x][..n] == s[..n];
    } else {
      ChangeByte(s[..n], at, x);
      assert s[at := x][..n] == s[..n][at := x];
    }
  }

  lemma SameWeight(even: nat, at: nat)
    requires even % 2 == 0
    ensures Weight(even + at) == Weight(at)
  {
  }

  /** Sums add up over a split at an even offset. */
  lemma {:induction false} SplitSum(a: seq<byte>, b: seq<byte>)
    requires |a| % 2 == 0
    ensures WordSum(a + b) == WordSum(a) + WordSum(b)
  {
    if b == [] {
      assert a + b == a;
    } else {
      hide Weight;
      var n := |b| - 1;
      SplitSum(a, b[..n]);
      SameWeight(|a|, n);
      var whole := a + b;
      assert whole[..|whole| - 1] == a + b[..n];
      assert whole[|whole| - 1] == b[n] && |whole| - 1 == |a| + n;
    }
  }

  /** `s` with `w` written over it at `at`. */
  function Put(s: seq<byte>, at: nat, w: seq<byte>): (r: seq<byte>)
    requires at + |w| <= |s|
    ensures |r| == |s|
    ensures forall i :: 0 <= i < |s| ==> r[i] == if at <= i < at + |w| then w[i - at] else s[i]
  {
    seq(|s|, i requires 0 <= i < |s| => if at <= i < at + |w| then w[i - at] else s[i])
  }

  /** Writing whole words at an even offset. */
  lemma PutSum(s: seq<byte>, at: nat, w: seq<byte>)
    requires at + |w| <= |s| && at % 2 == 0 && |w| % 2 == 0
    ensures WordSum(Put(s, at, w)) == WordSum(s) - WordSum(s[at..at + |w|]) + WordSum(w)
  {
    hide WordSum, Put;
    var a, m, b := s[..at], s[at..at + |w|], s[at + |w|..];
    Thirds(s, at, at + |w|);
    PutThirds(s, at, w);
    ThreeParts(a, m, b);
    ThreeParts(a, w, b);
  }

  lemma PutThirds(s: seq<byte>, at: nat, w: seq<byte>)
    requires at + |w| <= |s|
    ensures Put(s, at, w) == s[..at] + w + s[at + |w|..]
  {
  }

  lemma Thirds(s: seq<byte>, i: nat, j: nat)
    requires i <= j <= |s|
    ensures s == s[..i] + s[i..j] + s[j..]
  {
  }

  lemma ThreeParts(a: seq<byte>, m: seq<byte>, b: seq<byte>)
    requires |a| % 2 == 0 && |m| % 2 == 0
    ensures WordSum(a + m + b) == WordSum(a) + WordSum(m) + WordSum(b)
  {
    SplitSum(a + m, b);
    SplitSum(a, m);
  }

  function Bytes16(x: u16): (r: seq<byte>)
    ensures |r| == 2 && WordSum(r) == x
  {
    var r: seq<byte> := [x / 256, x % 256];
    Pair(r);
    r
  }

  function Word16(s: seq<byte>, at: nat): (r: u16)
    requires at + 2 <= |s|
  {
    s[at] as int * 256 + s[at + 1] as int
  }

  lemma WordIsSum(s: seq<byte>, at: nat)
    requires at + 2 <= |s|
    ensures WordSum(s[at..at + 2]) == Word16(s, at)
  {
    Pair(s[at..at + 2]);
  }

  lemma Pair(w: seq<byte>)
    requires |w| == 2
    ensures WordSum(w) == w[0] as int * 256 + w[1] as int
  {
    TwoMore(w, 0);
    assert w[..0] == [] && w[..2] == w;
  }
}
