/** UTF-8 well-formedness, as `core::str::from_utf8` decides it, and encoding of scalar values. */
module Utf8 {
  import opened Common

  predicate Tail(b: byte) {
    0x80 <= b <= 0xBF
  }

  /** Length of the well-formed character at the front, or zero if there is none. */
  function CharLen(s: seq<byte>): (n: nat)
    ensures n <= |s| && n <= 4
  {
    if s == [] then 0
    else if s[0] < 0x80 then 1
    else if 0xC2 <= s[0] <= 0xDF && |s| >= 2 && Tail(s[1]) then 2
    else if 0xE0 <= s[0] <= 0xEF && |s| >= 3 && Tail(s[1]) && Tail(s[2])
            && (s[0] == 0xE0 ==> s[1] >= 0xA0) && (s[0] == 0xED ==> s[1] <= 0x9F) then 3
    else if 0xF0 <= s[0] <= 0xF4 && |s| >= 4 && Tail(s[1]) && Tail(s[2]) && Tail(s[3])
            && (s[0] == 0xF0 ==> s[1] >= 0x90) && (s[0] == 0xF4 ==> s[1] <= 0x8F) then 4
    else 0
  }

  predicate Valid(s: seq<byte>) {
    s == [] || (CharLen(s) > 0 && Valid(s[CharLen(s)..]))
  }

  /** `char::from_u32`: a Unicode scalar value. */
  predicate Scalar(c: nat) {
    c < 0xD800 || 0xE000 <= c < 0x11_0000
  }

  function Encode(c: nat): (s: seq<byte>)
    requires Scalar(c)
    ensures 1 <= |s| <= 4
  {
    if c < 0x80 then [c]
    else if c < 0x800 then [0xC0 + c / 64, 0x80 + c % 64]
    else if c < 0x1_0000 then [0xE0 + c / 4096, 0x80 + c / 64 % 64, 0x80 + c % 64]
    else [0xF0 + c / 262144, 0x80 + c / 4096 % 64, 0x80 + c / 64 % 64, 0x80 + c % 64]
  }

  lemma DivTwice(c: nat)
    ensures c / 64 / 64 == c / 4096
    ensures c / 4096 / 64 == c / 262144
  {
    var q := c / 64;
    assert c == 4096 * (q / 64) + (64 * (q % 64) + c % 64);
    var r := c / 4096;
    assert c == 262144 * (r / 64) + (4096 * (r % 64) + c % 4096);
  }

  lemma Sextets(c: nat)
    ensures c / 64 == c / 4096 * 64 + c / 64 % 64
    ensures c / 4096 == c / 262144 * 64 + c / 4096 % 64
  {
    DivTwice(c);
  }

  /** Every scalar value encodes to exactly one well-formed character. */
  lemma EncodeIsChar(c: nat)
    requires Scalar(c)
    ensures CharLen(Encode(c)) == |Encode(c)|
    ensures Valid(Encode(c))
  {
    Sextets(c);
    var s := Encode(c);
    if 0x800 <= c < 0x1_0000 {
      assert s[0] == 0xE0 ==> c / 64 >= 32 && c / 4096 == 0;
      assert s[0] == 0xED && c < 0xD800 ==> c / 64 < 864;
    } else if c >= 0x1_0000 {
      assert s[0] == 0xF0 ==> c / 4096 >= 16 && c / 262144 == 0;
      assert s[0] == 0xF4 ==> c / 4096 < 272;
    }
    assert s[|s|..] == [];
  }
}
