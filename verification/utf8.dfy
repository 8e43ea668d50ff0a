/** UTF-8 as Go's `unicode/utf8` sees it: which byte sequences are valid
    (`utf8.Valid`), how a Go string's bytes become runes (invalid bytes read
    as U+FFFD one at a time, as `for range` and `regexp` do), and how runes
    are written out. */
module Utf8 {

  newtype byte = x: int | 0 <= x < 256

  predicate Cont(b: byte) {
    0x80 <= b <= 0xBF
  }

  /** Length of the well-formed sequence that starts `bs`, or 0 when `bs` is
      empty or does not start with one (the table of section 3 of RFC 3629:
      no overlong forms, no surrogates, nothing above U+10FFFF). */
  function SeqLen(bs: seq<byte>): (n: nat)
    ensures n <= 4 && n <= |bs|
  {
    if |bs| == 0 then 0
    else
      var b0 := bs[0];
      if b0 < 0x80 then 1
      else if 0xC2 <= b0 <= 0xDF then
        if |bs| >= 2 && Cont(bs[1]) then 2 else 0
      else if 0xE0 <= b0 <= 0xEF then
        var lo: byte := if b0 == 0xE0 then 0xA0 else 0x80;
        var hi: byte := if b0 == 0xED then 0x9F else 0xBF;
        if |bs| >= 3 && lo <= bs[1] <= hi && Cont(bs[2]) then 3 else 0
      else if 0xF0 <= b0 <= 0xF4 then
        var lo: byte := if b0 == 0xF0 then 0x90 else 0x80;
        var hi: byte := if b0 == 0xF4 then 0x8F else 0xBF;
        if |bs| >= 4 && lo <= bs[1] <= hi && Cont(bs[2]) && Cont(bs[3]) then 4 else 0
      else 0
  }

  /** `utf8.Valid`. */
  predicate Valid(bs: seq<byte>)
    decreases |bs|
  {
    |bs| == 0 || (SeqLen(bs) > 0 && Valid(bs[SeqLen(bs)..]))
  }

  predicate IsScalar(cp: int) {
    0 <= cp < 0xD800 || 0xE000 <= cp < 0x11_0000
  }

  function Low6(b: byte): int {
    (b as int) - 0x80
  }

  /** The code point of the well-formed sequence at the start of `bs`. */
  function CodePoint(bs: seq<byte>): (cp: int)
    requires SeqLen(bs) > 0
    ensures IsScalar(cp)
  {
    var n := SeqLen(bs);
    if n == 1 then bs[0] as int
    else if n == 2 then ((bs[0] as int) - 0xC0) * 64 + Low6(bs[1])
    else if n == 3 then ((bs[0] as int) - 0xE0) * 4096 + Low6(bs[1]) * 64 + Low6(bs[2])
    else ((bs[0] as int) - 0xF0) * 262144 + Low6(bs[1]) * 4096 + Low6(bs[2]) * 64 + Low6(bs[3])
  }

  const Replacement: char := '\U{FFFD}'

  /** The runes of a Go string: each well-formed sequence gives its rune, each
      other byte gives U+FFFD. */
  function Decode(bs: seq<byte>): seq<char>
    decreases |bs|
  {
    if |bs| == 0 then []
    else
      var n := SeqLen(bs);
      if n == 0 then [Replacement] + Decode(bs[1..])
      else [CodePoint(bs) as char] + Decode(bs[n..])
  }

  function EncodeRune(c: char): (bs: seq<byte>)
    ensures 1 <= |bs| <= 4
  {
    var x := c as int;
    if x < 0x80 then [x as byte]
    else if x < 0x800 then [(0xC0 + x / 64) as byte, (0x80 + x % 64) as byte]
    else if x < 0x1_0000 then
      [(0xE0 + x / 4096) as byte, (0x80 + (x / 64) % 64) as byte, (0x80 + x % 64) as byte]
    else
      [(0xF0 + x / 262144) as byte, (0x80 + (x / 4096) % 64) as byte,
       (0x80 + (x / 64) % 64) as byte, (0x80 + x % 64) as byte]
  }

  /** The UTF-8 bytes of a rune string, as Go's `string(runes)` writes them. */
  function Encode(s: seq<char>): seq<byte> {
    if |s| == 0 then [] else EncodeRune(s[0]) + Encode(s[1..])
  }

  /** A written rune is recognised as one well-formed sequence of its own
      length, whatever follows it, and reads back as itself. */
  lemma EncodeRuneReads(c: char, rest: seq<byte>)
    ensures SeqLen(EncodeRune(c) + rest) == |EncodeRune(c)|
    ensures CodePoint(EncodeRune(c) + rest) == c as int
  {
    var x := c as int;
    var bs := EncodeRune(c) + rest;
    if x < 0x80 {
    } else if x < 0x800 {
      var q, r := x / 64, x % 64;
      assert x == q * 64 + r;
      assert 2 <= q < 32;
    } else if x < 0x1_0000 {
      var r0 := x % 64;
      var x1 := x / 64;
      var r1 := x1 % 64;
      var q := x1 / 64;
      assert x == q * 4096 + r1 * 64 + r0;
      assert q == x / 4096;
      assert q == 0 ==> r1 >= 32;
      assert q == 13 ==> r1 < 32;
    } else {
      var r0 := x % 64;
      var x1 := x / 64;
      var r1 := x1 % 64;
      var x2 := x1 / 64;
      var r2 := x2 % 64;
      var q := x2 / 64;
      assert x == q * 262144 + r2 * 4096 + r1 * 64 + r0;
      assert q == x / 262144 && r2 == (x / 4096) % 64;
      assert 0 <= q <= 4;
      assert q == 0 ==> r2 >= 16;
      assert q == 4 ==> r2 < 16;
    }
  }

  /** Round trip: every rune string is written as valid UTF-8 that reads back
      as the same runes. */
  lemma {:induction false} DecodeEncode(s: seq<char>)
    ensures Valid(Encode(s))
    ensures Decode(Encode(s)) == s
    decreases |s|
  {
    if |s| > 0 {
      var e := EncodeRune(s[0]);
      var rest := Encode(s[1..]);
      EncodeRuneReads(s[0], rest);
      assert (e + rest)[|e|..] == rest;
      DecodeEncode(s[1..]);
    }
  }

  lemma {:induction false} EncodeAppend(a: seq<char>, b: seq<char>)
    ensures Encode(a + b) == Encode(a) + Encode(b)
    decreases |a|
  {
    if |a| > 0 {
      assert (a + b)[1..] == a[1..] + b;
      EncodeAppend(a[1..], b);
    } else {
      assert a + b == b;
    }
  }

  /** A rune other than newline is written without a newline byte: ASCII
      runes are their own byte, and every byte of a longer sequence is at
      least 0x80. */
  lemma EncodeRuneNoNewline(c: char)
    requires c != '\n'
    ensures forall k | 0 <= k < |EncodeRune(c)| :: EncodeRune(c)[k] != 10
  {
  }

  lemma {:induction false} EncodeNoNewline(s: seq<char>)
    requires forall i | 0 <= i < |s| :: s[i] != '\n'
    ensures forall k | 0 <= k < |Encode(s)| :: Encode(s)[k] != 10
    decreases |s|
  {
    if |s| > 0 {
      EncodeRuneNoNewline(s[0]);
      EncodeNoNewline(s[1..]);
      var e := EncodeRune(s[0]);
      var rest := Encode(s[1..]);
      assert forall k | |e| <= k < |e| + |rest| :: (e + rest)[k] == rest[k - |e|];
    }
  }

  /** A rune takes at most four bytes. */
  lemma {:induction false} EncodeLength(s: seq<char>)
    ensures |Encode(s)| <= 4 * |s|
    decreases |s|
  {
    if |s| > 0 {
      EncodeLength(s[1..]);
    }
  }
}
