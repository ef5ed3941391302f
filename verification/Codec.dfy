// Hex and constant-time equality (native/src/codec.rs).
module Codec {
  import opened Wrappers

  type Byte = b: nat | b < 256

  // ---- hex ------------------------------------------------------------------------------

  // "0123456789abcdef"[d]
  function HexDigit(d: nat): (c: char)
    requires d < 16
    ensures Nibble(c) == Some(d) && IsHexDigit(c)
  {
    if d < 10 then d as char + '0' else (d - 10) as char + 'a'
  }

  // `char::to_digit(16)`.
  function Nibble(c: char): (r: Option<nat>)
    ensures r.Some? ==> r.value < 16
  {
    if '0' <= c <= '9' then Some((c - '0') as nat)
    else if 'a' <= c <= 'f' then Some((c - 'a') as nat + 10)
    else if 'A' <= c <= 'F' then Some((c - 'A') as nat + 10)
    else None
  }

  predicate IsHexDigit(c: char) {
    '0' <= c <= '9' || 'a' <= c <= 'f' || 'A' <= c <= 'F'
  }

  function Hex(bytes: seq<Byte>): (s: string)
    ensures |s| == 2 * |bytes|
  {
    if bytes == [] then ""
    else Hex(bytes[..|bytes| - 1]) + [HexDigit(bytes[|bytes| - 1] / 16), HexDigit(bytes[|bytes| - 1] % 16)]
  }

  // One more byte from two more digits.
  function WithPair(front: Option<seq<Byte>>, c: char, d: char): Option<seq<Byte>> {
    if front.Some? && Nibble(c).Some? && Nibble(d).Some? then
      Some(front.value + [Nibble(c).value * 16 + Nibble(d).value])
    else None
  }

  function Unhex(s: string): Option<seq<Byte>> {
    if |s| < 2 then if s == "" then Some([]) else None
    else WithPair(Unhex(s[..|s| - 2]), s[|s| - 2], s[|s| - 1])
  }

  method HexEncode(bytes: seq<Byte>) returns (s: string)
    ensures s == Hex(bytes)
  {
    s := "";
    for i := 0 to |bytes|
      invariant s == Hex(bytes[..i])
    {
      assert bytes[..i + 1][..i] == bytes[..i];
      s := s + [HexDigit(bytes[i] / 16)];
      s := s + [HexDigit(bytes[i] % 16)];
    }
    assert bytes[..|bytes|] == bytes;
  }

  // Exactly `2 * n` hex digits into `n` bytes; anything else is refused.
  method HexDecode(n: nat, s: string) returns (r: Option<seq<Byte>>)
    ensures r == if |s| == 2 * n then Unhex(s) else None
  {
    if |s| != 2 * n {
      return None;
    }
    var out: seq<Byte> := [];
    for i := 0 to n
      invariant Unhex(s[..2 * i]) == Some(out)
    {
      assert s[..2 * i + 2] == s[..2 * i] + [s[2 * i], s[2 * i + 1]];
      UnhexSnoc(s[..2 * i], s[2 * i], s[2 * i + 1]);
      var hi, lo := Nibble(s[2 * i]), Nibble(s[2 * i + 1]);
      if hi.None? || lo.None? {
        UnhexPrefix(s, 2 * i + 2);
        return None;
      }
      out := out + [hi.value * 16 + lo.value];
    }
    assert s[..2 * n] == s;
    r := Some(out);
  }

  lemma {:induction false} UnhexPrefix(s: string, k: nat)
    requires k <= |s| && k % 2 == 0 && |s| % 2 == 0 && Unhex(s[..k]).None?
    ensures Unhex(s).None?
  {
    if k == |s| {
      assert s[..k] == s;
    } else {
      assert s[..|s| - 2][..k] == s[..k];
      UnhexPrefix(s[..|s| - 2], k);
    }
  }

  // Decoding accepts exactly the even-length strings of hex digits ...
  lemma {:induction false} UnhexAccepts(s: string)
    ensures Unhex(s).Some? <==> |s| % 2 == 0 && forall i :: 0 <= i < |s| ==> IsHexDigit(s[i])
    ensures Unhex(s).Some? ==> 2 * |Unhex(s).value| == |s|
  {
    if |s| >= 2 {
      UnhexAccepts(s[..|s| - 2]);
      assert forall i :: 0 <= i < |s| - 2 ==> s[..|s| - 2][i] == s[i];
    }
  }

  lemma HexSnoc(front: seq<Byte>, b: Byte)
    ensures Hex(front + [b]) == Hex(front) + [HexDigit(b / 16), HexDigit(b % 16)]
  {
    assert (front + [b])[..|front|] == front;
  }

  lemma UnhexSnoc(s: string, c: char, d: char)
    ensures Unhex(s + [c, d]) == WithPair(Unhex(s), c, d)
  {
    var t := s + [c, d];
    assert t[..|t| - 2] == s && t[|t| - 2] == c && t[|t| - 1] == d;
  }

  lemma ByteOfDigits(front: seq<Byte>, b: Byte)
    ensures WithPair(Some(front), HexDigit(b / 16), HexDigit(b % 16)) == Some(front + [b])
  {
  }

  // ... undoes encoding ...
  lemma {:induction false} UnhexHex(bytes: seq<Byte>)
    ensures Unhex(Hex(bytes)) == Some(bytes)
  {
    if bytes != [] {
      var front, b := bytes[..|bytes| - 1], bytes[|bytes| - 1];
      UnhexHex(front);
      assert front + [b] == bytes;
      HexSnoc(front, b);
      UnhexSnoc(Hex(front), HexDigit(b / 16), HexDigit(b % 16));
      ByteOfDigits(front, b);
    }
  }

  function LowerHex(s: string): string {
    if s == "" then "" else LowerHex(s[..|s| - 1]) + [LowerDigit(s[|s| - 1])]
  }

  function LowerDigit(c: char): char {
    if 'A' <= c <= 'F' then c + 32 as char else c
  }

  lemma LowerPair(front: string, c: char, d: char)
    ensures LowerHex(front + [c, d]) == LowerHex(front) + [LowerDigit(c), LowerDigit(d)]
  {
    var s := front + [c, d];
    assert s[..|s| - 1] == front + [c] && (front + [c])[..|front|] == front;
  }

  lemma DigitOfNibble(c: char)
    requires Nibble(c).Some?
    ensures HexDigit(Nibble(c).value) == LowerDigit(c)
  {
  }

  // The last pair of digits, decoded and encoded again.
  lemma HexPair(front: seq<Byte>, c: char, d: char)
    requires Nibble(c).Some? && Nibble(d).Some?
    ensures Hex(front + [Nibble(c).value * 16 + Nibble(d).value]) == Hex(front) + [LowerDigit(c), LowerDigit(d)]
  {
    DigitOfNibble(c);
    DigitOfNibble(d);
    UnpairByte(Nibble(c).value, Nibble(d).value);
    HexSnoc(front, Nibble(c).value * 16 + Nibble(d).value);
  }

  // ... and is undone by it, up to the case of the digits.
  lemma {:induction false} HexUnhex(s: string)
    requires Unhex(s).Some?
    ensures Hex(Unhex(s).value) == LowerHex(s)
  {
    if |s| >= 2 {
      var front, c, d := s[..|s| - 2], s[|s| - 2], s[|s| - 1];
      assert s == front + [c, d];
      UnhexSnoc(front, c, d);
      HexUnhex(front);
      HexPair(Unhex(front).value, c, d);
      LowerPair(front, c, d);
    }
  }

  lemma UnpairByte(hi: nat, lo: nat)
    requires hi < 16 && lo < 16
    ensures (hi * 16 + lo) / 16 == hi && (hi * 16 + lo) % 16 == lo
  {
  }

  lemma HexHasOnlyDigits(bytes: seq<Byte>)
    ensures forall c :: c in Hex(bytes) ==> IsHexDigit(c)
  {
    UnhexHex(bytes);
    UnhexAccepts(Hex(bytes));
  }

  // ---- constant-time equality ---------------------------------------------------------------

  // The OR of all XORs so far.
  function Differences(a: seq<bv8>, b: seq<bv8>): bv8
    requires |a| == |b|
  {
    if a == [] then 0 else Differences(a[..|a| - 1], b[..|b| - 1]) | (a[|a| - 1] ^ b[|b| - 1])
  }

  function CtEq(a: seq<bv8>, b: seq<bv8>): bool {
    |a| == |b| && Differences(a, b) == 0
  }

  // The fold over every byte decides plain equality.
  lemma {:induction false} CtEqIsEquality(a: seq<bv8>, b: seq<bv8>)
    ensures CtEq(a, b) <==> a == b
  {
    if |a| == |b| && a != [] {
      var x, y := a[..|a| - 1], b[..|b| - 1];
      CtEqIsEquality(x, y);
      assert a == x + [a[|a| - 1]] && b == y + [b[|b| - 1]];
      OrIsZero(Differences(x, y), a[|a| - 1], b[|b| - 1]);
    }
  }

  lemma OrIsZero(d: bv8, x: bv8, y: bv8)
    ensures d | (x ^ y) == 0 <==> d == 0 && x == y
  {
  }
}
