/** The byte sequences of RFC 3629, section 3, spelled out, and that the decoder accepts no others. */
module Utf8Strict {
  import opened Wrappers
  import opened Utf8

  /** The bytes after the first carry six bits each. */
  predicate Trailing(bytes: seq<nat>) {
    forall i :: 1 <= i < |bytes| ==> 0x80 <= bytes[i] <= 0xBF
  }

  /** How many bytes a scalar value takes, their ranges, and the bits they carry. */
  lemma EncodingIs(c: char)
    ensures var u, b := c as int, EncodeChar(c);
      Trailing(b)
      && if u <= 0x7F then |b| == 1 && b[0] == u
         else if u <= 0x7FF then |b| == 2 && 0xC0 <= b[0] <= 0xDF && (b[0] - 0xC0) * 64 + (b[1] - 0x80) == u
         else if u <= 0xFFFF then
           |b| == 3 && 0xE0 <= b[0] <= 0xEF && (b[0] - 0xE0) * 4096 + (b[1] - 0x80) * 64 + (b[2] - 0x80) == u
         else |b| == 4 && 0xF0 <= b[0] <= 0xF4
              && (b[0] - 0xF0) * 262144 + (b[1] - 0x80) * 4096 + (b[2] - 0x80) * 64 + (b[3] - 0x80) == u
  {
    Digits64(c as int);
  }

  /** The same value read from the same number of bytes comes from the same bytes. */
  lemma TwoBytes(u: nat, a: nat, b: nat)
    requires 0xC0 <= a < 0xE0 && 0x80 <= b < 0xC0 && u == (a - 0xC0) * 64 + (b - 0x80)
    ensures a == 0xC0 + u / 64 && b == 0x80 + u % 64
  {
  }

  lemma ThreeBytes(u: nat, a: nat, b: nat, c: nat)
    requires 0xE0 <= a < 0xF0 && 0x80 <= b < 0xC0 && 0x80 <= c < 0xC0
    requires u == (a - 0xE0) * 4096 + (b - 0x80) * 64 + (c - 0x80)
    ensures a == 0xE0 + u / 4096 && b == 0x80 + u / 64 % 64 && c == 0x80 + u % 64
  {
  }

  lemma FourBytes(u: nat, a: nat, b: nat, c: nat, d: nat)
    requires 0xF0 <= a < 0xF8 && 0x80 <= b < 0xC0 && 0x80 <= c < 0xC0 && 0x80 <= d < 0xC0
    requires u == (a - 0xF0) * 262144 + (b - 0x80) * 4096 + (c - 0x80) * 64 + (d - 0x80)
    ensures a == 0xF0 + u / 262144 && b == 0x80 + u / 4096 % 64 && c == 0x80 + u / 64 % 64 && d == 0x80 + u % 64
  {
  }

  /** A decoded character is decoded from its encoding, and from nothing else. */
  lemma DecodedChar(bytes: seq<nat>, pos: nat)
    requires pos < |bytes| && DecodeChar(bytes, pos).Some?
    ensures var d := DecodeChar(bytes, pos).value; bytes[pos..d.next] == EncodeChar(d.c)
  {
    var d := DecodeChar(bytes, pos).value;
    var a, u := bytes[pos], d.c as int;
    if d.next == pos + 2 {
      TwoBytes(u, a, bytes[pos + 1]);
    } else if d.next == pos + 3 {
      ThreeBytes(u, a, bytes[pos + 1], bytes[pos + 2]);
    } else if d.next == pos + 4 {
      FourBytes(u, a, bytes[pos + 1], bytes[pos + 2], bytes[pos + 3]);
    }
  }

  lemma {:induction false} DecodedFrom(bytes: seq<nat>, pos: nat, read: string, s: string)
    requires pos <= |bytes| && DecodeFrom(bytes, pos, read) == Some(s)
    ensures |read| <= |s| && s[..|read|] == read && bytes[pos..] == EncodeFrom(s, |read|)
    decreases |bytes| - pos
  {
    hide DecodeChar, EncodeChar;
    if pos < |bytes| {
      var d := DecodeChar(bytes, pos).value;
      DecodedChar(bytes, pos);
      DecodedFrom(bytes, d.next, read + [d.c], s);
      assert s[..|read|] == s[..|read| + 1][..|read|] && s[|read|] == s[..|read| + 1][|read|];
      assert bytes[pos..] == bytes[pos..d.next] + bytes[d.next..];
    }
  }

  /** Decoding succeeds exactly on the encoding of a text: no overlong form, surrogate or stray byte passes. */
  lemma DecodeIff(bytes: seq<nat>, s: string)
    ensures Decode(bytes) == Some(s) <==> bytes == Encode(s)
  {
    if Decode(bytes) == Some(s) {
      DecodedFrom(bytes, 0, "", s);
      assert bytes[0..] == bytes;
    } else if bytes == Encode(s) {
      DecodeEncoded(s);
    }
  }
}
