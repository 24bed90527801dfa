/** UTF-8 (RFC 3629, sections 3 and 4): encoding of Unicode scalar values and strict decoding. */
module Utf8 {
  import opened Wrappers

  function EncodeChar(c: char): (bytes: seq<nat>)
    ensures 1 <= |bytes| <= 4 && forall i :: 0 <= i < |bytes| ==> bytes[i] < 256
  {
    var u := c as int;
    if u < 0x80 then [u]
    else if u < 0x800 then [0xC0 + u / 64, 0x80 + u % 64]
    else if u < 0x10000 then [0xE0 + u / 4096, 0x80 + u / 64 % 64, 0x80 + u % 64]
    else [0xF0 + u / 262144, 0x80 + u / 4096 % 64, 0x80 + u / 64 % 64, 0x80 + u % 64]
  }

  /** The bytes of the characters from the k-th on. */
  function EncodeFrom(s: string, k: nat): seq<nat>
    requires k <= |s|
    decreases |s| - k
  {
    if k == |s| then [] else EncodeChar(s[k]) + EncodeFrom(s, k + 1)
  }

  function Encode(s: string): seq<nat> {
    EncodeFrom(s, 0)
  }

  predicate Continues(bytes: seq<nat>, pos: nat) {
    pos < |bytes| && 0x80 <= bytes[pos] < 0xC0
  }

  datatype Decoded = Decoded(c: char, next: nat)

  /** A scalar value, if it needs at least as many bytes as were spent on it. */
  function Scalar(u: nat, least: nat, next: nat): Option<Decoded> {
    if least <= u && (u < 0xD800 || 0xE000 <= u < 0x110000) then Some(Decoded(u as char, next)) else None
  }

  /** The character whose bytes start at pos. */
  function DecodeChar(bytes: seq<nat>, pos: nat): (r: Option<Decoded>)
    requires pos < |bytes|
    ensures r.Some? ==> pos < r.value.next <= |bytes|
  {
    var a := bytes[pos];
    if a < 0x80 then Some(Decoded(a as char, pos + 1))
    else if 0xC0 <= a < 0xE0 && Continues(bytes, pos + 1) then
      Scalar((a - 0xC0) * 64 + (bytes[pos + 1] - 0x80), 0x80, pos + 2)
    else if 0xE0 <= a < 0xF0 && Continues(bytes, pos + 1) && Continues(bytes, pos + 2) then
      Scalar((a - 0xE0) * 4096 + (bytes[pos + 1] - 0x80) * 64 + (bytes[pos + 2] - 0x80), 0x800, pos + 3)
    else if 0xF0 <= a < 0xF8 && Continues(bytes, pos + 1) && Continues(bytes, pos + 2) && Continues(bytes, pos + 3) then
      Scalar((a - 0xF0) * 262144 + (bytes[pos + 1] - 0x80) * 4096 + (bytes[pos + 2] - 0x80) * 64
             + (bytes[pos + 3] - 0x80), 0x10000, pos + 4)
    else None
  }

  /** The text of the bytes from pos on, after what has been read; None for malformed bytes. */
  function DecodeFrom(bytes: seq<nat>, pos: nat, read: string): Option<string>
    requires pos <= |bytes|
    decreases |bytes| - pos
  {
    if pos == |bytes| then Some(read)
    else
      match DecodeChar(bytes, pos)
      case None => None
      case Some(d) => DecodeFrom(bytes, d.next, read + [d.c])
  }

  function Decode(bytes: seq<nat>): Option<string> {
    DecodeFrom(bytes, 0, "")
  }

  predicate BytesAt(bytes: seq<nat>, pos: nat, piece: seq<nat>) {
    pos + |piece| <= |bytes| && forall k {:trigger piece[k]} :: 0 <= k < |piece| ==> bytes[pos + k] == piece[k]
  }

  lemma SplitBytesAt(bytes: seq<nat>, pos: nat, a: seq<nat>, b: seq<nat>)
    requires BytesAt(bytes, pos, a + b)
    ensures BytesAt(bytes, pos, a) && BytesAt(bytes, pos + |a|, b)
  {
    forall k | 0 <= k < |a| ensures bytes[pos + k] == a[k] { assert (a + b)[k] == a[k]; }
    forall k | 0 <= k < |b| ensures bytes[pos + |a| + k] == b[k] { assert (a + b)[|a| + k] == b[k]; }
  }

  lemma ByteAt(bytes: seq<nat>, pos: nat, piece: seq<nat>, k: nat)
    requires BytesAt(bytes, pos, piece) && k < |piece|
    ensures bytes[pos + k] == piece[k]
  {
  }

  /** The base-64 digits of a scalar value. */
  lemma Digits64(u: nat)
    ensures u == u / 64 * 64 + u % 64
    ensures u / 64 == u / 4096 * 64 + u / 64 % 64
    ensures u / 4096 == u / 262144 * 64 + u / 4096 % 64
    ensures u / 64 % 64 < 64 && u / 4096 % 64 < 64 && u % 64 < 64
  {
  }

  lemma DecodeTwo(bytes: seq<nat>, pos: nat, c: char)
    requires 0x80 <= c as int < 0x800 && BytesAt(bytes, pos, EncodeChar(c))
    ensures DecodeChar(bytes, pos) == Some(Decoded(c, pos + 2))
  {
    ByteAt(bytes, pos, EncodeChar(c), 0);
    ByteAt(bytes, pos, EncodeChar(c), 1);
    Digits64(c as int);
    assert bytes[pos] == 0xC0 + c as int / 64 && bytes[pos + 1] == 0x80 + c as int % 64;
  }

  lemma DecodeThree(bytes: seq<nat>, pos: nat, c: char)
    requires 0x800 <= c as int < 0x10000 && BytesAt(bytes, pos, EncodeChar(c))
    ensures DecodeChar(bytes, pos) == Some(Decoded(c, pos + 3))
  {
    ByteAt(bytes, pos, EncodeChar(c), 0);
    ByteAt(bytes, pos, EncodeChar(c), 1);
    ByteAt(bytes, pos, EncodeChar(c), 2);
    Digits64(c as int);
    assert bytes[pos] == 0xE0 + c as int / 4096 && bytes[pos + 2] == 0x80 + c as int % 64;
  }

  lemma DecodeFour(bytes: seq<nat>, pos: nat, c: char)
    requires 0x10000 <= c as int && BytesAt(bytes, pos, EncodeChar(c))
    ensures DecodeChar(bytes, pos) == Some(Decoded(c, pos + 4))
  {
    ByteAt(bytes, pos, EncodeChar(c), 0);
    ByteAt(bytes, pos, EncodeChar(c), 1);
    ByteAt(bytes, pos, EncodeChar(c), 2);
    ByteAt(bytes, pos, EncodeChar(c), 3);
    Digits64(c as int);
    assert bytes[pos] == 0xF0 + c as int / 262144 && bytes[pos + 3] == 0x80 + c as int % 64;
  }

  lemma DecodeEncodedChar(bytes: seq<nat>, pos: nat, c: char)
    requires BytesAt(bytes, pos, EncodeChar(c))
    ensures DecodeChar(bytes, pos) == Some(Decoded(c, pos + |EncodeChar(c)|))
  {
    ByteAt(bytes, pos, EncodeChar(c), 0);
    if 0x10000 <= c as int {
      DecodeFour(bytes, pos, c);
    } else if 0x800 <= c as int {
      DecodeThree(bytes, pos, c);
    } else if 0x80 <= c as int {
      DecodeTwo(bytes, pos, c);
    }
  }

  lemma {:induction false} DecodeEncodedFrom(bytes: seq<nat>, pos: nat, s: string, k: nat)
    requires k <= |s| && BytesAt(bytes, pos, EncodeFrom(s, k)) && pos + |EncodeFrom(s, k)| == |bytes|
    ensures DecodeFrom(bytes, pos, s[..k]) == Some(s)
    decreases |s| - k
  {
    if k == |s| {
      assert s[..k] == s;
    } else {
      SplitBytesAt(bytes, pos, EncodeChar(s[k]), EncodeFrom(s, k + 1));
      DecodeEncodedChar(bytes, pos, s[k]);
      assert s[..k] + [s[k]] == s[..k + 1];
      DecodeEncodedFrom(bytes, pos + |EncodeChar(s[k])|, s, k + 1);
    }
  }

  /** Decoding what was encoded gives the text back. */
  lemma DecodeEncoded(s: string)
    ensures Decode(Encode(s)) == Some(s)
  {
    DecodeEncodedFrom(Encode(s), 0, s, 0);
    assert s[..0] == "";
  }

  lemma {:induction false} EncodeSuffix(whole: string, p: nat, b: string, k: nat)
    requires k <= |b| && p <= |whole| && |whole| - p == |b| - k
    requires forall i {:trigger b[i]} :: k <= i < |b| ==> whole[p + (i - k)] == b[i]
    ensures EncodeFrom(whole, p) == EncodeFrom(b, k)
    decreases |b| - k
  {
    if k < |b| {
      assert whole[p] == b[k];
      EncodeSuffix(whole, p + 1, b, k + 1);
    }
  }

  lemma {:induction false} EncodeConcatFrom(a: string, b: string, k: nat)
    requires k <= |a|
    ensures EncodeFrom(a + b, k) == EncodeFrom(a, k) + Encode(b)
    decreases |a| - k
  {
    if k < |a| {
      EncodeConcatFrom(a, b, k + 1);
    } else {
      EncodeSuffix(a + b, k, b, 0);
    }
  }

  lemma EncodeConcat(a: string, b: string)
    ensures Encode(a + b) == Encode(a) + Encode(b)
  {
    EncodeConcatFrom(a, b, 0);
  }
}
