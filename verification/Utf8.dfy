/** Text as code points, and the length of its UTF-8 encoding. */
module Utf8 {
  import opened Options

  /** A text is a sequence of code points; surrogates are representable but cannot be encoded. */
  type Text = seq<nat>

  predicate Encodable(c: nat) {
    c < 0xD800 || 0xE000 <= c < 0x11_0000
  }

  function Width(c: nat): nat {
    if c < 0x80 then 1 else if c < 0x800 then 2 else if c < 0x1_0000 then 3 else 4
  }

  /** The number of bytes of the encoding, or None where encoding raises. */
  function ByteLength(t: Text): Option<nat> {
    if t == [] then Some(0)
    else
      var rest := ByteLength(t[1..]);
      if Encodable(t[0]) && rest.Some? then Some(Width(t[0]) + rest.value) else None
  }

  lemma {:induction false} ByteLengthConcat(a: Text, b: Text)
    ensures ByteLength(a + b) ==
      if ByteLength(a).Some? && ByteLength(b).Some? then Some(ByteLength(a).value + ByteLength(b).value) else None
  {
    if a == [] {
      assert a + b == b;
    } else {
      ByteLengthConcat(a[1..], b);
      assert (a + b)[1..] == a[1..] + b;
    }
  }

  /** The code points of a text written in ASCII. */
  function Ascii(s: string): (t: Text) {
    seq(|s|, i requires 0 <= i < |s| => s[i] as nat)
  }

  lemma {:induction false} AsciiLength(s: string)
    requires forall i :: 0 <= i < |s| ==> s[i] as nat < 0x80
    ensures ByteLength(Ascii(s)) == Some(|s|)
  {
    if s != "" {
      AsciiLength(s[1..]);
      assert Ascii(s)[1..] == Ascii(s[1..]);
    }
  }

  // ---------- the encoding ----------

  /** The bytes of one code point, as RFC 3629 defines them. */
  function EncodeChar(c: nat): (b: seq<nat>)
    requires Encodable(c)
    ensures forall i :: 0 <= i < |b| ==> b[i] < 256
  {
    if c < 0x80 then [c]
    else if c < 0x800 then [0xC0 + c / 64, 0x80 + c % 64]
    else if c < 0x1_0000 then [0xE0 + c / 4096, 0x80 + c / 64 % 64, 0x80 + c % 64]
    else [0xF0 + c / 262144, 0x80 + c / 4096 % 64, 0x80 + c / 64 % 64, 0x80 + c % 64]
  }

  predicate AllEncodable(t: Text) {
    forall i :: 0 <= i < |t| ==> Encodable(t[i])
  }

  function Encode(t: Text): seq<nat>
    requires AllEncodable(t)
  {
    if t == [] then [] else EncodeChar(t[0]) + Encode(t[1..])
  }

  /** The number of bytes that a lead byte announces. */
  function Announced(lead: nat): nat {
    if lead < 0x80 then 1 else if lead < 0xE0 then 2 else if lead < 0xF0 then 3 else 4
  }

  /** What a byte carries beside its mark. */
  function Bits(byte: int, mark: int): int {
    byte - mark
  }

  function DecodeChar(b: seq<nat>): int
    requires b != [] && |b| == Announced(b[0])
  {
    if |b| == 1 then b[0]
    else if |b| == 2 then Bits(b[0], 0xC0) * 64 + Bits(b[1], 0x80)
    else if |b| == 3 then Bits(b[0], 0xE0) * 4096 + Bits(b[1], 0x80) * 64 + Bits(b[2], 0x80)
    else Bits(b[0], 0xF0) * 262144 + Bits(b[1], 0x80) * 4096 + Bits(b[2], 0x80) * 64 + Bits(b[3], 0x80)
  }

  /** A code point takes as many bytes as its width says and its lead byte announces, and is recovered from them. */
  lemma EncodeCharFacts(c: nat)
    requires Encodable(c)
    ensures |EncodeChar(c)| == Width(c) == Announced(EncodeChar(c)[0])
    ensures DecodeChar(EncodeChar(c)) == c
  {
    assert c == c / 64 * 64 + c % 64;
    assert c / 64 == c / 64 / 64 * 64 + c / 64 % 64;
    assert c / 4096 == c / 64 / 64;
    assert c / 4096 == c / 4096 / 64 * 64 + c / 4096 % 64;
    assert c / 262144 == c / 4096 / 64;
  }

  /** The byte length is that of the encoding, and there is none exactly when some code point cannot be encoded. */
  lemma {:induction false} ByteLengthExactly(t: Text)
    ensures ByteLength(t).Some? <==> AllEncodable(t)
    ensures AllEncodable(t) ==> ByteLength(t).value == |Encode(t)|
  {
    if t != [] {
      ByteLengthExactly(t[1..]);
      assert t == [t[0]] + t[1..];
      assert AllEncodable(t) <==> Encodable(t[0]) && AllEncodable(t[1..]);
      if Encodable(t[0]) {
        EncodeCharFacts(t[0]);
      }
    }
  }

  /** Equal encodings are of equal texts. */
  lemma {:induction false} EncodeInjective(a: Text, b: Text)
    requires AllEncodable(a) && AllEncodable(b) && Encode(a) == Encode(b)
    ensures a == b
  {
    if a != [] {
      EncodeCharFacts(a[0]);
    }
    if b != [] {
      EncodeCharFacts(b[0]);
    }
    if a != [] && b != [] {
      var x, y := EncodeChar(a[0]), EncodeChar(b[0]);
      assert Encode(a)[0] == x[0] && Encode(b)[0] == y[0];
      assert x == Encode(a)[..|x|] == Encode(b)[..|y|] == y;
      assert Encode(a[1..]) == Encode(a)[|x|..] == Encode(b)[|y|..] == Encode(b[1..]);
      EncodeInjective(a[1..], b[1..]);
      assert a == [a[0]] + a[1..] && b == [b[0]] + b[1..];
    }
  }
}
