/** Well-formed UTF-8 is what encoding Unicode scalar values gives: RFC 3629, section 3. */
module Utf8 {
  import opened Bytes
  import opened ElfTarget

  /** A code point that is no surrogate. */
  predicate Scalar(c: nat) {
    c < 0xd800 || 0xe000 <= c < 0x110000
  }

  function EncodeScalar(c: nat): (r: seq<byte>)
    requires Scalar(c)
    ensures 1 <= |r| <= 4
  {
    if c < 0x80 then [c]
    else if c < 0x800 then [0xc0 + c / 64, 0x80 + c % 64]
    else if c < 0x10000 then [0xe0 + c / 4096, 0x80 + c / 64 % 64, 0x80 + c % 64]
    else [0xf0 + c / 262144, 0x80 + c / 4096 % 64, 0x80 + c / 64 % 64, 0x80 + c % 64]
  }

  function EncodeAll(cs: seq<nat>): seq<byte>
    requires forall i | 0 <= i < |cs| :: Scalar(cs[i])
  {
    if cs == [] then [] else EncodeScalar(cs[0]) + EncodeAll(cs[1..])
  }

  lemma {:induction false} ScalarIsValid(c: nat, rest: seq<byte>)
    requires Scalar(c) && ValidUtf8(rest)
    ensures ValidUtf8(EncodeScalar(c) + rest)
  {
    var b := EncodeScalar(c) + rest;
    assert b[|EncodeScalar(c)|..] == rest;
  }

  lemma {:induction false} EncodedIsValid(cs: seq<nat>)
    requires forall i | 0 <= i < |cs| :: Scalar(cs[i])
    ensures ValidUtf8(EncodeAll(cs))
  {
    if cs != [] {
      EncodedIsValid(cs[1..]);
      ScalarIsValid(cs[0], EncodeAll(cs[1..]));
    }
  }

  /** The first character of well-formed text, and what is left. */
  lemma {:induction false} FirstScalar(b: seq<byte>) returns (c: nat)
    requires b != [] && ValidUtf8(b)
    ensures Scalar(c) && EncodeScalar(c) <= b && ValidUtf8(b[|EncodeScalar(c)|..])
  {
    if b[0] < 0x80 {
      c := b[0];
      assert EncodeScalar(c) == b[..1];
    } else if b[0] < 0xe0 {
      c := Two(b[0], b[1]);
      assert EncodeScalar(c) == b[..2];
    } else if b[0] < 0xf0 {
      c := Three(b[0], b[1], b[2]);
      assert EncodeScalar(c) == b[..3];
    } else {
      c := Four(b[0], b[1], b[2], b[3]);
      assert EncodeScalar(c) == b[..4];
    }
  }

  lemma {:induction false} Two(x: byte, y: byte) returns (c: nat)
    requires 0xc2 <= x < 0xe0 && Continuation(y)
    ensures Scalar(c) && EncodeScalar(c) == [x, y]
  {
    c := (x as int - 0xc0) * 64 + (y as int - 0x80);
  }

  lemma {:induction false} Three(x: byte, y: byte, z: byte) returns (c: nat)
    requires 0xe0 <= x < 0xf0 && Continuation(y) && Continuation(z)
    requires (x == 0xe0 ==> y >= 0xa0) && (x == 0xed ==> y < 0xa0)
    ensures Scalar(c) && EncodeScalar(c) == [x, y, z]
  {
    c := (x as int - 0xe0) * 4096 + (y as int - 0x80) * 64 + (z as int - 0x80);
    assert c / 64 == (x as int - 0xe0) * 64 + (y as int - 0x80);
  }

  lemma {:induction false} Four(w: byte, x: byte, y: byte, z: byte) returns (c: nat)
    requires 0xf0 <= w < 0xf5 && Continuation(x) && Continuation(y) && Continuation(z)
    requires (w == 0xf0 ==> x >= 0x90) && (w == 0xf4 ==> x < 0x90)
    ensures Scalar(c) && EncodeScalar(c) == [w, x, y, z]
  {
    c := (w as int - 0xf0) * 262144 + (x as int - 0x80) * 4096 + (y as int - 0x80) * 64 + (z as int - 0x80);
    assert c / 64 == (w as int - 0xf0) * 4096 + (x as int - 0x80) * 64 + (y as int - 0x80);
    assert c / 4096 == (w as int - 0xf0) * 64 + (x as int - 0x80);
  }

  lemma {:induction false} ValidIsEncoded(b: seq<byte>) returns (cs: seq<nat>)
    requires ValidUtf8(b)
    ensures forall i | 0 <= i < |cs| :: Scalar(cs[i])
    ensures EncodeAll(cs) == b
    decreases |b|
  {
    hide ValidUtf8, EncodeScalar;
    if b == [] {
      return [];
    }
    var c := FirstScalar(b);
    var rest := ValidIsEncoded(b[|EncodeScalar(c)|..]);
    cs := [c] + rest;
    assert cs[1..] == rest;
    assert b == EncodeScalar(c) + b[|EncodeScalar(c)|..];
  }

  /** The inspector takes a byte string for UTF-8 exactly when it encodes scalar values. */
  lemma {:induction false} ValidExactly(b: seq<byte>)
    ensures ValidUtf8(b) <==> exists cs :: Encodes(cs, b)
  {
    if ValidUtf8(b) {
      var cs := ValidIsEncoded(b);
      assert Encodes(cs, b);
    }
    if exists cs :: Encodes(cs, b) {
      var cs :| Encodes(cs, b);
      EncodedIsValid(cs);
    }
  }

  predicate Encodes(cs: seq<nat>, b: seq<byte>) {
    (forall i | 0 <= i < |cs| :: Scalar(cs[i])) && b == EncodeAll(cs)
  }
}
