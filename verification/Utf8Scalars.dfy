/**
 Valid text is what some sequence of Unicode scalar values is written as (section 3 of RFC 3629).
 */
module Utf8Scalars {
  import opened Utf8

  /** A code point that is no surrogate. */
  predicate Scalar(c: int) {
    0 <= c <= 0x10FFFF && !(0xD800 <= c <= 0xDFFF)
  }

  /** The bytes of one scalar value, in the shortest form. */
  function Bytes(c: int): (s: seq<Byte>)
    requires Scalar(c)
    ensures 1 <= |s| <= 4
  {
    if c < 0x80 then [c]
    else if c < 0x800 then [0xC0 + c / 0x40, 0x80 + c % 0x40]
    else if c < 0x1_0000 then [0xE0 + c / 0x1000, 0x80 + c / 0x40 % 0x40, 0x80 + c % 0x40]
    else [0xF0 + c / 0x4_0000, 0x80 + c / 0x1000 % 0x40, 0x80 + c / 0x40 % 0x40, 0x80 + c % 0x40]
  }

  predicate Scalars(cs: seq<int>) {
    forall i :: 0 <= i < |cs| ==> Scalar(cs[i])
  }

  function Written(cs: seq<int>): seq<Byte>
    requires Scalars(cs)
  {
    if cs == [] then [] else Bytes(cs[0]) + Written(cs[1..])
  }

  lemma OneRead(c: int, rest: seq<Byte>)
    requires Scalar(c)
    ensures CharLength(Bytes(c) + rest) == |Bytes(c)|
  {
    var s := Bytes(c) + rest;
    assert forall i :: 0 <= i < |Bytes(c)| ==> s[i] == Bytes(c)[i];
  }

  function Two(a: int, b: int): int {
    (a - 0xC0) * 0x40 + (b - 0x80)
  }

  function Three(a: int, b: int, c: int): int {
    (a - 0xE0) * 0x1000 + (b - 0x80) * 0x40 + (c - 0x80)
  }

  function Four(a: int, b: int, c: int, d: int): int {
    (a - 0xF0) * 0x4_0000 + (b - 0x80) * 0x1000 + (c - 0x80) * 0x40 + (d - 0x80)
  }

  lemma TwoParts(a: int, b: int)
    requires 0x80 <= b <= 0xBF
    ensures var v := Two(a, b); v / 0x40 == a - 0xC0 && v % 0x40 == b - 0x80
  {
  }

  lemma ThreeParts(a: int, b: int, c: int)
    requires 0x80 <= b <= 0xBF && 0x80 <= c <= 0xBF
    ensures var v := Three(a, b, c); v / 0x1000 == a - 0xE0 && v / 0x40 % 0x40 == b - 0x80 && v % 0x40 == c - 0x80
  {
    var v, u := Three(a, b, c), (a - 0xE0) * 0x40 + (b - 0x80);
    assert v == u * 0x40 + (c - 0x80);
    assert v / 0x40 == u && v % 0x40 == c - 0x80;
    assert u / 0x40 == a - 0xE0 && u % 0x40 == b - 0x80;
  }

  lemma FourParts(a: int, b: int, c: int, d: int)
    requires 0x80 <= b <= 0xBF && 0x80 <= c <= 0xBF && 0x80 <= d <= 0xBF
    ensures var v := Four(a, b, c, d);
            v / 0x4_0000 == a - 0xF0 && v / 0x1000 % 0x40 == b - 0x80 && v / 0x40 % 0x40 == c - 0x80 && v % 0x40 == d - 0x80
  {
    var v, u, t := Four(a, b, c, d), (a - 0xF0) * 0x1000 + (b - 0x80) * 0x40 + (c - 0x80), (a - 0xF0) * 0x40 + (b - 0x80);
    assert v == u * 0x40 + (d - 0x80) && u == t * 0x40 + (c - 0x80);
    assert v / 0x40 == u && v % 0x40 == d - 0x80;
    assert u / 0x40 == t && u % 0x40 == c - 0x80;
    assert v / 0x1000 == t && t % 0x40 == b - 0x80 && t / 0x40 == a - 0xF0;
  }

  /** The scalar value at the head of a text that reads as a character. */
  function HeadOf(s: seq<Byte>): int
    requires CharLength(s) > 0
  {
    var n := CharLength(s);
    if n == 1 then s[0] else if n == 2 then Two(s[0], s[1]) else if n == 3 then Three(s[0], s[1], s[2]) else Four(s[0], s[1], s[2], s[3])
  }

  lemma OneWritten(s: seq<Byte>)
    requires CharLength(s) > 0
    ensures Scalar(HeadOf(s)) && Bytes(HeadOf(s)) == s[..CharLength(s)]
  {
    var n := CharLength(s);
    if n == 2 {
      TwoParts(s[0], s[1]);
      TwoWritten(s[0], s[1], HeadOf(s));
    } else if n == 3 {
      ThreeParts(s[0], s[1], s[2]);
      ThreeWritten(s[0], s[1], s[2], HeadOf(s));
    } else if n == 4 {
      FourParts(s[0], s[1], s[2], s[3]);
      FourWritten(s[0], s[1], s[2], s[3], HeadOf(s));
    }
  }

  lemma TwoWritten(a: Byte, b: Byte, v: int)
    requires 0xC2 <= a <= 0xDF && Tail(b) && v / 0x40 == a - 0xC0 && v % 0x40 == b - 0x80
    ensures Scalar(v) && Bytes(v) == [a, b]
  {
  }

  lemma ThreeWritten(a: Byte, b: Byte, c: Byte, v: int)
    requires Tail(b) && Tail(c) && 0xE0 <= a <= 0xEF && (a == 0xE0 ==> b >= 0xA0) && (a == 0xED ==> b <= 0x9F)
    requires v == Three(a, b, c) && v / 0x1000 == a - 0xE0 && v / 0x40 % 0x40 == b - 0x80 && v % 0x40 == c - 0x80
    ensures Scalar(v) && Bytes(v) == [a, b, c]
  {
  }

  lemma FourWritten(a: Byte, b: Byte, c: Byte, d: Byte, v: int)
    requires Tail(b) && Tail(c) && Tail(d) && 0xF0 <= a <= 0xF4 && (a == 0xF0 ==> b >= 0x90) && (a == 0xF4 ==> b <= 0x8F)
    requires v == Four(a, b, c, d)
    requires v / 0x4_0000 == a - 0xF0 && v / 0x1000 % 0x40 == b - 0x80 && v / 0x40 % 0x40 == c - 0x80 && v % 0x40 == d - 0x80
    ensures Scalar(v) && Bytes(v) == [a, b, c, d]
  {
  }

  lemma {:induction false} WrittenValid(cs: seq<int>)
    requires Scalars(cs)
    ensures Valid(Written(cs))
  {
    if cs != [] {
      WrittenValid(cs[1..]);
      OneRead(cs[0], Written(cs[1..]));
      assert Written(cs)[|Bytes(cs[0])|..] == Written(cs[1..]);
    }
  }

  lemma {:induction false} ValidWritten(s: seq<Byte>) returns (cs: seq<int>)
    requires Valid(s)
    ensures Scalars(cs) && Written(cs) == s
    decreases |s|
  {
    hide Bytes, HeadOf, CharLength, Scalar;
    if s == [] {
      cs := [];
    } else {
      var n := CharLength(s);
      var rest := ValidWritten(s[n..]);
      OneWritten(s);
      cs := [HeadOf(s)] + rest;
      assert cs[1..] == rest && s == s[..n] + s[n..];
    }
  }

  /** Exactly the written texts are valid. */
  lemma ValidMeaning(s: seq<Byte>)
    ensures Valid(s) <==> exists cs :: Scalars(cs) && Written(cs) == s
  {
    if Valid(s) { var cs := ValidWritten(s); }
    if cs :| Scalars(cs) && Written(cs) == s { WrittenValid(cs); }
  }
}
