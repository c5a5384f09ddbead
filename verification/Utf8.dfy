/**
 Well-formed UTF-8 byte sequences (section 4 of RFC 3629) and cutting a text short.
 */
module Utf8 {
  type Byte = x: int | 0 <= x < 256

  predicate Tail(b: Byte) {
    0x80 <= b <= 0xBF
  }

  /** The length of the character at the head of the text; zero if there is none. */
  function CharLength(s: seq<Byte>): (n: nat)
    ensures n <= 4 && n <= |s|
  {
    if s == [] then 0
    else if s[0] <= 0x7F then 1
    else if 0xC2 <= s[0] <= 0xDF && |s| >= 2 && Tail(s[1]) then 2
    else if |s| >= 3 && Tail(s[2])
            && ((s[0] == 0xE0 && 0xA0 <= s[1] <= 0xBF)
                || (((0xE1 <= s[0] <= 0xEC) || (0xEE <= s[0] <= 0xEF)) && Tail(s[1]))
                || (s[0] == 0xED && 0x80 <= s[1] <= 0x9F)) then 3
    else if |s| >= 4 && Tail(s[2]) && Tail(s[3])
            && ((s[0] == 0xF0 && 0x90 <= s[1] <= 0xBF)
                || (0xF1 <= s[0] <= 0xF3 && Tail(s[1]))
                || (s[0] == 0xF4 && 0x80 <= s[1] <= 0x8F)) then 4
    else 0
  }

  predicate Valid(s: seq<Byte>) {
    s == [] || (CharLength(s) > 0 && Valid(s[CharLength(s)..]))
  }

  /** Whether the text reads as characters does not depend on what follows them. */
  lemma CharLengthPrefix(s: seq<Byte>, k: nat)
    requires k <= |s|
    ensures 0 < CharLength(s) <= k ==> CharLength(s[..k]) == CharLength(s)
    ensures CharLength(s[..k]) > 0 ==> CharLength(s) == CharLength(s[..k])
  {
  }

  /** In a valid text, every place has a valid cut at most three bytes before it. */
  lemma {:induction false} CutNearby(s: seq<Byte>, k: nat) returns (c: nat)
    requires Valid(s) && k <= |s|
    ensures c <= k < c + 4 && Valid(s[..c])
    decreases |s|
  {
    var n := CharLength(s);
    if k < n || s == [] {
      c := 0;
    } else {
      var d := CutNearby(s[n..], k - n);
      c := n + d;
      CharLengthPrefix(s, c);
      assert s[..c][n..] == s[n..][..d];
    }
  }

  /** Where the text is cut when it must lose at least the given number of bytes. */
  function CutBefore(s: seq<Byte>, k: nat): (c: nat)
    requires k <= |s|
    ensures c <= k && Valid(s[..c])
    ensures forall j :: c < j <= k ==> !Valid(s[..j])
  {
    if k == 0 || Valid(s[..k]) then k else CutBefore(s, k - 1)
  }

  lemma CutLosesLittle(s: seq<Byte>, k: nat)
    requires Valid(s) && k <= |s|
    ensures k < CutBefore(s, k) + 4
  {
    var c := CutNearby(s, k);
  }

  /** Steps back from the place until what comes before it is valid. */
  method Cut(s: seq<Byte>, k: nat) returns (c: nat)
    requires k <= |s|
    ensures c == CutBefore(s, k)
  {
    c := k;
    while c > 0 && !Valid(s[..c])
      invariant c <= k && CutBefore(s, c) == CutBefore(s, k)
    {
      c := c - 1;
    }
  }
}
