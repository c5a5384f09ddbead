/**
 What the encoding looks like: decimal numerals, keys in dictionary order, and members by name.
 */
module ValueCanon {
  import opened Options
  import opened Texts
  import opened ValueJson

  // ----- Numerals ---------------------------------------------------------------------

  /** The sum of the characters' places in the character table above '0', each weighted by its position. */
  function Positional(s: string): int {
    if s == "" then 0 else 10 * Positional(s[..|s| - 1]) + (s[|s| - 1] as int - '0' as int)
  }

  predicate Numeral(s: string) {
    s != "" && forall i :: 0 <= i < |s| ==> '0' <= s[i] <= '9'
  }

  lemma DigitPlace(d: nat)
    requires d < 10
    ensures Digit(d) as int == '0' as int + d
  {
  }

  lemma {:induction false} NatText(n: nat)
    ensures var s := FormatNat(n); Numeral(s) && Positional(s) == n && (n == 0 ==> s == "0") && (n != 0 ==> s[0] != '0')
  {
    var s := FormatNat(n);
    DigitPlace(n % 10);
    if n < 10 {
      assert s[..0] == "";
    } else {
      NatText(n / 10);
      assert s[..|s| - 1] == FormatNat(n / 10);
    }
  }

  /** A minus exactly before negative numbers, then decimal digits without a leading zero, worth the number. */
  lemma IntText(n: int)
    ensures var s := FormatInt(n);
            && s != "" && (s[0] == '-' <==> n < 0)
            && var digits := if n < 0 then s[1..] else s;
               Numeral(digits) && (digits[0] == '0' ==> digits == "0") && Positional(digits) == if n < 0 then -n else n
  {
    NatText(if n < 0 then -n else n);
  }

  lemma DigitWorth(c: char)
    requires '0' <= c <= '9'
    ensures DigitValue(c) as int == c as int - '0' as int
  {
    DigitPlace(DigitValue(c));
  }

  lemma {:induction false} DigitsRead(s: string)
    ensures ParseDigits(s).Some? <==> forall i :: 0 <= i < |s| ==> '0' <= s[i] <= '9'
    ensures ParseDigits(s).Some? ==> ParseDigits(s).value == Positional(s)
  {
    if s != "" {
      var n := |s| - 1;
      DigitsRead(s[..n]);
      assert forall i :: 0 <= i < n ==> s[..n][i] == s[i];
      if '0' <= s[n] <= '9' { DigitWorth(s[n]); }
    }
  }

  /** What is read: decimal digits with an optional sign, in the range of 64 bits. */
  lemma IntRead(s: string)
    ensures var signed := s != "" && (s[0] == '-' || s[0] == '+');
            var digits := if signed then s[1..] else s;
            var n := if s != "" && s[0] == '-' then -Positional(digits) else Positional(digits);
            && (ParseInt(s).Some? <==> Numeral(digits) && -0x8000_0000_0000_0000 <= n < 0x8000_0000_0000_0000)
            && (ParseInt(s).Some? ==> ParseInt(s).value == n)
  {
    var signed := s != "" && (s[0] == '-' || s[0] == '+');
    DigitsRead(if signed then s[1..] else s);
  }

  // ----- Maps -------------------------------------------------------------------------------

  lemma {:induction false} EntriesAt(ft: FloatText, v: Value, keys: seq<string>, n: nat, i: nat)
    requires v.Map? && Elements(keys) == v.entries.Keys && i < n <= |keys| && EncodeEntries(ft, v, keys, n).Some?
    ensures keys[i] in v.entries && Encode(ft, v.entries[keys[i]]).Some?
    ensures EncodeEntries(ft, v, keys, n).value[i] ==
            JObject([Member("key", JString(keys[i])), Member("value", Encode(ft, v.entries[keys[i]]).value)])
  {
    assert keys[n - 1] in Elements(keys);
    if i < n - 1 { EntriesAt(ft, v, keys, n - 1, i); }
  }

  /** The entries of an encoded map are its keys, each once and in dictionary order, with what they lead to. */
  lemma MapText(ft: FloatText, m: map<string, Value>) returns (keys: seq<string>)
    requires Encode(ft, Map(m)).Some?
    ensures (forall i, j :: 0 <= i < j < |keys| ==> Earlier(keys[i], keys[j])) && forall k :: k in m <==> k in keys
    ensures forall k :: k in m ==> Encode(ft, m[k]).Some?
    ensures var node := Encode(ft, Map(m)).value;
            && node.JObject? && |node.members| == 2 && node.members[0] == Member("kind", JString("map")) && node.members[1].name == "map"
            && node.members[1].value.JArray? && |node.members[1].value.items| == |keys|
            && forall i :: 0 <= i < |keys| ==>
                 keys[i] in m && node.members[1].value.items[i] ==
                                 JObject([Member("key", JString(keys[i])), Member("value", Encode(ft, m[keys[i]]).value)])
  {
    keys := SortedKeys(m.Keys);
    SortedKeysOk(m.Keys);
    forall i, j | 0 <= i < j < |keys|
      ensures Earlier(keys[i], keys[j])
    {
      TextLessMeaning(keys[i], keys[j]);
    }
    assert forall k :: k in Elements(keys) <==> k in keys;
    forall i | 0 <= i < |keys|
      ensures keys[i] in m && Encode(ft, m[keys[i]]).Some?
      ensures EncodeEntries(ft, Map(m), keys, |keys|).value[i] ==
              JObject([Member("key", JString(keys[i])), Member("value", Encode(ft, m[keys[i]]).value)])
    {
      EntriesAt(ft, Map(m), keys, |keys|, i);
    }
  }

  lemma {:induction false} ItemsAt(ft: FloatText, v: Value, n: nat, i: nat)
    requires v.List? && i < n <= |v.items| && EncodeItems(ft, v, n).Some?
    ensures Some(EncodeItems(ft, v, n).value[i]) == Encode(ft, v.items[i])
  {
    if i < n - 1 { ItemsAt(ft, v, n - 1, i); }
  }

  /** Every other kind: its name, and its payload under that name. */
  lemma KindText(ft: FloatText, v: Value)
    requires !v.Map? && Encode(ft, v).Some?
    ensures var node := Encode(ft, v).value;
            match v
            case Null => node == JObject([Member("kind", JString("null"))])
            case Bool(b) => node == JObject([Member("kind", JString("bool")), Member("bool", JBool(b))])
            case Int(n) => node == JObject([Member("kind", JString("int")), Member("int", JString(FormatInt(n)))])
            case Floating(f) => ft.finite(f) && node == JObject([Member("kind", JString("float")), Member("float", JString(ft.format(f)))])
            case Text(s) => node == JObject([Member("kind", JString("string")), Member("string", JString(s))])
            case List(items) =>
              && node.JObject? && |node.members| == 2 && node.members[0] == Member("kind", JString("list")) && node.members[1].name == "list"
              && node.members[1].value.JArray? && |node.members[1].value.items| == |items|
              && forall i :: 0 <= i < |items| ==> Encode(ft, items[i]) == Some(node.members[1].value.items[i])
  {
    if v.List? {
      forall i | 0 <= i < |v.items|
        ensures Some(EncodeItems(ft, v, |v.items|).value[i]) == Encode(ft, v.items[i])
      {
        ItemsAt(ft, v, |v.items|, i);
      }
    }
  }
}
