/**
 The lossless encoding of values as kind-tagged JSON trees, and its strict decoder.
 */
module ValueJson {
  import opened Options
  import opened Texts

  // ----- Values and trees -------------------------------------------------------------------

  type Int64 = n: int | -0x8000_0000_0000_0000 <= n < 0x8000_0000_0000_0000

  /** The bits of a double. */
  type Float = nat

  datatype Value =
    | Null
    | Bool(truth: bool)
    | Int(number: Int64)
    | Floating(bits: Float)
    | Text(text: string)
    | List(items: seq<Value>)
    | Map(entries: map<string, Value>)

  datatype Node =
    | JNull
    | JBool(truth: bool)
    | JNumber(numeral: string)
    | JString(text: string)
    | JArray(items: seq<Node>)
    | JObject(members: seq<Member>)

  datatype Member = Member(name: string, value: Node)

  /** How doubles are written: which are finite, their shortest text, and the parser. */
  datatype FloatText = FloatText(finite: Float -> bool, format: Float -> string, parse: string -> Option<Float>)

  /** The shortest text of a finite double parses to that double, and only finite doubles are accepted. */
  ghost predicate RoundTrips(ft: FloatText) {
    forall f: Float :: ft.finite(f) ==> ft.parse(ft.format(f)) == Some(f)
  }

  // ----- Decimal text --------------------------------------------------------------------------

  function Digit(d: nat): char
    requires d < 10
  {
    ['0', '1', '2', '3', '4', '5', '6', '7', '8', '9'][d]
  }

  predicate IsDigit(c: char) {
    '0' <= c <= '9'
  }

  function DigitValue(c: char): (d: nat)
    requires IsDigit(c)
    ensures d < 10 && Digit(d) == c
  {
    if c == '0' then 0 else if c == '1' then 1 else if c == '2' then 2 else if c == '3' then 3 else if c == '4' then 4
    else if c == '5' then 5 else if c == '6' then 6 else if c == '7' then 7 else if c == '8' then 8 else 9
  }

  function FormatNat(n: nat): string {
    if n < 10 then [Digit(n)] else FormatNat(n / 10) + [Digit(n % 10)]
  }

  function FormatInt(n: int): string {
    if n < 0 then "-" + FormatNat(-n) else FormatNat(n)
  }

  /** The value of a run of digits, if there is nothing else in the text. */
  function ParseDigits(s: string): Option<nat> {
    if s == "" then Some(0)
    else
      var last := s[|s| - 1];
      var rest := ParseDigits(s[..|s| - 1]);
      if rest.None? || !IsDigit(last) then None else Some(10 * rest.value + DigitValue(last))
  }

  function ParseNat(s: string): Option<nat> {
    if s == "" then None else ParseDigits(s)
  }

  /** An optional sign and digits, in the range of 64 bits; leading zeros and a plus are accepted here. */
  function ParseInt(s: string): Option<Int64> {
    var negative := s != "" && s[0] == '-';
    var signed := s != "" && (s[0] == '-' || s[0] == '+');
    var digits := ParseNat(if signed then s[1..] else s);
    if digits.None? then None
    else
      var n: int := if negative then 0 - digits.value else digits.value;
      if -0x8000_0000_0000_0000 <= n < 0x8000_0000_0000_0000 then Some(n) else None
  }

  lemma {:induction false} FormatNatParses(n: nat)
    ensures FormatNat(n) != "" && IsDigit(FormatNat(n)[0]) && ParseDigits(FormatNat(n)) == Some(n)
  {
    if n < 10 {
      assert FormatNat(n)[..0] == "";
    } else {
      FormatNatParses(n / 10);
      var s := FormatNat(n);
      assert s[..|s| - 1] == FormatNat(n / 10) && s[|s| - 1] == Digit(n % 10);
      DigitOf(n % 10);
    }
  }

  lemma DigitOf(d: nat)
    requires d < 10
    ensures IsDigit(Digit(d)) && DigitValue(Digit(d)) == d
  {
  }

  lemma ParseSigned(s: string)
    requires s != "" && IsDigit(s[0])
    ensures ParseInt("-" + s) ==
            if ParseDigits(s).Some? && ParseDigits(s).value <= 0x8000_0000_0000_0000 then Some(0 - ParseDigits(s).value) else None
    ensures ParseInt(s) ==
            if ParseDigits(s).Some? && ParseDigits(s).value < 0x8000_0000_0000_0000 then Some(ParseDigits(s).value) else None
  {
    hide ParseDigits;
    assert ("-" + s)[1..] == s;
  }

  /** The canonical text of a 64-bit integer parses to that integer. */
  lemma FormatIntParses(n: int)
    requires -0x8000_0000_0000_0000 <= n < 0x8000_0000_0000_0000
    ensures ParseInt(FormatInt(n)) == Some(n)
  {
    hide ParseDigits, FormatNat, ParseInt;
    var size: nat := if n < 0 then 0 - n else n;
    FormatNatParses(size);
    ParseSigned(FormatNat(size));
  }

  // ----- Encoding ---------------------------------------------------------------------------------

  ghost predicate Least(ks: set<string>, k: string) {
    k in ks && forall x :: x in ks && x != k ==> TextLess(k, x)
  }

  lemma {:induction false} LeastExists(ks: set<string>)
    requires ks != {}
    ensures exists k :: Least(ks, k)
    decreases |ks|
  {
    hide TextLess;
    var x :| x in ks;
    if ks == {x} {
      assert Least(ks, x);
    } else {
      assert exists y :: y in ks && y != x;
      LeastExists(ks - {x});
      var b :| Least(ks - {x}, b);
      var k := if TextLess(x, b) then x else b;
      TextOrder(x, b, b);
      forall y | y in ks && y != k
        ensures TextLess(k, y)
      {
        TextOrder(x, b, y);
      }
      assert Least(ks, k);
    }
  }

  ghost function LeastKey(ks: set<string>): (k: string)
    requires ks != {}
    ensures Least(ks, k)
  {
    LeastExists(ks);
    var k :| Least(ks, k);
    k
  }

  /** The keys in strictly increasing order. */
  ghost function SortedKeys(ks: set<string>): seq<string>
    decreases |ks|
  {
    if ks == {} then [] else [LeastKey(ks)] + SortedKeys(ks - {LeastKey(ks)})
  }

  ghost predicate Increasing(s: seq<string>) {
    forall i, j :: 0 <= i < j < |s| ==> TextLess(s[i], s[j])
  }

  function Elements(s: seq<string>): set<string> {
    set k | k in s
  }

  lemma {:induction false} SortedKeysOk(ks: set<string>)
    ensures Increasing(SortedKeys(ks)) && Elements(SortedKeys(ks)) == ks
    decreases |ks|
  {
    hide TextLess;
    if ks != {} {
      var k := LeastKey(ks);
      SortedKeysOk(ks - {k});
      Prepended(k, SortedKeys(ks - {k}), ks);
    }
  }

  lemma Prepended(k: string, rest: seq<string>, ks: set<string>)
    requires Least(ks, k) && Increasing(rest) && Elements(rest) == ks - {k}
    ensures Increasing([k] + rest) && Elements([k] + rest) == ks
  {
    hide TextLess;
    forall j | 0 <= j < |rest|
      ensures TextLess(k, rest[j])
    {
      assert rest[j] in Elements(rest);
    }
    assert Elements([k] + rest) == {k} + Elements(rest);
  }

  /** A strictly increasing list is the sorted list of its elements. */
  lemma {:induction false} IncreasingUnique(s: seq<string>, t: seq<string>)
    requires Increasing(s) && Increasing(t) && Elements(s) == Elements(t)
    ensures s == t
    decreases |s|
  {
    hide TextLess;
    if s == [] {
      NoElements(s);
      NoElements(t);
    } else {
      NoElements(s);
      NoElements(t);
      assert s[0] in Elements(t) && t[0] in Elements(s);
      HeadFirst(s, t[0]);
      HeadFirst(t, s[0]);
      TextOrder(s[0], t[0], s[0]);
      TailElements(s);
      TailElements(t);
      IncreasingUnique(s[1..], t[1..]);
      assert s == [s[0]] + s[1..] && t == [t[0]] + t[1..];
    }
  }

  lemma NoElements(s: seq<string>)
    ensures Elements(s) == {} <==> s == []
  {
    if s != [] { assert s[0] in Elements(s); }
  }

  lemma HeadFirst(s: seq<string>, k: string)
    requires Increasing(s) && k in s
    ensures k == s[0] || TextLess(s[0], k)
  {
  }

  lemma TailElements(s: seq<string>)
    requires Increasing(s) && s != []
    ensures Increasing(s[1..]) && Elements(s[1..]) == Elements(s) - {s[0]}
  {
    hide TextLess;
    assert forall k :: k in s <==> k == s[0] || k in s[1..];
    if s[0] in s[1..] {
      var i :| 0 <= i < |s[1..]| && s[1..][i] == s[0];
      TextOrder(s[0], s[i + 1], s[0]);
    }
  }

  function Tagged(kind: string, payload: Node): Node {
    JObject([Member("kind", JString(kind)), Member(kind, payload)])
  }

  function Entry(key: string, value: Node): Node {
    JObject([Member("key", JString(key)), Member("value", value)])
  }

  /** A float that is not finite has no encoding, and neither has anything that holds one. */
  ghost function Encode(ft: FloatText, v: Value): Option<Node>
    decreases v, 2
  {
    match v
    case Null => Some(JObject([Member("kind", JString("null"))]))
    case Bool(b) => Some(Tagged("bool", JBool(b)))
    case Int(n) => Some(Tagged("int", JString(FormatInt(n))))
    case Floating(f) => if ft.finite(f) then Some(Tagged("float", JString(ft.format(f)))) else None
    case Text(s) => Some(Tagged("string", JString(s)))
    case List(items) =>
      var l := EncodeItems(ft, v, |items|);
      if l.None? then None else Some(Tagged("list", JArray(l.value)))
    case Map(m) =>
      var keys := SortedKeys(m.Keys);
      SortedKeysOk(m.Keys);
      var l := EncodeEntries(ft, v, keys, |keys|);
      if l.None? then None else Some(Tagged("map", JArray(l.value)))
  }

  /** The first `n` items of a list. */
  ghost function EncodeItems(ft: FloatText, v: Value, n: nat): (r: Option<seq<Node>>)
    requires v.List? && n <= |v.items|
    ensures r.Some? ==> |r.value| == n
    decreases v, 1, n
  {
    if n == 0 then Some([]) else
    var rest := EncodeItems(ft, v, n - 1);
    var last := Encode(ft, v.items[n - 1]);
    if rest.None? || last.None? then None else Some(rest.value + [last.value])
  }

  /** The entries of the first `n` keys of a map. */
  ghost function EncodeEntries(ft: FloatText, v: Value, keys: seq<string>, n: nat): (r: Option<seq<Node>>)
    requires v.Map? && Elements(keys) == v.entries.Keys && n <= |keys|
    ensures r.Some? ==> |r.value| == n
    decreases v, 1, n
  {
    if n == 0 then Some([]) else
    assert keys[n - 1] in Elements(keys);
    var rest := EncodeEntries(ft, v, keys, n - 1);
    var last := Encode(ft, v.entries[keys[n - 1]]);
    if rest.None? || last.None? then None else Some(rest.value + [Entry(keys[n - 1], last.value)])
  }

  // ----- Decoding -----------------------------------------------------------------------------------

  /** The place of the first member of that name; the number of members if there is none. */
  function FindMember(ms: seq<Member>, name: string): (i: nat)
    ensures i <= |ms|
    ensures i < |ms| ==> ms[i].name == name
    ensures forall k :: 0 <= k < i ==> ms[k].name != name
  {
    if ms == [] || ms[0].name == name then 0 else 1 + FindMember(ms[1..], name)
  }

  predicate HasMember(ms: seq<Member>, name: string) {
    FindMember(ms, name) < |ms|
  }

  /** No member but the named ones, and all of those. */
  predicate OnlyMembers(ms: seq<Member>, names: seq<string>) {
    && (forall i :: 0 <= i < |ms| ==> ms[i].name in names)
    && (forall n :: n in names ==> HasMember(ms, n))
  }

  function Decode(ft: FloatText, node: Node): Option<Value>
    decreases node
  {
    if !node.JObject? then None else
    var ms := node.members;
    var k := FindMember(ms, "kind");
    if k == |ms| || !ms[k].value.JString? then None else
    var kind := ms[k].value.text;
    if kind == "null" then
      if OnlyMembers(ms, ["kind"]) then Some(Null) else None
    else if kind !in ["bool", "int", "float", "string", "list", "map"] || !OnlyMembers(ms, ["kind", kind]) then None
    else
      assert HasMember(ms, kind);
      var payload := ms[FindMember(ms, kind)].value;
      if kind == "bool" then
        if payload.JBool? then Some(Bool(payload.truth)) else None
      else if kind == "int" then
        if !payload.JString? then None else
        var n := ParseInt(payload.text);
        if n.Some? && FormatInt(n.value) == payload.text then Some(Int(n.value)) else None
      else if kind == "float" then
        if !payload.JString? then None else
        var f := ft.parse(payload.text);
        if f.Some? && ft.finite(f.value) && ft.format(f.value) == payload.text then Some(Floating(f.value)) else None
      else if kind == "string" then
        if payload.JString? then Some(Text(payload.text)) else None
      else if kind == "list" then
        if !payload.JArray? then None else
        var l := DecodeItems(ft, payload.items);
        if l.None? then None else Some(List(l.value))
      else
        if !payload.JArray? then None else
        var m := DecodeEntries(ft, payload.items);
        if m.None? then None else Some(Map(m.value))
  }

  function DecodeItems(ft: FloatText, items: seq<Node>): (r: Option<seq<Value>>)
    ensures r.Some? ==> |r.value| == |items|
    decreases items
  {
    if items == [] then Some([]) else
    var rest := DecodeItems(ft, items[..|items| - 1]);
    var last := Decode(ft, items[|items| - 1]);
    if rest.None? || last.None? then None else Some(rest.value + [last.value])
  }

  /** The key of a well-formed entry. */
  function EntryKey(e: Node): Option<string> {
    if !e.JObject? || !OnlyMembers(e.members, ["key", "value"]) then None else
    assert HasMember(e.members, "key");
    var k := e.members[FindMember(e.members, "key")].value;
    if k.JString? then Some(k.text) else None
  }

  /** Entries must come in strictly increasing order of their keys. */
  function DecodeEntries(ft: FloatText, items: seq<Node>): Option<map<string, Value>>
    decreases items
  {
    if items == [] then Some(map[]) else
    var n := |items| - 1;
    var rest := DecodeEntries(ft, items[..n]);
    var key := EntryKey(items[n]);
    if rest.None? || key.None? then None
    else if n > 0 && EntryKey(items[n - 1]).Some? && !TextLess(EntryKey(items[n - 1]).value, key.value) then None
    else
      assert HasMember(items[n].members, "value");
      var value := Decode(ft, items[n].members[FindMember(items[n].members, "value")].value);
      if value.None? then None else Some(rest.value[key.value := value.value])
  }

  // ----- Decoding undoes encoding --------------------------------------------------------------------

  /** Every float in the value is finite. */
  predicate Finite(ft: FloatText, v: Value) {
    match v
    case Floating(f) => ft.finite(f)
    case List(items) => forall i :: 0 <= i < |items| ==> Finite(ft, items[i])
    case Map(m) => forall k :: k in m ==> Finite(ft, m[k])
    case _ => true
  }

  lemma TaggedMembers(kind: string, payload: Node)
    requires kind != "kind"
    ensures var ms := Tagged(kind, payload).members;
            && FindMember(ms, "kind") == 0 && FindMember(ms, kind) == 1 && OnlyMembers(ms, ["kind", kind])
  {
    var ms := Tagged(kind, payload).members;
    assert ms[1..] == [Member(kind, payload)];
    assert FindMember(ms[1..], kind) == 0;
    assert FindMember(ms, kind) == 1;
  }

  lemma NullMembers()
    ensures var ms := [Member("kind", JString("null"))]; FindMember(ms, "kind") == 0 && OnlyMembers(ms, ["kind"])
  {
  }

  lemma EntryMembers(key: string, value: Node)
    ensures EntryKey(Entry(key, value)) == Some(key) && FindMember(Entry(key, value).members, "value") == 1
  {
    var ms := Entry(key, value).members;
    assert ms[1..] == [Member("value", value)];
    assert FindMember(ms[1..], "value") == 0;
    assert FindMember(ms, "value") == 1 && FindMember(ms, "key") == 0;
  }

  /** What a tagged object decodes to, by its kind. */
  lemma DecodeTagged(ft: FloatText, kind: string, payload: Node)
    requires kind in ["bool", "int", "float", "string", "list", "map"]
    ensures kind == "bool" ==> Decode(ft, Tagged(kind, payload)) == if payload.JBool? then Some(Bool(payload.truth)) else None
    ensures kind == "int" && payload.JString? ==>
              var n := ParseInt(payload.text);
              Decode(ft, Tagged(kind, payload)) == if n.Some? && FormatInt(n.value) == payload.text then Some(Int(n.value)) else None
    ensures kind == "float" && payload.JString? ==>
              var f := ft.parse(payload.text);
              Decode(ft, Tagged(kind, payload)) == if f.Some? && ft.finite(f.value) && ft.format(f.value) == payload.text then Some(Floating(f.value)) else None
    ensures kind == "string" && payload.JString? ==> Decode(ft, Tagged(kind, payload)) == Some(Text(payload.text))
    ensures kind == "list" && payload.JArray? ==>
              Decode(ft, Tagged(kind, payload)) == if DecodeItems(ft, payload.items).Some? then Some(List(DecodeItems(ft, payload.items).value)) else None
    ensures kind == "map" && payload.JArray? ==>
              Decode(ft, Tagged(kind, payload)) == if DecodeEntries(ft, payload.items).Some? then Some(Map(DecodeEntries(ft, payload.items).value)) else None
  {
    hide OnlyMembers, FindMember, ParseInt, FormatInt, DecodeItems, DecodeEntries;
    assert kind != "kind" && kind != "null";
    TaggedMembers(kind, payload);
    HasTagged(kind, payload);
  }

  lemma HasTagged(kind: string, payload: Node)
    ensures kind != "kind" ==> HasMember(Tagged(kind, payload).members, kind)
  {
    if kind != "kind" { TaggedMembers(kind, payload); }
  }

  /** Exactly the values without infinite or undefined floats have an encoding. */
  lemma {:induction false} EncodeDefined(ft: FloatText, v: Value)
    ensures Encode(ft, v).Some? <==> Finite(ft, v)
    decreases v, 2
  {
    match v
    case List(items) => ItemsDefined(ft, v, |items|);
    case Map(m) =>
      var keys := SortedKeys(m.Keys);
      SortedKeysOk(m.Keys);
      EntriesDefined(ft, v, keys, |keys|);
      assert forall k :: k in m <==> k in Elements(keys);
    case _ =>
  }

  lemma {:induction false} ItemsDefined(ft: FloatText, v: Value, n: nat)
    requires v.List? && n <= |v.items|
    ensures EncodeItems(ft, v, n).Some? <==> forall i :: 0 <= i < n ==> Finite(ft, v.items[i])
    decreases v, 1, n
  {
    if n > 0 {
      ItemsDefined(ft, v, n - 1);
      EncodeDefined(ft, v.items[n - 1]);
    }
  }

  lemma {:induction false} EntriesDefined(ft: FloatText, v: Value, keys: seq<string>, n: nat)
    requires v.Map? && Elements(keys) == v.entries.Keys && n <= |keys|
    ensures forall i :: 0 <= i < n ==> keys[i] in v.entries
    ensures EncodeEntries(ft, v, keys, n).Some? <==> forall i :: 0 <= i < n ==> Finite(ft, v.entries[keys[i]])
    decreases v, 1, n
  {
    if n > 0 {
      EntriesDefined(ft, v, keys, n - 1);
      assert keys[n - 1] in Elements(keys);
      EncodeDefined(ft, v.entries[keys[n - 1]]);
    }
  }

  /** Every value with an encoding is read back from it. */
  lemma {:induction false} RoundTrip(ft: FloatText, v: Value)
    requires RoundTrips(ft) && Encode(ft, v).Some?
    ensures Decode(ft, Encode(ft, v).value) == Some(v)
    decreases v, 2
  {
    hide Decode, OnlyMembers, FindMember, ParseInt, FormatInt, DecodeItems, DecodeEntries, EncodeItems, EncodeEntries;
    match v
    case Null => DecodeNull(ft);
    case Bool(b) => DecodeTagged(ft, "bool", JBool(b));
    case Int(n) => DecodeTagged(ft, "int", JString(FormatInt(n))); FormatIntParses(n);
    case Floating(f) => DecodeTagged(ft, "float", JString(ft.format(f)));
    case Text(s) => DecodeTagged(ft, "string", JString(s));
    case List(items) =>
      hide Tagged;
      ItemsRoundTrip(ft, v, |items|);
      DecodeTagged(ft, "list", JArray(EncodeItems(ft, v, |items|).value));
      assert items[..|items|] == items;
    case Map(m) =>
      hide Tagged, Restricted, Increasing, Elements, SortedKeys;
      var keys := SortedKeys(m.Keys);
      SortedKeysOk(m.Keys);
      EntriesRoundTrip(ft, v, keys, |keys|);
      DecodeTagged(ft, "map", JArray(EncodeEntries(ft, v, keys, |keys|).value));
      assert keys[..|keys|] == keys;
      AllRestricted(m, keys);
  }

  lemma AllRestricted(m: map<string, Value>, keys: seq<string>)
    requires Elements(keys) == m.Keys
    ensures Restricted(m, keys) == m
  {
  }

  lemma DecodeNull(ft: FloatText)
    ensures Decode(ft, JObject([Member("kind", JString("null"))])) == Some(Null)
  {
    NullMembers();
  }

  lemma {:induction false} ItemsRoundTrip(ft: FloatText, v: Value, n: nat)
    requires RoundTrips(ft) && v.List? && n <= |v.items| && EncodeItems(ft, v, n).Some?
    ensures DecodeItems(ft, EncodeItems(ft, v, n).value) == Some(v.items[..n])
    decreases v, 1, n
  {
    hide Decode, Encode;
    if n > 0 {
      assert EncodeItems(ft, v, n - 1).Some? && Encode(ft, v.items[n - 1]).Some?;
      ItemsRoundTrip(ft, v, n - 1);
      RoundTrip(ft, v.items[n - 1]);
      DecodeItemsSnoc(ft, EncodeItems(ft, v, n - 1).value, Encode(ft, v.items[n - 1]).value);
      assert v.items[..n] == v.items[..n - 1] + [v.items[n - 1]];
    }
  }

  lemma DecodeItemsSnoc(ft: FloatText, l: seq<Node>, x: Node)
    ensures DecodeItems(ft, l + [x]) ==
            if DecodeItems(ft, l).Some? && Decode(ft, x).Some? then Some(DecodeItems(ft, l).value + [Decode(ft, x).value]) else None
  {
    hide Decode;
    assert (l + [x])[..|l|] == l;
  }

  lemma DecodeEntriesSnoc(ft: FloatText, l: seq<Node>, key: string, x: Node)
    requires l != [] ==> EntryKey(l[|l| - 1]).Some? && TextLess(EntryKey(l[|l| - 1]).value, key)
    ensures DecodeEntries(ft, l + [Entry(key, x)]) ==
            if DecodeEntries(ft, l).Some? && Decode(ft, x).Some? then Some(DecodeEntries(ft, l).value[key := Decode(ft, x).value]) else None
  {
    hide Decode, TextLess;
    EntryMembers(key, x);
    assert (l + [Entry(key, x)])[..|l|] == l;
  }

  /** The entries of a list of keys. */
  function Restricted(m: map<string, Value>, keys: seq<string>): map<string, Value> {
    map k | k in Elements(keys) && k in m :: m[k]
  }

  lemma {:induction false} EntriesRoundTrip(ft: FloatText, v: Value, keys: seq<string>, n: nat)
    requires RoundTrips(ft) && v.Map? && Increasing(keys) && Elements(keys) == v.entries.Keys && n <= |keys|
    requires EncodeEntries(ft, v, keys, n).Some?
    ensures DecodeEntries(ft, EncodeEntries(ft, v, keys, n).value) == Some(Restricted(v.entries, keys[..n]))
    ensures forall i :: 0 <= i < n ==> EntryKey(EncodeEntries(ft, v, keys, n).value[i]) == Some(keys[i])
    decreases v, 1, n
  {
    hide Decode, Encode, EntryKey, TextLess, OnlyMembers, Restricted, Elements, Entry, DecodeEntries;
    if n == 0 {
      assert keys[..0] == [];
      NothingRestricted(ft, v.entries);
    } else {
      var k := keys[n - 1];
      RestrictedSnoc(v.entries, keys, n);
      assert EncodeEntries(ft, v, keys, n - 1).Some? && Encode(ft, v.entries[k]).Some?;
      EntriesRoundTrip(ft, v, keys, n - 1);
      RoundTrip(ft, v.entries[k]);
      DecodeEntriesSnoc(ft, EncodeEntries(ft, v, keys, n - 1).value, k, Encode(ft, v.entries[k]).value);
      EntryMembers(k, Encode(ft, v.entries[k]).value);
      RestrictedSnoc(v.entries, keys, n);
    }
  }

  lemma NothingRestricted(ft: FloatText, m: map<string, Value>)
    ensures Restricted(m, []) == map[] && DecodeEntries(ft, []) == Some(map[])
  {
  }

  lemma RestrictedSnoc(m: map<string, Value>, keys: seq<string>, n: nat)
    requires 0 < n <= |keys| && Elements(keys) == m.Keys
    ensures keys[n - 1] in m && Restricted(m, keys[..n]) == Restricted(m, keys[..n - 1])[keys[n - 1] := m[keys[n - 1]]]
  {
    assert keys[n - 1] in Elements(keys);
    assert keys[..n] == keys[..n - 1] + [keys[n - 1]];
  }

  // ----- Encoding undoes decoding ------------------------------------------------------------------------

  /** No object in the tree repeats a member name. */
  predicate Distinct(n: Node) {
    match n
    case JArray(items) => forall i :: 0 <= i < |items| ==> Distinct(items[i])
    case JObject(ms) =>
      && (forall i, j :: 0 <= i < j < |ms| ==> ms[i].name != ms[j].name)
      && forall i :: 0 <= i < |ms| ==> Distinct(ms[i].value)
    case _ => true
  }

  /** The same tree, up to the order of members in objects without repeated names. */
  predicate Same(a: Node, b: Node)
    decreases a, 0
  {
    match a
    case JArray(items) => b.JArray? && |b.items| == |items| && forall i :: 0 <= i < |items| ==> Same(items[i], b.items[i])
    case JObject(ms) => b.JObject? && |b.members| == |ms| && forall i :: 0 <= i < |ms| ==> SameMember(ms, i, b.members)
    case _ => a == b
  }

  /** The other object has a member of the same name with the same value. */
  predicate SameMember(ms: seq<Member>, i: nat, others: seq<Member>)
    requires i < |ms|
    decreases ms[i].value, 1
  {
    exists j :: 0 <= j < |others| && ms[i].name == others[j].name && Same(ms[i].value, others[j].value)
  }

  /** An object with exactly two wanted names and no repetition has each once. */
  lemma TwoMembers(ms: seq<Member>, a: string, b: string)
    requires a != b && OnlyMembers(ms, [a, b]) && forall i, j :: 0 <= i < j < |ms| ==> ms[i].name != ms[j].name
    ensures |ms| == 2 && FindMember(ms, a) + FindMember(ms, b) == 1
  {
    hide FindMember, OnlyMembers;
    Wanted(ms, [a, b], a);
    Wanted(ms, [a, b], b);
    if |ms| > 2 {
      NameOf(ms, a, b, 0);
      NameOf(ms, a, b, 1);
      NameOf(ms, a, b, 2);
    }
  }

  lemma NameOf(ms: seq<Member>, a: string, b: string, i: nat)
    requires OnlyMembers(ms, [a, b]) && i < |ms|
    ensures ms[i].name == a || ms[i].name == b
  {
    assert ms[i].name in [a, b];
  }

  lemma Wanted(ms: seq<Member>, names: seq<string>, n: string)
    requires OnlyMembers(ms, names) && n in names
    ensures HasMember(ms, n)
  {
  }

  /** Two members in either order are the same object. */
  lemma SamePair(ms: seq<Member>, a: string, x: Node, b: string, y: Node)
    requires a != b && OnlyMembers(ms, [a, b]) && forall i, j :: 0 <= i < j < |ms| ==> ms[i].name != ms[j].name
    requires HasMember(ms, a) && HasMember(ms, b)
    requires Same(ms[FindMember(ms, a)].value, x) && Same(ms[FindMember(ms, b)].value, y)
    ensures Same(JObject(ms), JObject([Member(a, x), Member(b, y)]))
  {
    TwoMembers(ms, a, b);
    var others := [Member(a, x), Member(b, y)];
    hide OnlyMembers, FindMember;
    forall i | 0 <= i < |ms|
      ensures SameMember(ms, i, others)
    {
      if i == FindMember(ms, a) {
        assert ms[i].name == others[0].name && Same(ms[i].value, others[0].value);
      } else {
        assert ms[i].name == others[1].name && Same(ms[i].value, others[1].value);
      }
    }
  }

  lemma {:induction false} DecodeItemsAt(ft: FloatText, items: seq<Node>, i: nat)
    requires DecodeItems(ft, items).Some? && i < |items|
    ensures Decode(ft, items[i]) == Some(DecodeItems(ft, items).value[i])
    decreases |items|
  {
    hide Decode;
    if i < |items| - 1 { DecodeItemsAt(ft, items[..|items| - 1], i); }
  }

  /** The keys of accepted entries, in the order in which they come. */
  function KeysOf(items: seq<Node>): seq<string>
    requires forall i :: 0 <= i < |items| ==> EntryKey(items[i]).Some?
  {
    seq(|items|, i requires 0 <= i < |items| => EntryKey(items[i]).value)
  }

  function EntryValue(e: Node): Node
    requires EntryKey(e).Some?
  {
    assert HasMember(e.members, "value");
    e.members[FindMember(e.members, "value")].value
  }

  lemma {:induction false} DecodedEntries(ft: FloatText, items: seq<Node>)
    requires DecodeEntries(ft, items).Some?
    ensures forall i :: 0 <= i < |items| ==> EntryKey(items[i]).Some?
    ensures Increasing(KeysOf(items)) && Elements(KeysOf(items)) == DecodeEntries(ft, items).value.Keys
    ensures forall i :: 0 <= i < |items| ==> Decode(ft, EntryValue(items[i])) == Some(DecodeEntries(ft, items).value[KeysOf(items)[i]])
    decreases |items|
  {
    hide Decode, TextLess, OnlyMembers, FindMember;
    if items != [] {
      var n := |items| - 1;
      var init := items[..n];
      DecodedEntries(ft, init);
      EntriesGrow(ft, init, items[n]);
      assert items == init + [items[n]];
    }
  }

  lemma EntriesGrow(ft: FloatText, init: seq<Node>, x: Node)
    requires DecodeEntries(ft, init + [x]).Some? && DecodeEntries(ft, init).Some?
    requires forall i :: 0 <= i < |init| ==> EntryKey(init[i]).Some?
    requires Increasing(KeysOf(init)) && Elements(KeysOf(init)) == DecodeEntries(ft, init).value.Keys
    requires forall i :: 0 <= i < |init| ==> Decode(ft, EntryValue(init[i])) == Some(DecodeEntries(ft, init).value[KeysOf(init)[i]])
    ensures forall i :: 0 <= i < |init + [x]| ==> EntryKey((init + [x])[i]).Some?
    ensures var items := init + [x];
            && Increasing(KeysOf(items)) && Elements(KeysOf(items)) == DecodeEntries(ft, items).value.Keys
            && forall i :: 0 <= i < |items| ==> Decode(ft, EntryValue(items[i])) == Some(DecodeEntries(ft, items).value[KeysOf(items)[i]])
  {
    hide Decode, TextLess, OnlyMembers, FindMember, EntryKey, EntryValue, DecodeEntries, Elements;
    var items, n := init + [x], |init|;
    assert items[..n] == init && items[n] == x;
    assert forall i :: 0 <= i < n ==> items[i] == init[i];
    EntryStep(ft, items);
    var key := EntryKey(x).value;
    assert KeysOf(items) == KeysOf(init) + [key];
    if n > 0 { assert KeysOf(init)[n - 1] == EntryKey(items[n - 1]).value; }
    KeysGrow(KeysOf(init), key);
  }

  lemma KeysGrow(keys: seq<string>, key: string)
    requires Increasing(keys) && (keys != [] ==> TextLess(keys[|keys| - 1], key))
    ensures Increasing(keys + [key]) && Elements(keys + [key]) == Elements(keys) + {key}
    ensures forall i :: 0 <= i < |keys| ==> keys[i] != key
  {
    hide TextLess;
    forall i | 0 <= i < |keys|
      ensures TextLess(keys[i], key) && keys[i] != key
    {
      TextOrder(keys[i], keys[|keys| - 1], key);
      TextOrder(keys[i], key, key);
    }
  }

  /** What accepting one more entry means. */
  lemma EntryStep(ft: FloatText, items: seq<Node>)
    requires items != [] && DecodeEntries(ft, items).Some?
    ensures var n := |items| - 1;
            && DecodeEntries(ft, items[..n]).Some? && EntryKey(items[n]).Some? && Decode(ft, EntryValue(items[n])).Some?
            && (n > 0 && EntryKey(items[n - 1]).Some? ==> TextLess(EntryKey(items[n - 1]).value, EntryKey(items[n]).value))
            && DecodeEntries(ft, items).value == DecodeEntries(ft, items[..n]).value[EntryKey(items[n]).value := Decode(ft, EntryValue(items[n])).value]
  {
    hide Decode, TextLess;
  }

  // ----- Accepted trees are encodings, up to the order of members -----------------------------------

  lemma {:induction false} Canonical(ft: FloatText, node: Node, v: Value)
    requires Distinct(node) && Decode(ft, node) == Some(v)
    ensures Encode(ft, v).Some? && Same(node, Encode(ft, v).value)
    decreases node, 2
  {
    hide OnlyMembers, FindMember, ParseInt, FormatInt, DecodeItems, DecodeEntries, Same, Distinct, SortedKeys, SameMember, EncodeItems, EncodeEntries;
    var ms := node.members;
    AcceptedMembers(ft, node);
    var kind := ms[FindMember(ms, "kind")].value.text;
    if kind == "null" {
      SameNull(ms);
    } else {
      var payload := ms[FindMember(ms, kind)].value;
      DistinctMembers(ms);
      SameLeaf(JString(kind));
      SameLeaf(payload);
      if kind == "list" {
        CanonicalItems(ft, payload.items, v, |payload.items|);
        SameArrays(payload, JArray(EncodeItems(ft, v, |payload.items|).value));
        SamePair(ms, "kind", JString(kind), kind, JArray(EncodeItems(ft, v, |payload.items|).value));
      } else if kind == "map" {
        var items := payload.items;
        DecodedEntries(ft, items);
        SortedKeysOk(v.entries.Keys);
        IncreasingUnique(SortedKeys(v.entries.Keys), KeysOf(items));
        CanonicalEntries(ft, items, v, |items|);
        SameArrays(payload, JArray(EncodeEntries(ft, v, KeysOf(items), |items|).value));
        SamePair(ms, "kind", JString(kind), kind, JArray(EncodeEntries(ft, v, KeysOf(items), |items|).value));
      } else {
        SamePair(ms, "kind", JString(kind), kind, payload);
      }
    }
  }

  /** An accepted object says its kind, and has exactly the members of that kind. */
  lemma AcceptedMembers(ft: FloatText, node: Node)
    requires Decode(ft, node).Some?
    ensures node.JObject? && HasMember(node.members, "kind") && node.members[FindMember(node.members, "kind")].value.JString?
    ensures var kind := node.members[FindMember(node.members, "kind")].value.text;
            if kind == "null" then OnlyMembers(node.members, ["kind"])
            else kind != "kind" && OnlyMembers(node.members, ["kind", kind]) && HasMember(node.members, kind)
  {
    hide OnlyMembers, FindMember, ParseInt, FormatInt, DecodeItems, DecodeEntries;
    var kind := node.members[FindMember(node.members, "kind")].value.text;
    if kind != "null" { Wanted(node.members, ["kind", kind], kind); }
  }

  lemma OneName(ms: seq<Member>, a: string, i: nat)
    requires OnlyMembers(ms, [a]) && i < |ms|
    ensures ms[i].name == a
  {
    assert ms[i].name in [a];
  }

  lemma SameNull(ms: seq<Member>)
    requires OnlyMembers(ms, ["kind"]) && Distinct(JObject(ms)) && HasMember(ms, "kind") && ms[FindMember(ms, "kind")].value == JString("null")
    ensures Same(JObject(ms), JObject([Member("kind", JString("null"))]))
  {
    if |ms| > 1 {
      OneName(ms, "kind", 0);
      OneName(ms, "kind", 1);
    }
    hide OnlyMembers, FindMember;
    var others := [Member("kind", JString("null"))];
    assert ms[0].name == others[0].name && Same(ms[0].value, others[0].value);
    assert SameMember(ms, 0, others);
  }

  lemma SameLeaf(n: Node)
    ensures !n.JArray? && !n.JObject? ==> Same(n, n)
  {
  }

  lemma DistinctMembers(ms: seq<Member>)
    requires Distinct(JObject(ms))
    ensures forall i, j :: 0 <= i < j < |ms| ==> ms[i].name != ms[j].name
    ensures forall i :: 0 <= i < |ms| ==> Distinct(ms[i].value)
  {
  }

  lemma SameArrays(a: Node, b: Node)
    requires a.JArray? && b.JArray? && |a.items| == |b.items| && forall i :: 0 <= i < |a.items| ==> Same(a.items[i], b.items[i])
    ensures Same(a, b)
  {
  }

  lemma DistinctItems(items: seq<Node>)
    requires Distinct(JArray(items))
    ensures forall i :: 0 <= i < |items| ==> Distinct(items[i])
  {
  }

  lemma {:induction false} CanonicalItems(ft: FloatText, items: seq<Node>, v: Value, n: nat)
    requires Distinct(JArray(items)) && DecodeItems(ft, items).Some? && v == List(DecodeItems(ft, items).value) && n <= |items|
    ensures EncodeItems(ft, v, n).Some? && forall i :: 0 <= i < n ==> Same(items[i], EncodeItems(ft, v, n).value[i])
    decreases items, 1, n
  {
    hide Decode, Encode, Same, DecodeItems, Distinct;
    if n > 0 {
      CanonicalItems(ft, items, v, n - 1);
      DistinctItems(items);
      DecodeItemsAt(ft, items, n - 1);
      Canonical(ft, items[n - 1], v.items[n - 1]);
    }
  }

  lemma {:induction false} CanonicalEntries(ft: FloatText, items: seq<Node>, v: Value, n: nat)
    requires Distinct(JArray(items)) && DecodeEntries(ft, items).Some? && v == Map(DecodeEntries(ft, items).value) && n <= |items|
    requires forall i :: 0 <= i < |items| ==> EntryKey(items[i]).Some?
    requires Elements(KeysOf(items)) == v.entries.Keys
    ensures EncodeEntries(ft, v, KeysOf(items), n).Some?
    ensures forall i :: 0 <= i < n ==> Same(items[i], EncodeEntries(ft, v, KeysOf(items), n).value[i])
    decreases items, 1, n
  {
    hide Decode, Encode, Same, DecodeEntries, Distinct, EntryKey, Elements, Entry, Increasing;
    if n > 0 {
      CanonicalEntries(ft, items, v, n - 1);
      DistinctItems(items);
      DecodedEntries(ft, items);
      var e := items[n - 1];
      KeyIn(items, n - 1);
      EntryParts(e);
      Canonical(ft, EntryValue(e), v.entries[KeysOf(items)[n - 1]]);
      SameEntry(e, Encode(ft, v.entries[KeysOf(items)[n - 1]]).value);
    }
  }

  lemma KeyIn(items: seq<Node>, i: nat)
    requires (forall i :: 0 <= i < |items| ==> EntryKey(items[i]).Some?) && i < |items|
    ensures KeysOf(items)[i] in Elements(KeysOf(items))
  {
  }

  lemma EntryParts(e: Node)
    requires EntryKey(e).Some? && Distinct(e)
    ensures EntryValue(e) < e && Distinct(EntryValue(e))
  {
    hide FindMember;
    assert HasMember(e.members, "value");
    DistinctMembers(e.members);
  }

  lemma SameEntry(e: Node, value: Node)
    requires EntryKey(e).Some? && Distinct(e) && Same(EntryValue(e), value)
    ensures Same(e, Entry(EntryKey(e).value, value))
  {
    hide Same;
    DistinctMembers(e.members);
    SameLeaf(JString(EntryKey(e).value));
    assert HasMember(e.members, "key") && HasMember(e.members, "value");
    SamePair(e.members, "key", JString(EntryKey(e).value), "value", value);
  }
}
