/**
 The codec as it runs: the encoder writes JSON text piece by piece into a buffer, the decoder walks a parsed tree.
 */
module ValueText {
  import opened Options
  import opened Sequences
  import opened Sorting
  import opened Texts
  import opened ValueJson

  // ----- The text of a tree --------------------------------------------------------------------

  /** How a text is written between quotes, escapes included. */
  type Quote = string -> string

  function Render(quote: Quote, n: Node): string
    decreases n
  {
    match n
    case JNull => "null"
    case JBool(b) => if b then "true" else "false"
    case JNumber(s) => s
    case JString(s) => quote(s)
    case JArray(items) => "[" + RenderItems(quote, items) + "]"
    case JObject(ms) => "{" + RenderMembers(quote, ms) + "}"
  }

  function RenderItems(quote: Quote, items: seq<Node>): string
    decreases items
  {
    if items == [] then "" else
    var n := |items| - 1;
    RenderItems(quote, items[..n]) + (if n > 0 then "," else "") + Render(quote, items[n])
  }

  function RenderMembers(quote: Quote, ms: seq<Member>): string
    decreases ms
  {
    if ms == [] then "" else
    var n := |ms| - 1;
    RenderMembers(quote, ms[..n]) + (if n > 0 then "," else "") + quote(ms[n].name) + ":" + Render(quote, ms[n].value)
  }

  predicate PlainChar(c: char) {
    'a' <= c <= 'z' || 'A' <= c <= 'Z' || IsDigit(c) || c == '+' || c == '-' || c == '.'
  }

  predicate PlainText(s: string) {
    forall i :: 0 <= i < |s| ==> PlainChar(s[i])
  }

  /** Letters, digits, signs and points need no escape. */
  ghost predicate QuotesPlainly(quote: Quote) {
    forall s :: PlainText(s) ==> quote(s) == "\"" + s + "\""
  }

  ghost predicate PlainFloats(ft: FloatText) {
    forall f: Float :: ft.finite(f) ==> PlainText(ft.format(f))
  }

  lemma {:induction false} PlainNat(n: nat)
    ensures PlainText(FormatNat(n))
  {
    if n >= 10 { PlainNat(n / 10); }
  }

  lemma PlainInt(n: int)
    ensures PlainText(FormatInt(n))
  {
    PlainNat(if n < 0 then -n else n);
  }

  lemma PairText(quote: Quote, a: string, x: Node, b: string, y: Node)
    ensures Render(quote, JObject([Member(a, x), Member(b, y)])) ==
            "{" + (quote(a) + ":" + Render(quote, x) + "," + quote(b) + ":" + Render(quote, y)) + "}"
  {
    var m, n := Member(a, x), Member(b, y);
    assert [m, n][..1] == [m] && [m][..0] == [];
    assert RenderMembers(quote, [m]) == quote(a) + ":" + Render(quote, x);
  }

  lemma Regroup(o: string, a: string, c: string, d: string, k: string, e: string, r: string, z: string)
    ensures o + (a + c + (d + k + d) + e + (d + k + d) + c + r) + z == (o + a + c + d) + k + (d + e + d) + k + (d + c) + r + z
  {
    var left := a + c + (d + k + d);
    assert left == (a + c + d) + k + d;
    assert left + e + (d + k + d) == ((a + c + d) + k) + (d + e + d) + (k + d);
  }

  function Head(kind: string): string {
    "{\"kind\":\"" + kind + "\",\"" + kind + "\":"
  }

  lemma Heads()
    ensures Head("bool") == "{\"kind\":\"bool\",\"bool\":" && Head("string") == "{\"kind\":\"string\",\"string\":"
    ensures Head("int") + "\"" == "{\"kind\":\"int\",\"int\":\"" && Head("float") + "\"" == "{\"kind\":\"float\",\"float\":\""
    ensures Head("list") + "[" == "{\"kind\":\"list\",\"list\":[" && Head("map") + "[" == "{\"kind\":\"map\",\"map\":["
  {
  }

  /** What three writes leave in the buffer, when the first closes a head and the last the whole. */
  lemma Wrapped(before: string, h: string, o: string, x: string, c: string, z: string)
    ensures before + (h + o) + x + (c + z) == before + (h + (o + x + c) + z)
  {
    assert (h + o) + x + (c + z) == h + (o + x + c) + z;
  }

  lemma TaggedText(quote: Quote, kind: string, payload: Node)
    requires QuotesPlainly(quote) && PlainText(kind)
    ensures Render(quote, Tagged(kind, payload)) == Head(kind) + Render(quote, payload) + "}"
  {
    hide Render;
    PairText(quote, "kind", JString(kind), kind, payload);
    RenderText(quote, kind);
    assert quote("kind") == "\"kind\"" && quote(kind) == "\"" + kind + "\"";
    Regroup("{", "\"kind\"", ":", "\"", kind, ",", Render(quote, payload), "}");
    assert "{" + "\"kind\"" + ":" + "\"" == "{\"kind\":\"";
    assert "\"" + "," + "\"" == "\",\"" && "\"" + ":" == "\":";
  }

  lemma RenderText(quote: Quote, s: string)
    ensures Render(quote, JString(s)) == quote(s)
  {
  }

  lemma EntryText(quote: Quote, key: string, value: Node)
    requires QuotesPlainly(quote)
    ensures Render(quote, Entry(key, value)) == "{\"key\":" + quote(key) + ",\"value\":" + Render(quote, value) + "}"
  {
    hide Render;
    PairText(quote, "key", JString(key), "value", value);
    RenderText(quote, key);
    assert quote("key") == "\"key\"" && quote("value") == "\"value\"";
    Rejoin("{", "\"key\"", ":", quote(key), ",", "\"value\"", Render(quote, value), "}");
    assert "{" + "\"key\"" + ":" == "{\"key\":" && "," + "\"value\"" + ":" == ",\"value\":";
  }

  lemma Rejoin(o: string, a: string, c: string, k: string, e: string, b: string, r: string, z: string)
    ensures o + (a + c + k + e + b + c + r) + z == (o + a + c) + k + (e + b + c) + r + z
  {
    assert a + c + k + e + b + c + r == (a + c) + k + (e + b + c) + r;
  }

  lemma NullText(quote: Quote)
    requires QuotesPlainly(quote)
    ensures Render(quote, JObject([Member("kind", JString("null"))])) == "{\"kind\":\"null\"}"
  {
    var a := Member("kind", JString("null"));
    assert [a][..0] == [];
    assert quote("kind") == "\"kind\"" && quote("null") == "\"null\"";
    assert RenderMembers(quote, [a]) == "\"kind\":\"null\"";
  }

  lemma ItemsText(quote: Quote, items: seq<Node>, x: Node)
    ensures RenderItems(quote, items + [x]) == RenderItems(quote, items) + (if items != [] then "," else "") + Render(quote, x)
  {
    assert (items + [x])[..|items|] == items;
  }

  // ----- Writing ---------------------------------------------------------------------------------

  class Buffer {
    var text: string

    constructor ()
      ensures text == ""
    {
      text := "";
    }

    method WriteString(s: string)
      modifies this
      ensures text == old(text) + s
    {
      text := text + s;
    }
  }

  /** Writes the value's encoding, unless something in it has none. */
  method AppendValue(out: Buffer, ft: FloatText, quote: Quote, v: Value) returns (ok: bool)
    requires QuotesPlainly(quote) && PlainFloats(ft)
    modifies out
    ensures ok <==> Encode(ft, v).Some?
    ensures ok ==> out.text == old(out.text) + Render(quote, Encode(ft, v).value)
    decreases v, 3
  {
    hide QuotesPlainly, PlainFloats, Render;
    match v
    case Null =>
      NullText(quote);
      out.WriteString("{\"kind\":\"null\"}");
      ok := true;
    case List(_) => ok := AppendList(out, ft, quote, v);
    case Map(_) => ok := AppendMap(out, ft, quote, v);
    case _ => ok := AppendLeaf(out, ft, quote, v);
  }

  method AppendList(out: Buffer, ft: FloatText, quote: Quote, v: Value) returns (ok: bool)
    requires QuotesPlainly(quote) && PlainFloats(ft) && v.List?
    modifies out
    ensures ok <==> Encode(ft, v).Some?
    ensures ok ==> out.text == old(out.text) + Render(quote, Encode(ft, v).value)
    decreases v, 2
  {
    hide QuotesPlainly, PlainFloats, Render, Head, EncodeItems;
    Heads();
    out.WriteString("{\"kind\":\"list\",\"list\":[");
    ok := AppendItems(out, ft, quote, v);
    if !ok { return; }
    out.WriteString("]}");
    var nodes := EncodeItems(ft, v, |v.items|).value;
    TaggedText(quote, "list", JArray(nodes));
    ArrayText(quote, nodes);
    Wrapped(old(out.text), Head("list"), "[", RenderItems(quote, nodes), "]", "}");
  }

  method AppendMap(out: Buffer, ft: FloatText, quote: Quote, v: Value) returns (ok: bool)
    requires QuotesPlainly(quote) && PlainFloats(ft) && v.Map?
    modifies out
    ensures ok <==> Encode(ft, v).Some?
    ensures ok ==> out.text == old(out.text) + Render(quote, Encode(ft, v).value)
    decreases v, 2
  {
    hide QuotesPlainly, PlainFloats, Render, Head, EncodeEntries, SortedKeys;
    Heads();
    var keys := SortKeys(v.entries.Keys);
    SortedKeysOk(v.entries.Keys);
    out.WriteString("{\"kind\":\"map\",\"map\":[");
    ok := AppendEntries(out, ft, quote, v, keys);
    if !ok { return; }
    out.WriteString("]}");
    var nodes := EncodeEntries(ft, v, keys, |keys|).value;
    TaggedText(quote, "map", JArray(nodes));
    ArrayText(quote, nodes);
    Wrapped(old(out.text), Head("map"), "[", RenderItems(quote, nodes), "]", "}");
  }

  lemma ArrayText(quote: Quote, items: seq<Node>)
    ensures Render(quote, JArray(items)) == "[" + RenderItems(quote, items) + "]"
  {
  }

  method AppendLeaf(out: Buffer, ft: FloatText, quote: Quote, v: Value) returns (ok: bool)
    requires QuotesPlainly(quote) && PlainFloats(ft) && !v.Null? && !v.List? && !v.Map?
    modifies out
    ensures ok <==> Encode(ft, v).Some?
    ensures ok ==> out.text == old(out.text) + Render(quote, Encode(ft, v).value)
    decreases v, 2
  {
    hide QuotesPlainly, PlainFloats, PlainText, Render, Head;
    ok := true;
    Heads();
    PlainKinds();
    RenderLeaves(quote);
    match v
    case Bool(b) =>
      var truth := if b then "true" else "false";
      TaggedText(quote, "bool", JBool(b));
      Wrapped(out.text, Head("bool"), "", truth, "", "}");
      out.WriteString("{\"kind\":\"bool\",\"bool\":");
      out.WriteString(truth);
      out.WriteString("}");
    case Int(n) =>
      PlainInt(n);
      Plainly(quote, FormatInt(n));
      TaggedText(quote, "int", JString(FormatInt(n)));
      Wrapped(out.text, Head("int"), "\"", FormatInt(n), "\"", "}");
      out.WriteString("{\"kind\":\"int\",\"int\":\"");
      out.WriteString(FormatInt(n));
      out.WriteString("\"}");
    case Floating(f) =>
      if !ft.finite(f) { return false; }
      PlainFloat(ft, f);
      Plainly(quote, ft.format(f));
      TaggedText(quote, "float", JString(ft.format(f)));
      Wrapped(out.text, Head("float"), "\"", ft.format(f), "\"", "}");
      out.WriteString("{\"kind\":\"float\",\"float\":\"");
      out.WriteString(ft.format(f));
      out.WriteString("\"}");
    case Text(s) =>
      TaggedText(quote, "string", JString(s));
      Wrapped(out.text, Head("string"), "", quote(s), "", "}");
      out.WriteString("{\"kind\":\"string\",\"string\":");
      out.WriteString(quote(s));
      out.WriteString("}");
  }

  lemma Plainly(quote: Quote, s: string)
    requires QuotesPlainly(quote) && PlainText(s)
    ensures quote(s) == "\"" + s + "\""
  {
  }

  lemma PlainFloat(ft: FloatText, f: Float)
    requires PlainFloats(ft) && ft.finite(f)
    ensures PlainText(ft.format(f))
  {
  }

  lemma PlainKinds()
    ensures PlainText("bool") && PlainText("int") && PlainText("float") && PlainText("string") && PlainText("list") && PlainText("map")
  {
  }

  lemma RenderLeaves(quote: Quote)
    ensures forall b :: Render(quote, JBool(b)) == if b then "true" else "false"
    ensures forall s :: Render(quote, JString(s)) == quote(s)
  {
  }

  /** Writes the items of a list with commas between them, up to the first without an encoding. */
  method AppendItems(out: Buffer, ft: FloatText, quote: Quote, v: Value) returns (ok: bool)
    requires QuotesPlainly(quote) && PlainFloats(ft) && v.List?
    modifies out
    ensures ok <==> EncodeItems(ft, v, |v.items|).Some?
    ensures ok ==> out.text == old(out.text) + RenderItems(quote, EncodeItems(ft, v, |v.items|).value)
    decreases v, 1
  {
    hide QuotesPlainly, PlainFloats, Render;
    for i := 0 to |v.items|
      invariant EncodeItems(ft, v, i).Some?
      invariant out.text == old(out.text) + RenderItems(quote, EncodeItems(ft, v, i).value)
    {
      if i > 0 { out.WriteString(","); }
      ok := AppendValue(out, ft, quote, v.items[i]);
      if !ok {
        ItemsStop(ft, v, i);
        return;
      }
      ItemsText(quote, EncodeItems(ft, v, i).value, Encode(ft, v.items[i]).value);
    }
    ok := true;
  }

  lemma {:induction false} ItemsStop(ft: FloatText, v: Value, i: nat)
    requires v.List? && i < |v.items| && Encode(ft, v.items[i]).None?
    ensures EncodeItems(ft, v, |v.items|).None?
  {
    for n := i + 1 to |v.items|
      invariant EncodeItems(ft, v, n).None?
    {
    }
  }

  method AppendEntries(out: Buffer, ft: FloatText, quote: Quote, v: Value, keys: seq<string>) returns (ok: bool)
    requires QuotesPlainly(quote) && PlainFloats(ft) && v.Map? && Elements(keys) == v.entries.Keys
    modifies out
    ensures ok <==> EncodeEntries(ft, v, keys, |keys|).Some?
    ensures ok ==> out.text == old(out.text) + RenderItems(quote, EncodeEntries(ft, v, keys, |keys|).value)
    decreases v, 1
  {
    hide QuotesPlainly, PlainFloats, Render, RenderItems, Encode;
    NoItemsText(quote);
    for i := 0 to |keys|
      invariant EncodeEntries(ft, v, keys, i).Some?
      invariant out.text == old(out.text) + RenderItems(quote, EncodeEntries(ft, v, keys, i).value)
    {
      assert keys[i] in Elements(keys);
      if i > 0 { out.WriteString(","); }
      ok := AppendEntry(out, ft, quote, v, keys[i]);
      if !ok {
        EntriesStop(ft, v, keys, i);
        return;
      }
      ItemsText(quote, EncodeEntries(ft, v, keys, i).value, Entry(keys[i], Encode(ft, v.entries[keys[i]]).value));
    }
    ok := true;
  }

  lemma NoItemsText(quote: Quote)
    ensures RenderItems(quote, []) == ""
  {
  }

  method AppendEntry(out: Buffer, ft: FloatText, quote: Quote, v: Value, key: string) returns (ok: bool)
    requires QuotesPlainly(quote) && PlainFloats(ft) && v.Map? && key in v.entries
    modifies out
    ensures ok <==> Encode(ft, v.entries[key]).Some?
    ensures ok ==> out.text == old(out.text) + Render(quote, Entry(key, Encode(ft, v.entries[key]).value))
    decreases v, 0
  {
    hide QuotesPlainly, PlainFloats, Render, Encode;
    out.WriteString("{\"key\":");
    out.WriteString(quote(key));
    out.WriteString(",\"value\":");
    ok := AppendValue(out, ft, quote, v.entries[key]);
    if !ok { return; }
    out.WriteString("}");
    var value := Encode(ft, v.entries[key]).value;
    EntryText(quote, key, value);
    WrittenEntry(old(out.text), "{\"key\":", quote(key), ",\"value\":", Render(quote, value), "}");
  }

  lemma WrittenEntry(before: string, a: string, k: string, b: string, r: string, z: string)
    ensures before + a + k + b + r + z == before + (a + k + b + r + z)
  {
  }

  lemma {:induction false} EntriesStop(ft: FloatText, v: Value, keys: seq<string>, i: nat)
    requires v.Map? && Elements(keys) == v.entries.Keys && i < |keys|
    requires keys[i] in v.entries && Encode(ft, v.entries[keys[i]]).None?
    ensures EncodeEntries(ft, v, keys, |keys|).None?
  {
    for n := i + 1 to |keys|
      invariant EncodeEntries(ft, v, keys, n).None?
    {
    }
  }

  /** Gathers the keys in any order and sorts them. */
  method SortKeys(ks: set<string>) returns (keys: seq<string>)
    ensures keys == SortedKeys(ks)
  {
    var gathered: seq<string>, left := [], ks;
    while left != {}
      invariant left <= ks && Elements(gathered) == ks - left
      invariant forall i, j :: 0 <= i < j < |gathered| ==> gathered[i] != gathered[j]
      decreases |left|
    {
      var k :| k in left;
      assert k !in Elements(gathered);
      assert Elements(gathered + [k]) == Elements(gathered) + {k};
      gathered, left := gathered + [k], left - {k};
    }
    keys := Sort(TextLess, gathered);
    SortedTexts(gathered);
    SortedKeysOk(ks);
    IncreasingUnique(keys, SortedKeys(ks));
  }

  lemma SortedTexts(s: seq<string>)
    requires forall i, j :: 0 <= i < j < |s| ==> s[i] != s[j]
    ensures Increasing(Sort(TextLess, s)) && Elements(Sort(TextLess, s)) == Elements(s)
  {
    hide TextLess;
    forall x, y, z | x in s && y in s && z in s
      ensures !(TextLess(x, y) && TextLess(y, x))
      ensures !TextLess(y, x) && !TextLess(z, y) ==> !TextLess(z, x)
    {
      TextOrder(x, y, z);
      TextOrder(z, x, y);
      TextOrder(y, z, x);
    }
    SortMembers(TextLess, s);
    SortInOrder(TextLess, s);
    var t := Sort(TextLess, s);
    forall i, j | 0 <= i < j < |t|
      ensures TextLess(t[i], t[j])
    {
      if t[i] == t[j] { var _, _ := RepeatedBoth(s, t, i, j); }
      TextOrder(t[i], t[j], t[i]);
    }
  }

  // ----- Reading -----------------------------------------------------------------------------------

  /** The first member of that name. */
  method ObjectMember(ms: seq<Member>, name: string) returns (r: Option<Node>)
    ensures r == if HasMember(ms, name) then Some(ms[FindMember(ms, name)].value) else None
  {
    for i := 0 to |ms|
      invariant forall k :: 0 <= k < i ==> ms[k].name != name
    {
      if ms[i].name == name { return Some(ms[i].value); }
    }
    r := None;
  }

  method RequireObjectMembers(ms: seq<Member>, names: seq<string>) returns (ok: bool)
    ensures ok <==> OnlyMembers(ms, names)
  {
    for i := 0 to |ms|
      invariant forall k :: 0 <= k < i ==> ms[k].name in names
    {
      if ms[i].name !in names { return false; }
    }
    for i := 0 to |names|
      invariant forall k :: 0 <= k < i ==> HasMember(ms, names[k])
    {
      var m := ObjectMember(ms, names[i]);
      if m.None? { return false; }
    }
    ok := true;
  }

  method DecodeEnvelope(ft: FloatText, node: Node) returns (r: Option<Value>)
    ensures r == Decode(ft, node)
    decreases node, 1
  {
    hide OnlyMembers;
    if !node.JObject? { return None; }
    var k := ObjectMember(node.members, "kind");
    if k.None? || !k.value.JString? { return None; }
    var kind := k.value.text;
    if kind == "null" {
      var bare := RequireObjectMembers(node.members, ["kind"]);
      return if bare then Some(Null) else None;
    }
    if kind !in ["bool", "int", "float", "string", "list", "map"] { return None; }
    var only := RequireObjectMembers(node.members, ["kind", kind]);
    if !only { return None; }
    Wanted(node.members, ["kind", kind], kind);
    var payload := ObjectMember(node.members, kind);
    if kind == "list" {
      if !payload.value.JArray? { return None; }
      var l := DecodeList(ft, payload.value.items);
      return if l.None? then None else Some(List(l.value));
    }
    if kind == "map" {
      if !payload.value.JArray? { return None; }
      var m := DecodeMap(ft, payload.value.items);
      return if m.None? then None else Some(Map(m.value));
    }
    r := DecodeLeaf(ft, kind, payload.value);
  }

  method DecodeLeaf(ft: FloatText, kind: string, payload: Node) returns (r: Option<Value>)
    ensures kind == "bool" ==> r == if payload.JBool? then Some(Bool(payload.truth)) else None
    ensures kind == "int" ==>
              r == if payload.JString? && ParseInt(payload.text).Some? && FormatInt(ParseInt(payload.text).value) == payload.text
                   then Some(Int(ParseInt(payload.text).value)) else None
    ensures kind == "float" ==>
              r == if payload.JString? && ft.parse(payload.text).Some? && ft.finite(ft.parse(payload.text).value)
                      && ft.format(ft.parse(payload.text).value) == payload.text
                   then Some(Floating(ft.parse(payload.text).value)) else None
    ensures kind == "string" ==> r == if payload.JString? then Some(Text(payload.text)) else None
  {
    r := None;
    if kind == "bool" {
      if payload.JBool? { r := Some(Bool(payload.truth)); }
    } else if !payload.JString? {
      return;
    } else if kind == "int" {
      var n := ParseInt(payload.text);
      if n.Some? && FormatInt(n.value) == payload.text { r := Some(Int(n.value)); }
    } else if kind == "float" {
      var f := ft.parse(payload.text);
      if f.Some? && ft.finite(f.value) && ft.format(f.value) == payload.text { r := Some(Floating(f.value)); }
    } else if kind == "string" {
      r := Some(Text(payload.text));
    }
  }

  method DecodeList(ft: FloatText, items: seq<Node>) returns (r: Option<seq<Value>>)
    ensures r == DecodeItems(ft, items)
    decreases items, 0
  {
    hide Decode;
    var values := [];
    for i := 0 to |items|
      invariant DecodeItems(ft, items[..i]) == Some(values)
    {
      var v := DecodeEnvelope(ft, items[i]);
      assert items[..i + 1][..i] == items[..i];
      if v.None? {
        ItemsRefused(ft, items, i + 1);
        return None;
      }
      values := values + [v.value];
    }
    assert items[..|items|] == items;
    r := Some(values);
  }

  lemma {:induction false} ItemsRefused(ft: FloatText, items: seq<Node>, n: nat)
    requires n <= |items| && DecodeItems(ft, items[..n]).None?
    ensures DecodeItems(ft, items).None?
    decreases |items| - n
  {
    hide Decode;
    if n == |items| {
      assert items[..n] == items;
    } else {
      assert items[..n + 1][..n] == items[..n];
      ItemsRefused(ft, items, n + 1);
    }
  }

  lemma {:induction false} EntriesRefused(ft: FloatText, items: seq<Node>, n: nat)
    requires n <= |items| && DecodeEntries(ft, items[..n]).None?
    ensures DecodeEntries(ft, items).None?
    decreases |items| - n
  {
    hide Decode;
    if n == |items| {
      assert items[..n] == items;
    } else {
      assert items[..n + 1][..n] == items[..n];
      EntriesRefused(ft, items, n + 1);
    }
  }

  /** Reads the entries of a map, whose keys must rise. */
  method DecodeMap(ft: FloatText, items: seq<Node>) returns (r: Option<map<string, Value>>)
    ensures r == DecodeEntries(ft, items)
    decreases items, 0
  {
    hide Decode, EntryKey;
    var values: map<string, Value>, previous := map[], "";
    for i := 0 to |items|
      invariant DecodeEntries(ft, items[..i]) == Some(values)
      invariant i > 0 ==> EntryKey(items[i - 1]) == Some(previous)
    {
      assert items[..i + 1][..i] == items[..i];
      assert i > 0 ==> items[..i + 1][i - 1] == items[i - 1];
      var key := KeyOfEntry(items[i]);
      if key.None? || (i > 0 && !TextLess(previous, key.value)) {
        EntriesRefused(ft, items, i + 1);
        return None;
      }
      EntryMember(items[i]);
      var valueNode := ObjectMember(items[i].members, "value");
      var v := DecodeEnvelope(ft, valueNode.value);
      if v.None? {
        EntriesRefused(ft, items, i + 1);
        return None;
      }
      values, previous := values[key.value := v.value], key.value;
    }
    assert items[..|items|] == items;
    r := Some(values);
  }

  method KeyOfEntry(entry: Node) returns (key: Option<string>)
    ensures key == EntryKey(entry)
  {
    if !entry.JObject? { return None; }
    var ok := RequireObjectMembers(entry.members, ["key", "value"]);
    if !ok { return None; }
    Wanted(entry.members, ["key", "value"], "key");
    var k := ObjectMember(entry.members, "key");
    return if k.value.JString? then Some(k.value.text) else None;
  }

  lemma EntryMember(entry: Node)
    requires EntryKey(entry).Some?
    ensures entry.JObject? && HasMember(entry.members, "value")
  {
    Wanted(entry.members, ["key", "value"], "value");
  }
}
