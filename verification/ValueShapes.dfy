/**
 The text of an encoded value, written out kind by kind.
 */
module ValueShapes {
  import opened Texts
  import opened ValueJson
  import opened ValueText
  import opened ValueCanon

  /** The parts one after the other, with commas between. */
  function Joined(parts: seq<string>): string {
    if parts == [] then ""
    else if |parts| == 1 then parts[0]
    else Joined(parts[..|parts| - 1]) + "," + parts[|parts| - 1]
  }

  lemma {:induction false} ItemsJoined(quote: Quote, items: seq<Node>, parts: seq<string>)
    requires |parts| == |items| && forall i :: 0 <= i < |items| ==> parts[i] == Render(quote, items[i])
    ensures RenderItems(quote, items) == Joined(parts)
  {
    hide Render;
    if items != [] {
      var n := |items| - 1;
      ItemsJoined(quote, items[..n], parts[..n]);
      assert items[..n] + [items[n]] == items;
      ItemsText(quote, items[..n], items[n]);
      if n == 0 { assert items[..n] == []; assert RenderItems(quote, items[..n]) == ""; }
    }
  }

  /** A payload written as a number's text. */
  lemma NumberShape(quote: Quote, kind: string, text: string)
    requires QuotesPlainly(quote) && PlainText(kind) && PlainText(text)
    ensures Render(quote, Tagged(kind, JString(text))) == Head(kind) + "\"" + text + "\"}"
  {
    hide QuotesPlainly, PlainText, Render, Head, Tagged;
    Plainly(quote, text);
    TaggedText(quote, kind, JString(text));
    RenderText(quote, text);
    Wrapped("", Head(kind), "\"", text, "\"", "}");
  }

  /** The text of a value without parts: its kind, and its payload in JSON. */
  lemma LeafShape(ft: FloatText, quote: Quote, v: Value)
    requires QuotesPlainly(quote) && PlainFloats(ft) && !v.List? && !v.Map? && Encode(ft, v).Some?
    ensures Render(quote, Encode(ft, v).value) == LeafText(ft, quote, v)
  {
    hide QuotesPlainly, PlainFloats, PlainText, Render, Head, Tagged;
    Heads();
    PlainKinds();
    match v
    case Null => NullText(quote);
    case Bool(b) =>
      RenderLeaves(quote);
      TaggedText(quote, "bool", JBool(b));
    case Int(n) =>
      PlainInt(n);
      NumberShape(quote, "int", FormatInt(n));
    case Floating(f) =>
      PlainFloat(ft, f);
      NumberShape(quote, "float", ft.format(f));
    case Text(s) =>
      RenderText(quote, s);
      TaggedText(quote, "string", JString(s));
  }

  function LeafText(ft: FloatText, quote: Quote, v: Value): string {
    match v
    case Bool(b) => "{\"kind\":\"bool\",\"bool\":" + (if b then "true" else "false") + "}"
    case Int(n) => "{\"kind\":\"int\",\"int\":\"" + FormatInt(n) + "\"}"
    case Floating(f) => "{\"kind\":\"float\",\"float\":\"" + ft.format(f) + "\"}"
    case Text(s) => "{\"kind\":\"string\",\"string\":" + quote(s) + "}"
    case _ => "{\"kind\":\"null\"}"
  }

  /** The text of a list: the texts of its items in their order. */
  lemma ListShape(ft: FloatText, quote: Quote, items: seq<Value>, parts: seq<string>)
    requires QuotesPlainly(quote) && Encode(ft, List(items)).Some? && |parts| == |items|
    requires forall i :: 0 <= i < |items| ==> Encode(ft, items[i]).Some? ==> parts[i] == Render(quote, Encode(ft, items[i]).value)
    ensures Render(quote, Encode(ft, List(items)).value) == "{\"kind\":\"list\",\"list\":[" + Joined(parts) + "]}"
  {
    hide QuotesPlainly, Render, Head, EncodeItems, Encode, Joined;
    KindText(ft, List(items));
    var node := Encode(ft, List(items)).value;
    assert node.members == [node.members[0], node.members[1]];
    assert node == Tagged("list", JArray(node.members[1].value.items));
    Shape(quote, "list", node.members[1].value.items, parts);
    Heads();
  }

  /** The text of a map: its keys in dictionary order, each with the text of what it leads to. */
  lemma MapShape(ft: FloatText, quote: Quote, m: map<string, Value>, keys: seq<string>, parts: seq<string>)
    requires QuotesPlainly(quote) && Encode(ft, Map(m)).Some? && |parts| == |keys|
    requires (forall i, j :: 0 <= i < j < |keys| ==> Earlier(keys[i], keys[j])) && forall k :: k in m <==> k in keys
    requires forall i :: 0 <= i < |keys| ==> keys[i] in m && (Encode(ft, m[keys[i]]).Some? ==>
               parts[i] == "{\"key\":" + quote(keys[i]) + ",\"value\":" + Render(quote, Encode(ft, m[keys[i]]).value) + "}")
    ensures Render(quote, Encode(ft, Map(m)).value) == "{\"kind\":\"map\",\"map\":[" + Joined(parts) + "]}"
  {
    hide QuotesPlainly, Render, Head, EncodeEntries, Encode, Earlier, Joined;
    var nodes := MapNodes(ft, m, keys);
    forall i | 0 <= i < |nodes|
      ensures parts[i] == Render(quote, nodes[i])
    {
      EntryText(quote, keys[i], Encode(ft, m[keys[i]]).value);
    }
    Shape(quote, "map", nodes, parts);
    Heads();
  }

  /** The entries of a map, one for each of its keys in dictionary order. */
  lemma MapNodes(ft: FloatText, m: map<string, Value>, keys: seq<string>) returns (nodes: seq<Node>)
    requires Encode(ft, Map(m)).Some?
    requires (forall i, j :: 0 <= i < j < |keys| ==> Earlier(keys[i], keys[j])) && forall k :: k in m <==> k in keys
    ensures Encode(ft, Map(m)).value == Tagged("map", JArray(nodes)) && |nodes| == |keys|
    ensures forall i :: 0 <= i < |keys| ==>
              keys[i] in m && Encode(ft, m[keys[i]]).Some? && nodes[i] == Entry(keys[i], Encode(ft, m[keys[i]]).value)
  {
    hide EncodeEntries, Encode, Earlier;
    var sorted := MapText(ft, m);
    SameKeys(sorted, keys);
    nodes := Encode(ft, Map(m)).value.members[1].value.items;
  }

  /** Two lists of the same texts in dictionary order are one list. */
  lemma SameKeys(a: seq<string>, b: seq<string>)
    requires forall i, j :: 0 <= i < j < |a| ==> Earlier(a[i], a[j])
    requires forall i, j :: 0 <= i < j < |b| ==> Earlier(b[i], b[j])
    requires forall k :: k in a <==> k in b
    ensures a == b
  {
    hide Earlier;
    forall x, y
      ensures TextLess(x, y) <==> Earlier(x, y)
    {
      TextLessMeaning(x, y);
    }
    IncreasingUnique(a, b);
  }

  lemma Shape(quote: Quote, kind: string, nodes: seq<Node>, parts: seq<string>)
    requires QuotesPlainly(quote) && PlainText(kind)
    requires |parts| == |nodes| && forall i :: 0 <= i < |nodes| ==> parts[i] == Render(quote, nodes[i])
    ensures Render(quote, Tagged(kind, JArray(nodes))) == (Head(kind) + "[") + Joined(parts) + "]}"
  {
    hide QuotesPlainly, PlainText, Render, Head, Tagged, Joined;
    TaggedText(quote, kind, JArray(nodes));
    ArrayText(quote, nodes);
    ItemsJoined(quote, nodes, parts);
    Wrapped("", Head(kind), "[", Joined(parts), "]", "}");
  }
}
