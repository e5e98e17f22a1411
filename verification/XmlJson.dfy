/**
 * The JSON column of the alarms table (src/alerts_table.cpp): an element with children becomes an
 * object with one member per distinct child name, an element without becomes a string.
 */
module XmlJson {
  import opened Strings
  import opened XmlGrammar

  // ---------- strings ----------

  predicate IsControl(c: Byte) {
    c as int < 0x20
  }

  function JsonEscapeByte(c: Byte): Bytes {
    match c
    case '"' => "\\\""
    case '\\' => "\\\\"
    case '\n' => "\\n"
    case '\r' => "\\r"
    case '\t' => "\\t"
    case _ => if IsControl(c) then "?" else [c]
  }

  function EscapeBytes(s: Bytes): Bytes {
    if s == [] then [] else JsonEscapeByte(s[0]) + EscapeBytes(s[1..])
  }

  function JsonEscape(s: Bytes): Bytes {
    "\"" + (EscapeBytes(s) + "\"")
  }

  method EscapeJson(value: Bytes) returns (result: Bytes)
    ensures result == JsonEscape(value)
  {
    hide JsonEscapeByte;
    result := "\"";
    assert value[0..] == value;
    for i := 0 to |value|
      invariant result + EscapeBytes(value[i..]) == "\"" + EscapeBytes(value)
    {
      assert value[i..][1..] == value[i + 1..];
      Regroup(result, JsonEscapeByte(value[i]), EscapeBytes(value[i + 1..]));
      result := result + JsonEscapeByte(value[i]);
    }
    assert value[|value|..] == [] && result + [] == result;
    result := result + "\"";
  }

  // ---------- grouping by name ----------

  /** One step of filling an ordered map from names to lists: the entry joins its name's list, or opens one in name order. */
  function AddTo<T>(groups: seq<(Bytes, seq<T>)>, name: Bytes, item: T): seq<(Bytes, seq<T>)> {
    if groups == [] then [(name, [item])]
    else if groups[0].0 == name then [(name, groups[0].1 + [item])] + groups[1..]
    else if LexLess(name, groups[0].0) then [(name, [item])] + groups
    else [groups[0]] + AddTo(groups[1..], name, item)
  }

  function GroupAll<T>(entries: seq<(Bytes, T)>): seq<(Bytes, seq<T>)> {
    if entries == [] then []
    else AddTo(GroupAll(entries[..|entries| - 1]), entries[|entries| - 1].0, entries[|entries| - 1].1)
  }

  /** The items entered under a name, in entry order. */
  function ItemsOf<T>(entries: seq<(Bytes, T)>, name: Bytes): seq<T> {
    if entries == [] then []
    else ItemsOf(entries[..|entries| - 1], name) + if entries[|entries| - 1].0 == name then [entries[|entries| - 1].1] else []
  }

  function GroupFor<T>(groups: seq<(Bytes, seq<T>)>, name: Bytes): seq<T> {
    if groups == [] then [] else if groups[0].0 == name then groups[0].1 else GroupFor(groups[1..], name)
  }

  /** Names strictly ascend, so each occurs once; no list is empty. */
  predicate Ascending<T>(groups: seq<(Bytes, seq<T>)>) {
    && (forall i, j | 0 <= i < j < |groups| :: LexLess(groups[i].0, groups[j].0))
    && (forall i | 0 <= i < |groups| :: groups[i].1 != [])
  }

  lemma AscendingTail<T>(groups: seq<(Bytes, seq<T>)>)
    requires groups != [] && Ascending(groups)
    ensures Ascending(groups[1..])
  {
  }

  lemma AscendingCons<T>(g: (Bytes, seq<T>), groups: seq<(Bytes, seq<T>)>)
    requires Ascending(groups) && g.1 != []
    requires groups != [] ==> LexLess(g.0, groups[0].0)
    ensures Ascending([g] + groups)
  {
    forall j | 0 <= j < |groups| ensures LexLess(g.0, groups[j].0) {
      if j > 0 {
        LexOrder(g.0, groups[0].0, groups[j].0);
      }
    }
  }

  lemma {:induction false} AddToAscending<T>(groups: seq<(Bytes, seq<T>)>, name: Bytes, item: T)
    requires Ascending(groups)
    ensures Ascending(AddTo(groups, name, item))
    ensures AddTo(groups, name, item) != []
    ensures AddTo(groups, name, item)[0].0 == if groups == [] || LexLess(name, groups[0].0) then name else groups[0].0
  {
    hide LexLess;
    if groups == [] {
      AscendingCons((name, [item]), groups);
    } else {
      AscendingTail(groups);
      LexOrder(name, groups[0].0, name);
      if groups[0].0 == name {
        AscendingCons((name, groups[0].1 + [item]), groups[1..]);
      } else if LexLess(name, groups[0].0) {
        AscendingCons((name, [item]), groups);
      } else {
        AddToAscending(groups[1..], name, item);
        AscendingCons(groups[0], AddTo(groups[1..], name, item));
      }
    }
  }

  lemma {:induction false} NameAbsent<T>(groups: seq<(Bytes, seq<T>)>, name: Bytes)
    requires Ascending(groups) && groups != [] && LexLess(name, groups[0].0)
    ensures GroupFor(groups, name) == []
  {
    hide LexLess;
    LexOrder(name, groups[0].0, name);
    if |groups| <= 1 {
    } else {
      AscendingTail(groups);
      LexOrder(name, groups[0].0, groups[1].0);
      assert groups[1..][0] == groups[1];
      NameAbsent(groups[1..], name);
    }
  }

  lemma {:induction false} AddToFor<T>(groups: seq<(Bytes, seq<T>)>, name: Bytes, item: T, other: Bytes)
    requires Ascending(groups)
    ensures GroupFor(AddTo(groups, name, item), other) == GroupFor(groups, other) + if name == other then [item] else []
  {
    hide LexLess;
    if groups == [] {
    } else if groups[0].0 == name {
      assert ([(name, groups[0].1 + [item])] + groups[1..])[1..] == groups[1..];
    } else if LexLess(name, groups[0].0) {
      assert ([(name, [item])] + groups)[1..] == groups;
      if name == other {
        NameAbsent(groups, name);
      }
    } else {
      AscendingTail(groups);
      AddToFor(groups[1..], name, item, other);
      assert ([groups[0]] + AddTo(groups[1..], name, item))[1..] == AddTo(groups[1..], name, item);
    }
  }

  /** The map holds each entered name once, in order, with exactly the items entered under it, in order. */
  lemma {:induction false} GroupAllMeaning<T>(entries: seq<(Bytes, T)>, name: Bytes)
    ensures Ascending(GroupAll(entries))
    ensures GroupFor(GroupAll(entries), name) == ItemsOf(entries, name)
  {
    if entries == [] {
    } else {
      var front, last := entries[..|entries| - 1], entries[|entries| - 1];
      GroupAllMeaning(front, name);
      AddToAscending(GroupAll(front), last.0, last.1);
      AddToFor(GroupAll(front), last.0, last.1, name);
    }
  }

  // ---------- grouping and mapping ----------

  function MapItems<T, U>(f: T -> U, items: seq<T>): (r: seq<U>)
    ensures |r| == |items| && forall i | 0 <= i < |r| :: r[i] == f(items[i])
  {
    seq(|items|, i requires 0 <= i < |items| => f(items[i]))
  }

  function MapGroups<T, U>(f: T -> U, groups: seq<(Bytes, seq<T>)>): (r: seq<(Bytes, seq<U>)>)
    ensures |r| == |groups| && forall i | 0 <= i < |r| :: r[i] == (groups[i].0, MapItems(f, groups[i].1))
  {
    seq(|groups|, i requires 0 <= i < |groups| => (groups[i].0, MapItems(f, groups[i].1)))
  }

  function MapEntries<T, U>(f: T -> U, entries: seq<(Bytes, T)>): (r: seq<(Bytes, U)>)
    ensures |r| == |entries| && forall i | 0 <= i < |r| :: r[i] == (entries[i].0, f(entries[i].1))
  {
    seq(|entries|, i requires 0 <= i < |entries| => (entries[i].0, f(entries[i].1)))
  }

  lemma {:induction false} MapAddTo<T, U>(f: T -> U, groups: seq<(Bytes, seq<T>)>, name: Bytes, item: T)
    ensures AddTo(MapGroups(f, groups), name, f(item)) == MapGroups(f, AddTo(groups, name, item))
  {
    hide LexLess;
    if groups == [] {
      assert MapItems(f, [item]) == [f(item)];
    } else if groups[0].0 == name {
      assert MapItems(f, groups[0].1 + [item]) == MapItems(f, groups[0].1) + [f(item)];
    } else if LexLess(name, groups[0].0) {
      assert MapItems(f, [item]) == [f(item)];
    } else {
      MapAddTo(f, groups[1..], name, item);
      assert MapGroups(f, groups)[1..] == MapGroups(f, groups[1..]);
    }
  }

  lemma {:induction false} MapGroupAll<T, U>(f: T -> U, entries: seq<(Bytes, T)>)
    ensures GroupAll(MapEntries(f, entries)) == MapGroups(f, GroupAll(entries))
  {
    if entries == [] {
    } else {
      var front, last := entries[..|entries| - 1], entries[|entries| - 1];
      MapGroupAll(f, front);
      MapAddTo(f, GroupAll(front), last.0, last.1);
      assert MapEntries(f, entries)[..|entries| - 1] == MapEntries(f, front);
    }
  }

  // ---------- the text ----------

  function GroupText(items: seq<Bytes>): Bytes {
    if |items| == 1 then items[0] else "[" + (Join(items, ",") + "]")
  }

  function MemberText(g: (Bytes, seq<Bytes>)): Bytes {
    JsonEscape(g.0) + (":" + GroupText(g.1))
  }

  function MemberTexts(groups: seq<(Bytes, seq<Bytes>)>): (r: seq<Bytes>)
    ensures |r| == |groups| && forall i | 0 <= i < |r| :: r[i] == MemberText(groups[i])
  {
    seq(|groups|, i requires 0 <= i < |groups| => MemberText(groups[i]))
  }

  function ObjectText(groups: seq<(Bytes, seq<Bytes>)>): Bytes {
    "{" + (Join(MemberTexts(groups), ",") + "}")
  }

  function XmlToJson(node: XmlNode): Bytes
    decreases node, 1
  {
    if node.children == [] then JsonEscape(node.text) else ObjectText(GroupAll(TextEntries(node.children)))
  }

  function TextEntries(children: seq<XmlNode>): seq<(Bytes, Bytes)>
    decreases children, 0
  {
    if children == [] then [] else [(children[0].name, XmlToJson(children[0]))] + TextEntries(children[1..])
  }

  function NodeEntries(children: seq<XmlNode>): (r: seq<(Bytes, XmlNode)>)
    ensures |r| == |children| && forall i | 0 <= i < |r| :: r[i] == (children[i].name, children[i])
  {
    seq(|children|, i requires 0 <= i < |children| => (children[i].name, children[i]))
  }

  lemma {:induction false} TextEntriesMap(children: seq<XmlNode>)
    ensures TextEntries(children) == MapEntries(XmlToJson, NodeEntries(children))
  {
    hide XmlToJson;
    if children == [] {
    } else {
      TextEntriesMap(children[1..]);
      assert NodeEntries(children)[1..] == NodeEntries(children[1..]);
    }
  }

  /** Every grouped node is one of the grouped children. */
  predicate AllAmong(groups: seq<(Bytes, seq<XmlNode>)>, children: seq<XmlNode>) {
    forall i, j | 0 <= i < |groups| && 0 <= j < |groups[i].1| :: groups[i].1[j] in children
  }

  lemma {:induction false} AddToAmong(groups: seq<(Bytes, seq<XmlNode>)>, name: Bytes, node: XmlNode, children: seq<XmlNode>)
    requires AllAmong(groups, children) && node in children
    ensures AllAmong(AddTo(groups, name, node), children)
  {
    hide LexLess;
    if groups == [] || groups[0].0 == name || LexLess(name, groups[0].0) {
    } else {
      AddToAmong(groups[1..], name, node, children);
    }
  }

  lemma JoinPush(parts: seq<Bytes>, p: Bytes)
    ensures Join(parts + [p], ",") == if parts == [] then p else Join(parts, ",") + "," + p
  {
    if parts == [] {
    } else {
      assert (parts + [p])[1..] == parts[1..] + [p];
      if |parts| > 1 {
        JoinPush(parts[1..], p);
      }
    }
  }

  lemma JoinNothing()
    ensures Join([], ",") == []
  {
  }

  /** One member more. */
  lemma MemberTextsPush(groups: seq<(Bytes, seq<XmlNode>)>, g: nat)
    requires g < |groups|
    ensures MemberTexts(MapGroups(XmlToJson, groups[..g + 1])) ==
            MemberTexts(MapGroups(XmlToJson, groups[..g])) + [MemberText((groups[g].0, MapItems(XmlToJson, groups[g].1)))]
  {
    hide XmlToJson, MemberText, MapItems;
    assert groups[..g + 1] == groups[..g] + [groups[g]];
  }

  lemma NoMemberTexts(groups: seq<(Bytes, seq<XmlNode>)>)
    requires groups == []
    ensures MemberTexts(MapGroups(XmlToJson, groups)) == []
  {
  }

  method WriteObject(node: XmlNode, groups: seq<(Bytes, seq<XmlNode>)>) returns (result: Bytes)
    requires AllAmong(groups, node.children)
    ensures result == ObjectText(MapGroups(XmlToJson, groups))
    decreases node, 1
  {
    hide XmlToJson, Join, JsonEscape, GroupText, MapGroups, MapItems, MemberTexts;
    result := "{";
    ghost var texts: seq<Bytes> := [];
    JoinNothing();
    NoMemberTexts(groups[..0]);
    for g := 0 to |groups|
      invariant texts == MemberTexts(MapGroups(XmlToJson, groups[..g]))
      invariant result == "{" + Join(texts, ",")
    {
      if g > 0 {
        result := result + ",";
      }
      var key := EscapeJson(groups[g].0);
      var value := WriteGroup(node, groups[g].1);
      JoinPush(texts, key + (":" + value));
      MemberTextsPush(groups, g);
      texts := texts + [key + (":" + value)];
      result := result + (key + (":" + value));
    }
    assert groups[..|groups|] == groups;
    result := result + "}";
  }

  /** XmlToJson with its loops: filling the ordered map, then writing one member per name. */
  method WriteJson(node: XmlNode) returns (result: Bytes)
    ensures result == XmlToJson(node)
    decreases node, 2
  {
    hide JsonEscape, AddTo;
    if node.children == [] {
      result := EscapeJson(node.text);
      return;
    }
    var groups: seq<(Bytes, seq<XmlNode>)> := [];
    for i := 0 to |node.children|
      invariant groups == GroupAll(NodeEntries(node.children[..i])) && AllAmong(groups, node.children)
    {
      var child := node.children[i];
      assert NodeEntries(node.children[..i + 1])[..i] == NodeEntries(node.children[..i]);
      AddToAmong(groups, child.name, child, node.children);
      groups := AddTo(groups, child.name, child);
    }
    assert node.children[..|node.children|] == node.children;
    result := WriteObject(node, groups);
    TextEntriesMap(node.children);
    MapGroupAll(XmlToJson, NodeEntries(node.children));
  }

  method WriteGroup(node: XmlNode, items: seq<XmlNode>) returns (result: Bytes)
    requires forall i | 0 <= i < |items| :: items[i] in node.children
    ensures result == GroupText(MapItems(XmlToJson, items))
    decreases node, 0
  {
    hide XmlToJson, Join;
    if |items| == 1 {
      result := WriteJson(items[0]);
      return;
    }
    result := "[";
    ghost var texts: seq<Bytes> := [];
    JoinNothing();
    for i := 0 to |items|
      invariant texts == MapItems(XmlToJson, items[..i])
      invariant result == "[" + Join(texts, ",")
    {
      if i > 0 {
        result := result + ",";
      }
      var text := WriteJson(items[i]);
      JoinPush(texts, text);
      assert MapItems(XmlToJson, items[..i + 1]) == texts + [text];
      texts := texts + [text];
      result := result + text;
    }
    assert items[..|items|] == items;
    result := result + "]";
  }
}
