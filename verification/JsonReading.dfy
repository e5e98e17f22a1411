/**
 * What the JSON column of the alarms table (src/alerts_table.cpp) means: a reference reader for
 * the grammar of sections 4, 5 and 7 of RFC 8259, and the document it reads from XmlToJson's text.
 * The reader accepts no whitespace between tokens and no \u escape; the writer emits neither.
 */
module JsonReading {
  import opened Strings
  import opened JsonTrees
  import opened XmlGrammar
  import opened XmlJson
  import XmlRoundTrip

  // ---------- the reference reader ----------

  function Unescape(c: Byte): Option<Byte> {
    match c
    case '"' => Some('"')
    case '\\' => Some('\\')
    case '/' => Some('/')
    case 'b' => Some(8 as char)
    case 'f' => Some(12 as char)
    case 'n' => Some('\n')
    case 'r' => Some('\r')
    case 't' => Some('\t')
    case _ => None
  }

  /** The characters of a string up to its closing quote; control bytes must be escaped. */
  function ReadString(s: Bytes): (r: Option<(Bytes, Bytes)>)
    ensures r.Some? ==> |r.value.1| < |s|
  {
    if s == [] || IsControl(s[0]) then None
    else if s[0] == '"' then Some(([], s[1..]))
    else if s[0] == '\\' then
      if |s| < 2 || Unescape(s[1]).None? then None
      else
        var rest := ReadString(s[2..]);
        if rest.None? then None else Some(([Unescape(s[1]).value] + rest.value.0, rest.value.1))
    else
      var rest := ReadString(s[1..]);
      if rest.None? then None else Some(([s[0]] + rest.value.0, rest.value.1))
  }

  function ReadValue(s: Bytes): (r: Option<(Json, Bytes)>)
    ensures r.Some? ==> |r.value.1| < |s|
    decreases |s|, 0
  {
    if s == [] then None
    else if s[0] == '"' then
      var text := ReadString(s[1..]);
      if text.None? then None else Some((String(text.value.0), text.value.1))
    else if s[0] == '{' then
      if |s| > 1 && s[1] == '}' then Some((Object([]), s[2..])) else ReadMembers(s[1..], [])
    else if s[0] == '[' then
      if |s| > 1 && s[1] == ']' then Some((Array([]), s[2..])) else ReadItems(s[1..], [])
    else None
  }

  function ReadMembers(s: Bytes, done: seq<Member>): (r: Option<(Json, Bytes)>)
    ensures r.Some? ==> |r.value.1| < |s|
    decreases |s|, 1
  {
    if s == [] || s[0] != '"' then None
    else
      var key := ReadString(s[1..]);
      if key.None? || key.value.1 == [] || key.value.1[0] != ':' then None
      else
        var value := ReadValue(key.value.1[1..]);
        if value.None? || value.value.1 == [] then None
        else
          var members := done + [Member(key.value.0, value.value.0)];
          var rest := value.value.1;
          if rest[0] == ',' then ReadMembers(rest[1..], members)
          else if rest[0] == '}' then Some((Object(members), rest[1..]))
          else None
  }

  function ReadItems(s: Bytes, done: seq<Json>): (r: Option<(Json, Bytes)>)
    ensures r.Some? ==> |r.value.1| < |s|
    decreases |s|, 1
  {
    var value := ReadValue(s);
    if value.None? || value.value.1 == [] then None
    else
      var items := done + [value.value.0];
      var rest := value.value.1;
      if rest[0] == ',' then ReadItems(rest[1..], items)
      else if rest[0] == ']' then Some((Array(items), rest[1..]))
      else None
  }

  // ---------- the document an element stands for ----------

  function ShownByte(c: Byte): Byte {
    if IsControl(c) && c != '\n' && c != '\r' && c != '\t' then '?' else c
  }

  /** The text with every control byte JSON has no short escape for replaced by '?'. */
  function Shown(s: Bytes): (r: Bytes)
    ensures |r| == |s|
  {
    if s == [] then [] else [ShownByte(s[0])] + Shown(s[1..])
  }

  function GroupValue(items: seq<Json>): Json {
    if |items| == 1 then items[0] else Array(items)
  }

  function ObjectMembers(groups: seq<(Bytes, seq<Json>)>): (r: seq<Member>)
    ensures |r| == |groups| && forall i | 0 <= i < |r| :: r[i] == Member(Shown(groups[i].0), GroupValue(groups[i].1))
  {
    seq(|groups|, i requires 0 <= i < |groups| => Member(Shown(groups[i].0), GroupValue(groups[i].1)))
  }

  /** The value an element stands for: its text, or one member per distinct child name. */
  function Value(node: XmlNode): Json
    decreases node, 1
  {
    if node.children == [] then String(Shown(node.text)) else Object(ObjectMembers(GroupAll(ValueEntries(node.children))))
  }

  function ValueEntries(children: seq<XmlNode>): seq<(Bytes, Json)>
    decreases children, 0
  {
    if children == [] then [] else [(children[0].name, Value(children[0]))] + ValueEntries(children[1..])
  }

  lemma {:induction false} ValueEntriesMap(children: seq<XmlNode>)
    ensures ValueEntries(children) == MapEntries(Value, NodeEntries(children))
  {
    hide Value;
    if children == [] {
    } else {
      ValueEntriesMap(children[1..]);
      assert NodeEntries(children)[1..] == NodeEntries(children[1..]);
    }
  }

  // ---------- reading back ----------

  /** Reading text in front of anything gives the value and leaves the rest. */
  ghost predicate Denotes(text: Bytes, value: Json) {
    forall u: Bytes :: ReadValue(text + u) == Some((value, u))
  }

  /** What a string reads as when its rest reads as rest. */
  function PutInFront(c: Byte, rest: Option<(Bytes, Bytes)>): Option<(Bytes, Bytes)> {
    if rest.None? then None else Some(([c] + rest.value.0, rest.value.1))
  }

  lemma ReadShort(e: Byte, u: Bytes)
    requires Unescape(e).Some?
    ensures ReadString(['\\', e] + u) == PutInFront(Unescape(e).value, ReadString(u))
  {
    assert (['\\', e] + u)[2..] == u;
  }

  lemma ReadPlain(c: Byte, u: Bytes)
    requires !IsControl(c) && c != '"' && c != '\\'
    ensures ReadString([c] + u) == PutInFront(c, ReadString(u))
  {
    assert ([c] + u)[1..] == u;
  }

  lemma ReadEscapedByte(c: Byte, u: Bytes)
    ensures ReadString(JsonEscapeByte(c) + u) == PutInFront(ShownByte(c), ReadString(u))
  {
    hide ReadString, PutInFront;
    match c
    case '"' => ReadShort('"', u);
    case '\\' => ReadShort('\\', u);
    case '\n' => ReadShort('n', u);
    case '\r' => ReadShort('r', u);
    case '\t' => ReadShort('t', u);
    case _ => ReadPlain(ShownByte(c), u);
  }

  lemma ReadQuote(u: Bytes)
    ensures ReadString("\"" + u) == Some(([], u))
  {
    assert ("\"" + u)[1..] == u;
  }

  lemma {:induction false} ReadEscaped(s: Bytes, u: Bytes)
    ensures ReadString(EscapeBytes(s) + ("\"" + u)) == Some((Shown(s), u))
  {
    hide ReadString, JsonEscapeByte, ShownByte;
    var end := "\"" + u;
    if s == [] {
      ReadQuote(u);
      assert EscapeBytes(s) + end == end;
    } else {
      Regroup(JsonEscapeByte(s[0]), EscapeBytes(s[1..]), end);
      ReadEscapedByte(s[0], EscapeBytes(s[1..]) + end);
      ReadEscaped(s[1..], u);
    }
  }

  lemma ReadJsonString(s: Bytes, u: Bytes)
    ensures JsonEscape(s) + u != [] && (JsonEscape(s) + u)[0] == '"'
    ensures ReadString((JsonEscape(s) + u)[1..]) == Some((Shown(s), u))
  {
    hide ReadString;
    assert (JsonEscape(s) + u)[1..] == EscapeBytes(s) + ("\"" + u);
    ReadEscaped(s, u);
  }

  lemma StringDenotes(s: Bytes)
    ensures Denotes(JsonEscape(s), String(Shown(s)))
  {
    hide ReadString, JsonEscape;
    forall u: Bytes ensures ReadValue(JsonEscape(s) + u) == Some((String(Shown(s)), u)) {
      ReadJsonString(s, u);
    }
  }

  ghost predicate AllDenote(texts: seq<Bytes>, values: seq<Json>) {
    |texts| == |values| && forall i | 0 <= i < |texts| :: Denotes(texts[i], values[i])
  }

  /** A value's text never starts like the end of a list. */
  lemma DenotesStart(text: Bytes, value: Json)
    requires Denotes(text, value)
    ensures text != [] && (text[0] == '"' || text[0] == '{' || text[0] == '[')
  {
    assert ReadValue(text + []) == Some((value, []));
    assert text + [] == text;
  }

  lemma ReadOneItem(text: Bytes, value: Json, c: Byte, u: Bytes, done: seq<Json>)
    requires Denotes(text, value)
    ensures c == ',' ==> ReadItems(text + ([c] + u), done) == ReadItems(u, done + [value])
    ensures c == ']' ==> ReadItems(text + ([c] + u), done) == Some((Array(done + [value]), u))
  {
    hide ReadValue;
    assert ReadValue(text + ([c] + u)) == Some((value, [c] + u));
    assert ([c] + u)[1..] == u;
  }

  lemma {:induction false} ReadJoinedItems(texts: seq<Bytes>, values: seq<Json>, u: Bytes, done: seq<Json>)
    requires AllDenote(texts, values) && texts != []
    ensures ReadItems(Join(texts, ",") + ("]" + u), done) == Some((Array(done + values), u))
  {
    hide ReadItems, Denotes;
    if |texts| == 1 {
      ReadOneItem(texts[0], values[0], ']', u, done);
      assert done + values == done + [values[0]];
    } else {
      var rest := Join(texts[1..], ",") + ("]" + u);
      assert Join(texts, ",") + ("]" + u) == texts[0] + ("," + rest);
      ReadOneItem(texts[0], values[0], ',', rest, done);
      ReadJoinedItems(texts[1..], values[1..], u, done + [values[0]]);
      assert done + [values[0]] + values[1..] == done + values;
    }
  }

  lemma OpenList(inner: Bytes)
    requires inner != [] && inner[0] != ']'
    ensures ReadValue("[" + inner) == ReadItems(inner, [])
  {
    hide ReadItems;
    assert ("[" + inner)[1..] == inner;
  }

  lemma JoinStart(texts: seq<Bytes>, values: seq<Json>)
    requires AllDenote(texts, values) && texts != []
    ensures Join(texts, ",") != [] && Join(texts, ",")[0] != ']'
  {
    hide Denotes;
    DenotesStart(texts[0], values[0]);
  }

  lemma GroupDenotes(texts: seq<Bytes>, values: seq<Json>)
    requires AllDenote(texts, values) && texts != []
    ensures Denotes(GroupText(texts), GroupValue(values))
  {
    hide ReadItems, Join;
    if |texts| != 1 {
      forall u: Bytes ensures ReadValue(GroupText(texts) + u) == Some((Array(values), u)) {
        var inner := Join(texts, ",") + ("]" + u);
        assert GroupText(texts) + u == "[" + inner;
        ReadJoinedItems(texts, values, u, []);
        JoinStart(texts, values);
        OpenList(inner);
        assert [] + values == values;
      }
    }
  }

  lemma ReadOneMember(name: Bytes, text: Bytes, value: Json, c: Byte, u: Bytes, done: seq<Member>)
    requires Denotes(text, value)
    ensures var m := Member(Shown(name), value);
            && (c == ',' ==> ReadMembers(JsonEscape(name) + (":" + text) + ([c] + u), done) == ReadMembers(u, done + [m]))
            && (c == '}' ==> ReadMembers(JsonEscape(name) + (":" + text) + ([c] + u), done) == Some((Object(done + [m]), u)))
  {
    hide ReadValue, ReadString, JsonEscape;
    var tail := text + ([c] + u);
    assert JsonEscape(name) + (":" + text) + ([c] + u) == JsonEscape(name) + (":" + tail);
    ReadJsonString(name, ":" + tail);
    assert (":" + tail)[1..] == tail;
    assert ReadValue(tail) == Some((value, [c] + u));
    assert ([c] + u)[1..] == u;
  }

  /** The groups' texts denote the groups' values, name by name. */
  ghost predicate GroupsDenote(texts: seq<(Bytes, seq<Bytes>)>, values: seq<(Bytes, seq<Json>)>) {
    && |texts| == |values|
    && forall i | 0 <= i < |texts| :: texts[i].0 == values[i].0 && Denotes(GroupText(texts[i].1), GroupValue(values[i].1))
  }

  lemma JoinOne(parts: seq<Bytes>)
    requires |parts| == 1
    ensures Join(parts, ",") == parts[0]
  {
  }

  lemma JoinCons(parts: seq<Bytes>, tail: Bytes)
    requires |parts| > 1
    ensures Join(parts, ",") + tail == parts[0] + ("," + (Join(parts[1..], ",") + tail))
  {
  }

  lemma {:induction false} ReadJoinedMembers(texts: seq<(Bytes, seq<Bytes>)>, values: seq<(Bytes, seq<Json>)>, u: Bytes, done: seq<Member>)
    requires GroupsDenote(texts, values) && texts != []
    ensures ReadMembers(Join(MemberTexts(texts), ",") + ("}" + u), done) == Some((Object(done + ObjectMembers(values)), u))
  {
    hide ReadMembers, Denotes, JsonEscape, GroupText, GroupValue, Shown, Join;
    var m := Member(Shown(texts[0].0), GroupValue(values[0].1));
    if |texts| == 1 {
      JoinOne(MemberTexts(texts));
      ReadOneMember(texts[0].0, GroupText(texts[0].1), GroupValue(values[0].1), '}', u, done);
      assert done + ObjectMembers(values) == done + [m];
    } else {
      var rest := Join(MemberTexts(texts[1..]), ",") + ("}" + u);
      assert MemberTexts(texts)[1..] == MemberTexts(texts[1..]);
      JoinCons(MemberTexts(texts), "}" + u);
      ReadOneMember(texts[0].0, GroupText(texts[0].1), GroupValue(values[0].1), ',', rest, done);
      ReadJoinedMembers(texts[1..], values[1..], u, done + [m]);
      assert ObjectMembers(values)[1..] == ObjectMembers(values[1..]);
      assert done + [m] + ObjectMembers(values[1..]) == done + ObjectMembers(values);
    }
  }

  lemma JoinMembersStart(texts: seq<(Bytes, seq<Bytes>)>)
    requires texts != []
    ensures Join(MemberTexts(texts), ",") != [] && Join(MemberTexts(texts), ",")[0] == '"'
  {
    hide GroupText;
    assert MemberText(texts[0])[0] == JsonEscape(texts[0].0)[0] == '"';
  }

  lemma ObjectDenotes(texts: seq<(Bytes, seq<Bytes>)>, values: seq<(Bytes, seq<Json>)>)
    requires GroupsDenote(texts, values) && texts != []
    ensures Denotes(ObjectText(texts), Object(ObjectMembers(values)))
  {
    hide ReadMembers, Join, GroupText, JsonEscape, GroupsDenote;
    forall u: Bytes ensures ReadValue(ObjectText(texts) + u) == Some((Object(ObjectMembers(values)), u)) {
      var inner := Join(MemberTexts(texts), ",") + ("}" + u);
      assert ObjectText(texts) + u == "{" + inner;
      ReadJoinedMembers(texts, values, u, []);
      JoinMembersStart(texts);
      assert inner[0] == Join(MemberTexts(texts), ",")[0];
      assert ("{" + inner)[1..] == inner;
      assert [] + ObjectMembers(values) == ObjectMembers(values);
    }
  }

  lemma {:induction false} GroupsOfNodes(node: XmlNode, groups: seq<(Bytes, seq<XmlNode>)>)
    requires AllAmong(groups, node.children) && Ascending(groups)
    requires forall c | c in node.children :: Denotes(XmlToJson(c), Value(c))
    ensures GroupsDenote(MapGroups(XmlToJson, groups), MapGroups(Value, groups))
  {
    hide XmlToJson, Value, Denotes, GroupText, GroupValue, LexLess;
    forall i | 0 <= i < |groups|
      ensures Denotes(GroupText(MapItems(XmlToJson, groups[i].1)), GroupValue(MapItems(Value, groups[i].1)))
    {
      GroupDenotes(MapItems(XmlToJson, groups[i].1), MapItems(Value, groups[i].1));
    }
  }

  lemma {:induction false} AllGrouped(children: seq<XmlNode>, n: nat)
    requires n <= |children|
    ensures AllAmong(GroupAll(NodeEntries(children[..n])), children)
    ensures n > 0 ==> GroupAll(NodeEntries(children[..n])) != []
  {
    hide AddTo;
    if n == 0 {
    } else {
      AllGrouped(children, n - 1);
      assert NodeEntries(children[..n])[..n - 1] == NodeEntries(children[..n - 1]);
      AddToAmong(GroupAll(NodeEntries(children[..n - 1])), children[n - 1].name, children[n - 1], children);
      GroupAllMeaning(NodeEntries(children[..n - 1]), []);
      AddToAscending(GroupAll(NodeEntries(children[..n - 1])), children[n - 1].name, children[n - 1]);
    }
  }

  /** XmlToJson always writes grammatical JSON, and reading it gives the value the element stands for. */
  lemma {:induction false} XmlToJsonReads(node: XmlNode)
    ensures Denotes(XmlToJson(node), Value(node))
    decreases node
  {
    hide JsonEscape, Denotes, GroupAll, ObjectText, ObjectMembers, GroupsDenote, AllAmong, Ascending;
    if node.children == [] {
      StringDenotes(node.text);
    } else {
      var groups := GroupAll(NodeEntries(node.children));
      forall c | c in node.children ensures Denotes(XmlToJson(c), Value(c)) {
        XmlToJsonReads(c);
      }
      AllGrouped(node.children, |node.children|);
      assert node.children[..|node.children|] == node.children;
      GroupAllMeaning(NodeEntries(node.children), []);
      GroupsOfNodes(node, groups);
      TextEntriesMap(node.children);
      ValueEntriesMap(node.children);
      MapGroupAll(XmlToJson, NodeEntries(node.children));
      MapGroupAll(Value, NodeEntries(node.children));
      ObjectDenotes(MapGroups(XmlToJson, groups), MapGroups(Value, groups));
    }
  }

  // ---------- the object's members ----------

  lemma ValueOfParent(node: XmlNode)
    requires node.children != []
    ensures Value(node) == Object(ObjectMembers(GroupAll(ValueEntries(node.children))))
  {
  }

  /** The children with a name, in document order. */
  function ChildrenNamed(children: seq<XmlNode>, name: Bytes): seq<XmlNode> {
    if children == [] then []
    else (if children[0].name == name then [children[0]] else []) + ChildrenNamed(children[1..], name)
  }

  lemma {:induction false} ItemsOfCons<T>(entry: (Bytes, T), entries: seq<(Bytes, T)>, name: Bytes)
    ensures ItemsOf([entry] + entries, name) == (if entry.0 == name then [entry.1] else []) + ItemsOf(entries, name)
  {
    var all := [entry] + entries;
    if entries == [] {
      assert all[..0] == [];
    } else {
      ItemsOfCons(entry, entries[..|entries| - 1], name);
      assert all[..|all| - 1] == [entry] + entries[..|entries| - 1];
    }
  }

  lemma {:induction false} ValuesNamed(children: seq<XmlNode>, name: Bytes)
    ensures ItemsOf(ValueEntries(children), name) == MapItems(Value, ChildrenNamed(children, name))
  {
    hide Value;
    if children == [] {
    } else {
      ValuesNamed(children[1..], name);
      ItemsOfCons((children[0].name, Value(children[0])), ValueEntries(children[1..]), name);
    }
  }

  /**
   * The members of an element with children: one per distinct child name, in name order, bound to
   * the child's value or, when several children share the name, to their values in document order.
   */
  lemma MembersByName(node: XmlNode, name: Bytes)
    requires node.children != []
    ensures var groups := GroupAll(ValueEntries(node.children));
            && Ascending(groups)
            && Value(node) == Object(ObjectMembers(groups))
            && GroupFor(groups, name) == MapItems(Value, ChildrenNamed(node.children, name))
  {
    hide Value, ObjectMembers, Ascending, GroupFor, LexLess;
    GroupAllMeaning(ValueEntries(node.children), name);
    ValuesNamed(node.children, name);
    ValueOfParent(node);
  }

  // ---------- when keys repeat ----------

  /** The bytes that are shown as '?'. */
  predicate Blurred(c: Byte) {
    c == '?' || (IsControl(c) && c != '\n' && c != '\r' && c != '\t')
  }

  /** The texts differ at most where both hold a byte shown as '?'. */
  predicate ShownAlike(a: Bytes, b: Bytes) {
    |a| == |b| && forall i | 0 <= i < |a| :: a[i] == b[i] || (Blurred(a[i]) && Blurred(b[i]))
  }

  lemma {:induction false} ShownAt(s: Bytes, i: nat)
    requires i < |s|
    ensures Shown(s)[i] == ShownByte(s[i])
  {
    if i == 0 {
    } else {
      ShownAt(s[1..], i - 1);
    }
  }

  lemma ShownEqual(a: Bytes, b: Bytes)
    ensures Shown(a) == Shown(b) <==> ShownAlike(a, b)
  {
    hide Shown;
    if |a| == |b| {
      forall i | 0 <= i < |a| ensures Shown(a)[i] == Shown(b)[i] <==> a[i] == b[i] || (Blurred(a[i]) && Blurred(b[i])) {
        ShownAt(a, i);
        ShownAt(b, i);
      }
    }
  }

  predicate DistinctKeys(members: seq<Member>) {
    forall i, j | 0 <= i < j < |members| :: members[i].key != members[j].key
  }

  /** No two different child names are shown alike. */
  predicate NamesStayApart(children: seq<XmlNode>) {
    forall a, b | a in children && b in children && a.name != b.name :: !ShownAlike(a.name, b.name)
  }

  predicate Listed<T>(groups: seq<(Bytes, seq<T>)>, name: Bytes) {
    exists i | 0 <= i < |groups| :: groups[i].0 == name
  }

  predicate HasChild(children: seq<XmlNode>, name: Bytes) {
    exists c | c in children :: c.name == name
  }

  lemma {:induction false} GroupListed<T>(groups: seq<(Bytes, seq<T>)>, name: Bytes)
    requires Ascending(groups)
    ensures GroupFor(groups, name) != [] <==> Listed(groups, name)
  {
    hide LexLess;
    if groups == [] {
    } else {
      AscendingTail(groups);
      GroupListed(groups[1..], name);
      if groups[0].0 != name && Listed(groups, name) {
        var i :| 0 <= i < |groups| && groups[i].0 == name;
        assert groups[1..][i - 1] == groups[i];
      }
    }
  }

  lemma {:induction false} NamedChild(children: seq<XmlNode>, name: Bytes)
    ensures ChildrenNamed(children, name) != [] <==> HasChild(children, name)
  {
    if children == [] {
    } else {
      NamedChild(children[1..], name);
      assert children == [children[0]] + children[1..];
    }
  }

  /** The groups' names are the children's names. */
  lemma GroupNames(node: XmlNode, name: Bytes)
    requires node.children != []
    ensures Listed(GroupAll(ValueEntries(node.children)), name) <==> HasChild(node.children, name)
  {
    hide Value, ObjectMembers, GroupFor, LexLess, GroupAll, ValueEntries, Ascending, ChildrenNamed, Listed, HasChild;
    MembersByName(node, name);
    GroupListed(GroupAll(ValueEntries(node.children)), name);
    NamedChild(node.children, name);
  }

  lemma GroupKeysDistinct(groups: seq<(Bytes, seq<Json>)>)
    requires Ascending(groups)
    ensures DistinctKeys(ObjectMembers(groups)) <==>
            forall i, j | 0 <= i < |groups| && 0 <= j < |groups| && groups[i].0 != groups[j].0 :: !ShownAlike(groups[i].0, groups[j].0)
  {
    hide LexLess, GroupValue, Shown, ShownAlike;
    var members := ObjectMembers(groups);
    forall i, j | 0 <= i < j < |groups|
      ensures groups[i].0 != groups[j].0
      ensures members[i].key == members[j].key <==> ShownAlike(groups[i].0, groups[j].0)
      ensures ShownAlike(groups[i].0, groups[j].0) <==> ShownAlike(groups[j].0, groups[i].0)
    {
      LexOrder(groups[i].0, groups[j].0, groups[i].0);
      ShownEqual(groups[i].0, groups[j].0);
      ShownEqual(groups[j].0, groups[i].0);
    }
  }

  lemma NamesApartInGroups(groups: seq<(Bytes, seq<Json>)>, children: seq<XmlNode>)
    requires forall name :: Listed(groups, name) <==> HasChild(children, name)
    ensures NamesStayApart(children) <==>
            forall i, j | 0 <= i < |groups| && 0 <= j < |groups| && groups[i].0 != groups[j].0 :: !ShownAlike(groups[i].0, groups[j].0)
  {
    hide ShownAlike;
    forall c | c in children ensures Listed(groups, c.name) {
      assert HasChild(children, c.name);
    }
    forall i | 0 <= i < |groups| ensures HasChild(children, groups[i].0) {
      assert Listed(groups, groups[i].0);
    }
  }

  /**
   * The object written for a node has distinct keys exactly when no two different child names
   * agree outside positions where both hold a '?' or a control byte without a short escape.
   */
  lemma KeysDistinctExactly(node: XmlNode)
    requires node.children != []
    ensures Value(node).Object?
    ensures DistinctKeys(Value(node).members) <==> NamesStayApart(node.children)
  {
    hide Value, ObjectMembers, GroupFor, LexLess, GroupAll, ValueEntries, Ascending, ShownAlike, DistinctKeys;
    var groups := GroupAll(ValueEntries(node.children));
    MembersByName(node, []);
    GroupKeysDistinct(groups);
    forall name ensures Listed(groups, name) <==> HasChild(node.children, name) {
      GroupNames(node, name);
    }
    NamesApartInGroups(groups, node.children);
  }

  lemma TwoEntries(x: (Bytes, Json), y: (Bytes, Json))
    requires LexLess(x.0, y.0) && x.0 != y.0 && !LexLess(y.0, x.0)
    ensures GroupAll([x, y]) == [(x.0, [x.1]), (y.0, [y.1])]
  {
    var none: seq<(Bytes, Json)> := [];
    assert [x, y][..1] == [x] && [x][..0] == none;
    var one := [(x.0, [x.1])];
    assert GroupAll([x]) == one;
    assert one[1..] == [];
    assert GroupAll([x, y]) == AddTo(one, y.0, y.1) == [one[0]] + AddTo(one[1..], y.0, y.1);
  }

  lemma TwoChildren(a: XmlNode, b: XmlNode)
    ensures ValueEntries([a, b]) == [(a.name, Value(a)), (b.name, Value(b))]
  {
    hide Value;
    assert [a, b][1..] == [b] && [b][1..] == [];
    assert ValueEntries([b]) == [(b.name, Value(b))];
  }

  function Leaf(name: Bytes): XmlRoundTrip.Element {
    XmlRoundTrip.Element([], name, [], true, [], [], [], [])
  }

  /** An element with two empty children, named by the control bytes 1 and 2. */
  const COLLIDING := XmlRoundTrip.Element([], "n", [], false, [], [], [Leaf([1 as char]), Leaf([2 as char])], [])

  lemma CollidingWellFormed()
    ensures XmlRoundTrip.WellFormed(COLLIDING)
  {
    var a, b := Leaf([1 as char]), Leaf([2 as char]);
    assert XmlRoundTrip.WellFormed(a) && XmlRoundTrip.WellFormed(b);
    assert [a, b][1..] == [b] && [b][1..] == [];
    assert XmlRoundTrip.AllWellFormed([b]);
    assert XmlRoundTrip.AllWellFormed([a, b]);
  }

  lemma CollidingTree()
    ensures XmlRoundTrip.Tree(COLLIDING) == XmlNode("n", [], [XmlNode([1 as char], [], []), XmlNode([2 as char], [], [])])
  {
    var a, b := Leaf([1 as char]), Leaf([2 as char]);
    assert [a, b][1..] == [b] && [b][1..] == [];
    assert XmlRoundTrip.Trees([]) == [];
    assert XmlRoundTrip.Trees([b]) == [XmlRoundTrip.Tree(b)];
    assert XmlRoundTrip.Trees([a, b]) == [XmlRoundTrip.Tree(a)] + XmlRoundTrip.Trees([b]);
  }

  lemma CollidingValue()
    ensures Value(XmlNode("n", [], [XmlNode([1 as char], [], []), XmlNode([2 as char], [], [])])) ==
            Object([Member("?", String([])), Member("?", String([]))])
  {
    var a, b := XmlNode([1 as char], [], []), XmlNode([2 as char], [], []);
    assert Value(a) == String([]) && Value(b) == String([]);
    assert LexLess(a.name, b.name) && !LexLess(b.name, a.name);
    assert Shown(a.name) == "?" && Shown(b.name) == "?";
    hide GroupAll, ValueEntries, Value, Shown, LexLess;
    TwoEntries((a.name, Value(a)), (b.name, Value(b)));
    TwoChildren(a, b);
    ValueOfParent(XmlNode("n", [], [a, b]));
  }

  /** Such a document parses, and the object written for it holds the same key twice. */
  lemma RepeatedKey()
    ensures Parse(XmlRoundTrip.Print(COLLIDING)).Ok?
    ensures var node := Parse(XmlRoundTrip.Print(COLLIDING)).value;
            Value(node) == Object([Member("?", String([])), Member("?", String([]))])
  {
    hide Parse, XmlRoundTrip.Print, Value;
    CollidingWellFormed();
    XmlRoundTrip.ParsePrint([], COLLIDING, []);
    assert XmlRoundTrip.PrintGap([]) + (XmlRoundTrip.Print(COLLIDING) + []) == XmlRoundTrip.Print(COLLIDING);
    CollidingTree();
    CollidingValue();
  }
}
