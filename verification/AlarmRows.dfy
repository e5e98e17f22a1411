/**
 * From a DescribeAlarms document to alarm rows (src/alerts_table.cpp).
 */
module AlarmRows {
  import opened Strings
  import opened JsonTrees
  import opened XmlGrammar
  import opened XmlJson
  import opened JsonReading

  // ---------- lookups ----------

  function ChildIn(children: seq<XmlNode>, name: Bytes): Option<XmlNode> {
    if children == [] then None else if children[0].name == name then Some(children[0]) else ChildIn(children[1..], name)
  }

  function Child(node: XmlNode, name: Bytes): Option<XmlNode> {
    ChildIn(node.children, name)
  }

  function ChildText(node: XmlNode, name: Bytes): Bytes {
    if Child(node, name).Some? then Child(node, name).value.text else []
  }

  function Descendant(node: XmlNode, name: Bytes): Option<XmlNode>
    decreases node, 1
  {
    if node.name == name then Some(node) else DescendantIn(node.children, name)
  }

  function DescendantIn(children: seq<XmlNode>, name: Bytes): Option<XmlNode>
    decreases children, 0
  {
    if children == [] then None
    else
      var found := Descendant(children[0], name);
      if found.Some? then found else DescendantIn(children[1..], name)
  }

  /** A tree's nodes in document order. */
  function Preorder(node: XmlNode): seq<XmlNode>
    decreases node, 1
  {
    [node] + PreorderAll(node.children)
  }

  function PreorderAll(children: seq<XmlNode>): seq<XmlNode>
    decreases children, 0
  {
    if children == [] then [] else Preorder(children[0]) + PreorderAll(children[1..])
  }

  lemma {:induction false} ChildInAppend(a: seq<XmlNode>, b: seq<XmlNode>, name: Bytes)
    ensures ChildIn(a + b, name) == if ChildIn(a, name).Some? then ChildIn(a, name) else ChildIn(b, name)
  {
    if a == [] {
      assert a + b == b;
    } else {
      assert (a + b)[1..] == a[1..] + b;
      ChildInAppend(a[1..], b, name);
    }
  }

  /** The recursive search finds the first element of that name in document order. */
  lemma {:induction false} DescendantIsFirst(node: XmlNode, name: Bytes)
    ensures Descendant(node, name) == ChildIn(Preorder(node), name)
    decreases node, 1
  {
    DescendantInIsFirst(node.children, name);
    assert Preorder(node)[1..] == PreorderAll(node.children);
  }

  lemma {:induction false} DescendantInIsFirst(children: seq<XmlNode>, name: Bytes)
    ensures DescendantIn(children, name) == ChildIn(PreorderAll(children), name)
    decreases children, 0
  {
    if children == [] {
    } else {
      DescendantIsFirst(children[0], name);
      DescendantInIsFirst(children[1..], name);
      ChildInAppend(Preorder(children[0]), PreorderAll(children[1..]), name);
    }
  }

  // ---------- one alarm ----------

  datatype AlarmRow = AlarmRow(
    alarmArn: Bytes,
    alarmName: Bytes,
    alarmType: Bytes,
    status: Bytes,
    stateTransitionedAt: Bytes,
    stateUpdatedAt: Bytes,
    description: Bytes,
    reason: Bytes,
    reasonData: Bytes,
    actionsEnabled: Option<bool>,
    alarmActions: seq<Bytes>,
    metricNamespace: Bytes,
    metricName: Bytes,
    dimensions: Bytes,
    configuration: Bytes)

  function MemberTextsIn(children: seq<XmlNode>): seq<Bytes> {
    if children == [] then []
    else (if children[0].name == "member" && children[0].text != [] then [children[0].text] else []) + MemberTextsIn(children[1..])
  }

  function ContainerTexts(node: XmlNode, container: Bytes): seq<Bytes> {
    if Child(node, container).None? then [] else MemberTextsIn(Child(node, container).value.children)
  }

  /** The named dimensions, each as a key and the text of its value. */
  function DimensionTexts(members: seq<XmlNode>): seq<(Bytes, seq<Bytes>)> {
    if members == [] then []
    else if members[0].name == "member" && ChildText(members[0], "Name") != [] then
      [(ChildText(members[0], "Name"), [JsonEscape(ChildText(members[0], "Value"))])] + DimensionTexts(members[1..])
    else DimensionTexts(members[1..])
  }

  function DimensionValues(members: seq<XmlNode>): seq<(Bytes, seq<Json>)> {
    if members == [] then []
    else if members[0].name == "member" && ChildText(members[0], "Name") != [] then
      [(ChildText(members[0], "Name"), [String(Shown(ChildText(members[0], "Value")))])] + DimensionValues(members[1..])
    else DimensionValues(members[1..])
  }

  /** Empty without a Dimensions element, else an object of strings. */
  function ParseDimensions(alarm: XmlNode): Bytes {
    if Child(alarm, "Dimensions").None? then [] else ObjectText(DimensionTexts(Child(alarm, "Dimensions").value.children))
  }

  lemma {:induction false} DimensionsDenote(members: seq<XmlNode>)
    ensures GroupsDenote(DimensionTexts(members), DimensionValues(members))
  {
    hide JsonEscape, Denotes, Shown, ChildText;
    if members == [] {
    } else {
      DimensionsDenote(members[1..]);
      StringDenotes(ChildText(members[0], "Value"));
    }
  }

  lemma EmptyObject()
    ensures Denotes("{}", Object([]))
  {
    forall u: Bytes ensures ReadValue("{}" + u) == Some((Object([]), u)) {
      assert ("{}" + u)[2..] == u;
    }
  }

  /** The dimensions column is always a grammatical JSON object holding the named dimensions in order. */
  lemma ParseDimensionsReads(alarm: XmlNode)
    requires Child(alarm, "Dimensions").Some?
    ensures Denotes(ParseDimensions(alarm), Object(ObjectMembers(DimensionValues(Child(alarm, "Dimensions").value.children))))
  {
    hide JsonEscape, Denotes, Shown, ChildText, GroupText, GroupValue;
    var members := Child(alarm, "Dimensions").value.children;
    DimensionsDenote(members);
    if DimensionTexts(members) == [] {
      EmptyObject();
      assert ObjectText([]) == "{}";
      assert ObjectMembers(DimensionValues(members)) == [];
    } else {
      ObjectDenotes(DimensionTexts(members), DimensionValues(members));
    }
  }

  function LowerByte(c: Byte): Byte {
    if 'A' <= c <= 'Z' then (c as int + 32) as char else c
  }

  function Lower(s: Bytes): Bytes {
    if s == [] then [] else [LowerByte(s[0])] + Lower(s[1..])
  }

  function ParseAlarm(node: XmlNode, defaultType: Bytes): AlarmRow {
    var alarmType := ChildText(node, "AlarmType");
    var enabled := Lower(ChildText(node, "ActionsEnabled"));
    AlarmRow(
      ChildText(node, "AlarmArn"),
      ChildText(node, "AlarmName"),
      if alarmType == [] then defaultType else alarmType,
      ChildText(node, "StateValue"),
      ChildText(node, "StateTransitionedTimestamp"),
      ChildText(node, "StateUpdatedTimestamp"),
      ChildText(node, "AlarmDescription"),
      ChildText(node, "StateReason"),
      ChildText(node, "StateReasonData"),
      if enabled == [] then None else Some(enabled == "true"),
      ContainerTexts(node, "AlarmActions"),
      ChildText(node, "Namespace"),
      ChildText(node, "MetricName"),
      ParseDimensions(node),
      XmlToJson(node))
  }

  // ---------- one page ----------

  const ALARM: Bytes := "ALARM"
  const INSUFFICIENT_DATA: Bytes := "INSUFFICIENT_DATA"

  predicate Wanted(row: AlarmRow, state: Bytes) {
    row.status == state && (row.status == ALARM || row.status == INSUFFICIENT_DATA)
  }

  function RowsIn(members: seq<XmlNode>, alarmType: Bytes, state: Bytes): seq<AlarmRow> {
    if members == [] then []
    else if members[0].name == "member" && Wanted(ParseAlarm(members[0], alarmType), state) then
      [ParseAlarm(members[0], alarmType)] + RowsIn(members[1..], alarmType, state)
    else RowsIn(members[1..], alarmType, state)
  }

  function ContainerRows(root: XmlNode, container: Bytes, alarmType: Bytes, state: Bytes): seq<AlarmRow> {
    if Descendant(root, container).None? then [] else RowsIn(Descendant(root, container).value.children, alarmType, state)
  }

  /** The rows of a page: the three containers in turn, each row in the expected state. */
  function PageRows(root: XmlNode, state: Bytes): seq<AlarmRow> {
    ContainerRows(root, "MetricAlarms", "MetricAlarm", state) +
    ContainerRows(root, "CompositeAlarms", "CompositeAlarm", state) +
    ContainerRows(root, "LogAlarms", "LogAlarm", state)
  }

  function PageToken(root: XmlNode): Bytes {
    if Descendant(root, "NextToken").None? then [] else Descendant(root, "NextToken").value.text
  }

  lemma {:induction false} RowsInWanted(members: seq<XmlNode>, alarmType: Bytes, state: Bytes)
    ensures forall i | 0 <= i < |RowsIn(members, alarmType, state)| :: Wanted(RowsIn(members, alarmType, state)[i], state)
  {
    hide ParseAlarm, Wanted;
    if members == [] {
    } else {
      RowsInWanted(members[1..], alarmType, state);
    }
  }

  lemma ContainerWanted(root: XmlNode, container: Bytes, alarmType: Bytes, state: Bytes)
    ensures forall i | 0 <= i < |ContainerRows(root, container, alarmType, state)| ::
              Wanted(ContainerRows(root, container, alarmType, state)[i], state)
  {
    hide RowsIn, Wanted, Descendant;
    if Descendant(root, container).Some? {
      RowsInWanted(Descendant(root, container).value.children, alarmType, state);
    }
  }

  lemma PageRowsWanted(root: XmlNode, state: Bytes)
    ensures forall i | 0 <= i < |PageRows(root, state)| :: Wanted(PageRows(root, state)[i], state)
  {
    hide RowsIn, Wanted, Descendant;
    ContainerWanted(root, "MetricAlarms", "MetricAlarm", state);
    ContainerWanted(root, "CompositeAlarms", "CompositeAlarm", state);
    ContainerWanted(root, "LogAlarms", "LogAlarm", state);
  }
}
