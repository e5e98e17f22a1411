/**
 * What read_cloudwatch_alerts shows of a DescribeAlarms document (src/alerts_table.cpp): which elements
 * become rows, which element fills which column, which rows are the same alarm and when a page is followed by another.
 */
module AlarmColumns {
  import opened Strings
  import opened XmlGrammar
  import opened XmlJson
  import opened AlarmRows
  import opened AlarmScan
  import opened TokenSets

  // ---------- lookups ----------

  /** The first of the nodes with that name. */
  ghost predicate IsFirst(nodes: seq<XmlNode>, name: Bytes, node: XmlNode) {
    exists k | 0 <= k < |nodes| :: nodes[k] == node && node.name == name && forall j | 0 <= j < k :: nodes[j].name != name
  }

  lemma {:induction false} ChildInIsFirst(nodes: seq<XmlNode>, name: Bytes)
    ensures ChildIn(nodes, name).None? <==> forall k | 0 <= k < |nodes| :: nodes[k].name != name
    ensures ChildIn(nodes, name).Some? ==> IsFirst(nodes, name, ChildIn(nodes, name).value)
  {
    if nodes == [] {
    } else if nodes[0].name == name {
      assert IsFirst(nodes, name, nodes[0]);
    } else {
      var rest := nodes[1..];
      ChildInIsFirst(rest, name);
      assert forall k | 0 <= k < |rest| :: nodes[k + 1] == rest[k];
      if ChildIn(rest, name).Some? {
        var node := ChildIn(rest, name).value;
        var k :| 0 <= k < |rest| && rest[k] == node && node.name == name && forall j | 0 <= j < k :: rest[j].name != name;
        assert nodes[k + 1] == node;
        forall j | 0 <= j < k + 1 ensures nodes[j].name != name {
          assert j > 0 ==> nodes[j] == rest[j - 1];
        }
      }
    }
  }

  /** The text of the node's first child of that name, or nothing without one. */
  ghost predicate ShowsText(node: XmlNode, name: Bytes, text: Bytes) {
    if forall k | 0 <= k < |node.children| :: node.children[k].name != name then text == []
    else exists child :: IsFirst(node.children, name, child) && text == child.text
  }

  lemma ChildTextShown(node: XmlNode, name: Bytes)
    ensures ShowsText(node, name, ChildText(node, name))
  {
    hide IsFirst;
    ChildInIsFirst(node.children, name);
  }

  // ---------- the columns of one alarm ----------

  /** The columns that name the alarm. */
  ghost predicate NamesShown(node: XmlNode, row: AlarmRow) {
    && ShowsText(node, "AlarmArn", row.alarmArn)
    && ShowsText(node, "AlarmName", row.alarmName)
    && ShowsText(node, "AlarmDescription", row.description)
    && ShowsText(node, "Namespace", row.metricNamespace)
    && ShowsText(node, "MetricName", row.metricName)
  }

  /** The columns of its state. */
  ghost predicate StateShown(node: XmlNode, row: AlarmRow) {
    && ShowsText(node, "StateValue", row.status)
    && ShowsText(node, "StateReason", row.reason)
    && ShowsText(node, "StateReasonData", row.reasonData)
    && ShowsText(node, "StateTransitionedTimestamp", row.stateTransitionedAt)
    && ShowsText(node, "StateUpdatedTimestamp", row.stateUpdatedAt)
  }

  /** Each of these columns holds the text of its own element. */
  lemma ColumnsShown(node: XmlNode, defaultType: Bytes)
    ensures NamesShown(node, ParseAlarm(node, defaultType)) && StateShown(node, ParseAlarm(node, defaultType))
  {
    hide ShowsText, ChildText, Lower, ContainerTexts, ParseDimensions;
    ChildTextShown(node, "AlarmArn");
    ChildTextShown(node, "AlarmName");
    ChildTextShown(node, "StateValue");
    ChildTextShown(node, "StateTransitionedTimestamp");
    ChildTextShown(node, "StateUpdatedTimestamp");
    ChildTextShown(node, "AlarmDescription");
    ChildTextShown(node, "StateReason");
    ChildTextShown(node, "StateReasonData");
    ChildTextShown(node, "Namespace");
    ChildTextShown(node, "MetricName");
  }

  /** The actions and the dimensions come from their own elements, the configuration is the whole alarm. */
  lemma ListsShown(node: XmlNode, defaultType: Bytes)
    ensures var row := ParseAlarm(node, defaultType);
            && row.alarmActions == (if Child(node, "AlarmActions").None? then [] else MemberTextsIn(Child(node, "AlarmActions").value.children))
            && row.dimensions == ParseDimensions(node) && row.configuration == XmlToJson(node)
  {
    hide ChildText, Lower, ParseDimensions, MemberTextsIn;
  }

  /** The words are the same but for the case of their letters, the second being in lower case. */
  predicate SameWord(a: Bytes, lower: Bytes) {
    |a| == |lower| && forall i | 0 <= i < |a| :: a[i] == lower[i] || ('A' <= a[i] <= 'Z' && a[i] as int + 32 == lower[i] as int)
  }

  lemma {:induction false} LowerAt(s: Bytes)
    ensures |Lower(s)| == |s| && forall i | 0 <= i < |s| :: Lower(s)[i] == LowerByte(s[i])
  {
    if s == [] {
    } else {
      LowerAt(s[1..]);
    }
  }

  lemma LowerIsSameWord(a: Bytes, lower: Bytes)
    requires forall i | 0 <= i < |lower| :: 'a' <= lower[i] <= 'z'
    ensures Lower(a) == lower <==> SameWord(a, lower)
  {
    LowerAt(a);
    hide Lower;
    if SameWord(a, lower) {
      assert forall i | 0 <= i < |a| :: Lower(a)[i] == lower[i];
    }
    if Lower(a) == lower {
      assert forall i | 0 <= i < |a| :: LowerByte(a[i]) == lower[i];
    }
  }

  const ALARM_TYPE: Bytes := "AlarmType"
  const ACTIONS_ENABLED: Bytes := "ActionsEnabled"

  /** The type is the document's own or that of its container; the actions are enabled if the element says true, and NULL without it. */
  lemma TypeAndEnabled(node: XmlNode, defaultType: Bytes, own: Bytes, enabled: Bytes)
    requires own == ChildText(node, "AlarmType") && enabled == ChildText(node, "ActionsEnabled")
    ensures ShowsText(node, ALARM_TYPE, own) && ShowsText(node, ACTIONS_ENABLED, enabled)
    ensures var row := ParseAlarm(node, defaultType);
            && row.alarmType == (if own == [] then defaultType else own)
            && (row.actionsEnabled == None <==> enabled == [])
            && (enabled != [] ==> row.actionsEnabled == Some(SameWord(enabled, "true")))
  {
    ChildTextShown(node, "AlarmType");
    ChildTextShown(node, "ActionsEnabled");
    LowerIsSameWord(enabled, "true");
    LowerIsSameWord(enabled, []);
    hide ChildText, ShowsText, ContainerTexts, ParseDimensions, SameWord;
  }

  // ---------- lists taken from members ----------

  /** The positions of a list's chosen elements, rising, and all of them. */
  ghost predicate Chooses(positions: seq<nat>, chosen: seq<bool>) {
    && (forall i | 0 <= i < |positions| :: positions[i] < |chosen| && chosen[positions[i]])
    && (forall i, j | 0 <= i < j < |positions| :: positions[i] < positions[j])
    && (forall k | 0 <= k < |chosen| && chosen[k] :: exists i :: 0 <= i < |positions| && positions[i] == k)
  }

  function Chosen(chosen: seq<bool>): seq<nat> {
    if chosen == [] then [] else Chosen(chosen[..|chosen| - 1]) + if chosen[|chosen| - 1] then [|chosen| - 1] else []
  }

  lemma ChoosesLast(positions: seq<nat>, front: seq<bool>, last: bool)
    requires Chooses(positions, front)
    ensures Chooses(positions + (if last then [|front|] else []), front + [last])
  {
    var all, chosen := positions + (if last then [|front|] else []), front + [last];
    forall k | 0 <= k < |chosen| && chosen[k] ensures exists i :: 0 <= i < |all| && all[i] == k {
      if k < |front| {
        assert front[k];
        var i :| 0 <= i < |positions| && positions[i] == k;
        assert all[i] == k;
      } else {
        assert all[|positions|] == k;
      }
    }
  }

  lemma {:induction false} ChosenMeaning(chosen: seq<bool>)
    ensures Chooses(Chosen(chosen), chosen)
  {
    if chosen == [] {
    } else {
      var n := |chosen| - 1;
      ChosenMeaning(chosen[..n]);
      ChoosesLast(Chosen(chosen[..n]), chosen[..n], chosen[n]);
      assert chosen[..n] + [chosen[n]] == chosen;
      if !chosen[n] {
        assert Chosen(chosen[..n]) + [] == Chosen(chosen);
      }
    }
  }

  lemma ChosenLast(front: seq<bool>, last: bool)
    ensures Chosen(front + [last]) == Chosen(front) + if last then [|front|] else []
  {
    assert (front + [last])[..|front|] == front;
  }

  function Filled(children: seq<XmlNode>): (r: seq<bool>)
    ensures |r| == |children| && forall i | 0 <= i < |r| :: r[i] == (children[i].name == "member" && children[i].text != [])
  {
    seq(|children|, i requires 0 <= i < |children| => children[i].name == "member" && children[i].text != [])
  }

  lemma {:induction false} MemberTextsPush(front: seq<XmlNode>, last: XmlNode)
    ensures MemberTextsIn(front + [last]) == MemberTextsIn(front) + if last.name == "member" && last.text != [] then [last.text] else []
  {
    if front == [] {
      assert ([] + [last])[1..] == [];
    } else {
      assert (front + [last])[1..] == front[1..] + [last];
      MemberTextsPush(front[1..], last);
    }
  }

  /** The actions are the texts of the members that have one, in order. */
  ghost predicate TextsChosen(children: seq<XmlNode>, texts: seq<Bytes>, positions: seq<nat>) {
    |texts| == |positions| && forall i | 0 <= i < |positions| :: positions[i] < |children| && texts[i] == children[positions[i]].text
  }

  lemma NoTexts(children: seq<XmlNode>)
    requires children == []
    ensures MemberTextsIn(children) == [] && Chosen(Filled(children)) == []
  {
  }

  lemma {:induction false} MemberTextsChosen(children: seq<XmlNode>)
    ensures Chooses(Chosen(Filled(children)), Filled(children))
    ensures TextsChosen(children, MemberTextsIn(children), Chosen(Filled(children)))
  {
    hide Chooses, Chosen, MemberTextsIn;
    ChosenMeaning(Filled(children));
    if children == [] {
      assert MemberTextsIn(children) == [] && Chosen(Filled(children)) == [] by { NoTexts(children); }
    } else {
      var front, last := children[..|children| - 1], children[|children| - 1];
      assert children == front + [last];
      MemberTextsChosen(front);
      MemberTextsPush(front, last);
      assert Filled(children) == Filled(front) + [Filled(children)[|front|]];
      ChosenLast(Filled(front), Filled(children)[|front|]);
    }
  }

  /** A member becomes a row when its state is the one asked for and one of the two that alert. */
  function Alerts(members: seq<XmlNode>, state: Bytes): (r: seq<bool>)
    ensures |r| == |members|
    ensures forall i | 0 <= i < |r| ::
              r[i] == (members[i].name == "member" && ChildText(members[i], "StateValue") == state && (state == "ALARM" || state == "INSUFFICIENT_DATA"))
  {
    seq(|members|, i requires 0 <= i < |members| =>
      members[i].name == "member" && ChildText(members[i], "StateValue") == state && (state == "ALARM" || state == "INSUFFICIENT_DATA"))
  }

  lemma StatusIs(node: XmlNode, alarmType: Bytes)
    ensures ParseAlarm(node, alarmType).status == ChildText(node, "StateValue")
  {
    hide ChildText, Lower, ContainerTexts, ParseDimensions;
  }

  lemma {:induction false} RowsPush(front: seq<XmlNode>, last: XmlNode, alarmType: Bytes, state: Bytes)
    ensures RowsIn(front + [last], alarmType, state) ==
            RowsIn(front, alarmType, state) +
            if last.name == "member" && Wanted(ParseAlarm(last, alarmType), state) then [ParseAlarm(last, alarmType)] else []
  {
    hide ParseAlarm, Wanted;
    if front == [] {
      assert ([] + [last])[1..] == [];
    } else {
      assert (front + [last])[1..] == front[1..] + [last];
      RowsPush(front[1..], last, alarmType, state);
    }
  }

  lemma AlertsAre(members: seq<XmlNode>, alarmType: Bytes, state: Bytes, i: nat)
    requires i < |members|
    ensures Alerts(members, state)[i] <==> members[i].name == "member" && Wanted(ParseAlarm(members[i], alarmType), state)
  {
    StatusIs(members[i], alarmType);
    hide ParseAlarm, ChildText;
  }

  /** The rows are the alerting members, in order. */
  ghost predicate MembersChosen(members: seq<XmlNode>, alarmType: Bytes, rows: seq<AlarmRow>, positions: seq<nat>) {
    |rows| == |positions| && forall i | 0 <= i < |positions| :: positions[i] < |members| && rows[i] == ParseAlarm(members[positions[i]], alarmType)
  }

  lemma NoRows(members: seq<XmlNode>, alarmType: Bytes, state: Bytes)
    requires members == []
    ensures RowsIn(members, alarmType, state) == [] && Chosen(Alerts(members, state)) == []
  {
  }

  lemma {:induction false} RowsChosen(members: seq<XmlNode>, alarmType: Bytes, state: Bytes)
    ensures Chooses(Chosen(Alerts(members, state)), Alerts(members, state))
    ensures MembersChosen(members, alarmType, RowsIn(members, alarmType, state), Chosen(Alerts(members, state)))
  {
    hide Chooses, Chosen, RowsIn, ParseAlarm, Wanted, ChildText;
    ChosenMeaning(Alerts(members, state));
    if members == [] {
      NoRows(members, alarmType, state);
    } else {
      var front, last := members[..|members| - 1], members[|members| - 1];
      assert members == front + [last];
      RowsChosen(front, alarmType, state);
      RowsPush(front, last, alarmType, state);
      AlertsAre(members, alarmType, state, |front|);
      assert Alerts(members, state) == Alerts(front, state) + [Alerts(members, state)[|front|]];
      ChosenLast(Alerts(front, state), Alerts(members, state)[|front|]);
    }
  }

  // ---------- one page ----------

  /** rows are the alerting members of the document's first element of that name, in order. */
  ghost predicate RowsOfContainer(rows: seq<AlarmRow>, root: XmlNode, container: Bytes, alarmType: Bytes, state: Bytes) {
    if forall k | 0 <= k < |Preorder(root)| :: Preorder(root)[k].name != container then rows == []
    else exists node, positions: seq<nat> ::
      && IsFirst(Preorder(root), container, node)
      && Chooses(positions, Alerts(node.children, state))
      && MembersChosen(node.children, alarmType, rows, positions)
  }

  lemma ContainerShown(root: XmlNode, container: Bytes, alarmType: Bytes, state: Bytes)
    ensures RowsOfContainer(ContainerRows(root, container, alarmType, state), root, container, alarmType, state)
  {
    hide Chooses, MembersChosen, Alerts, ParseAlarm, RowsIn, Preorder, IsFirst;
    DescendantIsFirst(root, container);
    ChildInIsFirst(Preorder(root), container);
    if Descendant(root, container).Some? {
      RowsChosen(Descendant(root, container).value.children, alarmType, state);
    }
  }

  const METRIC_ALARMS: Bytes := "MetricAlarms"
  const METRIC_ALARM: Bytes := "MetricAlarm"
  const COMPOSITE_ALARMS: Bytes := "CompositeAlarms"
  const COMPOSITE_ALARM: Bytes := "CompositeAlarm"
  const LOG_ALARMS: Bytes := "LogAlarms"
  const LOG_ALARM: Bytes := "LogAlarm"

  /** A page's rows: metric, composite and log alarms in turn, each with its own type where the document has none. */
  lemma PageShows(root: XmlNode, state: Bytes) returns (metric: seq<AlarmRow>, composite: seq<AlarmRow>, log: seq<AlarmRow>)
    ensures PageRows(root, state) == metric + composite + log
    ensures RowsOfContainer(metric, root, METRIC_ALARMS, METRIC_ALARM, state)
    ensures RowsOfContainer(composite, root, COMPOSITE_ALARMS, COMPOSITE_ALARM, state)
    ensures RowsOfContainer(log, root, LOG_ALARMS, LOG_ALARM, state)
  {
    hide RowsOfContainer, ContainerRows;
    metric := ContainerRows(root, METRIC_ALARMS, METRIC_ALARM, state);
    composite := ContainerRows(root, COMPOSITE_ALARMS, COMPOSITE_ALARM, state);
    log := ContainerRows(root, LOG_ALARMS, LOG_ALARM, state);
    ContainerShown(root, METRIC_ALARMS, METRIC_ALARM, state);
    ContainerShown(root, COMPOSITE_ALARMS, COMPOSITE_ALARM, state);
    ContainerShown(root, LOG_ALARMS, LOG_ALARM, state);
  }

  /** The next token is the text of the document's first NextToken element. */
  lemma TokenShown(root: XmlNode)
    ensures if forall k | 0 <= k < |Preorder(root)| :: Preorder(root)[k].name != "NextToken" then PageToken(root) == []
            else exists node :: IsFirst(Preorder(root), "NextToken", node) && PageToken(root) == node.text
  {
    hide IsFirst, Preorder;
    DescendantIsFirst(root, "NextToken");
    ChildInIsFirst(Preorder(root), "NextToken");
  }

  // ---------- one row per alarm ----------

  /** The first line break stands behind a text without one. */
  lemma FirstNewline(a: Bytes, x: Bytes, k: nat)
    requires '\n' !in a
    ensures (a + "\n" + x)[|a|] == '\n' && (k < |a| ==> (a + "\n" + x)[k] != '\n')
  {
    assert k < |a| ==> (a + "\n" + x)[k] == a[k];
  }

  lemma LineStartsMatch(a: Bytes, x: Bytes, b: Bytes, y: Bytes)
    requires '\n' !in a && '\n' !in b && a + "\n" + x == b + "\n" + y
    ensures a == b && x == y
  {
    FirstNewline(a, x, |b|);
    FirstNewline(b, y, |a|);
    assert (a + "\n" + x)[..|a|] == a && (b + "\n" + y)[..|b|] == b;
    assert (a + "\n" + x)[|a| + 1..] == x && (b + "\n" + y)[|b| + 1..] == y;
  }

  /** Two rows count as one alarm: by their ARN where both have one, else by type and name. */
  lemma KeyTells(a: AlarmRow, b: AlarmRow)
    ensures a.alarmArn != [] && b.alarmArn != [] ==> (Key(a) == Key(b) <==> a.alarmArn == b.alarmArn)
    ensures a.alarmArn == [] && b.alarmArn == [] && '\n' !in a.alarmType && '\n' !in b.alarmType ==>
              (Key(a) == Key(b) <==> a.alarmType == b.alarmType && a.alarmName == b.alarmName)
    ensures a.alarmArn != [] && b.alarmArn == [] && '\n' !in a.alarmArn ==> Key(a) != Key(b)
  {
    if a.alarmArn == [] && b.alarmArn == [] && '\n' !in a.alarmType && '\n' !in b.alarmType && Key(a) == Key(b) {
      LineStartsMatch(a.alarmType, a.alarmName, b.alarmType, b.alarmName);
    }
    if a.alarmArn != [] && b.alarmArn == [] && '\n' !in a.alarmArn {
      assert Key(b)[|b.alarmType|] == '\n';
      assert Key(b)[|b.alarmType|] in Key(b);
    }
  }

  // ---------- page after page ----------

  lemma AskedOneMore(pages: seq<XmlNode>, n: nat)
    requires n < |pages| && !After(pages, n).finished
    ensures var s := After(pages, n);
            TokensAsked(Requests(pages, n + 1), s.stateIndex) == TokensAsked(Requests(pages, n), s.stateIndex) + [s.nextToken]
  {
    hide After;
    var s, before := After(pages, n), Requests(pages, n);
    assert (before + [Request(s.stateIndex, s.nextToken)])[..|before|] == before;
  }

  /**
   * Within a state another page is asked for exactly when the reply names one that this state did not ask for yet;
   * it is the one asked for next. Otherwise the next state starts from its first page.
   */
  lemma AsksOn(pages: seq<XmlNode>, n: nat)
    requires n < |pages| && !After(pages, n).finished
    ensures var s, t, token := After(pages, n), After(pages, n + 1), PageToken(pages[n]);
            && s.stateIndex < STATE_COUNT
            && if token != [] && token !in TokensAsked(Requests(pages, n + 1), s.stateIndex)
               then t.stateIndex == s.stateIndex && t.nextToken == token && !t.finished
               else t.stateIndex == s.stateIndex + 1 && t.nextToken == [] && (t.finished <==> t.stateIndex == STATE_COUNT)
  {
    hide PageRows, PushNew, PageToken, TokensAsked;
    RunKeepsTokens(pages, n);
    var s, token := After(pages, n), PageToken(pages[n]);
    AskedOneMore(pages, n);
    if token != [] {
      assert token in Elements(TokensAsked(Requests(pages, n), s.stateIndex) + [s.nextToken]) <==> token in s.seenTokens;
      ElementsPush(TokensAsked(Requests(pages, n), s.stateIndex) + [s.nextToken], token);
    }
  }
}
