/**
 * The GetMetricData reply: printed by the listener (src/cloudwatch_server.cpp), converted by the
 * client (src/cloudwatch_client.cpp).
 */
module MetricReply {
  import opened Strings
  import opened JsonTrees
  import opened XmlEntities
  import opened XmlScanner
  import opened XmlPieces

  /** The text forms of times and numbers on both sides of the reply. */
  datatype ReplyFormats = ReplyFormats(
    iso: int -> Bytes,
    number: Double -> Bytes,
    parseTime: Bytes -> Option<real>,
    parseNumber: Bytes -> Option<Double>)

  // ---------- the printer ----------

  function Field(name: Bytes, text: Bytes): seq<Piece> {
    [Open(name), Chars(text), Close(name)]
  }

  function List(name: Bytes, texts: seq<Bytes>): seq<Piece> {
    [Open(name)] + Members(texts) + [Close(name)]
  }

  function ResultFront(name: Bytes): seq<Piece> {
    Field("Id", "m1") + Field("Label", Escape(name)) + Field("StatusCode", "Complete")
  }

  function ResultPieces(name: Bytes, timestamps: seq<Bytes>, values: seq<Bytes>): seq<Piece> {
    ResultFront(name) + List("Timestamps", timestamps) + List("Values", values)
  }

  function ReplyFront(): seq<Piece> {
    [Open("GetMetricDataResponse"), Open("GetMetricDataResult")]
  }

  function ReplyBack(): seq<Piece> {
    [Close("GetMetricDataResult"), Close("GetMetricDataResponse")]
  }

  function Results(name: Bytes, timestamps: seq<Bytes>, values: seq<Bytes>): seq<Piece> {
    [Open("member")] + ResultPieces(name, timestamps, values) + [Close("member")]
  }

  function ReplyPieces(name: Bytes, timestamps: seq<Bytes>, values: seq<Bytes>): seq<Piece> {
    ReplyFront() + [Open("MetricDataResults")] + Results(name, timestamps, values) + [Close("MetricDataResults")] + ReplyBack()
  }

  /** One row of the reply: the start of its bucket in epoch milliseconds, and the aggregate. */
  type ReplyRow = (int, Double)

  function IsoTexts(fmt: ReplyFormats, rows: seq<ReplyRow>): (r: seq<Bytes>)
    ensures |r| == |rows| && forall i | 0 <= i < |r| :: r[i] == fmt.iso(rows[i].0)
  {
    seq(|rows|, i requires 0 <= i < |rows| => fmt.iso(rows[i].0))
  }

  function NumberTexts(fmt: ReplyFormats, rows: seq<ReplyRow>): (r: seq<Bytes>)
    ensures |r| == |rows| && forall i | 0 <= i < |r| :: r[i] == fmt.number(rows[i].1)
  {
    seq(|rows|, i requires 0 <= i < |rows| => fmt.number(rows[i].1))
  }

  /** The reply to a query for a metric name with these rows. */
  function ReplyText(fmt: ReplyFormats, name: Bytes, rows: seq<ReplyRow>): Bytes {
    Write(ReplyPieces(name, IsoTexts(fmt, rows), NumberTexts(fmt, rows)))
  }

  lemma {:induction false} MembersAppend(texts: seq<Bytes>, t: Bytes)
    ensures Members(texts + [t]) == Members(texts) + [Open("member"), Chars(t), Close("member")]
  {
    if texts == [] {
      var one: seq<Bytes> := [t];
      assert texts + [t] == one && one[1..] == [];
    } else {
      assert (texts + [t])[1..] == texts[1..] + [t];
      MembersAppend(texts[1..], t);
    }
  }

  lemma NothingWritten()
    ensures Write(Members([])) == []
  {
  }

  lemma MembersText(texts: seq<Bytes>, t: Bytes)
    ensures Write(Members(texts + [t])) == Write(Members(texts)) + (OPEN + (t + CLOSE))
  {
    hide Written;
    var one: seq<Bytes> := [t];
    MembersAppend(texts, t);
    NothingWritten();
    assert one[1..] == [];
    assert Members(one) == [Open("member"), Chars(t), Close("member")];
    WriteAppend(Members(texts), Members(one));
    MembersFirst(one);
    assert CLOSE + Write(Members(one[1..])) == CLOSE;
  }

  lemma ReplyLayout(name: Bytes, timestamps: seq<Bytes>, values: seq<Bytes>)
    ensures Write(ReplyPieces(name, timestamps, values)) ==
            Write(ReplyFront() + [Open("MetricDataResults"), Open("member")] + ResultFront(name) + [Open("Timestamps")]) +
            Write(Members(timestamps)) + Write([Close("Timestamps"), Open("Values")]) + Write(Members(values)) +
            Write([Close("Values"), Close("member"), Close("MetricDataResults")] + ReplyBack())
  {
    hide Write, Written, Members, ReplyFront, ReplyBack, ResultFront;
    var front := ReplyFront() + [Open("MetricDataResults"), Open("member")] + ResultFront(name) + [Open("Timestamps")];
    var middle := [Close("Timestamps"), Open("Values")];
    var back := [Close("Values"), Close("member"), Close("MetricDataResults")] + ReplyBack();
    assert ReplyPieces(name, timestamps, values) == front + Members(timestamps) + middle + Members(values) + back;
    WriteAppend(front + Members(timestamps) + middle + Members(values), back);
    WriteAppend(front + Members(timestamps) + middle, Members(values));
    WriteAppend(front + Members(timestamps), middle);
    WriteAppend(front, Members(timestamps));
  }

  /** The loop printing one member per row, and the text around it. */
  method PrintReply(fmt: ReplyFormats, name: Bytes, rows: seq<ReplyRow>) returns (reply: Bytes)
    ensures reply == ReplyText(fmt, name, rows)
  {
    hide Write, Written, Members, Escape;
    var timestamps: Bytes, values: Bytes := [], [];
    NothingWritten();
    for row := 0 to |rows|
      invariant timestamps == Write(Members(IsoTexts(fmt, rows[..row])))
      invariant values == Write(Members(NumberTexts(fmt, rows[..row])))
    {
      MembersText(IsoTexts(fmt, rows[..row]), fmt.iso(rows[row].0));
      MembersText(NumberTexts(fmt, rows[..row]), fmt.number(rows[row].1));
      assert IsoTexts(fmt, rows[..row + 1]) == IsoTexts(fmt, rows[..row]) + [fmt.iso(rows[row].0)];
      assert NumberTexts(fmt, rows[..row + 1]) == NumberTexts(fmt, rows[..row]) + [fmt.number(rows[row].1)];
      timestamps := timestamps + (OPEN + (fmt.iso(rows[row].0) + CLOSE));
      values := values + (OPEN + (fmt.number(rows[row].1) + CLOSE));
    }
    assert rows[..|rows|] == rows;
    var escaped := XmlEscape(name);
    var front := ReplyFront() + [Open("MetricDataResults"), Open("member")] +
                 (Field("Id", "m1") + Field("Label", escaped) + Field("StatusCode", "Complete")) + [Open("Timestamps")];
    var middle := [Close("Timestamps"), Open("Values")];
    var back := [Close("Values"), Close("member"), Close("MetricDataResults")] + ReplyBack();
    reply := Write(front) + timestamps + Write(middle) + values + Write(back);
    ReplyLayout(name, IsoTexts(fmt, rows), NumberTexts(fmt, rows));
  }

  // ---------- the client ----------

  datatype ConvertError = NoResults | NoMembers | BadNesting | MismatchedArrays | BadValue(text: Bytes) | BadTimestamp(text: Bytes) | NotConverted

  datatype Converted =
    | PassedThrough(response: Bytes)
    | Series(
        id: Option<Bytes>,
        metricLabel: Option<Bytes>,
        statusCode: Option<Bytes>,
        timestamps: seq<real>,
        values: seq<Double>,
        nextToken: Option<Bytes>)

  /** The text under a key, absent when empty, cut at its first NUL otherwise. */
  function Attribute(xml: Bytes, key: Bytes): Option<Bytes> {
    var value := XmlText(xml, key);
    if value == [] then None else Some(CStr(value))
  }

  /** Both arrays parsed, or the first failure in reading order, values before timestamps. */
  function ParseRows(fmt: ReplyFormats, timestamps: seq<Bytes>, values: seq<Bytes>): (r: Result<(seq<real>, seq<Double>), ConvertError>)
    requires |timestamps| == |values|
    ensures r.Ok? ==> |r.value.0| == |r.value.1| == |timestamps|
  {
    if timestamps == [] then Ok(([], []))
    else
      var n := |timestamps| - 1;
      var front := ParseRows(fmt, timestamps[..n], values[..n]);
      if front.Err? then front
      else if fmt.parseNumber(values[n]).None? then Err(BadValue(values[n]))
      else if fmt.parseTime(timestamps[n]).None? then Err(BadTimestamp(timestamps[n]))
      else Ok((front.value.0 + [fmt.parseTime(timestamps[n]).value], front.value.1 + [fmt.parseNumber(values[n]).value]))
  }

  /** JSON has no infinities and no NaN: the writer refuses a document that holds one. */
  predicate Writable(values: seq<Double>) {
    forall i | 0 <= i < |values| :: values[i].Finite?
  }

  /** The arrays, parsed, put beside the result's attributes, as far as they can be written out. */
  function ConvertArrays(fmt: ReplyFormats, timestamps: seq<Bytes>, values: seq<Bytes>, attributes: seq<Option<Bytes>>): Result<Converted, ConvertError>
    requires |attributes| == 4
  {
    if |timestamps| != |values| then Err(MismatchedArrays)
    else
      var rows := ParseRows(fmt, timestamps, values);
      if rows.Err? then Err(rows.error)
      else if !Writable(rows.value.1) then Err(NotConverted)
      else Ok(Series(attributes[0], attributes[1], attributes[2], rows.value.0, rows.value.1, attributes[3]))
  }

  function ConvertResult(fmt: ReplyFormats, response: Bytes, result: Bytes): Result<Converted, ConvertError> {
    ConvertArrays(
      fmt, XmlMembers(XmlText(result, "Timestamps")), XmlMembers(XmlText(result, "Values")),
      [Attribute(result, "Id"), Attribute(result, "Label"), Attribute(result, "StatusCode"), Attribute(response, "NextToken")])
  }

  function Convert(fmt: ReplyFormats, response: Bytes): Result<Converted, ConvertError> {
    if response == [] || response[0] != '<' then Ok(PassedThrough(response))
    else
      var container := XmlText(response, "MetricDataResults");
      if container == [] then Err(NoResults)
      else
        var result := XmlFirstMember(container);
        if result.Err? then Err(BadNesting)
        else if result.value == [] then Err(NoMembers)
        else ConvertResult(fmt, response, result.value)
  }

  /** The first failure is the whole conversion's failure. */
  lemma {:induction false} ParseRowsFails(fmt: ReplyFormats, timestamps: seq<Bytes>, values: seq<Bytes>, n: nat)
    requires |timestamps| == |values| && n <= |timestamps| && ParseRows(fmt, timestamps[..n], values[..n]).Err?
    ensures ParseRows(fmt, timestamps, values) == ParseRows(fmt, timestamps[..n], values[..n])
  {
    if n == |timestamps| {
      assert timestamps[..n] == timestamps && values[..n] == values;
    } else {
      var m := |timestamps| - 1;
      assert timestamps[..m][..n] == timestamps[..n] && values[..m][..n] == values[..n];
      ParseRowsFails(fmt, timestamps[..m], values[..m], n);
    }
  }

  /** The loop over both arrays. */
  method CollectRows(fmt: ReplyFormats, timestamps: seq<Bytes>, values: seq<Bytes>, attributes: seq<Option<Bytes>>)
    returns (r: Result<Converted, ConvertError>)
    requires |attributes| == 4
    ensures r == ConvertArrays(fmt, timestamps, values, attributes)
  {
    if |timestamps| != |values| {
      return Err(MismatchedArrays);
    }
    var times: seq<real>, numbers: seq<Double> := [], [];
    for index := 0 to |timestamps|
      invariant ParseRows(fmt, timestamps[..index], values[..index]) == Ok((times, numbers))
    {
      var n := index + 1;
      assert timestamps[..n][..index] == timestamps[..index] && values[..n][..index] == values[..index];
      var value := fmt.parseNumber(values[index]);
      if value.None? {
        ParseRowsFails(fmt, timestamps, values, n);
        return Err(BadValue(values[index]));
      }
      var time := fmt.parseTime(timestamps[index]);
      if time.None? {
        ParseRowsFails(fmt, timestamps, values, n);
        return Err(BadTimestamp(timestamps[index]));
      }
      times, numbers := times + [time.value], numbers + [value.value];
    }
    assert timestamps[..|timestamps|] == timestamps && values[..|values|] == values;
    if !Writable(numbers) {
      return Err(NotConverted);
    }
    return Ok(Series(attributes[0], attributes[1], attributes[2], times, numbers, attributes[3]));
  }

  method ConvertMembers(fmt: ReplyFormats, response: Bytes, result: Bytes) returns (r: Result<Converted, ConvertError>)
    ensures r == ConvertResult(fmt, response, result)
  {
    hide XmlText, XmlMembers, Attribute, ConvertArrays;
    var timestamps := XmlMembers(XmlText(result, "Timestamps"));
    var values := XmlMembers(XmlText(result, "Values"));
    r := CollectRows(fmt, timestamps, values,
      [Attribute(result, "Id"), Attribute(result, "Label"), Attribute(result, "StatusCode"), Attribute(response, "NextToken")]);
  }

  method ConvertGetMetricDataXml(fmt: ReplyFormats, response: Bytes) returns (r: Result<Converted, ConvertError>)
    ensures r == Convert(fmt, response)
  {
    hide XmlText, XmlMembers, XmlFirstMember;
    if response == [] || response[0] != '<' {
      return Ok(PassedThrough(response));
    }
    var container := XmlText(response, "MetricDataResults");
    if container == [] {
      return Err(NoResults);
    }
    var result := FindFirstMember(container);
    if result.Err? {
      return Err(BadNesting);
    }
    if result.value == [] {
      return Err(NoMembers);
    }
    r := ConvertMembers(fmt, response, result.value);
  }

  // ---------- the round trip ----------

  /** The pieces hold no tag but the named ones. */
  predicate OnlyTags(pieces: seq<Piece>, names: set<Bytes>) {
    forall p | p in pieces :: p.Chars? || p.name in names
  }

  lemma OnlyTagsAppend(a: seq<Piece>, b: seq<Piece>, names: set<Bytes>)
    ensures OnlyTags(a + b, names) <==> OnlyTags(a, names) && OnlyTags(b, names)
  {
    assert forall p :: p in a + b <==> p in a || p in b;
  }

  /** The first element of a name is found when nothing before it has that name and nothing inside it ends it. */
  lemma BetweenFirst(a: seq<Piece>, tag: Bytes, content: seq<Piece>, b: seq<Piece>)
    requires Open(tag) !in a && Close(tag) !in content
    ensures Between(a + [Open(tag)] + content + [Close(tag)] + b, tag) == Some(content)
  {
    var all := a + [Open(tag)] + content + [Close(tag)] + b;
    var rest := content + [Close(tag)] + b;
    assert all == a + [Open(tag)] + rest;
    IndexOfAppend(a, Open(tag), rest);
    assert all[|a| + 1..] == rest;
    IndexOfAppend(content, Close(tag), b);
    assert rest[..|content|] == content;
  }

  lemma TextOf(a: seq<Piece>, tag: Bytes, content: seq<Piece>, b: seq<Piece>, all: seq<Piece>)
    requires Open(tag) !in a && Close(tag) !in content && all == a + [Open(tag)] + content + [Close(tag)] + b
    requires AllPlain(all) && PlainTag(tag)
    ensures XmlText(Write(all), tag) == Write(content)
  {
    hide Write, Between, XmlText, Plain;
    BetweenFirst(a, tag, content, b);
    TextBetween(all, tag);
  }

  const FIELD_NAMES: set<Bytes> := {"Id", "Label", "StatusCode"}

  lemma NamesDiffer()
    ensures "Timestamps" !in FIELD_NAMES && "Values" !in FIELD_NAMES && "member" !in FIELD_NAMES
    ensures "Values" != "Timestamps" && "member" != "Timestamps" && "member" != "Values"
    ensures "Id" != "Label" && "Id" != "StatusCode" && "Label" != "StatusCode"
  {
    assert "Timestamps"[0] == 'T' && "StatusCode"[0] == 'S';
    assert "member"[0] == 'm' && "Values"[0] == 'V';
  }

  lemma TagsPlain()
    ensures PlainTag("Id") && PlainTag("Label") && PlainTag("StatusCode") && PlainTag("Timestamps") && PlainTag("Values") && PlainTag("member")
  {
  }

  lemma OuterTagsPlain()
    ensures PlainTag("MetricDataResults") && PlainTag("NextToken")
    ensures PlainTag("GetMetricDataResponse") && PlainTag("GetMetricDataResult")
  {
  }

  lemma FrontTags(name: Bytes)
    ensures OnlyTags(ResultFront(name), FIELD_NAMES)
  {
    hide Escape;
  }

  lemma ListTags(tag: Bytes, texts: seq<Bytes>)
    requires AllChars(texts)
    ensures OnlyTags(List(tag, texts), {tag, "member"})
  {
    hide Plain;
    MembersPlain(texts);
  }

  lemma FrontPlain(name: Bytes)
    ensures AllPlain(ResultFront(name))
  {
    hide Escape;
    TagsPlain();
    EscapeSafe(name);
    hide PlainTag;
    assert '<' !in "m1" && '<' !in "Complete";
  }

  lemma ListPlain(tag: Bytes, texts: seq<Bytes>)
    requires AllChars(texts) && PlainTag(tag)
    ensures AllPlain(List(tag, texts))
  {
    hide PlainTag;
    MembersPlain(texts);
  }

  lemma ResultPlain(name: Bytes, timestamps: seq<Bytes>, values: seq<Bytes>)
    requires AllChars(timestamps) && AllChars(values)
    ensures AllPlain(ResultPieces(name, timestamps, values))
  {
    hide Plain, PlainTag, ResultFront, List;
    TagsPlain();
    FrontPlain(name);
    ListPlain("Timestamps", timestamps);
    ListPlain("Values", values);
  }

  lemma NoMemberTags(pieces: seq<Piece>, more: seq<Piece>, depth: nat)
    requires OnlyTags(pieces, FIELD_NAMES)
    ensures Balanced(pieces + more, depth) == Balanced(more, depth)
  {
    if pieces == [] {
      assert pieces + more == more;
    } else {
      NamesDiffer();
      assert pieces[0] in pieces;
      assert (pieces + more)[1..] == pieces[1..] + more;
      NoMemberTags(pieces[1..], more, depth);
    }
  }

  lemma {:induction false} BalancedAppend(a: seq<Piece>, b: seq<Piece>, depth: nat, rise: nat)
    requires Balanced(a, depth)
    ensures Balanced(a + b, depth + rise) == Balanced(b, rise)
  {
    if a == [] {
      assert a + b == b;
    } else {
      assert (a + b)[1..] == a[1..] + b;
      if a[0] == Open("member") {
        BalancedAppend(a[1..], b, depth + 1, rise);
      } else if a[0] == Close("member") {
        BalancedAppend(a[1..], b, depth - 1, rise);
      } else {
        BalancedAppend(a[1..], b, depth, rise);
      }
    }
  }

  lemma ListBalanced(tag: Bytes, texts: seq<Bytes>)
    requires AllChars(texts) && tag != "member"
    ensures Balanced(List(tag, texts), 0)
  {
    MembersPlain(texts);
    BalancedAppend(Members(texts), [Close(tag)], 0, 0);
    var inner := Members(texts) + [Close(tag)];
    assert List(tag, texts) == [Open(tag)] + inner;
    assert List(tag, texts)[1..] == inner;
    var end: seq<Piece> := [Close(tag)];
    assert end[1..] == [];
  }

  lemma ResultBalanced(name: Bytes, timestamps: seq<Bytes>, values: seq<Bytes>)
    requires AllChars(timestamps) && AllChars(values)
    ensures Balanced(ResultPieces(name, timestamps, values), 0)
  {
    hide Balanced, ResultFront, List;
    NamesDiffer();
    var lists := List("Timestamps", timestamps) + List("Values", values);
    FrontTags(name);
    NoMemberTags(ResultFront(name), lists, 0);
    ListBalanced("Timestamps", timestamps);
    ListBalanced("Values", values);
    BalancedAppend(List("Timestamps", timestamps), List("Values", values), 0, 0);
    assert ResultPieces(name, timestamps, values) == ResultFront(name) + lists;
  }

  lemma NotAmong(pieces: seq<Piece>, names: set<Bytes>, tag: Bytes)
    requires OnlyTags(pieces, names) && tag !in names
    ensures Open(tag) !in pieces && Close(tag) !in pieces
  {
  }

  lemma WriteChars(text: Bytes)
    ensures Write([Chars(text)]) == text
  {
    var none: seq<Piece> := [];
    assert [Chars(text)][1..] == none;
    assert Write(none) == [];
  }

  lemma FieldText(a: seq<Piece>, tag: Bytes, text: Bytes, b: seq<Piece>, all: seq<Piece>)
    requires Open(tag) !in a && all == a + Field(tag, text) + b
    requires AllPlain(all) && PlainTag(tag)
    ensures XmlText(Write(all), tag) == text
  {
    hide Write, XmlText, Plain;
    assert all == a + [Open(tag)] + [Chars(text)] + [Close(tag)] + b;
    TextOf(a, tag, [Chars(text)], b, all);
    WriteChars(text);
  }

  lemma FieldsReadBack(name: Bytes, timestamps: seq<Bytes>, values: seq<Bytes>)
    requires AllChars(timestamps) && AllChars(values)
    ensures var result := Write(ResultPieces(name, timestamps, values));
            XmlText(result, "Id") == "m1" && XmlText(result, "Label") == Escape(name) && XmlText(result, "StatusCode") == "Complete"
  {
    hide Write, XmlText, Plain, PlainTag, Escape, List;
    NamesDiffer();
    TagsPlain();
    ResultPlain(name, timestamps, values);
    var all := ResultPieces(name, timestamps, values);
    var lists := List("Timestamps", timestamps) + List("Values", values);
    var id, text, status := Field("Id", "m1"), Field("Label", Escape(name)), Field("StatusCode", "Complete");
    assert all == [] + id + (text + status + lists);
    assert all == id + text + (status + lists);
    assert all == id + text + status + lists;
    FieldText([], "Id", "m1", text + status + lists, all);
    FieldText(id, "Label", Escape(name), status + lists, all);
    FieldText(id + text, "StatusCode", "Complete", lists, all);
  }

  lemma ListText(a: seq<Piece>, tag: Bytes, texts: seq<Bytes>, b: seq<Piece>, all: seq<Piece>)
    requires Open(tag) !in a && tag != "member" && all == a + List(tag, texts) + b
    requires AllPlain(all) && PlainTag(tag) && AllChars(texts)
    ensures XmlMembers(XmlText(Write(all), tag)) == texts
  {
    hide Write, XmlText, Plain, PlainTag, XmlMembers;
    MembersPlain(texts);
    assert all == a + [Open(tag)] + Members(texts) + [Close(tag)] + b;
    TextOf(a, tag, Members(texts), b, all);
    MembersReadBack(texts);
  }

  lemma ListsReadBack(name: Bytes, timestamps: seq<Bytes>, values: seq<Bytes>)
    requires AllChars(timestamps) && AllChars(values)
    ensures var result := Write(ResultPieces(name, timestamps, values));
            XmlMembers(XmlText(result, "Timestamps")) == timestamps && XmlMembers(XmlText(result, "Values")) == values
  {
    hide Write, XmlText, Plain, PlainTag, XmlMembers, ResultFront, List, OnlyTags;
    NamesDiffer();
    TagsPlain();
    ResultPlain(name, timestamps, values);
    var all := ResultPieces(name, timestamps, values);
    var first, second := List("Timestamps", timestamps), List("Values", values);
    FrontTags(name);
    ListTags("Timestamps", timestamps);
    NotAmong(ResultFront(name), FIELD_NAMES, "Timestamps");
    NotAmong(ResultFront(name), FIELD_NAMES, "Values");
    NotAmong(first, {"Timestamps", "member"}, "Values");
    assert all == ResultFront(name) + first + second;
    assert all == ResultFront(name) + first + second + [];
    ListText(ResultFront(name), "Timestamps", timestamps, second, all);
    ListText(ResultFront(name) + first, "Values", values, [], all);
  }

  const INNER_NAMES: set<Bytes> := FIELD_NAMES + {"Timestamps", "Values", "member"}

  lemma OnlyTagsGrow(pieces: seq<Piece>, small: set<Bytes>, large: set<Bytes>)
    requires OnlyTags(pieces, small) && small <= large
    ensures OnlyTags(pieces, large)
  {
  }

  lemma MemberAlone()
    ensures OnlyTags([Open("member")], INNER_NAMES) && OnlyTags([Close("member")], INNER_NAMES)
  {
  }

  lemma ResultsTags(name: Bytes, timestamps: seq<Bytes>, values: seq<Bytes>)
    requires AllChars(timestamps) && AllChars(values)
    ensures OnlyTags(Results(name, timestamps, values), INNER_NAMES)
  {
    hide ResultFront, List, OnlyTags;
    FrontTags(name);
    ListTags("Timestamps", timestamps);
    ListTags("Values", values);
    var first, second := List("Timestamps", timestamps), List("Values", values);
    OnlyTagsGrow(ResultFront(name), FIELD_NAMES, INNER_NAMES);
    OnlyTagsGrow(first, {"Timestamps", "member"}, INNER_NAMES);
    OnlyTagsGrow(second, {"Values", "member"}, INNER_NAMES);
    OnlyTagsAppend(ResultFront(name), first, INNER_NAMES);
    OnlyTagsAppend(ResultFront(name) + first, second, INNER_NAMES);
    MemberAlone();
    OnlyTagsAppend([Open("member")], ResultPieces(name, timestamps, values), INNER_NAMES);
    OnlyTagsAppend([Open("member")] + ResultPieces(name, timestamps, values), [Close("member")], INNER_NAMES);
  }

  lemma OuterNames()
    ensures "MetricDataResults" !in INNER_NAMES && "NextToken" !in INNER_NAMES
    ensures Open("MetricDataResults") !in ReplyFront()
    ensures Open("NextToken") !in ReplyFront() && Open("NextToken") !in ReplyBack()
    ensures AllPlain(ReplyFront()) && AllPlain(ReplyBack())
  {
    OuterTagsPlain();
    assert |"GetMetricDataResponse"| == 21 && |"GetMetricDataResult"| == 19 && |"MetricDataResults"| == 17;
  }

  lemma ReplyPlain(name: Bytes, timestamps: seq<Bytes>, values: seq<Bytes>)
    requires AllChars(timestamps) && AllChars(values)
    ensures AllPlain(ReplyPieces(name, timestamps, values)) && AllPlain(Results(name, timestamps, values))
  {
    hide PlainTag, ResultPieces, ReplyFront, ReplyBack;
    OuterNames();
    OuterTagsPlain();
    TagsPlain();
    ResultPlain(name, timestamps, values);
  }

  lemma ReplyPiecesAre(name: Bytes, timestamps: seq<Bytes>, values: seq<Bytes>)
    ensures ReplyPieces(name, timestamps, values) ==
            ReplyFront() + [Open("MetricDataResults")] + Results(name, timestamps, values) + [Close("MetricDataResults")] + ReplyBack()
  {
    hide ReplyFront, ReplyBack, Results;
  }

  const RESULTS_TAG: Bytes := "MetricDataResults"

  lemma ContainerReadBack(name: Bytes, timestamps: seq<Bytes>, values: seq<Bytes>)
    requires AllChars(timestamps) && AllChars(values)
    ensures XmlText(Write(ReplyPieces(name, timestamps, values)), RESULTS_TAG) == Write(Results(name, timestamps, values))
  {
    hide Write, XmlText, Plain, AllPlain, PlainTag, Results, ReplyPieces, ReplyFront, ReplyBack, OnlyTags;
    OuterNames();
    OuterTagsPlain();
    ReplyPlain(name, timestamps, values);
    ResultsTags(name, timestamps, values);
    var all, results := ReplyPieces(name, timestamps, values), Results(name, timestamps, values);
    NotAmong(results, INNER_NAMES, RESULTS_TAG);
    ReplyPiecesAre(name, timestamps, values);
    TextOf(ReplyFront(), RESULTS_TAG, results, ReplyBack(), all);
  }

  lemma Nowhere(a: seq<Piece>, x: Piece, b: seq<Piece>, y: Piece, c: seq<Piece>, t: Piece)
    requires t !in a && t != x && t !in b && t != y && t !in c
    ensures t !in a + [x] + b + [y] + c
  {
  }

  lemma NoNextToken(name: Bytes, timestamps: seq<Bytes>, values: seq<Bytes>)
    requires AllChars(timestamps) && AllChars(values)
    ensures XmlText(Write(ReplyPieces(name, timestamps, values)), "NextToken") == []
  {
    hide Write, XmlText, Plain, PlainTag, Results, ReplyFront, ReplyBack, OnlyTags, ReplyPieces;
    OuterNames();
    OuterTagsPlain();
    ReplyPlain(name, timestamps, values);
    ResultsTags(name, timestamps, values);
    var all, results := ReplyPieces(name, timestamps, values), Results(name, timestamps, values);
    NotAmong(results, INNER_NAMES, "NextToken");
    assert |"NextToken"| != |"MetricDataResults"|;
    Nowhere(ReplyFront(), Open("MetricDataResults"), results, Close("MetricDataResults"), ReplyBack(), Open("NextToken"));
    ReplyPiecesAre(name, timestamps, values);
    TextBetween(all, "NextToken");
  }

  lemma ResultReadBack(name: Bytes, timestamps: seq<Bytes>, values: seq<Bytes>)
    requires AllChars(timestamps) && AllChars(values)
    ensures XmlFirstMember(Write(Results(name, timestamps, values))) == Ok(Write(ResultPieces(name, timestamps, values)))
  {
    hide Write, XmlFirstMember, Plain, Balanced, ResultPieces;
    ResultPlain(name, timestamps, values);
    ResultBalanced(name, timestamps, values);
    var content := ResultPieces(name, timestamps, values);
    FirstMemberContent([], content, []);
    assert [] + [Open("member")] + content + [Close("member")] + [] == Results(name, timestamps, values);
  }

  /** The times and numbers are printed without '<' and parse back. */
  predicate RowsInvert(fmt: ReplyFormats, rows: seq<ReplyRow>) {
    forall i | 0 <= i < |rows| ::
      && '<' !in fmt.iso(rows[i].0) && '<' !in fmt.number(rows[i].1)
      && fmt.parseTime(fmt.iso(rows[i].0)) == Some(rows[i].0 as real / 1000.0)
      && fmt.parseNumber(fmt.number(rows[i].1)) == Some(rows[i].1)
  }

  function Times(rows: seq<ReplyRow>): (r: seq<real>)
    ensures |r| == |rows| && forall i | 0 <= i < |r| :: r[i] == rows[i].0 as real / 1000.0
  {
    seq(|rows|, i requires 0 <= i < |rows| => rows[i].0 as real / 1000.0)
  }

  function Numbers(rows: seq<ReplyRow>): (r: seq<Double>)
    ensures |r| == |rows| && forall i | 0 <= i < |r| :: r[i] == rows[i].1
  {
    seq(|rows|, i requires 0 <= i < |rows| => rows[i].1)
  }

  lemma RowTexts(fmt: ReplyFormats, rows: seq<ReplyRow>, n: nat)
    requires n + 1 == |rows|
    ensures IsoTexts(fmt, rows)[..n] == IsoTexts(fmt, rows[..n])
    ensures NumberTexts(fmt, rows)[..n] == NumberTexts(fmt, rows[..n])
    ensures Times(rows) == Times(rows[..n]) + [rows[n].0 as real / 1000.0]
    ensures Numbers(rows) == Numbers(rows[..n]) + [rows[n].1]
  {
  }

  lemma {:induction false} RowsReadBack(fmt: ReplyFormats, rows: seq<ReplyRow>)
    requires RowsInvert(fmt, rows)
    ensures ParseRows(fmt, IsoTexts(fmt, rows), NumberTexts(fmt, rows)) == Ok((Times(rows), Numbers(rows)))
  {
    if rows == [] {
    } else {
      var n := |rows| - 1;
      RowsReadBack(fmt, rows[..n]);
      RowTexts(fmt, rows, n);
    }
  }

  lemma StartsWithTag(pieces: seq<Piece>, tag: Bytes)
    requires pieces != [] && pieces[0] == Open(tag)
    ensures Write(pieces) != [] && Write(pieces)[0] == '<'
  {
    assert OpenTag(tag)[0] == '<';
  }

  lemma WrittenNonEmpty(name: Bytes, timestamps: seq<Bytes>, values: seq<Bytes>)
    ensures Write(ResultPieces(name, timestamps, values)) != [] && Write(Results(name, timestamps, values)) != []
    ensures var reply := Write(ReplyPieces(name, timestamps, values)); reply != [] && reply[0] == '<'
  {
    StartsWithTag(ResultPieces(name, timestamps, values), "Id");
    StartsWithTag(Results(name, timestamps, values), "member");
    StartsWithTag(ReplyPieces(name, timestamps, values), "GetMetricDataResponse");
  }

  lemma EscapeEmpty(s: Bytes)
    ensures Escape(s) == [] <==> s == []
  {
    if s != [] {
      assert EscapeByte(s[0]) != [];
    }
  }

  /**
   * For every metric name and row list, the client recovers exactly the printed times and values,
   * in order, when all values are finite, and fails when one is not; the label arrives as the
   * listener escaped it.
   */
  lemma ReplyRoundTrip(fmt: ReplyFormats, name: Bytes, rows: seq<ReplyRow>)
    requires RowsInvert(fmt, rows)
    ensures Convert(fmt, ReplyText(fmt, name, rows)) ==
            if !Writable(Numbers(rows)) then Err(NotConverted)
            else Ok(Series(Some("m1"), if name == [] then None else Some(CStr(Escape(name))), Some("Complete"), Times(rows), Numbers(rows), None))
  {
    hide Write, XmlText, XmlMembers, XmlFirstMember, ResultPieces, Results, ReplyPieces, Escape, CStr, ParseRows, Writable;
    var timestamps, values := IsoTexts(fmt, rows), NumberTexts(fmt, rows);
    WrittenNonEmpty(name, timestamps, values);
    ContainerReadBack(name, timestamps, values);
    NoNextToken(name, timestamps, values);
    ResultReadBack(name, timestamps, values);
    FieldsReadBack(name, timestamps, values);
    ListsReadBack(name, timestamps, values);
    RowsReadBack(fmt, rows);
    EscapeEmpty(name);
    assert CStr("m1") == "m1" && CStr("Complete") == "Complete" by {
      assert '\0' !in "m1" && '\0' !in "Complete";
    }
  }

  predicate NeedsEscape(c: Byte) {
    c == '&' || c == '<' || c == '>' || c == '"'
  }

  lemma {:induction false} EscapeGrows(s: Bytes)
    ensures |Escape(s)| >= |s|
    ensures |Escape(s)| == |s| <==> forall i | 0 <= i < |s| :: !NeedsEscape(s[i])
    ensures |Escape(s)| == |s| ==> Escape(s) == s
  {
    if s == [] {
    } else {
      EscapeGrows(s[1..]);
      assert |EscapeByte(s[0])| == 1 <==> !NeedsEscape(s[0]);
      assert s == [s[0]] + s[1..];
    }
  }

  lemma {:induction false} EscapeKeepsText(s: Bytes)
    requires '\0' !in s
    ensures '\0' !in Escape(s)
  {
    if s == [] {
    } else {
      EscapeKeepsText(s[1..]);
      assert '\0' !in EscapeByte(s[0]);
    }
  }

  /** The label is the metric's own name exactly when the name has nothing to escape and no NUL: the client never decodes it. */
  lemma LabelIsName(name: Bytes)
    ensures CStr(Escape(name)) == name <==> '\0' !in name && forall i | 0 <= i < |name| :: !NeedsEscape(name[i])
  {
    hide CStr, Escape;
    EscapeGrows(name);
    if '\0' !in name {
      EscapeKeepsText(name);
    }
  }

  // ---------- how a conversion fails ----------

  ghost predicate Readable(fmt: ReplyFormats, timestamps: seq<Bytes>, values: seq<Bytes>, k: nat)
    requires k < |timestamps| == |values|
  {
    fmt.parseTime(timestamps[k]).Some? && fmt.parseNumber(values[k]).Some?
  }

  /** The arrays are read row by row; the first row that cannot be read fails the conversion, its value being tried before its time. */
  lemma {:induction false} RowsReadExactly(fmt: ReplyFormats, timestamps: seq<Bytes>, values: seq<Bytes>)
    requires |timestamps| == |values|
    ensures var r := ParseRows(fmt, timestamps, values);
            && (r.Ok? <==> forall k | 0 <= k < |values| :: Readable(fmt, timestamps, values, k))
            && (r.Ok? ==> forall k | 0 <= k < |values| ::
                  fmt.parseTime(timestamps[k]) == Some(r.value.0[k]) && fmt.parseNumber(values[k]) == Some(r.value.1[k]))
            && (r.Err? ==> exists k | 0 <= k < |values| ::
                  && (forall j | 0 <= j < k :: Readable(fmt, timestamps, values, j)) && !Readable(fmt, timestamps, values, k)
                  && r.error == if fmt.parseNumber(values[k]).None? then BadValue(values[k]) else BadTimestamp(timestamps[k]))
  {
    if timestamps == [] {
    } else {
      var n := |timestamps| - 1;
      RowsReadExactly(fmt, timestamps[..n], values[..n]);
      forall k | 0 <= k < n ensures Readable(fmt, timestamps[..n], values[..n], k) <==> Readable(fmt, timestamps, values, k) {
      }
      var front := ParseRows(fmt, timestamps[..n], values[..n]);
      if front.Err? {
        var k :| 0 <= k < n && (forall j | 0 <= j < k :: Readable(fmt, timestamps[..n], values[..n], j))
                 && !Readable(fmt, timestamps[..n], values[..n], k)
                 && front.error == if fmt.parseNumber(values[..n][k]).None? then BadValue(values[..n][k]) else BadTimestamp(timestamps[..n][k]);
        assert !Readable(fmt, timestamps, values, k);
      } else {
        assert Readable(fmt, timestamps, values, n) || !Readable(fmt, timestamps, values, n);
      }
    }
  }

  /** Arrays of different lengths are refused; a row with an infinity or NaN is read but cannot be written. */
  lemma ArraysFit(fmt: ReplyFormats, timestamps: seq<Bytes>, values: seq<Bytes>, attributes: seq<Option<Bytes>>)
    requires |attributes| == 4
    ensures var r := ConvertArrays(fmt, timestamps, values, attributes);
            && (r == Err(MismatchedArrays) <==> |timestamps| != |values|)
            && (r == Err(NotConverted) <==>
                  && |timestamps| == |values| && (forall k | 0 <= k < |values| :: Readable(fmt, timestamps, values, k))
                  && exists k | 0 <= k < |values| :: fmt.parseNumber(values[k]) == Some(NonFinite))
  {
    if |timestamps| == |values| {
      RowsReadExactly(fmt, timestamps, values);
      hide ParseRows;
      var rows := ParseRows(fmt, timestamps, values);
      if rows.Ok? && !Writable(rows.value.1) {
        var k :| 0 <= k < |rows.value.1| && rows.value.1[k].NonFinite?;
        assert fmt.parseNumber(values[k]) == Some(NonFinite);
      }
    }
  }
}
