/**
 * The hand-written XML parser of the alarms table (src/alerts_table.cpp): what it reads from a
 * suffix of its input.
 */
module XmlGrammar {
  import opened Strings
  import opened XmlEntities

  datatype XmlNode = XmlNode(name: Bytes, text: Bytes, children: seq<XmlNode>)

  datatype XmlError = NotXml | BadDeclaration | BadComment | BadName | Unterminated | Mismatched

  // ---------- what the parser reads from a suffix ----------

  function LocalName(name: Bytes): Bytes {
    match Find(name, ":", 0)
    case None => name
    case Some(separator) => name[separator + 1..]
  }

  lemma {:induction false} TrimLeftShorter(s: Bytes)
    ensures |TrimLeft(s)| <= |s| && TrimLeft(s) == s[|s| - |TrimLeft(s)|..]
    ensures TrimLeft(s) == s || TrimLeft(s) == TrimLeft(s[1..])
  {
    if s == [] || !IsSpace(s[0]) {
    } else {
      TrimLeftShorter(s[1..]);
    }
  }

  /** Whitespace, declarations and comments in front of the next thing. */
  function SkipMisc(s: Bytes): (r: Result<Bytes, XmlError>)
    ensures r.Ok? ==> |r.value| <= |s|
    decreases |s|
  {
    var t := TrimLeft(s);
    TrimLeftShorter(s);
    if StartsWith(t, "<?") then
      match Find(t, "?>", 2)
      case None => Err(BadDeclaration)
      case Some(end) => SkipMisc(t[end + 2..])
    else if StartsWith(t, "<!--") then
      match Find(t, "-->", 4)
      case None => Err(BadComment)
      case Some(end) => SkipMisc(t[end + 3..])
    else Ok(t)
  }

  predicate InName(c: Byte) {
    !IsSpace(c) && c != '>' && c != '/'
  }

  function NameLength(s: Bytes): (n: nat)
    ensures n <= |s|
  {
    if s == [] || !InName(s[0]) then 0 else 1 + NameLength(s[1..])
  }

  function ParseName(s: Bytes): (r: Result<(Bytes, Bytes), XmlError>)
    ensures r.Ok? ==> |r.value.1| < |s|
  {
    var n := NameLength(s);
    if n == 0 then Err(BadName) else Ok((LocalName(s[..n]), s[n..]))
  }

  /** The rest of a start tag: whether it closes the element itself, and what follows it. */
  function SkipTag(s: Bytes, quote: Option<Byte>): (r: (bool, Bytes))
    ensures |r.1| <= |s|
  {
    if s == [] then (false, s)
    else if quote.Some? then SkipTag(s[1..], if s[0] == quote.value then None else quote)
    else if s[0] == '"' || s[0] == '\'' then SkipTag(s[1..], Some(s[0]))
    else if s[0] == '/' && |s| > 1 && s[1] == '>' then (true, s[2..])
    else if s[0] == '>' then (false, s[1..])
    else SkipTag(s[1..], None)
  }

  function ParseNode(s: Bytes): (r: Result<(XmlNode, Bytes), XmlError>)
    requires s != []
    ensures r.Ok? ==> |r.value.1| < |s|
    decreases |s|, 0
  {
    var named := ParseName(s[1..]);
    if named.Err? then Err(named.error)
    else
      var tag := SkipTag(named.value.1, None);
      if tag.0 then Ok((XmlNode(named.value.0, [], []), tag.1))
      else ParseContent(tag.1, named.value.0, [], [])
  }

  function ParseClosing(s: Bytes, name: Bytes): (r: Result<Bytes, XmlError>)
    ensures r.Ok? ==> |r.value| < |s|
  {
    var closing := ParseName(s);
    if closing.Err? then Err(closing.error)
    else
      var t := TrimLeft(closing.value.1);
      TrimLeftShorter(closing.value.1);
      if t == [] || t[0] != '>' || closing.value.0 != name then Err(Mismatched) else Ok(t[1..])
  }

  /** The parser skips at least the markup it stopped at, so the content loop always moves on. */
  lemma SkipMiscMoves(s: Bytes)
    requires StartsWith(s, "<!--") || StartsWith(s, "<?")
    ensures SkipMisc(s).Ok? ==> |SkipMisc(s).value| < |s|
  {
    assert s[0] == '<';
    assert TrimLeft(s) == s;
  }

  /** The content loop: text and children read so far, up to the closing tag. */
  function ParseContent(s: Bytes, name: Bytes, text: Bytes, children: seq<XmlNode>): (r: Result<(XmlNode, Bytes), XmlError>)
    ensures r.Ok? ==> |r.value.1| < |s|
    decreases |s|, 1
  {
    if s == [] then Err(Unterminated)
    else if StartsWith(s, "</") then
      var closed := ParseClosing(s[2..], name);
      if closed.Err? then Err(closed.error) else Ok((XmlNode(name, Decode(text), children), closed.value))
    else if StartsWith(s, "<!--") || StartsWith(s, "<?") then
      var skipped := SkipMisc(s);
      if skipped.Err? then Err(skipped.error)
      else
        SkipMiscMoves(s);
        ParseContent(skipped.value, name, text, children)
    else if s[0] == '<' then
      var child := ParseNode(s);
      if child.Err? then Err(child.error) else ParseContent(child.value.1, name, text, children + [child.value.0])
    else ParseContent(s[1..], name, text + [s[0]], children)
  }

  function Parse(s: Bytes): Result<XmlNode, XmlError> {
    var start := SkipMisc(s);
    if start.Err? then Err(start.error)
    else if start.value == [] || start.value[0] != '<' then Err(NotXml)
    else
      var node := ParseNode(start.value);
      if node.Err? then Err(node.error) else Ok(node.value.0)
  }

  // ---------- the same at an offset of the input ----------

  lemma SuffixAt(s: Bytes, i: nat, pat: Bytes)
    requires i <= |s|
    ensures At(s, i, pat) <==> StartsWith(s[i..], pat)
  {
    if i + |pat| <= |s| {
      assert s[i..][0..|pat|] == s[i..i + |pat|];
    }
  }

  /** Markup at an offset, found by searching the whole input from there. */
  lemma FoundAt(input: Bytes, offset: nat, open: Bytes, close: Bytes)
    requires offset <= |input|
    ensures At(input, offset, open) <==> StartsWith(input[offset..], open)
    ensures var here, whole := Find(input[offset..], close, |open|), Find(input, close, offset + |open|);
            && here.Some? == whole.Some?
            && (here.Some? ==> offset + |open| <= whole.value && whole.value + |close| <= |input| && input[offset..][here.value + |close|..] == input[whole.value + |close|..])
  {
    SuffixAt(input, offset, open);
    FindShift(input, offset, close, |open|);
    var here := Find(input[offset..], close, |open|);
    if here.Some? {
      SuffixDrop(input, offset, here.value + |close|);
    }
  }

  lemma SkipMiscUnfold(before: Bytes, t: Bytes)
    requires t == TrimLeft(before)
    ensures SkipMisc(before) ==
            if StartsWith(t, "<?") then (if Find(t, "?>", 2).None? then Err(BadDeclaration) else SkipMisc(t[Find(t, "?>", 2).value + 2..]))
            else if StartsWith(t, "<!--") then (if Find(t, "-->", 4).None? then Err(BadComment) else SkipMisc(t[Find(t, "-->", 4).value + 3..]))
            else Ok(t)
  {
  }

  lemma SkipMiscStep(before: Bytes, input: Bytes, offset: nat)
    requires offset <= |input| && input[offset..] == TrimLeft(before)
    ensures var declaration, comment := At(input, offset, "<?"), At(input, offset, "<!--");
            var end := if declaration then Find(input, "?>", offset + 2) else if comment then Find(input, "-->", offset + 4) else None;
            var next := if declaration then 2 else 3;
            if end.Some? then
              offset < end.value + next <= |input| && SkipMisc(before) == SkipMisc(input[end.value + next..])
            else
              SkipMisc(before) == if declaration then Err(BadDeclaration) else if comment then Err(BadComment) else Ok(input[offset..])
  {
    hide TrimLeft, Find, At, StartsWith;
    FoundAt(input, offset, "<?", "?>");
    FoundAt(input, offset, "<!--", "-->");
    SkipMiscUnfold(before, input[offset..]);
  }

  lemma ContentEnd(name: Bytes, text: Bytes, children: seq<XmlNode>)
    ensures ParseContent([], name, text, children) == Err(Unterminated)
  {
  }

  /** One turn of the content loop, at an offset of the whole input. */
  lemma ContentStep(input: Bytes, offset: nat, name: Bytes, text: Bytes, children: seq<XmlNode>)
    requires offset < |input|
    ensures var s := input[offset..];
            ParseContent(s, name, text, children) ==
            if At(input, offset, "</") then
              var closed := ParseClosing(input[offset + 2..], name);
              if closed.Err? then Err(closed.error) else Ok((XmlNode(name, Decode(text), children), closed.value))
            else if At(input, offset, "<!--") || At(input, offset, "<?") then
              var skipped := SkipMisc(s);
              if skipped.Err? then Err(skipped.error) else ParseContent(skipped.value, name, text, children)
            else if input[offset] == '<' then
              var child := ParseNode(s);
              if child.Err? then Err(child.error) else ParseContent(child.value.1, name, text, children + [child.value.0])
            else ParseContent(input[offset + 1..], name, text + [input[offset]], children)
  {
    hide ParseNode, ParseClosing, SkipMisc, Decode;
    SuffixAt(input, offset, "</");
    SuffixAt(input, offset, "<!--");
    SuffixAt(input, offset, "<?");
    SuffixStep(input, offset);
    if At(input, offset, "</") {
      SuffixDrop(input, offset, 2);
    }
  }
}
