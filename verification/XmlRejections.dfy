/**
 * What the XML parser of the alarms table refuses (src/alerts_table.cpp): documents that are no markup,
 * markup that does not end, and elements that are not closed by their own name.
 */
module XmlRejections {
  import opened Strings
  import opened XmlGrammar
  import XmlRoundTrip

  /** Without a left angle bracket behind the whitespace there is no document. */
  lemma NotMarkup(w: Bytes, rest: Bytes)
    requires AllSpace(w) && (rest == [] || (rest[0] != '<' && !IsSpace(rest[0])))
    ensures Parse(w + rest) == Err(NotXml)
  {
    XmlRoundTrip.SkipSpaces(w, rest);
    assert TrimLeft(rest) == rest;
    SkipMiscUnfold(w + rest, rest);
    assert !StartsWith(rest, "<?") && !StartsWith(rest, "<!--") by {
      if rest != [] {
        XmlRoundTrip.StartsNoTag(rest);
      }
    }
  }

  lemma OpenedMarkup(w: Bytes, open: Bytes, rest: Bytes)
    requires AllSpace(w) && open != [] && open[0] == '<'
    ensures TrimLeft(w + (open + rest)) == open + rest && StartsWith(open + rest, open)
  {
    XmlRoundTrip.SkipSpaces(w, open + rest);
    assert (open + rest)[0] == open[0];
    assert (open + rest)[0..|open|] == open;
  }

  /** A declaration or a comment that does not end is refused, wherever markup is skipped. */
  lemma MarkupDoesNotEnd(w: Bytes, rest: Bytes)
    requires AllSpace(w)
    ensures !Contains(rest, "?>") ==> SkipMisc(w + ("<?" + rest)) == Err(BadDeclaration)
    ensures !Contains(rest, "-->") ==> SkipMisc(w + ("<!--" + rest)) == Err(BadComment)
  {
    OpenedMarkup(w, "<?", rest);
    OpenedMarkup(w, "<!--", rest);
    SkipMiscUnfold(w + ("<?" + rest), "<?" + rest);
    SkipMiscUnfold(w + ("<!--" + rest), "<!--" + rest);
    FindShift("<?" + rest, 2, "?>", 0);
    FindShift("<!--" + rest, 4, "-->", 0);
    assert ("<?" + rest)[2..] == rest && ("<!--" + rest)[4..] == rest;
    assert !StartsWith("<!--" + rest, "<?") by {
      assert ("<!--" + rest)[0..2][1] == '!' && "<?"[1] == '?';
    }
    hide Find, SkipMisc, TrimLeft;
  }

  /** A tag needs a name. */
  lemma NameMissing(rest: Bytes)
    requires rest == [] || IsSpace(rest[0]) || rest[0] == '>' || rest[0] == '/'
    ensures ParseNode("<" + rest) == Err(BadName)
  {
    assert ("<" + rest)[1..] == rest;
    hide LocalName;
  }

  /** Text that goes on to the end of the input leaves its element open. */
  lemma ElementDoesNotEnd(t: Bytes, name: Bytes, text: Bytes, children: seq<XmlNode>)
    requires '<' !in t
    ensures ParseContent(t, name, text, children) == Err(Unterminated)
  {
    XmlRoundTrip.ContentText(t, [], name, text, children);
    assert t + [] == t;
    ContentEnd(name, text + t, children);
    hide ParseContent;
  }

  /** A closing tag as it stands behind its two opening bytes: a name, whitespace, and what comes then. */
  lemma ClosingRead(closing: Bytes, gap: Bytes, rest: Bytes, name: Bytes)
    requires closing != [] && (forall i | 0 <= i < |closing| :: InName(closing[i]))
    requires AllSpace(gap) && rest != [] && !InName(rest[0]) && !IsSpace(rest[0])
    ensures ParseClosing(closing + (gap + rest), name) ==
            if rest[0] == '>' && LocalName(closing) == name then Ok(rest[1..]) else Err(Mismatched)
  {
    var u := gap + rest;
    assert u[0] == if gap == [] then rest[0] else gap[0];
    XmlRoundTrip.NameEnds(closing, u);
    assert (closing + u)[..|closing|] == closing && (closing + u)[|closing|..] == u;
    XmlRoundTrip.SkipSpaces(gap, rest);
    assert TrimLeft(rest) == rest;
    hide LocalName, NameLength, TrimLeft;
  }

  lemma ContentCloses(tail: Bytes, name: Bytes, text: Bytes, children: seq<XmlNode>)
    ensures var closed := ParseClosing(tail, name);
            var content := ParseContent("</" + tail, name, text, children);
            if closed.Err? then content == Err(closed.error)
            else content.Ok? && content.value.0.name == name && content.value.0.children == children && content.value.1 == closed.value
  {
    var s := "</" + tail;
    assert s[0..2] == "</" && s[2..] == tail;
    hide ParseClosing, ParseNode, SkipMisc;
  }

  /** An element is closed by a tag of its own name, prefix aside, and by no other: the parse ends there or fails. */
  lemma ClosedByItsName(t: Bytes, closing: Bytes, gap: Bytes, rest: Bytes, name: Bytes)
    requires '<' !in t && closing != [] && (forall i | 0 <= i < |closing| :: InName(closing[i])) && AllSpace(gap)
    ensures var content := ParseContent(t + ("</" + (closing + (gap + (">" + rest)))), name, [], []);
            if LocalName(closing) == name then content.Ok? && content.value.0.name == name && content.value.0.children == [] && content.value.1 == rest
            else content == Err(Mismatched)
  {
    var tail := closing + (gap + (">" + rest));
    XmlRoundTrip.ContentText(t, "</" + tail, name, [], []);
    ClosingRead(closing, gap, ">" + rest, name);
    assert (">" + rest)[1..] == rest;
    ContentCloses(tail, name, [] + t, []);
    hide ParseContent, ParseClosing, LocalName;
  }
}
