/**
 * Printed documents and the trees the alarms table's parser (src/alerts_table.cpp) reads from them.
 * Text is escaped as the listener escapes it (src/cloudwatch_server.cpp).
 */
module XmlRoundTrip {
  import opened Strings
  import opened XmlEntities
  import opened XmlGrammar

  // ---------- documents ----------

  /** What may stand around elements without adding to the tree. */
  datatype Misc = Space(bytes: Bytes) | Comment(body: Bytes) | Instruction(body: Bytes)

  datatype Attribute = Attribute(name: Bytes, quote: Byte, value: Bytes)

  /** gap follows the text, after follows the element inside its parent. */
  datatype Element = Element(
    prefix: Bytes,
    name: Bytes,
    attributes: seq<Attribute>,
    selfClosing: bool,
    text: Bytes,
    gap: seq<Misc>,
    children: seq<Element>,
    after: seq<Misc>)

  function Qualified(e: Element): Bytes {
    if e.prefix == [] then e.name else e.prefix + ":" + e.name
  }

  function PrintMisc(m: Misc): Bytes {
    match m
    case Space(bytes) => bytes
    case Comment(body) => "<!--" + body + "-->"
    case Instruction(body) => "<?" + body + "?>"
  }

  function PrintGap(gap: seq<Misc>): Bytes {
    if gap == [] then [] else PrintMisc(gap[0]) + PrintGap(gap[1..])
  }

  function PrintAttribute(a: Attribute): Bytes {
    " " + a.name + "=" + [a.quote] + a.value + [a.quote]
  }

  function PrintAttributes(attributes: seq<Attribute>): Bytes {
    if attributes == [] then [] else PrintAttribute(attributes[0]) + PrintAttributes(attributes[1..])
  }

  function PrintClosing(e: Element): Bytes {
    "</" + (Qualified(e) + ">")
  }

  function PrintContent(e: Element): Bytes
    decreases e, 0
  {
    Escape(e.text) + (PrintGap(e.gap) + (PrintChildren(e.children) + PrintClosing(e)))
  }

  function Print(e: Element): Bytes
    decreases e, 1
  {
    "<" + (Qualified(e) + (PrintAttributes(e.attributes) + if e.selfClosing then "/>" else ">" + PrintContent(e)))
  }

  function PrintChildren(children: seq<Element>): Bytes
    decreases children, 0
  {
    if children == [] then []
    else Print(children[0]) + (PrintGap(children[0].after) + PrintChildren(children[1..]))
  }

  /** The tree the document stands for. */
  function Tree(e: Element): XmlNode
    decreases e, 1
  {
    XmlNode(e.name, e.text, Trees(e.children))
  }

  function Trees(children: seq<Element>): seq<XmlNode>
    decreases children, 0
  {
    if children == [] then [] else [Tree(children[0])] + Trees(children[1..])
  }

  // ---------- which documents are meant ----------

  predicate PlainName(name: Bytes) {
    name != [] && ':' !in name && forall i | 0 <= i < |name| :: InName(name[i])
  }

  predicate PlainMisc(m: Misc) {
    match m
    case Space(bytes) => AllSpace(bytes)
    case Comment(body) => !Contains(body, "-->")
    case Instruction(body) => !Contains(body, "?>")
  }

  predicate PlainGap(gap: seq<Misc>) {
    forall i | 0 <= i < |gap| :: PlainMisc(gap[i])
  }

  predicate NotInTag(c: Byte) {
    c != '"' && c != '\'' && c != '>' && c != '/'
  }

  predicate PlainAttribute(a: Attribute) {
    && (a.quote == '"' || a.quote == '\'')
    && a.quote !in a.value
    && forall i | 0 <= i < |a.name| :: NotInTag(a.name[i])
  }

  predicate WellFormed(e: Element)
    decreases e, 1
  {
    && PlainName(e.name) && (e.prefix != [] ==> PlainName(e.prefix))
    && Qualified(e)[0] != '?' && Qualified(e)[0] != '!'
    && (forall i | 0 <= i < |e.attributes| :: PlainAttribute(e.attributes[i]))
    && (e.selfClosing ==> e.text == [] && e.gap == [] && e.children == [])
    && Trimmed(e.text) && PlainGap(e.gap) && PlainGap(e.after)
    && AllWellFormed(e.children)
  }

  predicate AllWellFormed(children: seq<Element>)
    decreases children, 0
  {
    children == [] || (WellFormed(children[0]) && AllWellFormed(children[1..]))
  }

  // ---------- names and tags ----------

  lemma {:induction false} NameEnds(q: Bytes, u: Bytes)
    requires forall i | 0 <= i < |q| :: InName(q[i])
    requires u != [] && !InName(u[0])
    ensures NameLength(q + u) == |q|
  {
    if q == [] {
      assert q + u == u;
    } else {
      NameEnds(q[1..], u);
      assert (q + u)[1..] == q[1..] + u;
    }
  }

  predicate PlainQualified(e: Element) {
    PlainName(e.name) && (e.prefix != [] ==> PlainName(e.prefix))
  }

  lemma QualifiedName(e: Element)
    requires PlainQualified(e)
    ensures LocalName(Qualified(e)) == e.name
    ensures Qualified(e) != [] && forall i | 0 <= i < |Qualified(e)| :: InName(Qualified(e)[i])
  {
    var q := Qualified(e);
    if e.prefix == [] {
      FindFirst(e.name, ':', []);
    } else {
      FindFirst(e.prefix, ':', e.name);
      assert q[|e.prefix| + 1..] == e.name;
    }
  }

  lemma NameRead(e: Element, u: Bytes)
    requires PlainQualified(e) && u != [] && !InName(u[0])
    ensures ParseName(Qualified(e) + u) == Ok((e.name, u))
  {
    hide LocalName, Qualified, NameLength;
    QualifiedName(e);
    NameEnds(Qualified(e), u);
    var s := Qualified(e) + u;
    assert s[..|Qualified(e)|] == Qualified(e) && s[|Qualified(e)|..] == u;
  }

  lemma {:induction false} SkipPlain(s: Bytes, u: Bytes)
    requires forall i | 0 <= i < |s| :: NotInTag(s[i])
    ensures SkipTag(s + u, None) == SkipTag(u, None)
  {
    if s == [] {
      assert s + u == u;
    } else {
      SkipPlain(s[1..], u);
      assert (s + u)[1..] == s[1..] + u;
    }
  }

  lemma {:induction false} SkipQuoted(s: Bytes, quote: Byte, u: Bytes)
    requires quote !in s
    ensures SkipTag(s + ([quote] + u), Some(quote)) == SkipTag(u, None)
  {
    var t := s + ([quote] + u);
    if s == [] {
      assert t[1..] == u;
    } else {
      SkipQuoted(s[1..], quote, u);
      assert t[1..] == s[1..] + ([quote] + u);
    }
  }

  lemma OpenQuote(quote: Byte, u: Bytes)
    requires quote == '"' || quote == '\''
    ensures SkipTag([quote] + u, None) == SkipTag(u, Some(quote))
  {
    assert ([quote] + u)[1..] == u;
  }

  lemma SkipAttribute(a: Attribute, u: Bytes)
    requires PlainAttribute(a)
    ensures SkipTag(PrintAttribute(a) + u, None) == SkipTag(u, None)
  {
    hide SkipTag;
    var front, rest := " " + a.name + "=", a.value + ([a.quote] + u);
    assert PrintAttribute(a) + u == front + ([a.quote] + rest);
    SkipPlain(front, [a.quote] + rest);
    OpenQuote(a.quote, rest);
    SkipQuoted(a.value, a.quote, u);
  }

  lemma {:induction false} SkipAttributes(attributes: seq<Attribute>, u: Bytes)
    requires forall i | 0 <= i < |attributes| :: PlainAttribute(attributes[i])
    ensures SkipTag(PrintAttributes(attributes) + u, None) == SkipTag(u, None)
  {
    hide SkipTag, PrintAttribute, PlainAttribute;
    if attributes == [] {
      assert PrintAttributes(attributes) + u == u;
    } else {
      Regroup(PrintAttribute(attributes[0]), PrintAttributes(attributes[1..]), u);
      SkipAttribute(attributes[0], PrintAttributes(attributes[1..]) + u);
      SkipAttributes(attributes[1..], u);
    }
  }

  lemma TagEnds(u: Bytes)
    ensures SkipTag(">" + u, None) == (false, u) && SkipTag("/>" + u, None) == (true, u)
  {
    assert (">" + u)[1..] == u && ("/>" + u)[2..] == u;
  }

  // ---------- gaps ----------

  /** Markup that is neither text nor skipped: a tag. */
  predicate Solid(u: Bytes) {
    u != [] && u[0] == '<' && !StartsWith(u, "<?") && !StartsWith(u, "<!--")
  }

  lemma {:induction false} SkipSpaces(w: Bytes, u: Bytes)
    requires AllSpace(w)
    ensures TrimLeft(w + u) == TrimLeft(u)
  {
    if w == [] {
      assert w + u == u;
    } else {
      SkipSpaces(w[1..], u);
      assert (w + u)[1..] == w[1..] + u;
    }
  }

  /** Text without the closing mark, followed by the mark, ends exactly there. */
  lemma MarkEnds(open: Bytes, body: Bytes, close: Bytes, u: Bytes)
    requires !Contains(body, close) && (close == "-->" || close == "?>")
    ensures Find(open + body + close + u, close, |open|) == Some(|open| + |body|)
  {
    var s := open + body + close + u;
    var end := |open| + |body|;
    assert s[end..end + |close|] == close;
    assert At(s, end, close);
    forall k | |open| <= k < end ensures !At(s, k, close) {
      if k + |close| <= end {
        assert s[k..k + |close|] == body[k - |open|..k - |open| + |close|];
        assert !At(body, k - |open|, close);
      } else {
        var last := k + |close| - 1;
        assert s[k..k + |close|][|close| - 1] == s[last] == close[last - end];
      }
    }
  }

  lemma StartsNonSpace(s: Bytes)
    requires s != [] && !IsSpace(s[0])
    ensures TrimLeft(s) == s
  {
  }

  lemma SkipComment(body: Bytes, u: Bytes)
    requires !Contains(body, "-->")
    ensures SkipMisc("<!--" + body + "-->" + u) == SkipMisc(u)
  {
    hide Contains, Find, SkipMisc;
    var s := "<!--" + body + "-->" + u;
    MarkEnds("<!--", body, "-->", u);
    StartsNonSpace(s);
    SkipMiscUnfold(s, s);
    assert s[4 + |body| + 3..] == u;
    assert s[0..4] == "<!--" && s[1] != '?';
  }

  lemma SkipInstruction(body: Bytes, u: Bytes)
    requires !Contains(body, "?>")
    ensures SkipMisc("<?" + body + "?>" + u) == SkipMisc(u)
  {
    hide Contains, Find, SkipMisc;
    var s := "<?" + body + "?>" + u;
    MarkEnds("<?", body, "?>", u);
    StartsNonSpace(s);
    SkipMiscUnfold(s, s);
    assert s[2 + |body| + 2..] == u;
    assert s[0..2] == "<?";
  }

  lemma SkipOne(m: Misc, u: Bytes)
    requires PlainMisc(m)
    ensures SkipMisc(PrintMisc(m) + u) == SkipMisc(u)
  {
    hide Contains, Find, SkipMisc, TrimLeft;
    match m
    case Space(bytes) =>
      SkipSpaces(bytes, u);
      SkipMiscUnfold(bytes + u, TrimLeft(u));
      SkipMiscUnfold(u, TrimLeft(u));
    case Comment(body) => SkipComment(body, u);
    case Instruction(body) => SkipInstruction(body, u);
  }

  lemma SkipSolid(u: Bytes)
    requires Solid(u)
    ensures SkipMisc(u) == Ok(u)
  {
  }

  lemma {:induction false} SkipGap(gap: seq<Misc>, u: Bytes)
    requires PlainGap(gap) && Solid(u)
    ensures SkipMisc(PrintGap(gap) + u) == Ok(u)
  {
    hide SkipMisc, PrintMisc, PlainMisc, Solid;
    if gap == [] {
      assert PrintGap(gap) + u == u;
      SkipSolid(u);
    } else {
      Regroup(PrintMisc(gap[0]), PrintGap(gap[1..]), u);
      SkipOne(gap[0], PrintGap(gap[1..]) + u);
      SkipGap(gap[1..], u);
    }
  }

  /** The part of a gap that the content loop takes for text: the whitespace before its first comment. */
  function GapText(gap: seq<Misc>): Bytes {
    if gap == [] || !gap[0].Space? then [] else gap[0].bytes + GapText(gap[1..])
  }

  lemma {:induction false} GapTextIsSpace(gap: seq<Misc>)
    requires PlainGap(gap)
    ensures AllSpace(GapText(gap))
  {
    if gap == [] || !gap[0].Space? {
    } else {
      GapTextIsSpace(gap[1..]);
      assert PlainMisc(gap[0]);
    }
  }

  lemma FirstByte(s: Bytes, pat: Bytes)
    requires StartsWith(s, pat) && pat != []
    ensures s != [] && s[0] == pat[0]
  {
    assert s[0..|pat|][0] == pat[0];
  }

  lemma StartsNoTag(s: Bytes)
    requires s != [] && s[0] != '<'
    ensures !StartsWith(s, "</") && !StartsWith(s, "<!--") && !StartsWith(s, "<?")
  {
    hide StartsWith;
    if StartsWith(s, "</") { FirstByte(s, "</"); }
    if StartsWith(s, "<!--") { FirstByte(s, "<!--"); }
    if StartsWith(s, "<?") { FirstByte(s, "<?"); }
  }

  lemma ContentByte(c: Byte, u: Bytes, name: Bytes, text: Bytes, children: seq<XmlNode>)
    requires c != '<'
    ensures ParseContent([c] + u, name, text, children) == ParseContent(u, name, text + [c], children)
  {
    hide ParseNode, ParseClosing, SkipMisc, Decode, StartsWith;
    var s := [c] + u;
    assert s[0] == c && s[1..] == u;
    StartsNoTag(s);
  }

  lemma {:induction false} ContentText(t: Bytes, u: Bytes, name: Bytes, text: Bytes, children: seq<XmlNode>)
    requires '<' !in t
    ensures ParseContent(t + u, name, text, children) == ParseContent(u, name, text + t, children)
  {
    hide ParseContent;
    if t == [] {
      assert t + u == u && text + t == text;
    } else {
      ContentByte(t[0], t[1..] + u, name, text, children);
      ContentText(t[1..], u, name, text + [t[0]], children);
      assert [t[0]] + (t[1..] + u) == t + u;
      assert text + [t[0]] + t[1..] == text + t;
    }
  }

  lemma ContentSkip(s: Bytes, u: Bytes, name: Bytes, text: Bytes, children: seq<XmlNode>)
    requires StartsWith(s, "<!--") || StartsWith(s, "<?")
    requires SkipMisc(s) == Ok(u)
    ensures ParseContent(s, name, text, children) == ParseContent(u, name, text, children)
  {
    hide ParseNode, ParseClosing, SkipMisc, Decode;
    assert s[0] == '<' && s[1] != '/';
  }

  lemma MarkStarts(m: Misc, v: Bytes, u: Bytes)
    requires !m.Space?
    ensures StartsWith(PrintMisc(m) + v + u, "<!--") || StartsWith(PrintMisc(m) + v + u, "<?")
  {
  }

  lemma {:induction false} ContentGap(gap: seq<Misc>, u: Bytes, name: Bytes, text: Bytes, children: seq<XmlNode>)
    requires PlainGap(gap) && Solid(u)
    ensures ParseContent(PrintGap(gap) + u, name, text, children) == ParseContent(u, name, text + GapText(gap), children)
  {
    hide ParseContent, SkipMisc, Solid;
    if gap == [] {
      assert PrintGap(gap) + u == u && text + GapText(gap) == text;
    } else {
      var rest := PrintGap(gap[1..]) + u;
      assert PlainMisc(gap[0]);
      if gap[0].Space? {
        Regroup(gap[0].bytes, PrintGap(gap[1..]), u);
        ContentText(gap[0].bytes, rest, name, text, children);
        ContentGap(gap[1..], u, name, text + gap[0].bytes, children);
        Regroup(text, gap[0].bytes, GapText(gap[1..]));
      } else {
        SkipGap(gap, u);
        MarkStarts(gap[0], PrintGap(gap[1..]), u);
        ContentSkip(PrintGap(gap) + u, u, name, text, children);
        assert text + [] == text;
      }
    }
  }

  // ---------- elements ----------

  lemma TagStarts(e: Element, u: Bytes)
    requires WellFormed(e)
    ensures Solid(Print(e) + u) && !StartsWith(Print(e) + u, "</")
  {
    hide Qualified, PrintAttributes, PrintContent, AllWellFormed;
    var s := Print(e) + u;
    assert Qualified(e) != [] && InName(Qualified(e)[0]) by { QualifiedName(e); }
    assert s[0] == '<' && s[1] == Qualified(e)[0];
  }

  lemma ClosingStarts(e: Element, u: Bytes)
    ensures Solid(PrintClosing(e) + u) && StartsWith(PrintClosing(e) + u, "</")
  {
    hide Qualified;
    assert (PrintClosing(e) + u)[1] == '/';
  }

  lemma ChildrenStart(children: seq<Element>, u: Bytes)
    requires AllWellFormed(children) && Solid(u)
    ensures Solid(PrintChildren(children) + u)
  {
    hide Print, PrintGap, WellFormed, Solid;
    if children == [] {
      assert PrintChildren(children) + u == u;
    } else {
      var rest := PrintGap(children[0].after) + PrintChildren(children[1..]);
      Regroup(Print(children[0]), rest, u);
      TagStarts(children[0], rest + u);
    }
  }

  /** The whitespace between children that ends up behind the element's own text. */
  function ChildrenText(children: seq<Element>): Bytes {
    if children == [] then [] else GapText(children[0].after) + ChildrenText(children[1..])
  }

  lemma {:induction false} ChildrenTextIsSpace(children: seq<Element>)
    requires AllWellFormed(children)
    ensures AllSpace(ChildrenText(children))
  {
    hide GapText;
    if children == [] {
    } else {
      GapTextIsSpace(children[0].after);
      ChildrenTextIsSpace(children[1..]);
    }
  }

  lemma {:induction false} TrimRightPad(t: Bytes, w: Bytes)
    requires AllSpace(w) && (t == [] || !IsSpace(t[|t| - 1]))
    ensures TrimRight(t + w) == t
  {
    if w == [] {
      assert t + w == t;
    } else {
      TrimRightPad(t, w[..|w| - 1]);
      assert (t + w)[..|t + w| - 1] == t + w[..|w| - 1];
    }
  }

  lemma TrimPad(t: Bytes, w: Bytes)
    requires Trimmed(t) && AllSpace(w)
    ensures Trim(t + w) == t
  {
    if t == [] {
      SkipSpaces(w, []);
      assert t + w == w + [] == w;
    } else {
      assert TrimLeft(t + w) == t + w;
      TrimRightPad(t, w);
    }
  }

  lemma {:induction false} DecodeSpace(w: Bytes)
    requires AllSpace(w)
    ensures DecodeRaw(w) == w
  {
    if w == [] {
    } else {
      DecodeSpace(w[1..]);
    }
  }

  /** An element's text survives escaping, the whitespace around its children, and trimming. */
  lemma TextRecovered(t: Bytes, w: Bytes)
    requires Trimmed(t) && AllSpace(w)
    ensures Decode(Escape(t) + w) == t
  {
    hide DecodeRaw, Escape, Trim;
    EscapeThenMore(t, w);
    DecodeSpace(w);
    TrimPad(t, w);
  }

  lemma ContentCloses(e: Element, u: Bytes, text: Bytes, children: seq<XmlNode>)
    requires PlainQualified(e)
    ensures ParseContent(PrintClosing(e) + u, e.name, text, children) == Ok((XmlNode(e.name, Decode(text), children), u))
  {
    hide ParseNode, SkipMisc, Decode, Qualified, ParseName;
    var s := PrintClosing(e) + u;
    ClosingStarts(e, u);
    assert s[2..] == Qualified(e) + (">" + u);
    NameRead(e, ">" + u);
    assert (">" + u)[1..] == u;
    assert TrimLeft(">" + u) == ">" + u;
  }

  lemma ContentChild(s: Bytes, child: XmlNode, u: Bytes, name: Bytes, text: Bytes, children: seq<XmlNode>)
    requires Solid(s) && !StartsWith(s, "</") && ParseNode(s) == Ok((child, u))
    ensures ParseContent(s, name, text, children) == ParseContent(u, name, text, children + [child])
  {
    hide ParseNode, ParseClosing, SkipMisc, Decode;
  }

  lemma TagFollowsName(e: Element, end: Bytes, u: Bytes)
    requires end != [] && (end[0] == '>' || end[0] == '/')
    ensures var tag := PrintAttributes(e.attributes) + (end + u); tag != [] && !InName(tag[0])
  {
    if e.attributes != [] {
      assert PrintAttributes(e.attributes)[0] == ' ';
    }
  }

  lemma NodeOpens(e: Element, u: Bytes)
    requires PlainQualified(e) && forall i | 0 <= i < |e.attributes| :: PlainAttribute(e.attributes[i])
    ensures ParseNode(Print(e) + u) ==
            if e.selfClosing then Ok((XmlNode(e.name, [], []), u)) else ParseContent(PrintContent(e) + u, e.name, [], [])
  {
    hide ParseContent, ParseName, SkipTag, Qualified, PrintAttributes, PrintContent, PlainAttribute;
    var end := if e.selfClosing then "/>" else ">" + PrintContent(e);
    var tag := PrintAttributes(e.attributes) + (end + u);
    var s := Print(e) + u;
    assert s[1..] == Qualified(e) + tag;
    TagFollowsName(e, end, u);
    NameRead(e, tag);
    SkipAttributes(e.attributes, end + u);
    if e.selfClosing {
      TagEnds(u);
    } else {
      Regroup(">", PrintContent(e), u);
      TagEnds(PrintContent(e) + u);
    }
  }

  lemma ContentLayout(e: Element, u: Bytes)
    ensures PrintContent(e) + u == Escape(e.text) + (PrintGap(e.gap) + (PrintChildren(e.children) + (PrintClosing(e) + u)))
  {
    hide Escape, PrintGap, PrintChildren, PrintClosing;
    Regroup(Escape(e.text), PrintGap(e.gap) + (PrintChildren(e.children) + PrintClosing(e)), u);
    Regroup(PrintGap(e.gap), PrintChildren(e.children) + PrintClosing(e), u);
    Regroup(PrintChildren(e.children), PrintClosing(e), u);
  }

  lemma {:induction false} ContentReadBack(e: Element, u: Bytes)
    requires WellFormed(e)
    ensures ParseContent(PrintContent(e) + u, e.name, [], []) == Ok((Tree(e), u))
    decreases e, 0
  {
    hide ParseContent, ParseNode, Print, PrintClosing, PrintChildren, PrintGap, Escape, GapText, ChildrenText, Trees, Solid, Qualified, Decode;
    var closing := PrintClosing(e) + u;
    var children := PrintChildren(e.children) + closing;
    var gap := PrintGap(e.gap) + children;
    ContentLayout(e, u);
    ClosingStarts(e, u);
    ChildrenStart(e.children, closing);
    EscapeSafe(e.text);
    ContentText(Escape(e.text), gap, e.name, [], []);
    ContentGap(e.gap, children, e.name, [] + Escape(e.text), []);
    ChildrenReadBack(e.children, closing, e.name, [] + Escape(e.text) + GapText(e.gap), []);
    ContentCloses(e, u, [] + Escape(e.text) + GapText(e.gap) + ChildrenText(e.children), [] + Trees(e.children));
    GapTextIsSpace(e.gap);
    ChildrenTextIsSpace(e.children);
    TextRecovered(e.text, GapText(e.gap) + ChildrenText(e.children));
    assert [] + Escape(e.text) + GapText(e.gap) + ChildrenText(e.children) == Escape(e.text) + (GapText(e.gap) + ChildrenText(e.children));
    assert [] + Trees(e.children) == Trees(e.children);
  }

  lemma {:induction false} NodeReadBack(e: Element, u: Bytes)
    requires WellFormed(e)
    ensures ParseNode(Print(e) + u) == Ok((Tree(e), u))
    decreases e, 1
  {
    hide ParseNode, Print, PrintContent, AllWellFormed, Qualified, PlainAttribute, PrintAttributes;
    NodeOpens(e, u);
    if e.selfClosing {
      assert Trees(e.children) == [];
    } else {
      assert ParseContent(PrintContent(e) + u, e.name, [], []) == Ok((Tree(e), u)) by { ContentReadBack(e, u); }
    }
  }

  lemma {:induction false} ChildrenReadBack(children: seq<Element>, u: Bytes, name: Bytes, text: Bytes, done: seq<XmlNode>)
    requires AllWellFormed(children) && Solid(u)
    ensures ParseContent(PrintChildren(children) + u, name, text, done) ==
            ParseContent(u, name, text + ChildrenText(children), done + Trees(children))
    decreases children, 0
  {
    hide ParseContent, ParseNode, Print, PrintGap, GapText, Tree, Solid;
    if children == [] {
      assert PrintChildren(children) + u == u && text + ChildrenText(children) == text && done + Trees(children) == done;
    } else {
      var c, rest := children[0], PrintChildren(children[1..]) + u;
      var v := PrintGap(c.after) + rest;
      assert PrintChildren(children) + u == Print(c) + v by {
        Regroup(Print(c), PrintGap(c.after) + PrintChildren(children[1..]), u);
        Regroup(PrintGap(c.after), PrintChildren(children[1..]), u);
      }
      NodeReadBack(c, v);
      TagStarts(c, v);
      ContentChild(Print(c) + v, Tree(c), v, name, text, done);
      ChildrenStart(children[1..], u);
      ContentGap(c.after, rest, name, text, done + [Tree(c)]);
      ChildrenReadBack(children[1..], u, name, text + GapText(c.after), done + [Tree(c)]);
      Regroup(text, GapText(c.after), ChildrenText(children[1..]));
      assert done + [Tree(c)] + Trees(children[1..]) == done + ([Tree(c)] + Trees(children[1..]));
    }
  }

  /**
   * The parser inverts the printer: whatever prefixes, attributes, whitespace, comments and
   * declarations a document carries, parsing it gives its tree.
   */
  lemma ParsePrint(prolog: seq<Misc>, e: Element, trailing: Bytes)
    requires WellFormed(e) && PlainGap(prolog)
    ensures Parse(PrintGap(prolog) + (Print(e) + trailing)) == Ok(Tree(e))
  {
    hide ParseNode, Print, SkipMisc, PrintGap, WellFormed;
    TagStarts(e, trailing);
    SkipGap(prolog, Print(e) + trailing);
    NodeReadBack(e, trailing);
  }
}
