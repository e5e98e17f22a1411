/**
 * The parser class of the alarms table (src/alerts_table.cpp): it moves an offset over its input
 * and reads exactly what XmlGrammar says of the suffix there.
 */
module XmlParserObject {
  import opened Strings
  import opened XmlEntities
  import opened XmlGrammar

  class XmlParser {
    const input: Bytes
    var offset: nat

    constructor (input: Bytes)
      ensures this.input == input && offset == 0
    {
      this.input := input;
      offset := 0;
    }

    ghost function Rest(): Bytes
      reads this
      requires offset <= |input|
    {
      input[offset..]
    }

    method SkipSpace()
      requires offset <= |input|
      modifies this
      ensures old(offset) <= offset <= |input| && Rest() == TrimLeft(old(Rest()))
    {
      while offset < |input| && IsSpace(input[offset])
        invariant old(offset) <= offset <= |input| && TrimLeft(Rest()) == TrimLeft(old(Rest()))
      {
        SuffixStep(input, offset);
        offset := offset + 1;
      }
    }

    method SkipMisc() returns (error: Option<XmlError>)
      requires offset <= |input|
      modifies this
      ensures old(offset) <= offset <= |input|
      ensures XmlGrammar.SkipMisc(old(Rest())) == if error.Some? then Err(error.value) else Ok(Rest())
    {
      hide XmlGrammar.SkipMisc, TrimLeft;
      error := None;
      var more := true;
      while more
        invariant old(offset) <= offset <= |input|
        invariant more ==> error.None? && XmlGrammar.SkipMisc(Rest()) == XmlGrammar.SkipMisc(old(Rest()))
        invariant !more ==> XmlGrammar.SkipMisc(old(Rest())) == if error.Some? then Err(error.value) else Ok(Rest())
        decreases |input| - offset, more
      {
        ghost var before := Rest();
        SkipSpace();
        SkipMiscStep(before, input, offset);
        var declaration, comment := At(input, offset, "<?"), At(input, offset, "<!--");
        var end := if declaration then Find(input, "?>", offset + 2) else if comment then Find(input, "-->", offset + 4) else None;
        if end.Some? {
          offset := end.value + (if declaration then 2 else 3);
        } else {
          error := if declaration then Some(BadDeclaration) else if comment then Some(BadComment) else None;
          more := false;
        }
      }
    }

    method ParseName() returns (r: Result<Bytes, XmlError>)
      requires offset <= |input|
      modifies this
      ensures old(offset) <= offset <= |input|
      ensures var spec := XmlGrammar.ParseName(old(Rest()));
              if spec.Ok? then r == Ok(spec.value.0) && Rest() == spec.value.1 && offset > old(offset) else r == Err(spec.error)
    {
      hide LocalName;
      var start := offset;
      while offset < |input| && InName(input[offset])
        invariant start <= offset <= |input|
        invariant NameLength(old(Rest())) == offset - start + NameLength(Rest())
      {
        SuffixStep(input, offset);
        offset := offset + 1;
      }
      if start == offset {
        return Err(BadName);
      }
      SuffixDrop(input, start, offset - start);
      assert input[start..][..offset - start] == input[start..offset];
      return Ok(LocalName(input[start..offset]));
    }

    /** The attribute loop, with its quoted and quote variables. */
    method SkipTag() returns (selfClosing: bool)
      requires offset <= |input|
      modifies this
      ensures old(offset) <= offset <= |input|
      ensures XmlGrammar.SkipTag(old(Rest()), None) == (selfClosing, Rest())
    {
      selfClosing := false;
      var quote: Option<Byte> := None;
      var open := true;
      while open && offset < |input|
        invariant old(offset) <= offset <= |input|
        invariant open ==> !selfClosing && XmlGrammar.SkipTag(old(Rest()), None) == XmlGrammar.SkipTag(Rest(), quote)
        invariant !open ==> XmlGrammar.SkipTag(old(Rest()), None) == (selfClosing, Rest())
        decreases |input| - offset
      {
        var ch := input[offset];
        SuffixStep(input, offset);
        if quote.Some? {
          if ch == quote.value {
            quote := None;
          }
          offset := offset + 1;
        } else if ch == '"' || ch == '\'' {
          quote := Some(ch);
          offset := offset + 1;
        } else if ch == '/' && offset + 1 < |input| && input[offset + 1] == '>' {
          SuffixDrop(input, offset, 2);
          offset := offset + 2;
          selfClosing, open := true, false;
        } else if ch == '>' {
          offset := offset + 1;
          open := false;
        } else {
          offset := offset + 1;
        }
      }
    }

    method ParseNode() returns (r: Result<XmlNode, XmlError>)
      requires offset < |input|
      modifies this
      ensures old(offset) <= offset <= |input|
      ensures var spec := XmlGrammar.ParseNode(old(Rest()));
              if spec.Ok? then r == Ok(spec.value.0) && Rest() == spec.value.1 && offset > old(offset) else r == Err(spec.error)
      decreases |input| - offset, 0
    {
      hide XmlGrammar.ParseName, XmlGrammar.SkipTag, XmlGrammar.ParseContent;
      SuffixStep(input, offset);
      offset := offset + 1;
      var name := ParseName();
      if name.Err? {
        return Err(name.error);
      }
      var selfClosing := SkipTag();
      if selfClosing {
        return Ok(XmlNode(name.value, [], []));
      }
      r := ParseContent(name.value);
    }

    /** The closing tag behind its "</". */
    method ParseClosing(name: Bytes) returns (error: Option<XmlError>)
      requires offset <= |input|
      modifies this
      ensures old(offset) <= offset <= |input|
      ensures XmlGrammar.ParseClosing(old(Rest()), name) == if error.Some? then Err(error.value) else Ok(Rest())
    {
      hide XmlGrammar.ParseName, TrimLeft;
      var closing := ParseName();
      if closing.Err? {
        return Some(closing.error);
      }
      SkipSpace();
      if offset >= |input| || input[offset] != '>' || closing.value != name {
        return Some(Mismatched);
      }
      SuffixStep(input, offset);
      offset := offset + 1;
      return None;
    }

    method ParseContent(name: Bytes) returns (r: Result<XmlNode, XmlError>)
      requires offset <= |input|
      modifies this
      ensures old(offset) <= offset <= |input|
      ensures var spec := XmlGrammar.ParseContent(old(Rest()), name, [], []);
              if spec.Ok? then r == Ok(spec.value.0) && Rest() == spec.value.1 && offset > old(offset) else r == Err(spec.error)
      decreases |input| - offset, 1
    {
      hide XmlGrammar.ParseNode, XmlGrammar.ParseClosing, XmlGrammar.ParseContent, XmlGrammar.SkipMisc, Decode;
      var text: Bytes := [];
      var children: seq<XmlNode> := [];
      ghost var start := offset;
      r := Err(Unterminated);
      var open := true;
      while open && offset < |input|
        invariant start <= offset <= |input|
        invariant open ==> r == Err(Unterminated)
        invariant open ==> XmlGrammar.ParseContent(old(Rest()), name, [], []) == XmlGrammar.ParseContent(Rest(), name, text, children)
        invariant !open ==>
          var spec := XmlGrammar.ParseContent(old(Rest()), name, [], []);
          if spec.Ok? then r == Ok(spec.value.0) && Rest() == spec.value.1 && offset > start else r == Err(spec.error)
        decreases |input| - offset, open
      {
        ContentStep(input, offset, name, text, children);
        if At(input, offset, "</") {
          offset := offset + 2;
          var error := ParseClosing(name);
          r := if error.Some? then Err(error.value) else Ok(XmlNode(name, Decode(text), children));
          open := false;
        } else if At(input, offset, "<!--") || At(input, offset, "<?") {
          ghost var before := offset;
          var error := SkipMisc();
          if error.Some? {
            r, open := Err(error.value), false;
          } else {
            SkipMiscMoves(input[before..]);
            assert |input[offset..]| < |input[before..]|;
          }
        } else if input[offset] == '<' {
          var child := ParseNode();
          if child.Err? {
            r, open := Err(child.error), false;
          } else {
            children := children + [child.value];
          }
        } else {
          text := text + [input[offset]];
          offset := offset + 1;
        }
      }
      ContentEnd(name, text, children);
    }

    method Parse() returns (r: Result<XmlNode, XmlError>)
      requires offset <= |input|
      modifies this
      ensures old(offset) <= offset <= |input|
      ensures r == XmlGrammar.Parse(old(Rest()))
    {
      hide XmlGrammar.ParseNode, XmlGrammar.SkipMisc;
      var error := SkipMisc();
      if error.Some? {
        return Err(error.value);
      }
      if offset >= |input| || input[offset] != '<' {
        return Err(NotXml);
      }
      r := ParseNode();
    }
  }
}
