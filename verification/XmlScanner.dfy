/**
 * The client's tag scanner (src/cloudwatch_client.cpp): it searches for tags as text. Over a text
 * made of tags and of characters without '<', it finds exactly the tags that are there.
 */
module XmlScanner {
  import opened Strings

  // ---------- the scanner ----------

  function OpenTag(name: Bytes): Bytes {
    "<" + name + ">"
  }

  function CloseTag(name: Bytes): Bytes {
    "</" + name + ">"
  }

  /** The text between a tag's first opening and the first closing behind it, or nothing. */
  function XmlText(xml: Bytes, tag: Bytes): Bytes {
    match Find(xml, OpenTag(tag), 0)
    case None => []
    case Some(open) =>
      var begin := open + |tag| + 2;
      match Find(xml, CloseTag(tag), begin)
      case None => []
      case Some(end) => xml[begin..end]
  }

  const OPEN: Bytes := "<member>"
  const CLOSE: Bytes := "</member>"

  /** The matches of the lazy pattern <member>...</member>, left to right. */
  function XmlMembers(xml: Bytes): seq<Bytes> {
    match Find(xml, OPEN, 0)
    case None => []
    case Some(open) =>
      match Find(xml, CLOSE, open + 8)
      case None => []
      case Some(close) => [xml[open + 8..close]] + XmlMembers(xml[close + 9..])
  }

  /** A position counted from n bytes earlier. */
  function Shift(n: nat, r: Option<nat>): Option<nat> {
    if r.None? then None else Some(n + r.value)
  }

  /** Where, at some nesting depth, the element closes that would bring the depth to zero. */
  function MatchingClose(s: Bytes, depth: nat): (r: Option<nat>)
    ensures r.Some? ==> r.value <= |s|
    decreases |s|
  {
    var open, close := Find(s, OPEN, 0), Find(s, CLOSE, 0);
    if open.Some? && (close.None? || open.value < close.value) then
      Shift(open.value + 8, MatchingClose(s[open.value + 8..], depth + 1))
    else if close.Some? then
      if depth <= 1 then Some(close.value) else Shift(close.value + 9, MatchingClose(s[close.value + 9..], depth - 1))
    else None
  }

  datatype NestingError = MalformedNesting

  function XmlFirstMember(xml: Bytes): Result<Bytes, NestingError> {
    match Find(xml, OPEN, 0)
    case None => Ok([])
    case Some(begin) =>
      var content := xml[begin + 8..];
      match MatchingClose(content, 1)
      case None => Err(MalformedNesting)
      case Some(close) => Ok(content[..close])
  }

  lemma AtFits(s: Bytes, i: nat, pat: Bytes)
    requires At(s, i, pat)
    ensures i + |pat| <= |s|
  {
  }

  lemma FindAt(s: Bytes, i: nat, pat: Bytes)
    requires i <= |s|
    ensures Shift(i, Find(s[i..], pat, 0)) == Find(s, pat, i)
    ensures var r := Find(s, pat, i); r.Some? ==> i <= r.value && r.value + |pat| <= |s| && s[i..][r.value - i + |pat|..] == s[r.value + |pat|..]
  {
    hide Find, At;
    FindShift(s, i, pat, 0);
    var r := Find(s, pat, i);
    if r.Some? {
      AtFits(s, r.value, pat);
      SuffixDrop(s, i, r.value - i + |pat|);
    }
  }

  lemma MatchingCloseUnfold(s: Bytes, depth: nat)
    ensures var open, close := Find(s, OPEN, 0), Find(s, CLOSE, 0);
            MatchingClose(s, depth) ==
            if open.Some? && (close.None? || open.value < close.value) then
              Shift(open.value + 8, MatchingClose(s[open.value + 8..], depth + 1))
            else if close.Some? then
              (if depth <= 1 then Some(close.value) else Shift(close.value + 9, MatchingClose(s[close.value + 9..], depth - 1)))
            else None
  {
  }

  lemma MatchingCloseAt(s: Bytes, i: nat, depth: nat)
    requires i <= |s|
    ensures var open, close := Find(s, OPEN, i), Find(s, CLOSE, i);
            && (open.Some? ==> i <= open.value && open.value + 8 <= |s|)
            && (close.Some? ==> i <= close.value && close.value + 9 <= |s|)
            && Shift(i, MatchingClose(s[i..], depth)) ==
            if open.Some? && (close.None? || open.value < close.value) then
              Shift(open.value + 8, MatchingClose(s[open.value + 8..], depth + 1))
            else if close.Some? then
              (if depth <= 1 then Some(close.value) else Shift(close.value + 9, MatchingClose(s[close.value + 9..], depth - 1)))
            else None
  {
    hide Find, MatchingClose;
    FindAt(s, i, OPEN);
    FindAt(s, i, CLOSE);
    MatchingCloseUnfold(s[i..], depth);
  }

  /** The first tag met is the opening the scan starts from. */
  lemma FirstIsOpen(s: Bytes, begin: nat)
    requires Find(s, OPEN, 0) == Some(begin)
    ensures Find(s, OPEN, begin) == Some(begin) && begin + 8 <= |s|
    ensures Find(s, CLOSE, begin).Some? ==> begin < Find(s, CLOSE, begin).value
  {
    assert At(s, begin, OPEN);
    assert s[begin..begin + 8][1] == s[begin + 1] == 'm';
    var close := Find(s, CLOSE, begin);
    if close.Some? {
      assert s[close.value..close.value + 9][1] == s[close.value + 1] == '/';
    }
  }

  lemma NoMember(xml: Bytes)
    ensures Find(xml, OPEN, 0).None? ==> XmlFirstMember(xml) == Ok([])
  {
  }

  lemma DropTake(s: Bytes, i: nat, n: nat)
    requires i + n <= |s|
    ensures s[i..][..n] == s[i..i + n]
  {
  }

  lemma FirstMemberAt(xml: Bytes, begin: nat)
    requires Find(xml, OPEN, 0) == Some(begin) && begin + 8 <= |xml|
    ensures var target := Shift(begin + 8, MatchingClose(xml[begin + 8..], 1));
            && (target.Some? ==> begin + 8 <= target.value <= |xml|)
            && XmlFirstMember(xml) == if target.None? then Err(MalformedNesting) else Ok(xml[begin + 8..target.value])
  {
    hide MatchingClose, Find, At;
    var content := xml[begin + 8..];
    var close := MatchingClose(content, 1);
    if close.Some? {
      DropTake(xml, begin + 8, close.value);
    }
  }

  /** The scan with its position and depth variables. */
  method FindFirstMember(xml: Bytes) returns (r: Result<Bytes, NestingError>)
    ensures r == XmlFirstMember(xml)
  {
    hide MatchingClose, Find, At, XmlFirstMember;
    NoMember(xml);
    var begin := Find(xml, OPEN, 0);
    if begin.None? {
      return Ok([]);
    }
    FirstIsOpen(xml, begin.value);
    var contentBegin := begin.value + 8;
    var position: nat, depth: nat := begin.value, 0;
    var scanning := true;
    ghost var target := Shift(contentBegin, MatchingClose(xml[contentBegin..], 1));
    r := Err(MalformedNesting);
    while scanning
      invariant begin.value <= position <= |xml|
      invariant scanning ==> r == Err(MalformedNesting)
      invariant scanning && depth == 0 ==> position == begin.value
      invariant scanning && depth > 0 ==> position >= contentBegin && target == Shift(position, MatchingClose(xml[position..], depth))
      invariant !scanning ==> r == if target.None? then Err(MalformedNesting) else Ok(xml[contentBegin..target.value])
      decreases |xml| - position, scanning
    {
      MatchingCloseAt(xml, position, depth);
      var open := Find(xml, OPEN, position);
      var close := Find(xml, CLOSE, position);
      if open.Some? && (close.None? || open.value < close.value) {
        depth := depth + 1;
        position := open.value + 8;
      } else if close.Some? {
        depth := depth - 1;
        if depth == 0 {
          r, scanning := Ok(xml[contentBegin..close.value]), false;
        } else {
          position := close.value + 9;
        }
      } else {
        scanning := false;
      }
    }
    FirstMemberAt(xml, begin.value);
  }
}
