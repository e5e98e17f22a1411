/**
 * Texts made of tags and of characters without '<', and what the client's tag scanner
 * (src/cloudwatch_client.cpp) finds in them.
 */
module XmlPieces {
  import opened Strings
  import opened XmlScanner

  datatype Piece = Open(name: Bytes) | Close(name: Bytes) | Chars(text: Bytes)

  function Written(p: Piece): Bytes {
    match p
    case Open(name) => OpenTag(name)
    case Close(name) => CloseTag(name)
    case Chars(text) => text
  }

  function Write(pieces: seq<Piece>): Bytes {
    if pieces == [] then [] else Written(pieces[0]) + Write(pieces[1..])
  }

  predicate PlainTag(name: Bytes) {
    name != [] && name[0] != '/' && '<' !in name && '>' !in name
  }

  predicate Plain(p: Piece) {
    match p
    case Open(name) => PlainTag(name)
    case Close(name) => PlainTag(name)
    case Chars(text) => '<' !in text
  }

  predicate AllPlain(pieces: seq<Piece>) {
    forall i | 0 <= i < |pieces| :: Plain(pieces[i])
  }

  lemma {:induction false} WriteAppend(a: seq<Piece>, b: seq<Piece>)
    ensures Write(a + b) == Write(a) + Write(b)
  {
    hide Written;
    if a == [] {
      assert a + b == b;
    } else {
      assert (a + b)[1..] == a[1..] + b;
      WriteAppend(a[1..], b);
      Regroup(Written(a[0]), Write(a[1..]), Write(b));
    }
  }

  /** The first piece equal to a tag. */
  function IndexOf(pieces: seq<Piece>, tag: Piece): (r: Option<nat>)
    ensures r.Some? ==> r.value < |pieces| && pieces[r.value] == tag && tag !in pieces[..r.value]
    ensures r.None? ==> tag !in pieces
  {
    if pieces == [] then None
    else if pieces[0] == tag then Some(0)
    else
      var rest := IndexOf(pieces[1..], tag);
      if rest.None? then None
      else
        assert pieces[..rest.value + 1] == [pieces[0]] + pieces[1..][..rest.value];
        Some(rest.value + 1)
  }

  lemma {:induction false} IndexOfAppend(a: seq<Piece>, tag: Piece, b: seq<Piece>)
    requires tag !in a
    ensures IndexOf(a + [tag] + b, tag) == Some(|a|)
  {
    var all := a + [tag] + b;
    if a == [] {
    } else {
      assert all[1..] == a[1..] + [tag] + b;
      IndexOfAppend(a[1..], tag, b);
    }
  }

  // ---------- searching ----------

  lemma FindBehind(s: Bytes, pat: Bytes, n: nat)
    requires forall k | 0 <= k < n :: !At(s, k, pat)
    ensures Find(s, pat, 0) == Find(s, pat, n)
  {
    hide At;
  }

  /** Nothing can start inside text whose only '<' is at the front. */
  lemma SkipFront(g: Bytes, u: Bytes, pat: Bytes)
    requires pat != [] && pat[0] == '<' && g != [] && '<' !in g[1..] && !StartsWith(g + u, pat)
    ensures Find(g + u, pat, 0) == Shift(|g|, Find(u, pat, 0))
  {
    hide Find;
    var s := g + u;
    forall k | 0 <= k < |g| ensures !At(s, k, pat) {
      if k > 0 && k + |pat| <= |s| {
        assert s[k..k + |pat|][0] == g[k] == g[1..][k - 1];
      }
    }
    FindBehind(s, pat, |g|);
    FindAt(s, |g|, pat);
    assert s[|g|..] == u;
  }

  lemma SkipChars(g: Bytes, u: Bytes, pat: Bytes)
    requires pat != [] && pat[0] == '<' && '<' !in g
    ensures Find(g + u, pat, 0) == Shift(|g|, Find(u, pat, 0))
  {
    if g == [] {
      assert g + u == u;
    } else {
      assert (g + u)[0] != pat[0];
      if |pat| <= |g + u| {
        assert (g + u)[0..|pat|][0] == (g + u)[0];
      }
      SkipFront(g, u, pat);
    }
  }

  /** Two names, each ended by '>', agree only when they are the same name. */
  lemma NameEnds(a: Bytes, b: Bytes, u: Bytes)
    requires '>' !in a && '>' !in b && StartsWith(b + ">" + u, a + ">")
    ensures a == b
  {
    var s := b + ">" + u;
    assert s[..|a| + 1] == a + ">";
    assert s[|a|] == (a + ">")[|a|] == '>' && s[|b|] == '>';
    forall k | 0 <= k < |a| ensures s[k] == a[k] {
      assert s[..|a| + 1][k] == (a + ">")[k];
    }
    forall k | 0 <= k < |b| ensures s[k] == b[k] {
    }
    assert |a| == |b|;
    assert a == s[..|a|] && b == s[..|b|];
  }

  function Inner(p: Piece): Bytes
    requires !p.Chars?
  {
    if p.Open? then p.name else "/" + p.name
  }

  lemma WrittenTag(p: Piece)
    requires !p.Chars? && Plain(p)
    ensures Written(p) == "<" + (Inner(p) + ">") && '>' !in Inner(p) && '<' !in Inner(p) + ">"
  {
    match p
    case Open(name) =>
      assert "<" + name + ">" == "<" + (name + ">");
    case Close(name) =>
      assert "</" == "<" + "/";
      assert "<" + "/" + name + ">" == "<" + ("/" + name + ">");
  }

  lemma InnerInjective(p: Piece, q: Piece)
    requires !p.Chars? && !q.Chars? && Plain(p) && Plain(q) && Inner(p) == Inner(q)
    ensures p == q
  {
    if p.Close? {
      assert Inner(p)[0] == '/' && Inner(p)[1..] == p.name;
    }
    if q.Close? {
      assert Inner(q)[0] == '/' && Inner(q)[1..] == q.name;
    }
  }

  lemma OtherTag(p: Piece, tag: Piece, u: Bytes)
    requires !p.Chars? && !tag.Chars? && Plain(p) && Plain(tag) && p != tag
    ensures !StartsWith(Written(p) + u, Written(tag))
  {
    hide Plain, Written;
    WrittenTag(p);
    WrittenTag(tag);
    if StartsWith(Written(p) + u, Written(tag)) {
      var s, pat := Written(p) + u, Written(tag);
      assert s[1..] == Inner(p) + ">" + u;
      assert pat[1..] == Inner(tag) + ">";
      assert s[0..|pat|][1..] == s[1..][0..|pat| - 1];
      NameEnds(Inner(tag), Inner(p), u);
      InnerInjective(p, tag);
    }
  }

  lemma CharsPlain(p: Piece)
    requires p.Chars? && Plain(p)
    ensures '<' !in Written(p)
  {
  }

  lemma SkipPiece(p: Piece, tag: Piece, u: Bytes)
    requires Plain(p) && Plain(tag) && !tag.Chars? && p != tag
    ensures Find(Written(p) + u, Written(tag), 0) == Shift(|Written(p)|, Find(u, Written(tag), 0))
  {
    hide Find, Plain, Written;
    WrittenTag(tag);
    if p.Chars? {
      CharsPlain(p);
      SkipChars(Written(p), u, Written(tag));
    } else {
      WrittenTag(p);
      OtherTag(p, tag, u);
      assert Written(p)[1..] == Inner(p) + ">";
      SkipFront(Written(p), u, Written(tag));
    }
  }

  lemma WriteFirst(p: Piece, pieces: seq<Piece>)
    ensures Write([p] + pieces) == Written(p) + Write(pieces)
  {
    hide Written;
    assert ([p] + pieces)[1..] == pieces;
  }

  lemma FindNowhere(pat: Bytes)
    requires pat != []
    ensures Find([], pat, 0) == None
  {
  }

  lemma FindHere(pat: Bytes, u: Bytes)
    ensures Find(pat + u, pat, 0) == Some(0)
  {
    assert (pat + u)[0..|pat|] == pat;
  }

  /** Searching for a tag as text finds the first such tag. */
  lemma {:induction false} FindTag(pieces: seq<Piece>, tag: Piece)
    requires AllPlain(pieces) && !tag.Chars? && Plain(tag)
    ensures var i := IndexOf(pieces, tag);
            Find(Write(pieces), Written(tag), 0) == if i.None? then None else Some(|Write(pieces[..i.value])|)
  {
    hide Plain, Written, Find;
    var pat := Written(tag);
    WrittenTag(tag);
    assert pat != [] && pat[0] == '<';
    if pieces == [] {
      FindNowhere(pat);
    } else {
      var p, u := pieces[0], Write(pieces[1..]);
      if p == tag {
        FindHere(pat, u);
      } else {
        SkipPiece(p, tag, u);
        FindTag(pieces[1..], tag);
        var rest := IndexOf(pieces[1..], tag);
        if rest.Some? {
          assert pieces[..rest.value + 1] == [p] + pieces[1..][..rest.value];
          WriteFirst(p, pieces[1..][..rest.value]);
        }
      }
    }
  }

  /** The pieces between two tags. */
  function Between(pieces: seq<Piece>, tag: Bytes): Option<seq<Piece>> {
    var open := IndexOf(pieces, Open(tag));
    if open.None? then None
    else
      var rest := pieces[open.value + 1..];
      var close := IndexOf(rest, Close(tag));
      if close.None? then None else Some(rest[..close.value])
  }

  /** Splitting the written text at a piece. */
  lemma WriteSplit(pieces: seq<Piece>, i: nat)
    requires i < |pieces|
    ensures var front, p, rest := Write(pieces[..i]), Written(pieces[i]), Write(pieces[i + 1..]);
            && Write(pieces) == front + p + rest
            && |front| + |p| <= |Write(pieces)|
            && Write(pieces)[|front| + |p|..] == rest
  {
    hide Written;
    assert pieces == pieces[..i] + ([pieces[i]] + pieces[i + 1..]);
    WriteAppend(pieces[..i], [pieces[i]] + pieces[i + 1..]);
    WriteFirst(pieces[i], pieces[i + 1..]);
    Regroup(Write(pieces[..i]), Written(pieces[i]), Write(pieces[i + 1..]));
  }

  lemma WritePrefix(pieces: seq<Piece>, i: nat)
    requires i <= |pieces|
    ensures |Write(pieces[..i])| <= |Write(pieces)| && Write(pieces)[..|Write(pieces[..i])|] == Write(pieces[..i])
  {
    hide Written, Write;
    assert pieces == pieces[..i] + pieces[i..];
    WriteAppend(pieces[..i], pieces[i..]);
  }

  lemma XmlTextFrom(s: Bytes, tag: Bytes, open: nat)
    requires Find(s, OpenTag(tag), 0) == Some(open) && open + |tag| + 2 <= |s|
    ensures var begin := open + |tag| + 2; var close := Find(s, CloseTag(tag), begin);
            XmlText(s, tag) == if close.None? then [] else s[begin..close.value]
  {
    hide Find, At, OpenTag, CloseTag;
  }

  lemma XmlTextBehind(s: Bytes, tag: Bytes, open: nat, u: Bytes)
    requires Find(s, OpenTag(tag), 0) == Some(open) && open + |tag| + 2 <= |s| && s[open + |tag| + 2..] == u
    ensures var close := Find(u, CloseTag(tag), 0);
            && (close.Some? ==> close.value <= |u|)
            && XmlText(s, tag) == if close.None? then [] else u[..close.value]
  {
    hide Find, At, OpenTag, CloseTag, XmlText;
    XmlTextFrom(s, tag, open);
    var begin, pat := open + |tag| + 2, CloseTag(tag);
    FindShift(s, begin, pat, 0);
    var close := Find(u, pat, 0);
    if close.Some? {
      AtFits(u, close.value, pat);
      DropTake(s, begin, close.value);
    }
  }

  lemma PlainRest(pieces: seq<Piece>, i: nat)
    requires i <= |pieces| && AllPlain(pieces)
    ensures AllPlain(pieces[i..])
  {
    hide Plain;
  }

  /** XmlText returns what stands between the first opening of the tag and the first closing behind it. */
  lemma TextBetween(pieces: seq<Piece>, tag: Bytes)
    requires AllPlain(pieces) && PlainTag(tag)
    ensures XmlText(Write(pieces), tag) == if Between(pieces, tag).None? then [] else Write(Between(pieces, tag).value)
  {
    hide Find, Write, At, AllPlain, PlainTag;
    FindTag(pieces, Open(tag));
    var open := IndexOf(pieces, Open(tag));
    if open.Some? {
      hide XmlText;
      var rest := pieces[open.value + 1..];
      WriteSplit(pieces, open.value);
      XmlTextBehind(Write(pieces), tag, |Write(pieces[..open.value])|, Write(rest));
      assert AllPlain(rest) by { PlainRest(pieces, open.value + 1); }
      FindTag(rest, Close(tag));
      var close := IndexOf(rest, Close(tag));
      if close.Some? {
        WritePrefix(rest, close.value);
      }
    }
  }

  // ---------- nesting ----------

  /** How far the pieces' member tags raise the depth, never letting it fall below where it started. */
  predicate Balanced(pieces: seq<Piece>, depth: nat)
    decreases pieces
  {
    if pieces == [] then depth == 0
    else if pieces[0] == Open("member") then Balanced(pieces[1..], depth + 1)
    else if pieces[0] == Close("member") then depth > 0 && Balanced(pieces[1..], depth - 1)
    else Balanced(pieces[1..], depth)
  }

  lemma BalancedCons(p: Piece, rest: seq<Piece>, depth: nat)
    ensures Balanced([p] + rest, depth) <==>
            if p == Open("member") then Balanced(rest, depth + 1)
            else if p == Close("member") then depth > 0 && Balanced(rest, depth - 1)
            else Balanced(rest, depth)
  {
    assert ([p] + rest)[1..] == rest;
  }

  lemma DropPrefix(g: Bytes, u: Bytes, n: nat)
    requires n <= |u|
    ensures (g + u)[|g| + n..] == u[n..]
  {
  }

  lemma TagLengths()
    ensures |OPEN| == 8 && |CLOSE| == 9
  {
  }

  lemma ShiftIs(n: nat, r: Option<nat>)
    ensures Shift(n, r).Some? <==> r.Some?
    ensures r.Some? ==> Shift(n, r).value == n + r.value
    ensures r.None? ==> Shift(n, r) == None
  {
  }

  lemma ShiftTwice(m: nat, n: nat, r: Option<nat>)
    ensures Shift(m + n, r) == Shift(m, Shift(n, r))
  {
  }

  /** Text in which neither member tag starts only moves the answer. */
  lemma CloseShift(g: Bytes, u: Bytes, depth: nat)
    requires Find(g + u, OPEN, 0) == Shift(|g|, Find(u, OPEN, 0)) && Find(g + u, CLOSE, 0) == Shift(|g|, Find(u, CLOSE, 0))
    ensures MatchingClose(g + u, depth) == Shift(|g|, MatchingClose(u, depth))
  {
    hide Find, MatchingClose, At, Shift, OPEN, CLOSE;
    MatchingCloseUnfold(g + u, depth);
    MatchingCloseUnfold(u, depth);
    var open, close := Find(u, OPEN, 0), Find(u, CLOSE, 0);
    ShiftIs(|g|, open);
    ShiftIs(|g|, close);
    if open.Some? && (close.None? || open.value < close.value) {
      TagLengths();
      FindAt(u, 0, OPEN);
      DropPrefix(g, u, open.value + 8);
      ShiftTwice(|g|, open.value + 8, MatchingClose(u[open.value + 8..], depth + 1));
    } else if close.Some? {
      TagLengths();
      FindAt(u, 0, CLOSE);
      DropPrefix(g, u, close.value + 9);
      if depth > 1 {
        ShiftTwice(|g|, close.value + 9, MatchingClose(u[close.value + 9..], depth - 1));
      }
    }
    ShiftIs(|g|, MatchingClose(u, depth));
  }

  lemma MemberTags()
    ensures Written(Open("member")) == OPEN && Written(Close("member")) == CLOSE
    ensures Plain(Open("member")) && Plain(Close("member"))
  {
  }

  lemma CloseAtOther(p: Piece, u: Bytes, depth: nat)
    requires Plain(p) && p != Open("member") && p != Close("member")
    ensures MatchingClose(Written(p) + u, depth) == Shift(|Written(p)|, MatchingClose(u, depth))
  {
    hide Find, MatchingClose, Plain, At;
    if Written(p) == [] {
      assert Written(p) + u == u;
    } else {
      MemberTags();
      SkipPiece(p, Open("member"), u);
      SkipPiece(p, Close("member"), u);
      CloseShift(Written(p), u, depth);
    }
  }

  /** A closing tag is not found at an opening one. */
  lemma FindBehindFirst(u: Bytes)
    ensures Find(OPEN + u, CLOSE, 0) != Some(0) && Find(CLOSE + u, OPEN, 0) != Some(0)
  {
    var a, b := OPEN + u, CLOSE + u;
    if |a| >= 9 {
      assert a[0..9][1] == 'm';
    }
    assert b[0..8][1] == '/';
  }

  lemma CloseAtOpen(u: Bytes, depth: nat)
    ensures MatchingClose(OPEN + u, depth) == Shift(8, MatchingClose(u, depth + 1))
  {
    hide Find, MatchingClose, At;
    FindHere(OPEN, u);
    FindBehindFirst(u);
    MatchingCloseUnfold(OPEN + u, depth);
    DropPrefix(OPEN, u, 0);
  }

  lemma CloseAtClose(u: Bytes, depth: nat)
    ensures MatchingClose(CLOSE + u, depth) == if depth <= 1 then Some(0) else Shift(9, MatchingClose(u, depth - 1))
  {
    hide Find, MatchingClose, At;
    FindHere(CLOSE, u);
    FindBehindFirst(u);
    MatchingCloseUnfold(CLOSE + u, depth);
    DropPrefix(CLOSE, u, 0);
  }

  /** Balanced content brings the depth back to where it started, so its enclosing tag's own closing is the match. */
  lemma {:induction false} CloseBehindBalanced(pieces: seq<Piece>, depth: nat, u: Bytes)
    requires AllPlain(pieces) && Balanced(pieces, depth)
    ensures MatchingClose(Write(pieces) + (CLOSE + u), depth + 1) == Some(|Write(pieces)|)
  {
    hide MatchingClose, Plain, Written;
    MemberTags();
    if pieces == [] {
      CloseAtClose(u, depth + 1);
      assert Write(pieces) + (CLOSE + u) == CLOSE + u;
    } else {
      var p, v := pieces[0], Write(pieces[1..]) + (CLOSE + u);
      Regroup(Written(p), Write(pieces[1..]), CLOSE + u);
      if p == Open("member") {
        CloseAtOpen(v, depth + 1);
        CloseBehindBalanced(pieces[1..], depth + 1, u);
      } else if p == Close("member") {
        CloseAtClose(v, depth + 1);
        CloseBehindBalanced(pieces[1..], depth - 1, u);
      } else {
        CloseAtOther(p, v, depth + 1);
        CloseBehindBalanced(pieces[1..], depth, u);
      }
    }
  }

  lemma FirstMemberIs(s: Bytes, begin: nat, content: Bytes, u: Bytes)
    requires Find(s, OPEN, 0) == Some(begin) && begin + 8 <= |s| && s[begin + 8..] == content + (CLOSE + u)
    requires MatchingClose(content + (CLOSE + u), 1) == Some(|content|)
    ensures XmlFirstMember(s) == Ok(content)
  {
    hide MatchingClose, Find, XmlFirstMember, At;
    FirstMemberAt(s, begin);
    DropTake(s, begin + 8, |content|);
    assert (content + (CLOSE + u))[..|content|] == content;
  }

  lemma FirstMemberStarts(before: seq<Piece>, rest: seq<Piece>)
    requires AllPlain(before) && AllPlain(rest) && Open("member") !in before
    ensures var s := Write(before + [Open("member")] + rest);
            && Find(s, OPEN, 0) == Some(|Write(before)|)
            && |Write(before)| + 8 <= |s| && s[|Write(before)| + 8..] == Write(rest)
  {
    hide Find, Written, Plain, Write;
    MemberTags();
    var all := before + [Open("member")] + rest;
    IndexOfAppend(before, Open("member"), rest);
    FindTag(all, Open("member"));
    assert all[..|before|] == before && all[|before| + 1..] == rest && all[|before|] == Open("member");
    WriteSplit(all, |before|);
  }

  /** For any balanced nesting the first member's content is returned up to its own closing tag. */
  lemma FirstMemberContent(before: seq<Piece>, content: seq<Piece>, after: seq<Piece>)
    requires AllPlain(before) && AllPlain(content) && AllPlain(after)
    requires Open("member") !in before && Balanced(content, 0)
    ensures XmlFirstMember(Write(before + [Open("member")] + content + [Close("member")] + after)) == Ok(Write(content))
  {
    hide MatchingClose, Find, XmlFirstMember, Written, Plain, Balanced, Write;
    MemberTags();
    var rest := content + ([Close("member")] + after);
    assert before + [Open("member")] + content + [Close("member")] + after == before + [Open("member")] + rest;
    FirstMemberStarts(before, rest);
    WriteAppend(content, [Close("member")] + after);
    WriteFirst(Close("member"), after);
    CloseBehindBalanced(content, 0, Write(after));
    FirstMemberIs(Write(before + [Open("member")] + rest), |Write(before)|, Write(content), Write(after));
  }

  // ---------- lists of members ----------

  function Members(texts: seq<Bytes>): seq<Piece> {
    if texts == [] then [] else [Open("member"), Chars(texts[0]), Close("member")] + Members(texts[1..])
  }

  predicate AllChars(texts: seq<Bytes>) {
    forall i | 0 <= i < |texts| :: '<' !in texts[i]
  }

  lemma MembersUnfold(texts: seq<Bytes>)
    requires texts != []
    ensures Members(texts) == [Open("member")] + ([Chars(texts[0])] + ([Close("member")] + Members(texts[1..])))
  {
  }

  lemma MemberPlain()
    ensures Plain(Open("member")) && Plain(Close("member"))
  {
  }

  lemma {:induction false} MembersPlain(texts: seq<Bytes>)
    requires AllChars(texts)
    ensures AllPlain(Members(texts)) && Balanced(Members(texts), 0)
    ensures forall p | p in Members(texts) :: p == Open("member") || p == Close("member") || p.Chars?
  {
    if texts == [] {
    } else {
      MemberPlain();
      hide Balanced, Members, PlainTag;
      MembersPlain(texts[1..]);
      var rest := Members(texts[1..]);
      MembersUnfold(texts);
      BalancedCons(Close("member"), rest, 1);
      BalancedCons(Chars(texts[0]), [Close("member")] + rest, 1);
      BalancedCons(Open("member"), [Chars(texts[0])] + ([Close("member")] + rest), 0);
    }
  }

  lemma WrittenChars(text: Bytes)
    ensures Written(Chars(text)) == text
  {
  }

  lemma MembersFirst(texts: seq<Bytes>)
    requires texts != []
    ensures Write(Members(texts)) == OPEN + (texts[0] + (CLOSE + Write(Members(texts[1..]))))
  {
    var rest := Members(texts[1..]);
    MemberTags();
    hide Written, OPEN, CLOSE, Write, Members;
    MembersUnfold(texts);
    WriteFirst(Open("member"), [Chars(texts[0])] + ([Close("member")] + rest));
    WriteFirst(Chars(texts[0]), [Close("member")] + rest);
    WriteFirst(Close("member"), rest);
    assert Written(Chars(texts[0])) == texts[0] by { WrittenChars(texts[0]); }
  }

  lemma EmptyMembers()
    ensures XmlMembers(Write(Members([]))) == []
  {
    FindNowhere(OPEN);
  }

  /** The member pattern recovers a printed list whole and in order. */
  lemma {:induction false} MembersReadBack(texts: seq<Bytes>)
    requires AllChars(texts)
    ensures XmlMembers(Write(Members(texts))) == texts
  {
    hide Find, Write, Written, At;
    if texts == [] {
      EmptyMembers();
    } else {
      var t, rest := texts[0], Write(Members(texts[1..]));
      MembersFirst(texts);
      var s := OPEN + (t + (CLOSE + rest));
      FindHere(OPEN, t + (CLOSE + rest));
      assert s[8..] == t + (CLOSE + rest);
      SkipChars(t, CLOSE + rest, CLOSE);
      FindHere(CLOSE, rest);
      FindAt(s, 8, CLOSE);
      DropTake(s, 8, |t|);
      assert s[8..][..|t|] == t;
      assert s[8 + |t| + 9..] == rest;
      MembersReadBack(texts[1..]);
    }
  }
}
