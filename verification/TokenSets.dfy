/**
 * Sequences of page tokens without repetition, and how long they can get.
 */
module TokenSets {
  import opened Strings

  predicate Distinct(tokens: seq<Bytes>) {
    forall i, j | 0 <= i < j < |tokens| :: tokens[i] != tokens[j]
  }

  function Elements(tokens: seq<Bytes>): set<Bytes> {
    set i | 0 <= i < |tokens| :: tokens[i]
  }

  lemma {:induction false} DistinctSize(tokens: seq<Bytes>)
    requires Distinct(tokens)
    ensures |Elements(tokens)| == |tokens|
  {
    if tokens == [] {
    } else {
      var front, last := tokens[..|tokens| - 1], tokens[|tokens| - 1];
      DistinctSize(front);
      assert last !in Elements(front);
      assert Elements(tokens) == Elements(front) + {last};
    }
  }

  lemma SubsetSize<T>(a: set<T>, b: set<T>)
    requires a <= b
    ensures |a| <= |b|
  {
    assert b == a + (b - a);
  }

  lemma DistinctPush(tokens: seq<Bytes>, token: Bytes)
    requires Distinct(tokens) && token !in tokens
    ensures Distinct(tokens + [token])
  {
  }

  lemma ElementsPush(tokens: seq<Bytes>, token: Bytes)
    ensures Elements(tokens + [token]) == Elements(tokens) + {token}
    ensures token in tokens <==> token in Elements(tokens)
  {
    assert forall x :: x in Elements(tokens) <==> x in tokens;
    assert forall x :: x in Elements(tokens + [token]) <==> x in tokens + [token];
  }

  lemma NoElements()
    ensures Elements([]) == {}
  {
  }

  lemma AskedBound(tokens: seq<Bytes>, given: set<Bytes>)
    requires Distinct(tokens) && Elements(tokens) <= given + {[]}
    ensures |tokens| <= |given| + 1
  {
    DistinctSize(tokens);
    SubsetSize(Elements(tokens), given + {[]});
  }

  /** The pages of replies that all arrived. */
  function Pages<T>(replies: seq<Option<T>>): (r: seq<T>)
    requires forall i | 0 <= i < |replies| :: replies[i].Some?
    ensures |r| == |replies| && forall i | 0 <= i < |r| :: r[i] == replies[i].value
  {
    seq(|replies|, i requires 0 <= i < |replies| => replies[i].value)
  }
}
