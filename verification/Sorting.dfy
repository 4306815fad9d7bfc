/** `sort_unstable_by`: some permutation in the given order. */
module Sorting {
  ghost predicate TotalOrder<T(!new)>(le: (T, T) -> bool) {
    && (forall a, b :: le(a, b) || le(b, a))
    && (forall a, b, c :: le(a, b) && le(b, c) ==> le(a, c))
  }

  ghost predicate SortedBy<T>(le: (T, T) -> bool, s: seq<T>) {
    forall i, j :: 0 <= i < j < |s| ==> le(s[i], s[j])
  }

  /** An element that fits between its neighbours fits in the whole. */
  lemma InsertKeepsOrder<T(!new)>(le: (T, T) -> bool, low: seq<T>, x: T, high: seq<T>)
    requires TotalOrder(le) && SortedBy(le, low + high)
    requires low == [] || le(low[|low| - 1], x)
    requires high == [] || le(x, high[0])
    ensures SortedBy(le, low + [x] + high)
  {
    var whole, all := low + high, low + [x] + high;
    forall i | 0 <= i < |low| ensures le(low[i], x) {
      assert i < |low| - 1 ==> le(whole[i], whole[|low| - 1]);
    }
    forall j | 0 <= j < |high| ensures le(x, high[j]) {
      assert j > 0 ==> le(whole[|low|], whole[|low| + j]);
    }
    forall i, j | 0 <= i < j < |all| ensures le(all[i], all[j]) {
      var i', j' := if i > |low| then i - 1 else i, if j > |low| then j - 1 else j;
      if i != |low| && j != |low| {
        assert le(whole[i'], whole[j']);
      }
    }
  }

  method Insert<T(!new)>(le: (T, T) -> bool, sorted: seq<T>, x: T) returns (r: seq<T>)
    requires TotalOrder(le) && SortedBy(le, sorted)
    ensures SortedBy(le, r) && multiset(r) == multiset(sorted) + multiset{x}
  {
    hide SortedBy;
    var at := |sorted|;
    while at > 0 && !le(sorted[at - 1], x)
      invariant 0 <= at <= |sorted|
      invariant at < |sorted| ==> le(x, sorted[at])
    {
      at := at - 1;
    }
    assert sorted == sorted[..at] + sorted[at..];
    InsertKeepsOrder(le, sorted[..at], x, sorted[at..]);
    r := sorted[..at] + [x] + sorted[at..];
  }

  method Sort<T(!new)>(le: (T, T) -> bool, s: seq<T>) returns (r: seq<T>)
    requires TotalOrder(le)
    ensures SortedBy(le, r) && multiset(r) == multiset(s)
  {
    r := [];
    for i := 0 to |s|
      invariant SortedBy(le, r) && multiset(r) == multiset(s[..i])
    {
      r := Insert(le, r, s[i]);
      assert s[..i + 1] == s[..i] + [s[i]];
    }
    assert s[..|s|] == s;
  }
}
