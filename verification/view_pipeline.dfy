/** The derived view of the issue list: keep the issues matching the status
    filter, then those matching the type filter, then stable-sort what is left
    by the requested key. A pure function of the store and the filter spec. */
module ViewPipeline {
  import opened Types

  /** The filter spec the list receives. `sortBy` is an arbitrary string in
      the source; only four values select a comparator. */
  datatype FilterSpec = FilterSpec(status: Option<StatusType>, kind: Option<IssueType>, sortBy: Option<string>)

  /** The four recognised orders. */
  datatype SortOrder = Newest | Oldest | MostUpvotes | MostComments

  /** The comparator selected by `sortBy`; anything else selects none. */
  function OrderOf(sortBy: Option<string>): (r: Option<SortOrder>)
    ensures r == Some(Newest) <==> sortBy == Some("newest")
    ensures r == Some(Oldest) <==> sortBy == Some("oldest")
    ensures r == Some(MostUpvotes) <==> sortBy == Some("upvotes")
    ensures r == Some(MostComments) <==> sortBy == Some("comments")
  {
    match sortBy
    case Some("newest") => Some(Newest)
    case Some("oldest") => Some(Oldest)
    case Some("upvotes") => Some(MostUpvotes)
    case Some("comments") => Some(MostComments)
    case _ => None
  }

  /** The key each comparator sorts by, signed so that the comparator
      `(a, b) => Rank(a) - Rank(b)` is ascending: `b.createdAt - a.createdAt`
      for newest, `a.createdAt - b.createdAt` for oldest, and so on. */
  function Rank(o: SortOrder, x: Issue): int
  {
    match o
    case Newest => -(x.createdAt as int)
    case Oldest => x.createdAt
    case MostUpvotes => -(x.upvotes as int)
    case MostComments => -|x.comments|
  }

  /** One dimension of the filter. */
  datatype Criterion = StatusIs(status: StatusType) | KindIs(kind: IssueType)

  predicate Matches(c: Criterion, x: Issue)
  {
    match c
    case StatusIs(st) => x.status == st
    case KindIs(t) => x.kind == t
  }

  /** `a` is `b` with some elements left out, the rest in their order. */
  predicate Subsequence<T(==)>(a: seq<T>, b: seq<T>)
    decreases |b|
  {
    if |a| == 0 then true
    else if |b| == 0 then false
    else (a[0] == b[0] && Subsequence(a[1..], b[1..])) || Subsequence(a, b[1..])
  }

  /** `Array.prototype.filter` with one criterion. */
  function Keep(s: seq<Issue>, c: Criterion): (r: seq<Issue>)
    ensures forall i :: 0 <= i < |r| ==> Matches(c, r[i])
    ensures forall x :: x in r <==> x in s && Matches(c, x)
    ensures forall x :: Matches(c, x) ==> multiset(r)[x] == multiset(s)[x]
    ensures multiset(r) <= multiset(s)
    ensures Subsequence(r, s)
  {
    if |s| == 0 then []
    else
      var rest := Keep(s[1..], c);
      var r := if Matches(c, s[0]) then [s[0]] + rest else rest;
      KeepStepCounts(s, c, rest, r);
      KeepStepOrder(s, c, rest, r);
      MembersFromCounts(r, s, c);
      r
  }

  /** The inductive step of `Keep` for the counts: the first issue is counted
      exactly when it matches. */
  lemma KeepStepCounts(s: seq<Issue>, c: Criterion, rest: seq<Issue>, r: seq<Issue>)
    requires |s| > 0
    requires forall x :: Matches(c, x) ==> multiset(rest)[x] == multiset(s[1..])[x]
    requires multiset(rest) <= multiset(s[1..])
    requires r == if Matches(c, s[0]) then [s[0]] + rest else rest
    ensures forall x :: Matches(c, x) ==> multiset(r)[x] == multiset(s)[x]
    ensures multiset(r) <= multiset(s)
  {
    assert s == [s[0]] + s[1..];
    assert multiset(s) == multiset{s[0]} + multiset(s[1..]);
    if Matches(c, s[0]) {
      assert multiset(r) == multiset{s[0]} + multiset(rest);
    }
  }

  /** The inductive step of `Keep` for the order and the criterion. */
  lemma KeepStepOrder(s: seq<Issue>, c: Criterion, rest: seq<Issue>, r: seq<Issue>)
    requires |s| > 0
    requires forall i :: 0 <= i < |rest| ==> Matches(c, rest[i])
    requires Subsequence(rest, s[1..])
    requires r == if Matches(c, s[0]) then [s[0]] + rest else rest
    ensures forall i :: 0 <= i < |r| ==> Matches(c, r[i])
    ensures Subsequence(r, s)
  {
    if Matches(c, s[0]) {
      assert r[1..] == rest;
      forall i | 0 < i < |r| ensures Matches(c, r[i]) {
        assert r[i] == rest[i - 1];
      }
    }
  }

  /** Membership follows from the counts: a list whose elements all match and
      which holds every matching issue of `s` as often as `s` does holds
      exactly the matching issues of `s`. */
  lemma MembersFromCounts(r: seq<Issue>, s: seq<Issue>, c: Criterion)
    requires forall i :: 0 <= i < |r| ==> Matches(c, r[i])
    requires forall x :: Matches(c, x) ==> multiset(r)[x] == multiset(s)[x]
    ensures forall x :: x in r <==> x in s && Matches(c, x)
  {
    forall x ensures x in r <==> x in s && Matches(c, x) {
      assert x in r <==> x in multiset(r);
      assert x in s <==> x in multiset(s);
    }
  }

  /** The issues admitted by the two filters of `spec`. */
  predicate Admits(spec: FilterSpec, x: Issue)
  {
    && (spec.status.Some? ==> x.status == spec.status.value)
    && (spec.kind.Some? ==> x.kind == spec.kind.value)
  }

  /** One optional filter step: no criterion keeps everything. */
  function KeepIf(s: seq<Issue>, c: Option<Criterion>): (r: seq<Issue>)
    ensures forall x :: x in r <==> x in s && (c.Some? ==> Matches(c.value, x))
    ensures forall x :: (c.Some? ==> Matches(c.value, x)) ==> multiset(r)[x] == multiset(s)[x]
    ensures Subsequence(r, s)
  {
    if c.None? then
      SubsequenceReflexive(s);
      s
    else Keep(s, c.value)
  }

  /** Steps (1) and (2): the status filter, then the type filter. */
  function Selected(s: seq<Issue>, spec: FilterSpec): (r: seq<Issue>)
    ensures forall x :: x in r <==> x in s && Admits(spec, x)
    ensures forall x :: Admits(spec, x) ==> multiset(r)[x] == multiset(s)[x]
    ensures Subsequence(r, s)
  {
    var sc := if spec.status.Some? then Some(StatusIs(spec.status.value)) else None;
    var kc := if spec.kind.Some? then Some(KindIs(spec.kind.value)) else None;
    var a := KeepIf(s, sc);
    var b := KeepIf(a, kc);
    SubsequenceTransitive(b, a, s);
    b
  }

  lemma {:induction false} SubsequenceReflexive<T>(s: seq<T>)
    ensures Subsequence(s, s)
    decreases |s|
  {
    if |s| > 0 {
      SubsequenceReflexive(s[1..]);
    }
  }

  lemma {:induction false} SubsequenceTransitive<T>(a: seq<T>, b: seq<T>, c: seq<T>)
    requires Subsequence(a, b) && Subsequence(b, c)
    ensures Subsequence(a, c)
    decreases |c|
  {
    if |a| == 0 {
    } else if |c| == 0 {
    } else if b[0] == c[0] && Subsequence(b[1..], c[1..]) {
      if a[0] == b[0] && Subsequence(a[1..], b[1..]) {
        SubsequenceTransitive(a[1..], b[1..], c[1..]);
      } else {
        SubsequenceTransitive(a, b[1..], c[1..]);
      }
    } else {
      SubsequenceTransitive(a, b, c[1..]);
    }
  }

  /** Ranks never decrease along `s`. */
  predicate SortedBy(o: SortOrder, s: seq<Issue>)
  {
    forall i, j :: 0 <= i < j < |s| ==> Rank(o, s[i]) <= Rank(o, s[j])
  }

  /** The issues of `s` whose rank is `k`, in their order in `s`. */
  function WithRank(o: SortOrder, s: seq<Issue>, k: int): seq<Issue>
  {
    if |s| == 0 then []
    else WithRank(o, s[..|s| - 1], k) + (if Rank(o, s[|s| - 1]) == k then [s[|s| - 1]] else [])
  }

  lemma WithRankSnoc(o: SortOrder, t: seq<Issue>, x: Issue, k: int)
    ensures WithRank(o, t + [x], k) == WithRank(o, t, k) + (if Rank(o, x) == k then [x] else [])
  {
    assert (t + [x])[..|t|] == t;
  }

  /** Insert `x` into the sorted `t` just after the last element whose rank
      does not exceed its own: the element that arrives later goes after its
      equals, which is what makes the sort stable. */
  function InsertByRank(o: SortOrder, t: seq<Issue>, x: Issue): (r: seq<Issue>)
    requires SortedBy(o, t)
    ensures SortedBy(o, r)
    ensures multiset(r) == multiset(t) + multiset{x}
    ensures forall k :: WithRank(o, r, k) == WithRank(o, t, k) + (if Rank(o, x) == k then [x] else [])
  {
    if |t| == 0 then
      forall k ensures WithRank(o, [x], k) == WithRank(o, t, k) + (if Rank(o, x) == k then [x] else []) {
        WithRankSnoc(o, [], x, k);
        assert [] + [x] == [x];
      }
      [x]
    else
      var last := t[|t| - 1];
      var init := t[..|t| - 1];
      assert t == init + [last];
      if Rank(o, last) <= Rank(o, x) then
        forall k ensures WithRank(o, t + [x], k) == WithRank(o, t, k) + (if Rank(o, x) == k then [x] else []) {
          WithRankSnoc(o, t, x, k);
        }
        t + [x]
      else
        var r' := InsertByRank(o, init, x);
        InsertBeforeLast(o, init, last, x, r');
        r' + [last]
  }

  /** The step of `InsertByRank` that moves `x` in front of `last`: appending
      `last` to the insertion into `init` gives the insertion into `init + [last]`. */
  lemma InsertBeforeLast(o: SortOrder, init: seq<Issue>, last: Issue, x: Issue, r': seq<Issue>)
    requires SortedBy(o, init + [last])
    requires Rank(o, x) < Rank(o, last)
    requires SortedBy(o, r')
    requires multiset(r') == multiset(init) + multiset{x}
    requires forall k :: WithRank(o, r', k) == WithRank(o, init, k) + (if Rank(o, x) == k then [x] else [])
    ensures SortedBy(o, r' + [last])
    ensures multiset(r' + [last]) == multiset(init + [last]) + multiset{x}
    ensures forall k :: WithRank(o, r' + [last], k) == WithRank(o, init + [last], k) + (if Rank(o, x) == k then [x] else [])
  {
    InsertBeforeLastSorted(o, init, last, x, r');
    forall k ensures WithRank(o, r' + [last], k) == WithRank(o, init + [last], k) + (if Rank(o, x) == k then [x] else []) {
      InsertBeforeLastRank(o, init, last, x, r', k);
    }
  }

  lemma InsertBeforeLastRank(o: SortOrder, init: seq<Issue>, last: Issue, x: Issue, r': seq<Issue>, k: int)
    requires Rank(o, x) < Rank(o, last)
    requires WithRank(o, r', k) == WithRank(o, init, k) + (if Rank(o, x) == k then [x] else [])
    ensures WithRank(o, r' + [last], k) == WithRank(o, init + [last], k) + (if Rank(o, x) == k then [x] else [])
  {
    WithRankSnoc(o, r', last, k);
    WithRankSnoc(o, init, last, k);
  }

  lemma InsertBeforeLastSorted(o: SortOrder, init: seq<Issue>, last: Issue, x: Issue, r': seq<Issue>)
    requires SortedBy(o, init + [last])
    requires Rank(o, x) < Rank(o, last)
    requires SortedBy(o, r')
    requires multiset(r') == multiset(init) + multiset{x}
    ensures SortedBy(o, r' + [last])
  {
    var t := init + [last];
    var r := r' + [last];
    forall y | y in r' ensures Rank(o, y) <= Rank(o, last) {
      assert y in multiset(r');
      if y != x {
        assert y in multiset(init);
        var i :| 0 <= i < |init| && init[i] == y;
        assert t[i] == y && t[|t| - 1] == last;
      }
    }
    forall i, j | 0 <= i < j < |r| ensures Rank(o, r[i]) <= Rank(o, r[j]) {
      if j == |r| - 1 {
        assert r[i] in r';
      } else {
        assert r[i] == r'[i] && r[j] == r'[j];
      }
    }
  }

  /** A stable sort: insertion sort, inserting each element after the ones
      that came before it. */
  function SortBy(o: SortOrder, s: seq<Issue>): (r: seq<Issue>)
    ensures SortedBy(o, r)
    ensures multiset(r) == multiset(s)
    ensures forall k :: WithRank(o, r, k) == WithRank(o, s, k)
  {
    if |s| == 0 then []
    else
      var init := s[..|s| - 1];
      var r := InsertByRank(o, SortBy(o, init), s[|s| - 1]);
      assert s == init + [s[|s| - 1]];
      forall k ensures WithRank(o, r, k) == WithRank(o, s, k) {
        WithRankSnoc(o, init, s[|s| - 1], k);
      }
      r
  }

  /** The `filteredIssues` memo of the list: filter, then sort when `sortBy`
      names a known comparator, otherwise keep the filtered order. */
  function Project(s: seq<Issue>, spec: FilterSpec): (r: seq<Issue>)
    ensures forall i :: 0 <= i < |r| ==> Admits(spec, r[i])
    ensures forall x :: x in r <==> x in s && Admits(spec, x)
    ensures multiset(r) == multiset(Selected(s, spec))
    ensures OrderOf(spec.sortBy).None? ==> r == Selected(s, spec)
    ensures OrderOf(spec.sortBy).Some? ==>
      && SortedBy(OrderOf(spec.sortBy).value, r)
      && forall k :: WithRank(OrderOf(spec.sortBy).value, r, k) == WithRank(OrderOf(spec.sortBy).value, Selected(s, spec), k)
  {
    var b := Selected(s, spec);
    match OrderOf(spec.sortBy)
    case None => b
    case Some(o) =>
      var r := SortBy(o, b);
      assert forall x :: x in r <==> x in b by {
        assert forall x :: x in r <==> x in multiset(r);
      }
      r
  }

  /** `a` may be shown before `b` under order `o`, in the issue's own fields. */
  predicate InOrder(o: SortOrder, a: Issue, b: Issue)
  {
    match o
    case Newest => a.createdAt >= b.createdAt
    case Oldest => a.createdAt <= b.createdAt
    case MostUpvotes => a.upvotes >= b.upvotes
    case MostComments => |a.comments| >= |b.comments|
  }

  /** The projection under a recognised `sortBy` is ordered by that key:
      non-increasing createdAt for "newest", non-decreasing for "oldest",
      non-increasing upvotes for "upvotes" and non-increasing comment count
      for "comments". */
  lemma ProjectKeyOrder(s: seq<Issue>, spec: FilterSpec)
    requires OrderOf(spec.sortBy).Some?
    ensures var r := Project(s, spec);
      forall i, j :: 0 <= i < j < |r| ==> InOrder(OrderOf(spec.sortBy).value, r[i], r[j])
  {
    var r := Project(s, spec);
    var o := OrderOf(spec.sortBy).value;
    forall i, j | 0 <= i < j < |r| ensures InOrder(o, r[i], r[j]) {
      assert Rank(o, r[i]) <= Rank(o, r[j]);
    }
  }

  /** Every issue has exactly one of the three statuses, so the three status
      filters split any list: their lengths add up to its length. */
  lemma {:induction false} StatusFiltersPartition(s: seq<Issue>)
    ensures |Keep(s, StatusIs(Pending))| + |Keep(s, StatusIs(InProgress))| + |Keep(s, StatusIs(Resolved))| == |s|
  {
    if |s| > 0 {
      StatusFiltersPartition(s[1..]);
    }
  }

  /** Ranks strictly increase along `s`: no two issues tie. */
  predicate StrictlySortedBy(o: SortOrder, s: seq<Issue>)
  {
    forall i, j :: 0 <= i < j < |s| ==> Rank(o, s[i]) < Rank(o, s[j])
  }

  /** When no two keys tie, the sorted order is determined by the contents:
      any sorted arrangement of the same issues is that order. */
  lemma {:induction false} SortedDistinctUnique(o: SortOrder, r: seq<Issue>, t: seq<Issue>)
    requires SortedBy(o, r) && StrictlySortedBy(o, t)
    requires multiset(r) == multiset(t)
    ensures r == t
    decreases |t|
  {
    assert |r| == |multiset(r)| == |t|;
    if |t| > 0 {
      FirstOfSortedArrangement(o, r, t);
      MultisetTail(r, t);
      SortedDistinctUnique(o, r[1..], t[1..]);
    }
  }

  /** Both lists start with the issue of least rank. */
  lemma FirstOfSortedArrangement(o: SortOrder, r: seq<Issue>, t: seq<Issue>)
    requires SortedBy(o, r) && StrictlySortedBy(o, t)
    requires multiset(r) == multiset(t) && |r| > 0 && |t| > 0
    ensures r[0] == t[0]
  {
    assert r[0] in multiset(t) && t[0] in multiset(r);
    var j :| 0 <= j < |t| && t[j] == r[0];
    var i :| 0 <= i < |r| && r[i] == t[0];
    assert Rank(o, r[0]) <= Rank(o, t[0]) by {
      if i > 0 { assert Rank(o, r[0]) <= Rank(o, r[i]); }
    }
    assert Rank(o, t[0]) <= Rank(o, t[j]);
  }

  lemma MultisetTail(r: seq<Issue>, t: seq<Issue>)
    requires |r| > 0 && |t| > 0 && r[0] == t[0] && multiset(r) == multiset(t)
    ensures multiset(r[1..]) == multiset(t[1..])
  {
    assert r == [r[0]] + r[1..] && t == [t[0]] + t[1..];
    assert multiset(r[1..]) == multiset(r) - multiset{r[0]};
    assert multiset(t[1..]) == multiset(t) - multiset{t[0]};
  }


  /** With neither filter set, the selection is the whole store, in order. */
  lemma NoFilterSelectsAll(s: seq<Issue>, spec: FilterSpec)
    requires spec.status.None? && spec.kind.None?
    ensures Selected(s, spec) == s
  {
    assert KeepIf(s, None) == s;
  }

  /** Under a recognised `sortBy` with no ties among the selected issues, the
      list shows exactly their strictly ordered arrangement. */
  lemma ProjectDistinct(s: seq<Issue>, spec: FilterSpec, t: seq<Issue>)
    requires OrderOf(spec.sortBy).Some?
    requires StrictlySortedBy(OrderOf(spec.sortBy).value, t)
    requires multiset(Selected(s, spec)) == multiset(t)
    ensures Project(s, spec) == t
  {
    SortedDistinctUnique(OrderOf(spec.sortBy).value, Project(s, spec), t);
  }

  /** `WithRank` picks out exactly the issues of that rank. */
  lemma {:induction false} WithRankMembers(o: SortOrder, s: seq<Issue>, k: int, x: Issue)
    ensures x in WithRank(o, s, k) <==> x in s && Rank(o, x) == k
  {
    if |s| > 0 {
      WithRankMembers(o, s[..|s| - 1], k, x);
      assert s == s[..|s| - 1] + [s[|s| - 1]];
    }
  }

  /** Dropping the last issue from both sides of a `WithRank` equality. */
  lemma WithRankDropLast(o: SortOrder, r: seq<Issue>, t: seq<Issue>, k: int)
    requires |r| > 0 && |t| > 0 && r[|r| - 1] == t[|t| - 1]
    requires WithRank(o, r, k) == WithRank(o, t, k)
    ensures WithRank(o, r[..|r| - 1], k) == WithRank(o, t[..|t| - 1], k)
  {
    var e := if Rank(o, r[|r| - 1]) == k then [r[|r| - 1]] else [];
    var a := WithRank(o, r[..|r| - 1], k);
    var b := WithRank(o, t[..|t| - 1], k);
    assert a + e == b + e;
    assert a == (a + e)[..|a|] && b == (b + e)[..|b|];
  }

  /** The last issue of a sorted list has the largest rank. */
  lemma SortedLastIsMax(o: SortOrder, s: seq<Issue>, x: Issue)
    requires SortedBy(o, s) && x in s
    ensures Rank(o, x) <= Rank(o, s[|s| - 1])
  {
    var i :| 0 <= i < |s| && s[i] == x;
    if i < |s| - 1 {
      assert Rank(o, s[i]) <= Rank(o, s[|s| - 1]);
    }
  }

  /** Two lists with the same issues of rank `k`, both ending in an issue of
      rank `k`, end with the same issue. */
  lemma LastOfRankAgrees(o: SortOrder, r: seq<Issue>, t: seq<Issue>, k: int)
    requires |r| > 0 && |t| > 0
    requires Rank(o, r[|r| - 1]) == k && Rank(o, t[|t| - 1]) == k
    requires WithRank(o, r, k) == WithRank(o, t, k)
    ensures r[|r| - 1] == t[|t| - 1]
  {
    var a := WithRank(o, r[..|r| - 1], k);
    var b := WithRank(o, t[..|t| - 1], k);
    assert WithRank(o, r, k) == a + [r[|r| - 1]];
    assert WithRank(o, t, k) == b + [t[|t| - 1]];
  }

  /** Two sorted lists with the same issues of each rank end with issues of
      the same rank: the largest one. */
  lemma LastRanksAgree(o: SortOrder, r: seq<Issue>, t: seq<Issue>)
    requires SortedBy(o, r) && SortedBy(o, t) && |r| > 0 && |t| > 0
    requires WithRank(o, r, Rank(o, r[|r| - 1])) == WithRank(o, t, Rank(o, r[|r| - 1]))
    requires WithRank(o, r, Rank(o, t[|t| - 1])) == WithRank(o, t, Rank(o, t[|t| - 1]))
    ensures Rank(o, r[|r| - 1]) == Rank(o, t[|t| - 1])
  {
    var lr, lt := r[|r| - 1], t[|t| - 1];
    WithRankMembers(o, r, Rank(o, lr), lr);
    WithRankMembers(o, t, Rank(o, lr), lr);
    SortedLastIsMax(o, t, lr);
    WithRankMembers(o, t, Rank(o, lt), lt);
    WithRankMembers(o, r, Rank(o, lt), lt);
    SortedLastIsMax(o, r, lt);
  }

  /** A stable sort has only one possible result: two sorted lists that keep
      the issues of each rank in the same relative order are equal. So
      `SortBy` is the stable sort, whatever algorithm the source's runtime uses. */
  lemma {:induction false} SortedStableUnique(o: SortOrder, r: seq<Issue>, t: seq<Issue>)
    requires SortedBy(o, r) && SortedBy(o, t)
    requires forall k :: WithRank(o, r, k) == WithRank(o, t, k)
    ensures r == t
    decreases |r| + |t|
  {
    if |r| > 0 && |t| > 0 {
      var ri, ti := r[..|r| - 1], t[..|t| - 1];
      LastRanksAgree(o, r, t);
      LastOfRankAgrees(o, r, t, Rank(o, r[|r| - 1]));
      forall k ensures WithRank(o, ri, k) == WithRank(o, ti, k) {
        WithRankDropLast(o, r, t, k);
      }
      SortedStableUnique(o, ri, ti);
    } else {
      if |r| > 0 {
        WithRankMembers(o, r, Rank(o, r[0]), r[0]);
        WithRankMembers(o, t, Rank(o, r[0]), r[0]);
      }
      if |t| > 0 {
        WithRankMembers(o, t, Rank(o, t[0]), t[0]);
        WithRankMembers(o, r, Rank(o, t[0]), t[0]);
      }
    }
  }

  /** Under a recognised `sortBy`, the list shows exactly the sorted
      arrangement of the selection that keeps equal keys in store order. */
  lemma ProjectStable(s: seq<Issue>, spec: FilterSpec, t: seq<Issue>)
    requires OrderOf(spec.sortBy).Some?
    requires SortedBy(OrderOf(spec.sortBy).value, t)
    requires forall k :: WithRank(OrderOf(spec.sortBy).value, t, k) == WithRank(OrderOf(spec.sortBy).value, Selected(s, spec), k)
    ensures Project(s, spec) == t
  {
    SortedStableUnique(OrderOf(spec.sortBy).value, Project(s, spec), t);
  }
}
