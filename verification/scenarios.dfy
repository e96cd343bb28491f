/** The seed store and the flows the application walks through, stated as
    lemmas over the model. */
module Scenarios {
  import opened Types
  import opened IssueStore
  import opened ViewPipeline
  import opened MockData
  import IssueFilter
  import AdminDashboard
  import Profile

  /** The seed is well formed: distinct issue ids, no issue updated before it
      was created, and every comment points back at the issue that holds it
      and is no older than it. */
  lemma SeedWellFormed()
    ensures UniqueIds(MockIssues())
    ensures TimesOrdered(MockIssues())
    ensures forall i, j :: 0 <= i < |MockIssues()| && 0 <= j < |MockIssues()[i].comments| ==>
      MockIssues()[i].comments[j].issueId == MockIssues()[i].id
      && MockIssues()[i].comments[j].createdAt >= MockIssues()[i].createdAt
  {
    SeedIssueWellFormed(PotholeOnMain());
    SeedIssueWellFormed(BrokenStreetLight());
    SeedIssueWellFormed(GarbageOverflow());
    SeedIssueWellFormed(WaterMainLeak());
    var s := MockIssues();
    assert Ids(s) == ["1", "2", "3", "4"];
    assert forall i :: 0 <= i < |s| ==> IssueWellFormed(s[i]);
  }

  /** One issue's own timestamps are ordered, and its comments point back at
      it and come after its creation. */
  predicate IssueWellFormed(x: Issue)
  {
    && x.createdAt <= x.updatedAt
    && forall j :: 0 <= j < |x.comments| ==> x.comments[j].issueId == x.id && x.comments[j].createdAt >= x.createdAt
  }

  lemma SeedIssueWellFormed(x: Issue)
    requires x in MockIssues()
    ensures IssueWellFormed(x)
  {
  }

  /** All comments of a list of issues, issue by issue. */
  function CommentsOf(s: seq<Issue>): (r: seq<Comment>)
    ensures |r| == AdminDashboard.TotalComments(s)
  {
    if |s| == 0 then [] else s[0].comments + CommentsOf(s[1..])
  }

  /** Collecting the comments of four issues concatenates their threads. */
  lemma CommentsOfFour(a: Issue, b: Issue, c: Issue, d: Issue)
    ensures CommentsOf([a, b, c, d]) == a.comments + b.comments + c.comments + d.comments
  {
    assert [a, b, c, d][1..] == [b, c, d] && [b, c, d][1..] == [c, d] && [c, d][1..] == [d] && [d][1..] == [];
    assert CommentsOf([d]) == d.comments + [];
    assert CommentsOf([c, d]) == c.comments + d.comments;
    assert CommentsOf([b, c, d]) == b.comments + (c.comments + d.comments);
  }

  /** The seed's comment ids, 101 to 104, are pairwise distinct. */
  lemma SeedCommentIds()
    ensures var cs := CommentsOf(MockIssues());
      |cs| == 4 && forall p, q :: 0 <= p < q < |cs| ==> cs[p].id != cs[q].id
  {
    var a, b, c, d := PotholeOnMain(), BrokenStreetLight(), GarbageOverflow(), WaterMainLeak();
    CommentsOfFour(a, b, c, d);
    var cs := a.comments + b.comments + c.comments + d.comments;
    assert CommentsOf(MockIssues()) == cs;
    assert cs[0].id == "101" && cs[1].id == "102" && cs[2].id == "103" && cs[3].id == "104";
  }

  /** With no filter, four issues whose keys order them d, a, c, b (no ties)
      are shown in that order. */
  lemma UnfilteredFour(spec: FilterSpec, a: Issue, b: Issue, c: Issue, d: Issue)
    requires spec.status.None? && spec.kind.None? && OrderOf(spec.sortBy).Some?
    requires var o := OrderOf(spec.sortBy).value; Rank(o, d) < Rank(o, a) < Rank(o, c) < Rank(o, b)
    ensures Project([a, b, c, d], spec) == [d, a, c, b]
  {
    var s := [a, b, c, d];
    var t := [d, a, c, b];
    NoFilterSelectsAll(s, spec);
    assert StrictlySortedBy(OrderOf(spec.sortBy).value, t);
    assert multiset(s) == multiset(t);
    ProjectDistinct(s, spec, t);
  }

  /** The keys of the seed that the views depend on: ids, statuses, votes,
      the order of creation times, comment counts and non-staff comment
      counts. Stated as a shape so that the scenarios below work from these
      facts alone rather than from the full seed text. */
  predicate SeedShape(s: seq<Issue>)
  {
    && |s| == 4
    && s[0].id == "1" && s[1].id == "2" && s[2].id == "3" && s[3].id == "4"
    && s[0].status == Pending && s[1].status == InProgress && s[2].status == Resolved && s[3].status == Pending
    && s[0].upvotes == 15 && s[1].upvotes == 8 && s[2].upvotes == 12 && s[3].upvotes == 20
    && s[2].createdAt < s[1].createdAt < s[0].createdAt < s[3].createdAt
    && |s[0].comments| == 1 && |s[1].comments| == 1 && |s[2].comments| == 2 && |s[3].comments| == 0
    && Profile.CitizenComments(s[0].comments) == 1 && Profile.CitizenComments(s[2].comments) == 1
  }

  /** The seed has that shape. */
  lemma SeedKeys()
    ensures SeedShape(MockIssues())
  {
    var s := MockIssues();
    var c0, c2 := s[0].comments, s[2].comments;
    assert c0[1..] == [] && c2[1..][1..] == [];
  }

  /** The four ids of a four-issue list, in order. */
  lemma IdsOfFour(a: Issue, b: Issue, c: Issue, d: Issue)
    ensures Ids([a, b, c, d]) == [a.id, b.id, c.id, d.id]
  {
  }

  /** Sorting the seed by upvotes shows 4, 1, 3, 2 (20, 15, 12, 8 votes). */
  lemma SeedByUpvotes(s: seq<Issue>, spec: FilterSpec)
    requires SeedShape(s)
    requires spec == FilterSpec(None, None, Some("upvotes"))
    ensures Ids(Project(s, spec)) == ["4", "1", "3", "2"]
  {
    OrdersOf();
    assert s == [s[0], s[1], s[2], s[3]];
    UnfilteredFour(spec, s[0], s[1], s[2], s[3]);
    IdsOfFour(s[3], s[0], s[2], s[1]);
  }

  /** Newest first shows 4, 1, 2, 3: the issues by descending creation time. */
  lemma SeedByNewest(s: seq<Issue>, spec: FilterSpec)
    requires SeedShape(s)
    requires spec == FilterSpec(None, None, Some("newest"))
    ensures Ids(Project(s, spec)) == ["4", "1", "2", "3"]
  {
    OrdersOf();
    assert s == [s[0], s[1], s[2], s[3]];
    var t := [s[3], s[0], s[1], s[2]];
    NoFilterSelectsAll(s, spec);
    assert StrictlySortedBy(Newest, t);
    assert multiset(s) == multiset(t);
    ProjectDistinct(s, spec, t);
    IdsOfFour(s[3], s[0], s[1], s[2]);
  }

  /** The four recognised sort strings. */
  lemma OrdersOf()
    ensures OrderOf(Some("newest")) == Some(Newest) && OrderOf(Some("oldest")) == Some(Oldest)
    ensures OrderOf(Some("upvotes")) == Some(MostUpvotes) && OrderOf(Some("comments")) == Some(MostComments)
  {
  }

  /** The issues of rank `k` in a four-issue list, position by position. */
  lemma WithRankFour(o: SortOrder, a: Issue, b: Issue, c: Issue, d: Issue, k: int)
    ensures WithRank(o, [a, b, c, d], k)
      == (if Rank(o, a) == k then [a] else []) + (if Rank(o, b) == k then [b] else [])
       + (if Rank(o, c) == k then [c] else []) + (if Rank(o, d) == k then [d] else [])
  {
    WithRankSnoc(o, [], a, k);
    assert [] + [a] == [a];
    WithRankSnoc(o, [a], b, k);
    assert [a] + [b] == [a, b];
    WithRankSnoc(o, [a, b], c, k);
    assert [a, b] + [c] == [a, b, c];
    WithRankSnoc(o, [a, b, c], d, k);
    assert [a, b, c] + [d] == [a, b, c, d];
  }

  /** "Most comments" shows 3, 1, 2, 4: issue 3 has two comments, issues 1
      and 2 tie at one and keep their store order, issue 4 has none. */
  lemma SeedByComments(s: seq<Issue>, spec: FilterSpec)
    requires SeedShape(s)
    requires spec == FilterSpec(None, None, Some("comments"))
    ensures Ids(Project(s, spec)) == ["3", "1", "2", "4"]
  {
    OrdersOf();
    var o := MostComments;
    assert s == [s[0], s[1], s[2], s[3]];
    var t := [s[2], s[0], s[1], s[3]];
    NoFilterSelectsAll(s, spec);
    assert SortedBy(o, t);
    forall k ensures WithRank(o, t, k) == WithRank(o, s, k) {
      WithRankFour(o, s[2], s[0], s[1], s[3], k);
      WithRankFour(o, s[0], s[1], s[2], s[3], k);
    }
    ProjectStable(s, spec, t);
    IdsOfFour(s[2], s[0], s[1], s[3]);
  }

  /** The reset as written shows the seed in store order, 1, 2, 3, 4, under a
      sort dropdown reading "newest"; the consistent reset shows 4, 1, 2, 3,
      as on first render. */
  lemma SeedAfterReset(s: seq<Issue>, st: IssueFilter.FilterState)
    requires SeedShape(s)
    ensures Ids(Project(s, IssueFilter.ResetFilters(st).emitted)) == ["1", "2", "3", "4"]
    ensures Ids(Project(s, IssueFilter.ResetFiltersConsistent(st).emitted)) == ["4", "1", "2", "3"]
    ensures IssueFilter.ResetFilters(st).state.sortBy == "newest"
  {
    IssueFilter.ResetDisagreesWithDropdowns(st);
    assert s == [s[0], s[1], s[2], s[3]];
    IdsOfFour(s[0], s[1], s[2], s[3]);
    SeedByNewest(s, IssueFilter.ResetFiltersConsistent(st).emitted);
  }

  /** A citizen's report, two upvotes from two browsers, then an admin
      resolving it later: the issue sits first with two votes, resolved, and
      its `updatedAt` is the resolution time, after its creation. */
  lemma ReportUpvoteResolve(s: seq<Issue>, draft: IssueDraft, id: string, now: nat, later: nat)
    requires now < later
    ensures var s1 := AddIssue(s, draft, id, now);
      var s2 := UpvoteIssue(UpvoteIssue(s1, id), id);
      var s3 := UpdateIssueStatus(s2, id, Resolved, later);
      && s3[0].id == id && s3[0].upvotes == 2 && s3[0].status == Resolved
      && s3[0].createdAt == now < s3[0].updatedAt == later
      && s3[1..] == UpdateIssueStatus(UpvoteIssue(UpvoteIssue(s, id), id), id, Resolved, later)
  {
    var none := CommentDraft("", false, "");
    var s1 := AddIssue(s, draft, id, now);
    MutationsDropFirst(s1, id, Resolved, none, "", later);
    var u1 := UpvoteIssue(s1, id);
    MutationsDropFirst(u1, id, Resolved, none, "", later);
    var s2 := UpvoteIssue(u1, id);
    MutationsDropFirst(s2, id, Resolved, none, "", later);
  }

  /** The dashboard over the seed: two pending, one in progress, one resolved;
      55 upvotes and 4 comments in all. */
  lemma SeedDashboard(s: seq<Issue>)
    requires SeedShape(s)
    ensures AdminDashboard.StatusCount(s, Pending) == 2
    ensures AdminDashboard.StatusCount(s, InProgress) == 1
    ensures AdminDashboard.StatusCount(s, Resolved) == 1
    ensures AdminDashboard.TotalUpvotes(s) == 55
    ensures AdminDashboard.TotalComments(s) == 4
  {
    assert s == [s[0], s[1], s[2], s[3]];
    forall st
      ensures AdminDashboard.StatusCount(s, st) ==
        AdminDashboard.StatusCount([s[0]], st) + AdminDashboard.StatusCount([s[1]], st) +
        AdminDashboard.StatusCount([s[2]], st) + AdminDashboard.StatusCount([s[3]], st)
    {
      StatusCountOfFour(s[0], s[1], s[2], s[3], st);
    }
    TotalsOfFour(s[0], s[1], s[2], s[3]);
  }

  /** The dashboard counters of a four-issue list, issue by issue. */
  lemma StatusCountOfFour(a: Issue, b: Issue, c: Issue, d: Issue, st: StatusType)
    ensures AdminDashboard.StatusCount([a, b, c, d], st) ==
      AdminDashboard.StatusCount([a], st) + AdminDashboard.StatusCount([b], st) +
      AdminDashboard.StatusCount([c], st) + AdminDashboard.StatusCount([d], st)
  {
    assert [a, b, c, d][1..] == [b, c, d] && [b, c, d][1..] == [c, d] && [c, d][1..] == [d] && [d][1..] == [];
    assert AdminDashboard.StatusCount([c, d], st) ==
      AdminDashboard.StatusCount([c], st) + AdminDashboard.StatusCount([d], st);
    assert AdminDashboard.StatusCount([b, c, d], st) ==
      AdminDashboard.StatusCount([b], st) + AdminDashboard.StatusCount([c], st) + AdminDashboard.StatusCount([d], st);
  }

  lemma TotalsOfFour(a: Issue, b: Issue, c: Issue, d: Issue)
    ensures AdminDashboard.TotalUpvotes([a, b, c, d]) == a.upvotes + b.upvotes + c.upvotes + d.upvotes
    ensures AdminDashboard.TotalComments([a, b, c, d]) == |a.comments| + |b.comments| + |c.comments| + |d.comments|
  {
    assert [a, b, c, d][1..] == [b, c, d] && [b, c, d][1..] == [c, d] && [c, d][1..] == [d] && [d][1..] == [];
    assert AdminDashboard.TotalUpvotes([d]) == d.upvotes;
    assert AdminDashboard.TotalComments([d]) == |d.comments|;
    assert AdminDashboard.TotalUpvotes([c, d]) == c.upvotes + d.upvotes;
    assert AdminDashboard.TotalComments([c, d]) == |c.comments| + |d.comments|;
    assert AdminDashboard.TotalUpvotes([b, c, d]) == b.upvotes + c.upvotes + d.upvotes;
    assert AdminDashboard.TotalComments([b, c, d]) == |b.comments| + |c.comments| + |d.comments|;
  }

  /** "My issues" of a four-issue store are its first and third. */
  lemma EvenIndicesOfFour(s: seq<Issue>)
    requires |s| == 4
    ensures Profile.EvenIndices(s) == [s[0], s[2]]
  {
    assert s[2..][2..] == [];
  }

  /** The tabs of a pending issue followed by a resolved one. */
  lemma TabsOfTwo(a: Issue, c: Issue)
    requires a.status == Pending && c.status == Resolved
    ensures Profile.PendingTab([a, c]) == [a]
    ensures Profile.InProgressTab([a, c]) == []
    ensures Profile.ResolvedTab([a, c]) == [c]
  {
    assert [a, c][1..] == [c] && [c][1..] == [];
    assert Keep([c], StatusIs(Resolved)) == [c];
  }

  lemma CommentsMadeOfTwo(a: Issue, c: Issue)
    ensures Profile.CommentsMade([a, c]) == Profile.CitizenComments(a.comments) + Profile.CitizenComments(c.comments)
  {
    assert [a, c][1..] == [c] && [c][1..] == [];
    assert Profile.CommentsMade([c]) == Profile.CitizenComments(c.comments);
  }

  /** The profile over the seed: "my issues" are 1 and 3, one pending and one
      resolved, and two of their comments are non-staff. */
  lemma SeedProfile(s: seq<Issue>)
    requires SeedShape(s)
    ensures var user := Profile.EvenIndices(s);
      && Ids(user) == ["1", "3"]
      && Ids(Profile.PendingTab(user)) == ["1"]
      && Profile.InProgressTab(user) == []
      && Ids(Profile.ResolvedTab(user)) == ["3"]
      && Profile.CommentsMade(user) == 2
  {
    EvenIndicesOfFour(s);
    assert s[0].status == Pending && s[2].status == Resolved;
    TabsOfTwo(s[0], s[2]);
    CommentsMadeOfTwo(s[0], s[2]);
  }
}
