/** The admin dashboard's figures over the store (status counts, total
    upvotes, total comments) and its status-change handler, which updates the
    store and the dialog's local copy of the selected issue. */
module AdminDashboard {
  import opened Types
  import opened IssueStore
  import opened ViewPipeline
  import StoreProperties

  /** How many issues have status `st`, counted one by one: never more than
      there are issues, and zero exactly when no issue has that status. */
  function StatusCount(s: seq<Issue>, st: StatusType): (r: nat)
    ensures r <= |s|
    ensures r == 0 <==> forall i :: 0 <= i < |s| ==> s[i].status != st
  {
    if |s| == 0 then 0 else (if s[0].status == st then 1 else 0) + StatusCount(s[1..], st)
  }

  /** The count is the length of the status filter,
      `issues.filter(issue => issue.status === st).length`. */
  lemma {:induction false} StatusCountIsFilterLength(s: seq<Issue>, st: StatusType)
    ensures StatusCount(s, st) == |Keep(s, StatusIs(st))|
  {
    if |s| > 0 {
      StatusCountIsFilterLength(s[1..], st);
    }
  }

  /** The three cards add up to the "Total Issues" card. */
  lemma {:induction false} CountsAddUp(s: seq<Issue>)
    ensures StatusCount(s, Pending) + StatusCount(s, InProgress) + StatusCount(s, Resolved) == |s|
  {
    if |s| > 0 {
      CountsAddUp(s[1..]);
    }
  }

  /** `issues.reduce((sum, issue) => sum + issue.upvotes, 0)`: at least
      every single issue's count, and zero exactly when no issue has a vote. */
  function TotalUpvotes(s: seq<Issue>): (r: nat)
    ensures forall i :: 0 <= i < |s| ==> s[i].upvotes <= r
    ensures r == 0 <==> forall i :: 0 <= i < |s| ==> s[i].upvotes == 0
  {
    if |s| == 0 then 0 else s[0].upvotes + TotalUpvotes(s[1..])
  }

  /** `issues.reduce((sum, issue) => sum + issue.comments.length, 0)`: at
      least every single issue's thread, and zero exactly when no issue has a
      comment. */
  function TotalComments(s: seq<Issue>): (r: nat)
    ensures forall i :: 0 <= i < |s| ==> |s[i].comments| <= r
    ensures r == 0 <==> forall i :: 0 <= i < |s| ==> s[i].comments == []
  {
    if |s| == 0 then 0 else |s[0].comments| + TotalComments(s[1..])
  }

  /** How many issues carry `id`. */
  function IdCount(s: seq<Issue>, id: string): nat
  {
    if |s| == 0 then 0 else (if s[0].id == id then 1 else 0) + IdCount(s[1..], id)
  }

  lemma {:induction false} UniqueIdCount(s: seq<Issue>, k: nat)
    requires UniqueIds(s)
    requires k < |s|
    ensures IdCount(s, s[k].id) == 1
  {
    if k == 0 {
      AbsentIdCount(s[1..], s[0].id);
    } else {
      UniqueIdCount(s[1..], k - 1);
    }
  }

  lemma {:induction false} AbsentIdCount(s: seq<Issue>, id: string)
    requires forall i :: 0 <= i < |s| ==> s[i].id != id
    ensures IdCount(s, id) == 0
  {
    if |s| > 0 {
      AbsentIdCount(s[1..], id);
    }
  }

  /** Each `upvoteIssue(id)` adds one to the total per issue carrying `id`. */
  lemma {:induction false} UpvoteAddsToTotal(s: seq<Issue>, id: string)
    ensures TotalUpvotes(UpvoteIssue(s, id)) == TotalUpvotes(s) + IdCount(s, id)
  {
    if |s| > 0 {
      UpvoteAddsToTotal(s[1..], id);
      assert UpvoteIssue(s, id)[1..] == UpvoteIssue(s[1..], id);
    }
  }

  /** With unique ids, one upvote of a present issue raises "Total Upvotes" by
      exactly one; an unknown id leaves it unchanged. */
  lemma UpvoteRaisesTotalByOne(s: seq<Issue>, k: nat, unknown: string)
    requires UniqueIds(s)
    requires k < |s|
    requires !HasId(s, unknown)
    ensures TotalUpvotes(UpvoteIssue(s, s[k].id)) == TotalUpvotes(s) + 1
    ensures TotalUpvotes(UpvoteIssue(s, unknown)) == TotalUpvotes(s)
  {
    UpvoteAddsToTotal(s, s[k].id);
    UniqueIdCount(s, k);
    StoreProperties.UnknownIdIsNoOp(s, unknown, Pending, CommentDraft("", false, ""), "", 0);
  }

  /** Each `addComment` adds one to "Total Comments" per issue carrying the id. */
  lemma {:induction false} CommentAddsToTotal(s: seq<Issue>, id: string, draft: CommentDraft, commentId: string, now: nat)
    ensures TotalComments(AddComment(s, id, draft, commentId, now)) == TotalComments(s) + IdCount(s, id)
  {
    if |s| > 0 {
      CommentAddsToTotal(s[1..], id, draft, commentId, now);
      assert AddComment(s, id, draft, commentId, now)[1..] == AddComment(s[1..], id, draft, commentId, now);
    }
  }

  /** A status change moves the changed issues from their old count to the
      new one: for any status x, the count of x after is the count before,
      plus the changed issues that now have x, minus those that had it. */
  lemma {:induction false} StatusChangeMovesCount(s: seq<Issue>, k: nat, st: StatusType, now: nat, x: StatusType)
    requires UniqueIds(s)
    requires k < |s|
    ensures StatusCount(UpdateIssueStatus(s, s[k].id, st, now), x)
      == StatusCount(s, x) + (if x == st then 1 else 0) - (if x == s[k].status then 1 else 0)
  {
    var id := s[k].id;
    var r := UpdateIssueStatus(s, id, st, now);
    assert r[1..] == UpdateIssueStatus(s[1..], id, st, now);
    if k == 0 {
      assert !HasId(s[1..], id) by {
        forall i | 0 <= i < |s[1..]| ensures s[1..][i].id != id {
          assert s[1..][i] == s[i + 1];
        }
      }
      StoreProperties.UnknownIdIsNoOp(s[1..], id, st, CommentDraft("", false, ""), "", now);
    } else {
      assert s[1..][k - 1] == s[k];
      StatusChangeMovesCount(s[1..], k - 1, st, now, x);
    }
  }

  /** The dashboard's state: the store and the issue open in the dialog. */
  datatype Dashboard = Dashboard(store: seq<Issue>, selected: Option<Issue>)

  /** `handleStatusChange`: with an issue selected, update the store and set
      only the status of the local copy (its `updatedAt` stays as it was);
      with none selected, do nothing. */
  function HandleStatusChange(d: Dashboard, st: StatusType, now: nat): (r: Dashboard)
    ensures d.selected.None? ==> r == d
    ensures d.selected.Some? ==>
      && r.store == UpdateIssueStatus(d.store, d.selected.value.id, st, now)
      && r.selected == Some(d.selected.value.(status := st))
  {
    match d.selected
    case None => d
    case Some(sel) => Dashboard(UpdateIssueStatus(d.store, sel.id, st, now), Some(sel.(status := st)))
  }

  /** After a status change the dialog's copy agrees with the store on the
      status but keeps the old `updatedAt`, while the store's copy carries
      `now`: the two differ whenever `now` is not the old `updatedAt`. */
  lemma DialogCopyIsStale(d: Dashboard, k: nat, st: StatusType, now: nat)
    requires k < |d.store|
    requires d.selected == Some(d.store[k])
    requires now != d.store[k].updatedAt
    ensures var r := HandleStatusChange(d, st, now);
      && r.store[k].status == r.selected.value.status == st
      && r.store[k].updatedAt == now
      && r.selected.value.updatedAt == d.store[k].updatedAt
      && r.store[k] != r.selected.value
  {
  }
}
