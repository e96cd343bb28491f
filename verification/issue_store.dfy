/** The in-memory issue store: the five operations of the issue context over an
    immutable sequence of issues. `Date.now()` and `new Date().toISOString()`
    become the caller-supplied `id`/`commentId` strings and the `now` timestamp.
    An id that matches no issue makes a mutation a silent no-op. */
module IssueStore {
  import opened Types

  /** The issue `addIssue` builds from a draft. */
  function NewIssue(draft: IssueDraft, id: string, now: nat): Issue
  {
    Issue(id, draft.title, draft.description, draft.kind, draft.status, draft.location,
          draft.media, 0, now, now, [], draft.reportedBy)
  }

  /** `addIssue`: prepend a fresh issue built from the draft. */
  function AddIssue(s: seq<Issue>, draft: IssueDraft, id: string, now: nat): (r: seq<Issue>)
    ensures |r| == |s| + 1
    ensures r[1..] == s
    ensures r[0].id == id
    ensures DraftOf(r[0]) == draft
    ensures r[0].upvotes == 0 && r[0].comments == []
    ensures r[0].createdAt == now && r[0].updatedAt == now
  {
    [NewIssue(draft, id, now)] + s
  }

  /** `updateIssueStatus`: every issue with this id gets the new status and
      `updatedAt = now`; every other issue is left alone. */
  function UpdateIssueStatus(s: seq<Issue>, id: string, status: StatusType, now: nat): (r: seq<Issue>)
    ensures |r| == |s|
    ensures Ids(r) == Ids(s)
    ensures forall i :: 0 <= i < |s| && s[i].id == id ==> r[i] == s[i].(status := status, updatedAt := now)
    ensures forall i :: 0 <= i < |s| && s[i].id != id ==> r[i] == s[i]
  {
    var r := seq(|s|, i requires 0 <= i < |s| =>
      if s[i].id == id then s[i].(status := status, updatedAt := now) else s[i]);
    assert Ids(r) == Ids(s);
    r
  }

  /** `upvoteIssue`: every issue with this id gains exactly one upvote; nothing
      else changes. */
  function UpvoteIssue(s: seq<Issue>, id: string): (r: seq<Issue>)
    ensures |r| == |s|
    ensures Ids(r) == Ids(s)
    ensures forall i :: 0 <= i < |s| && s[i].id == id ==> r[i] == s[i].(upvotes := s[i].upvotes + 1)
    ensures forall i :: 0 <= i < |s| && s[i].id != id ==> r[i] == s[i]
  {
    var r := seq(|s|, i requires 0 <= i < |s| =>
      if s[i].id == id then s[i].(upvotes := s[i].upvotes + 1) else s[i]);
    assert Ids(r) == Ids(s);
    r
  }

  /** The comment `addComment` appends to issue `issueId`. */
  function NewComment(issueId: string, draft: CommentDraft, commentId: string, now: nat): Comment
  {
    Comment(commentId, issueId, draft.author, draft.isAdmin, draft.content, now)
  }

  /** `addComment`: every issue with this id gets one more comment at the end of
      its list and `updatedAt = now`; every other issue is left alone. */
  function AddComment(s: seq<Issue>, issueId: string, draft: CommentDraft, commentId: string, now: nat): (r: seq<Issue>)
    ensures |r| == |s|
    ensures Ids(r) == Ids(s)
    ensures forall i :: 0 <= i < |s| && s[i].id == issueId ==>
      && |r[i].comments| == |s[i].comments| + 1
      && r[i].comments[..|s[i].comments|] == s[i].comments
      && r[i].comments[|s[i].comments|] == Comment(commentId, issueId, draft.author, draft.isAdmin, draft.content, now)
      && r[i] == s[i].(comments := r[i].comments, updatedAt := now)
    ensures forall i :: 0 <= i < |s| && s[i].id != issueId ==> r[i] == s[i]
  {
    var c := NewComment(issueId, draft, commentId, now);
    var r := seq(|s|, i requires 0 <= i < |s| =>
      if s[i].id == issueId then s[i].(comments := s[i].comments + [c], updatedAt := now) else s[i]);
    assert Ids(r) == Ids(s);
    r
  }

  /** The three mutations act issue by issue, so they commute with dropping
      the first issue of the store. */
  lemma MutationsDropFirst(s: seq<Issue>, id: string, status: StatusType, draft: CommentDraft, commentId: string, now: nat)
    requires |s| > 0
    ensures UpdateIssueStatus(s, id, status, now)[1..] == UpdateIssueStatus(s[1..], id, status, now)
    ensures UpvoteIssue(s, id)[1..] == UpvoteIssue(s[1..], id)
    ensures AddComment(s, id, draft, commentId, now)[1..] == AddComment(s[1..], id, draft, commentId, now)
  {
    forall i | 0 <= i < |s| - 1 ensures s[1..][i] == s[i + 1] { }
  }

  /** `getIssueById`: the first issue carrying `id`, or nothing. */
  function GetIssueById(s: seq<Issue>, id: string): (r: Option<Issue>)
    ensures r.None? <==> !HasId(s, id)
    ensures r.Some? ==> exists i :: 0 <= i < |s| && s[i] == r.value && r.value.id == id && !HasId(s[..i], id)
  {
    if |s| == 0 then None
    else if s[0].id == id then
      assert s[..0] == [];
      Some(s[0])
    else
      var rest := GetIssueById(s[1..], id);
      if rest.Some? then
        var k :| 0 <= k < |s[1..]| && s[1..][k] == rest.value && rest.value.id == id && !HasId(s[1..][..k], id);
        assert s[..k + 1] == [s[0]] + s[1..][..k];
        rest
      else
        assert !HasId(s, id) by {
          forall i | 0 <= i < |s| ensures s[i].id != id {
            if i > 0 { assert s[i] == s[1..][i - 1]; }
          }
        }
        rest
  }

  /** An issue may only gain upvotes and comments: same id, no fewer upvotes,
      and its old comments are a prefix of its new ones. */
  predicate Grows(a: Issue, b: Issue)
  {
    && b.id == a.id
    && b.upvotes >= a.upvotes
    && |a.comments| <= |b.comments|
    && b.comments[..|a.comments|] == a.comments
  }

  /** Position-wise growth between two stores of the same length. */
  predicate StoreGrows(before: seq<Issue>, after: seq<Issue>)
  {
    |before| == |after| && forall i :: 0 <= i < |before| ==> Grows(before[i], after[i])
  }

  /** Every issue's timestamps are ordered. */
  predicate TimesOrdered(s: seq<Issue>)
  {
    forall i :: 0 <= i < |s| ==> s[i].createdAt <= s[i].updatedAt
  }

  /** The clock `now` is not behind any issue's creation. */
  predicate NotBefore(s: seq<Issue>, now: nat)
  {
    forall i :: 0 <= i < |s| ==> s[i].createdAt <= now
  }

  /** Applying `upvoteIssue(id)` n times. */
  function UpvoteTimes(s: seq<Issue>, id: string, n: nat): seq<Issue>
  {
    if n == 0 then s else UpvoteIssue(UpvoteTimes(s, id, n - 1), id)
  }
}
