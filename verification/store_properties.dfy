/** Properties that relate several store operations, or one operation to an
    invariant of the whole store. */
module StoreProperties {
  import opened Types
  import opened IssueStore

  /** Prepending keeps ids pairwise distinct exactly when the supplied id is
      fresh: `Date.now()` alone does not guarantee it, so freshness is the
      caller's obligation. */
  lemma AddIssueUniqueIds(s: seq<Issue>, draft: IssueDraft, id: string, now: nat)
    ensures UniqueIds(AddIssue(s, draft, id, now)) <==> UniqueIds(s) && !HasId(s, id)
  {
    var r := AddIssue(s, draft, id, now);
    if UniqueIds(r) {
      forall i, j | 0 <= i < j < |s| ensures s[i].id != s[j].id {
        assert r[i + 1] == s[i] && r[j + 1] == s[j];
      }
      forall i | 0 <= i < |s| ensures s[i].id != id {
        assert r[i + 1] == s[i];
      }
    }
    if UniqueIds(s) && !HasId(s, id) {
      forall i, j | 0 <= i < j < |r| ensures r[i].id != r[j].id {
        assert r[j] == s[j - 1];
        if i > 0 { assert r[i] == s[i - 1]; }
      }
    }
  }

  /** An id that matches no issue makes every mutation a silent no-op: the
      store comes back identical. */
  lemma UnknownIdIsNoOp(s: seq<Issue>, id: string, status: StatusType, draft: CommentDraft, commentId: string, now: nat)
    requires !HasId(s, id)
    ensures UpdateIssueStatus(s, id, status, now) == s
    ensures UpvoteIssue(s, id) == s
    ensures AddComment(s, id, draft, commentId, now) == s
  {
    assert forall i :: 0 <= i < |s| ==> s[i].id != id;
  }

  /** A sequence whose ids agree position-wise with a uniquely-identified one
      is uniquely identified too. */
  lemma SameIdsUnique(s: seq<Issue>, r: seq<Issue>)
    requires Ids(r) == Ids(s)
    requires UniqueIds(s)
    ensures UniqueIds(r)
  {
    forall i, j | 0 <= i < j < |r| ensures r[i].id != r[j].id {
      assert Ids(r)[i] == Ids(s)[i] && Ids(r)[j] == Ids(s)[j];
    }
  }

  /** Status changes, upvotes and comments never change an id, so they keep
      ids unique. */
  lemma MutationsKeepIdsUnique(s: seq<Issue>, id: string, status: StatusType, draft: CommentDraft, commentId: string, now: nat)
    requires UniqueIds(s)
    ensures UniqueIds(UpdateIssueStatus(s, id, status, now))
    ensures UniqueIds(UpvoteIssue(s, id))
    ensures UniqueIds(AddComment(s, id, draft, commentId, now))
  {
    SameIdsUnique(s, UpdateIssueStatus(s, id, status, now));
    SameIdsUnique(s, UpvoteIssue(s, id));
    SameIdsUnique(s, AddComment(s, id, draft, commentId, now));
  }

  /** No operation lowers an upvote count or drops a comment: every issue
      present before is present after (at the same position, shifted by one
      for `addIssue`) with at least as many upvotes and its old comments as
      a prefix. */
  lemma NoOperationShrinks(s: seq<Issue>, id: string, status: StatusType, cdraft: CommentDraft, commentId: string, idraft: IssueDraft, newId: string, now: nat)
    ensures StoreGrows(s, AddIssue(s, idraft, newId, now)[1..])
    ensures StoreGrows(s, UpdateIssueStatus(s, id, status, now))
    ensures StoreGrows(s, UpvoteIssue(s, id))
    ensures StoreGrows(s, AddComment(s, id, cdraft, commentId, now))
  {
    var a := AddComment(s, id, cdraft, commentId, now);
    forall i | 0 <= i < |s| ensures Grows(s[i], a[i]) {
      if s[i].id == id {
        assert a[i].comments[..|s[i].comments|] == s[i].comments;
      }
    }
  }

  /** `upvoteIssue` called n times raises every matching issue's upvotes by
      exactly n. */
  lemma {:induction false} UpvoteTimesRaises(s: seq<Issue>, id: string, n: nat)
    ensures |UpvoteTimes(s, id, n)| == |s|
    ensures forall i :: 0 <= i < |s| && s[i].id == id ==>
      UpvoteTimes(s, id, n)[i] == s[i].(upvotes := s[i].upvotes + n)
  {
    if n > 0 {
      UpvoteTimesRaises(s, id, n - 1);
    }
  }

  /** `upvoteIssue` called n times leaves every other issue alone. */
  lemma {:induction false} UpvoteTimesKeepsOthers(s: seq<Issue>, id: string, n: nat)
    ensures |UpvoteTimes(s, id, n)| == |s|
    ensures forall i :: 0 <= i < |s| && s[i].id != id ==> UpvoteTimes(s, id, n)[i] == s[i]
  {
    if n > 0 {
      UpvoteTimesKeepsOthers(s, id, n - 1);
    }
  }

  /** With unique ids, looking up the id of the i-th issue finds exactly it. */
  lemma {:induction false} GetIssueByIdFindsUnique(s: seq<Issue>, i: nat)
    requires UniqueIds(s)
    requires i < |s|
    ensures GetIssueById(s, s[i].id) == Some(s[i])
  {
    var r := GetIssueById(s, s[i].id);
    assert HasId(s, s[i].id);
    var k :| 0 <= k < |s| && s[k] == r.value && r.value.id == s[i].id && !HasId(s[..k], s[i].id);
    assert forall j :: 0 <= j < k ==> s[..k][j] == s[j];
    assert k == i;
  }

  /** Round trip: creating an issue and then looking its id up yields the
      draft plus the store-assigned fields; any other id is looked up as before. */
  lemma AddThenGet(s: seq<Issue>, draft: IssueDraft, id: string, now: nat, other: string)
    requires other != id
    ensures GetIssueById(AddIssue(s, draft, id, now), id).Some?
    ensures var x := GetIssueById(AddIssue(s, draft, id, now), id).value;
      && DraftOf(x) == draft && x.id == id && x.upvotes == 0 && x.comments == []
      && x.createdAt == now && x.updatedAt == now
    ensures GetIssueById(AddIssue(s, draft, id, now), other) == GetIssueById(s, other)
  {
    var r := AddIssue(s, draft, id, now);
    assert r[0].id == id;
    assert r[1..] == s;
  }

  /** With unique ids, an upvote is observed by the next lookup as exactly one
      more vote on the issue found before. */
  lemma UpvoteThenGet(s: seq<Issue>, k: nat)
    requires UniqueIds(s)
    requires k < |s|
    ensures GetIssueById(UpvoteIssue(s, s[k].id), s[k].id) == Some(s[k].(upvotes := s[k].upvotes + 1))
  {
    var r := UpvoteIssue(s, s[k].id);
    SameIdsUnique(s, r);
    assert r[k] == s[k].(upvotes := s[k].upvotes + 1);
    GetIssueByIdFindsUnique(r, k);
  }

  /** `updatedAt >= createdAt` holds for every issue after every operation,
      provided the clock is not behind any creation time. */
  lemma TimesStayOrdered(s: seq<Issue>, id: string, status: StatusType, cdraft: CommentDraft, commentId: string, idraft: IssueDraft, newId: string, now: nat)
    requires TimesOrdered(s)
    requires NotBefore(s, now)
    ensures TimesOrdered(AddIssue(s, idraft, newId, now))
    ensures TimesOrdered(UpdateIssueStatus(s, id, status, now))
    ensures TimesOrdered(UpvoteIssue(s, id))
    ensures TimesOrdered(AddComment(s, id, cdraft, commentId, now))
  {
    var r := AddIssue(s, idraft, newId, now);
    forall i | 0 <= i < |r| ensures r[i].createdAt <= r[i].updatedAt {
      if i > 0 { assert r[i] == s[i - 1]; }
    }
  }
}
