/** The profile page's "my issues": every other issue of the store stands
    in for the user's own reports, split into status tabs, plus the
    "Comments Made" figure. */
module Profile {
  import opened Types
  import opened ViewPipeline
  import AdminDashboard

  /** `issues.filter((_, index) => index % 2 === 0)`. */
  function EvenIndices<T>(s: seq<T>): (r: seq<T>)
    ensures |r| == (|s| + 1) / 2
    ensures forall i :: 0 <= i < |r| ==> r[i] == s[2 * i]
  {
    if |s| <= 1 then s
    else [s[0]] + EvenIndices(s[2..])
  }

  /** The "Pending" tab: exactly the user's pending issues, in order. */
  function PendingTab(user: seq<Issue>): (r: seq<Issue>)
    ensures Subsequence(r, user)
    ensures forall x :: x in r <==> x in user && x.status == Pending
  {
    Keep(user, StatusIs(Pending))
  }

  /** The "In Progress" tab: exactly the user's issues in progress, in order. */
  function InProgressTab(user: seq<Issue>): (r: seq<Issue>)
    ensures Subsequence(r, user)
    ensures forall x :: x in r <==> x in user && x.status == InProgress
  {
    Keep(user, StatusIs(InProgress))
  }

  /** The "Resolved" tab: exactly the user's resolved issues, in order. */
  function ResolvedTab(user: seq<Issue>): (r: seq<Issue>)
    ensures Subsequence(r, user)
    ensures forall x :: x in r <==> x in user && x.status == Resolved
  {
    Keep(user, StatusIs(Resolved))
  }

  /** The tabs split "my issues": each is an order-preserving subsequence,
      their sizes add up, and no issue shows in two tabs. */
  lemma TabsPartition(store: seq<Issue>)
    ensures var user := EvenIndices(store);
      && Subsequence(PendingTab(user), user)
      && Subsequence(InProgressTab(user), user)
      && Subsequence(ResolvedTab(user), user)
      && |PendingTab(user)| + |InProgressTab(user)| + |ResolvedTab(user)| == |user|
      && (forall x :: x in PendingTab(user) ==> x !in InProgressTab(user) && x !in ResolvedTab(user))
      && (forall x :: x in InProgressTab(user) ==> x !in ResolvedTab(user))
  {
    StatusFiltersPartition(EvenIndices(store));
  }

  /** Non-staff comments on one issue. */
  function CitizenComments(cs: seq<Comment>): (r: nat)
    ensures r <= |cs|
  {
    if |cs| == 0 then 0 else (if !cs[0].isAdmin then 1 else 0) + CitizenComments(cs[1..])
  }

  /** Staff comments on one issue. */
  function StaffComments(cs: seq<Comment>): nat
  {
    if |cs| == 0 then 0 else (if cs[0].isAdmin then 1 else 0) + StaffComments(cs[1..])
  }

  /** "Comments Made": the non-staff comments across the given issues, never
      more than all their comments together. */
  function CommentsMade(user: seq<Issue>): (r: nat)
    ensures r <= AdminDashboard.TotalComments(user)
  {
    if |user| == 0 then 0 else CitizenComments(user[0].comments) + CommentsMade(user[1..])
  }

  function StaffCommentsOn(user: seq<Issue>): nat
  {
    if |user| == 0 then 0 else StaffComments(user[0].comments) + StaffCommentsOn(user[1..])
  }

  lemma {:induction false} CommentsSplit(cs: seq<Comment>)
    ensures CitizenComments(cs) + StaffComments(cs) == |cs|
  {
    if |cs| > 0 {
      CommentsSplit(cs[1..]);
    }
  }

  /** Every comment is staff or not: "Comments Made" plus the staff comments
      is the issues' total comment count, so it never exceeds that total. */
  lemma {:induction false} CommentsMadeSplit(user: seq<Issue>)
    ensures CommentsMade(user) + StaffCommentsOn(user) == AdminDashboard.TotalComments(user)
    ensures CommentsMade(user) <= AdminDashboard.TotalComments(user)
  {
    if |user| > 0 {
      CommentsSplit(user[0].comments);
      CommentsMadeSplit(user[1..]);
    }
  }
}
