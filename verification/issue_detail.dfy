/** The issue detail page: lookup by route id with a not-found branch, the
    page's own guarded upvote (sharing the card's ledger), and the predicates
    that decide the "Updated" line and the timeline stages. */
module IssueDetail {
  import opened Types
  import opened IssueStore
  import opened UpvoteGuard

  /** The route parameter as the page uses it: `id || ''`. */
  function LookupKey(routeId: Option<string>): (r: string)
    ensures routeId.Some? ==> r == routeId.value
    ensures routeId.None? ==> r == ""
  {
    if routeId.Some? then routeId.value else ""
  }

  /** JavaScript truthiness of the route parameter: defined and non-empty. */
  predicate Truthy(routeId: Option<string>)
  {
    routeId.Some? && routeId.value != ""
  }

  datatype DetailView = NotFound | Found(issue: Issue)

  /** What the page renders for a route id. */
  function View(store: seq<Issue>, routeId: Option<string>): (r: DetailView)
    ensures r.NotFound? <==> !HasId(store, LookupKey(routeId))
    ensures r.Found? ==> r.issue.id == LookupKey(routeId)
    ensures r.Found? ==> exists i :: 0 <= i < |store| && store[i] == r.issue && !HasId(store[..i], LookupKey(routeId))
  {
    match GetIssueById(store, LookupKey(routeId))
    case None => NotFound
    case Some(x) => Found(x)
  }

  /** The page's initial flag: read from the ledger only when the route id is
      truthy, otherwise it stays false. */
  function DetailMount(store: seq<Issue>, ledger: Ledger, routeId: Option<string>): (r: CardState)
    ensures r.store == store && r.ledger == ledger
    ensures r.hasUpvoted <==> Truthy(routeId) && routeId.value in ledger
  {
    CardState(store, ledger, Truthy(routeId) && routeId.value in ledger)
  }

  /** The page's `handleUpvote`: upvote `issue.id` and record the route id,
      only when not yet upvoted and the route id is truthy. */
  function DetailUpvote(c: CardState, routeId: Option<string>, issue: Issue): (r: CardState)
    ensures c.hasUpvoted || !Truthy(routeId) ==> r == c
    ensures !c.hasUpvoted && Truthy(routeId) ==>
      && r.store == UpvoteIssue(c.store, issue.id)
      && r.ledger == MarkUpvoted(c.ledger, routeId.value)
      && r.hasUpvoted
  {
    if !c.hasUpvoted && Truthy(routeId) then
      CardState(UpvoteIssue(c.store, issue.id), MarkUpvoted(c.ledger, routeId.value), true)
    else c
  }

  /** On a found issue the ledger key (the route id) and the upvoted id agree,
      so after an upvote from the page the issue's own id is in the ledger and
      a card mounted afterwards for that issue can never upvote it again. */
  lemma DetailUpvoteGuardsCards(store: seq<Issue>, ledger: Ledger, routeId: Option<string>, n: nat)
    requires View(store, routeId).Found?
    requires Truthy(routeId) && routeId.value !in ledger
    ensures var issue := View(store, routeId).issue;
      var after := DetailUpvote(DetailMount(store, ledger, routeId), routeId, issue);
      && after.store == UpvoteIssue(store, issue.id)
      && issue.id in after.ledger
      && CardClicks(CardMount(after.store, after.ledger, issue.id), issue.id, n).store == after.store
  {
    var issue := View(store, routeId).issue;
    var after := DetailUpvote(DetailMount(store, ledger, routeId), routeId, issue);
    ClicksCollapse(CardMount(after.store, after.ledger, issue.id), issue.id, n);
  }

  /** The "Updated" line is shown when the two stamps differ; on an issue
      whose stamps are ordered, that is exactly when it was touched after
      creation. */
  function ShowsUpdated(issue: Issue): (r: bool)
    ensures issue.createdAt <= issue.updatedAt ==> (r <==> issue.createdAt < issue.updatedAt)
  {
    issue.updatedAt != issue.createdAt
  }

  /** Timeline stage 2 ("In Progress") is highlighted: any status past
      pending. */
  function Stage2Active(status: StatusType): (r: bool)
    ensures r <==> status != Pending
  {
    status == InProgress || status == Resolved
  }

  /** Timeline stage 3 ("Resolved") is highlighted: only the last status, and
      never without stage 2. */
  function Stage3Active(status: StatusType): (r: bool)
    ensures r ==> Stage2Active(status)
    ensures r <==> status != Pending && status != InProgress
  {
    status == Resolved
  }

  /** The stages light up in order: stage 3 implies stage 2, and a pending
      issue lights neither. */
  lemma StagesNest(status: StatusType)
    ensures Stage3Active(status) ==> Stage2Active(status)
    ensures Stage2Active(status) <==> status != Pending
  {
  }

  /** A freshly reported issue shows no "Updated" line; a status change at a
      later time shows one; an upvote leaves the line as it was, since
      `upvoteIssue` does not touch `updatedAt`. */
  lemma UpdatedLineFollowsStore(s: seq<Issue>, draft: IssueDraft, id: string, now: nat, k: nat, status: StatusType, later: nat)
    requires k < |s|
    requires later != s[k].createdAt
    ensures !ShowsUpdated(AddIssue(s, draft, id, now)[0])
    ensures ShowsUpdated(UpdateIssueStatus(s, s[k].id, status, later)[k])
    ensures ShowsUpdated(UpvoteIssue(s, s[k].id)[k]) == ShowsUpdated(s[k])
  {
  }
}
