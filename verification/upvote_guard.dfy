/** The upvote guard of an issue card: a per-browser ledger of upvoted issue
    ids, read when the card mounts and written after the card upvotes. The
    ledger's JSON blob in local storage is modelled as a set of ids. */
module UpvoteGuard {
  import opened Types
  import opened IssueStore

  type Ledger = set<string>

  /** Recording an upvote: the id joins the ledger, every other entry stays. */
  function MarkUpvoted(ledger: Ledger, id: string): (r: Ledger)
    ensures id in r
    ensures forall other :: other != id ==> (other in r <==> other in ledger)
  {
    ledger + {id}
  }

  /** Marking twice is marking once, and marking a recorded id changes nothing. */
  lemma MarkIdempotent(ledger: Ledger, id: string)
    ensures MarkUpvoted(MarkUpvoted(ledger, id), id) == MarkUpvoted(ledger, id)
    ensures id in ledger ==> MarkUpvoted(ledger, id) == ledger
  {
  }

  /** What one card sees: the store, the shared ledger, and its own
      `hasUpvoted` flag. */
  datatype CardState = CardState(store: seq<Issue>, ledger: Ledger, hasUpvoted: bool)

  /** Mounting a card for issue `id`: the flag is read from the ledger. */
  function CardMount(store: seq<Issue>, ledger: Ledger, id: string): (r: CardState)
    ensures r.store == store && r.ledger == ledger
    ensures r.hasUpvoted <==> id in ledger
  {
    CardState(store, ledger, id in ledger)
  }

  /** The card's `handleUpvote`: one store upvote and a ledger entry when not
      yet upvoted, nothing otherwise. */
  function CardUpvote(c: CardState, id: string): (r: CardState)
    ensures c.hasUpvoted ==> r == c
    ensures !c.hasUpvoted ==> r.store == UpvoteIssue(c.store, id)
    ensures !c.hasUpvoted ==> r.ledger == MarkUpvoted(c.ledger, id) && r.hasUpvoted
  {
    if c.hasUpvoted then c
    else CardState(UpvoteIssue(c.store, id), MarkUpvoted(c.ledger, id), true)
  }

  /** n clicks on the same card. */
  function CardClicks(c: CardState, id: string, n: nat): CardState
  {
    if n == 0 then c else CardUpvote(CardClicks(c, id, n - 1), id)
  }

  /** However many times the card is clicked, at most the first click acts. */
  lemma {:induction false} ClicksCollapse(c: CardState, id: string, n: nat)
    ensures CardClicks(c, id, n) == if n == 0 then c else CardUpvote(c, id)
  {
    if n > 1 {
      ClicksCollapse(c, id, n - 1);
    }
  }

  /** So the issue behind the card gains at most one upvote from any number
      of clicks, and exactly one when the card was not yet upvoted. */
  lemma ClicksRaiseAtMostOne(c: CardState, k: nat, n: nat)
    requires k < |c.store|
    ensures var after := CardClicks(c, c.store[k].id, n).store;
      && |after| == |c.store|
      && after[k].upvotes == c.store[k].upvotes + (if n > 0 && !c.hasUpvoted then 1 else 0)
  {
    ClicksCollapse(c, c.store[k].id, n);
  }

  /** The card flag agrees with the ledger. */
  predicate Consistent(c: CardState, id: string)
  {
    c.hasUpvoted <==> id in c.ledger
  }

  /** Things that can happen to a card: a click, or a fresh mount that
      re-reads the ledger. */
  datatype Event = Click | Remount

  function Run(c: CardState, id: string, events: seq<Event>): CardState
    decreases |events|
  {
    if |events| == 0 then c
    else
      var c' := match events[0]
        case Click => CardUpvote(c, id)
        case Remount => CardMount(c.store, c.ledger, id);
      Run(c', id, events[1..])
  }

  /** Across clicks and remounts, starting from a mounted card, the store
      either is untouched or has received exactly one upvote for `id`, and the
      latter only when the ledger did not already hold `id`. */
  lemma {:induction false} RunUpvotesAtMostOnce(c: CardState, id: string, events: seq<Event>)
    requires Consistent(c, id)
    ensures var r := Run(c, id, events);
      || (r.store == c.store && r.ledger == c.ledger)
      || (id !in c.ledger && r.store == UpvoteIssue(c.store, id) && r.ledger == MarkUpvoted(c.ledger, id))
    decreases |events|
  {
    if |events| > 0 {
      var c' := match events[0]
        case Click => CardUpvote(c, id)
        case Remount => CardMount(c.store, c.ledger, id);
      if events[0].Click? && !c.hasUpvoted {
        RunFromUpvoted(c', id, events[1..]);
      } else {
        assert c'.store == c.store && c'.ledger == c.ledger;
        RunUpvotesAtMostOnce(c', id, events[1..]);
      }
    }
  }

  /** Once the ledger holds `id` and the card agrees, nothing more happens. */
  lemma {:induction false} RunFromUpvoted(c: CardState, id: string, events: seq<Event>)
    requires c.hasUpvoted && id in c.ledger
    ensures Run(c, id, events).store == c.store && Run(c, id, events).ledger == c.ledger
    decreases |events|
  {
    if |events| > 0 {
      var c' := match events[0]
        case Click => CardUpvote(c, id)
        case Remount => CardMount(c.store, c.ledger, id);
      assert c' == c;
      RunFromUpvoted(c', id, events[1..]);
    }
  }
}
