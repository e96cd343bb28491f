/** The data model of the issue tracker: issues, their embedded comments,
    the two enumerations, and the draft shapes the store accepts.
    Timestamps are integer milliseconds and identifiers are strings; both are
    produced by the caller, so the model never reads a clock. */
module Types {

  datatype Option<+T> = None | Some(value: T)

  /** Triage state of an issue. */
  datatype StatusType = Pending | InProgress | Resolved

  /** Category of an issue. */
  datatype IssueType =
    | Pothole
    | Streetlight
    | Garbage
    | WaterLeak
    | Graffiti
    | Sidewalk
    | TrafficLight
    | Other

  /** Geographic position; `address` is optional, as in the source record. */
  datatype Location = Location(latitude: real, longitude: real, address: Option<string>)

  datatype Comment = Comment(
    id: string,
    issueId: string,
    author: string,
    isAdmin: bool,
    content: string,
    createdAt: nat)

  datatype Issue = Issue(
    id: string,
    title: string,
    description: string,
    kind: IssueType,
    status: StatusType,
    location: Location,
    media: seq<string>,
    upvotes: nat,
    createdAt: nat,
    updatedAt: nat,
    comments: seq<Comment>,
    reportedBy: string)

  /** What `addIssue` receives: every issue field except the ones the store
      assigns (id, upvotes, createdAt, updatedAt, comments). */
  datatype IssueDraft = IssueDraft(
    title: string,
    description: string,
    kind: IssueType,
    status: StatusType,
    location: Location,
    media: seq<string>,
    reportedBy: string)

  /** The media URL that stands in for every uploaded file, in the seed and
      in new reports alike. */
  const Placeholder: string := "/placeholder.svg"

  /** What `addComment` receives: the store assigns id, issueId and createdAt. */
  datatype CommentDraft = CommentDraft(author: string, isAdmin: bool, content: string)

  /** Every status, once each, in declaration order. */
  function AllStatuses(): (r: seq<StatusType>)
    ensures |r| == 3
    ensures forall s: StatusType :: s in r
    ensures forall i, j :: 0 <= i < j < |r| ==> r[i] != r[j]
  {
    var r := [Pending, InProgress, Resolved];
    assert forall s: StatusType :: s in r by {
      forall s: StatusType ensures s in r {
        if s.Pending? { assert r[0] == s; }
        else if s.InProgress? { assert r[1] == s; }
        else { assert r[2] == s; }
      }
    }
    r
  }

  /** Every issue type, once each, in declaration order. */
  function AllIssueTypes(): (r: seq<IssueType>)
    ensures |r| == 8
    ensures forall t: IssueType :: t in r
    ensures forall i, j :: 0 <= i < j < |r| ==> r[i] != r[j]
  {
    var r := [Pothole, Streetlight, Garbage, WaterLeak, Graffiti, Sidewalk, TrafficLight, Other];
    assert forall t: IssueType :: t in r by {
      forall t: IssueType ensures t in r {
        if t.Pothole? { assert r[0] == t; }
        else if t.Streetlight? { assert r[1] == t; }
        else if t.Garbage? { assert r[2] == t; }
        else if t.WaterLeak? { assert r[3] == t; }
        else if t.Graffiti? { assert r[4] == t; }
        else if t.Sidewalk? { assert r[5] == t; }
        else if t.TrafficLight? { assert r[6] == t; }
        else { assert r[7] == t; }
      }
    }
    r
  }

  /** The draft an issue was created from: the issue minus its store-assigned fields. */
  function DraftOf(i: Issue): IssueDraft
  {
    IssueDraft(i.title, i.description, i.kind, i.status, i.location, i.media, i.reportedBy)
  }

  /** The draft a comment was created from. */
  function CommentDraftOf(c: Comment): CommentDraft
  {
    CommentDraft(c.author, c.isAdmin, c.content)
  }

  /** The ids of a sequence of issues, in order. */
  function Ids(s: seq<Issue>): (r: seq<string>)
    ensures |r| == |s|
    ensures forall i :: 0 <= i < |s| ==> r[i] == s[i].id
  {
    seq(|s|, i requires 0 <= i < |s| => s[i].id)
  }

  /** No two issues share an id. */
  predicate UniqueIds(s: seq<Issue>)
  {
    forall i, j :: 0 <= i < j < |s| ==> s[i].id != s[j].id
  }

  /** Whether some issue carries `id`. */
  predicate HasId(s: seq<Issue>, id: string)
  {
    exists i :: 0 <= i < |s| && s[i].id == id
  }
}
