/** The display tables (issue type labels, status labels and badge colours)
    and the four seed issues the store starts from. Seed timestamps are the
    ISO instants of the source converted to milliseconds since the epoch. */
module MockData {
  import opened Types

  /** `issueTypeLabels`: a capitalised display name for every type. */
  function IssueTypeLabel(t: IssueType): (r: string)
    ensures r != "" && 'A' <= r[0] <= 'Z'
  {
    match t
    case Pothole => "Pothole"
    case Streetlight => "Street Light Issue"
    case Garbage => "Garbage Collection"
    case WaterLeak => "Water Leak"
    case Graffiti => "Graffiti"
    case Sidewalk => "Damaged Sidewalk"
    case TrafficLight => "Traffic Light Issue"
    case Other => "Other"
  }

  /** `statusInfo[st].label`: a capitalised display name for every status. */
  function StatusLabel(st: StatusType): (r: string)
    ensures r != "" && 'A' <= r[0] <= 'Z'
  {
    match st
    case Pending => "Pending"
    case InProgress => "In Progress"
    case Resolved => "Resolved"
  }

  /** `statusInfo[st].color`: a status badge class followed by white text. */
  function StatusColor(st: StatusType): (r: string)
    ensures |r| > |"bg-status-"| + |" text-white"|
    ensures r[..|"bg-status-"|] == "bg-status-"
    ensures r[|r| - |" text-white"|..] == " text-white"
  {
    match st
    case Pending => "bg-status-pending text-white"
    case InProgress => "bg-status-inProgress text-white"
    case Resolved => "bg-status-resolved text-white"
  }

  /** The tables are total and tell values apart: every type and status has
      a non-empty label, and no two types (or statuses) share a label or a
      badge colour, so a label names its value unambiguously. */
  lemma LabelsDistinguish()
    ensures forall t :: IssueTypeLabel(t) != ""
    ensures forall a, b :: a != b ==> IssueTypeLabel(a) != IssueTypeLabel(b)
    ensures forall st :: StatusLabel(st) != "" && StatusColor(st) != ""
    ensures forall a, b :: a != b ==> StatusLabel(a) != StatusLabel(b) && StatusColor(a) != StatusColor(b)
  {
  }

  /** `mockIssues`, in the source's order. The longer texts are named
      constants below. */
  function MockIssues(): (r: seq<Issue>)
    ensures |r| == 4
    ensures forall i, j :: 0 <= i < j < |r| ==> r[i].id != r[j].id
    ensures forall i :: 0 <= i < |r| ==> r[i].createdAt <= r[i].updatedAt
    ensures forall i, c :: 0 <= i < |r| && c in r[i].comments ==> c.issueId == r[i].id
  {
    [PotholeOnMain(), BrokenStreetLight(), GarbageOverflow(), WaterMainLeak()]
  }

  function PotholeOnMain(): Issue
  {
    Issue("1", PotholeTitle, PotholeDescription, Pothole, Pending,
          Location(40.7128, -74.006, Some(PotholeAddress)),
          [Placeholder], 15, 1744295400000, 1744295400000,
          [Comment("101", "1", "Jane Smith", false, PotholeComment, 1744362900000)],
          "John Doe")
  }

  function BrokenStreetLight(): Issue
  {
    Issue("2", StreetLightTitle, StreetLightDescription, Streetlight, InProgress,
          Location(40.7145, -74.0071, Some(StreetLightAddress)),
          [Placeholder], 8, 1744194000000, 1744389900000,
          [Comment("102", "2", "CityAdmin", true, StreetLightComment, 1744389900000)],
          "Sarah Johnson")
  }

  function GarbageOverflow(): Issue
  {
    Issue("3", GarbageTitle, GarbageDescription, Garbage, Resolved,
          Location(40.7112, -74.0059, Some(GarbageAddress)),
          [Placeholder], 12, 1744100100000, 1744457400000,
          [Comment("103", "3", "Robert Brown", false, GarbageComplaint, 1744208700000),
           Comment("104", "3", "CityAdmin", true, GarbageResponse, 1744457400000)],
          "Michael Wilson")
  }

  function WaterMainLeak(): Issue
  {
    Issue("4", WaterLeakTitle, WaterLeakDescription, WaterLeak, Pending,
          Location(40.7136, -74.0046, Some(WaterLeakAddress)),
          [Placeholder], 20, 1744392600000, 1744392600000,
          [],
          "Emily Davis")
  }

  const PotholeTitle: string := "Large Pothole on Main Street"
  const PotholeDescription: string := "Deep pothole causing vehicle damage near the intersection of Main St. and 5th Ave."
  const PotholeAddress: string := "Main St. & 5th Ave."
  const PotholeComment: string := "This pothole damaged my car tire last week!"

  const StreetLightTitle: string := "Broken Street Light"
  const StreetLightDescription: string := "Street light has been out for over a week, creating safety concerns at night."
  const StreetLightAddress: string := "Oak Street near Central Park"
  const StreetLightComment: string := "Maintenance team has been dispatched to investigate and repair."

  const GarbageTitle: string := "Garbage Overflow"
  const GarbageDescription: string := "Public garbage bins overflowing near the community center."
  const GarbageAddress: string := "Community Center, Pine Street"
  const GarbageComplaint: string := "This has been happening every weekend! Please increase collection frequency."
  const GarbageResponse: string := "Issue resolved. We have increased the collection schedule to twice daily on weekends."

  const WaterLeakTitle: string := "Water Main Leak"
  const WaterLeakDescription: string := "Water leaking from street, possibly a broken pipe."
  const WaterLeakAddress: string := "Maple Street between 3rd and 4th"
}
