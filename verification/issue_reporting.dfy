/** The report form: its submit gate and the draft it hands to `addIssue`,
    and the two edits of its media list. Location detection is external; the
    form only holds the coordinates it produced, starting at (0, 0). */
module IssueReporting {
  import opened Types
  import opened IssueStore

  datatype ReportForm = ReportForm(
    title: string,
    description: string,
    kind: IssueType,
    media: seq<string>,
    location: Location,
    isSubmitting: bool)

  /** The form on first render: empty texts, pothole, no media, location not
      yet detected. Such a form can be neither sent by its button nor
      accepted by the handler. */
  function InitialForm(): (r: ReportForm)
    ensures r.media == [] && !r.isSubmitting
    ensures r.location.latitude == 0.0 && r.location.longitude == 0.0
    ensures SubmitDisabled(r) && HandleSubmit(r).None?
  {
    ReportForm("", "", Pothole, [], Location(0.0, 0.0, None), false)
  }

  /** `handleSubmit`: no draft when title or description is empty or the
      latitude is still 0; otherwise a pending draft reported by "Current User"
      with the form's fields copied. The `!type` test can never fire, since
      every issue type is a non-empty string. */
  function HandleSubmit(form: ReportForm): (r: Option<IssueDraft>)
    ensures r.None? <==> form.title == "" || form.description == "" || form.location.latitude == 0.0
    ensures r.Some? ==>
      && r.value.status == Pending
      && r.value.reportedBy == "Current User"
      && r.value.title == form.title && r.value.description == form.description
      && r.value.kind == form.kind && r.value.media == form.media
      && r.value.location == form.location
  {
    if form.title == "" || form.description == "" || form.location.latitude == 0.0 then None
    else
      Some(IssueDraft(form.title, form.description, form.kind, Pending,
                      form.location, form.media, "Current User"))
  }

  /** The store after a submit: unchanged when rejected, one new issue in
      front when accepted. */
  function SubmitReport(store: seq<Issue>, form: ReportForm, id: string, now: nat): (r: seq<Issue>)
    ensures HandleSubmit(form).None? ==> r == store
    ensures HandleSubmit(form).Some? ==>
      && |r| == |store| + 1 && r[1..] == store
      && r[0].status == Pending && r[0].upvotes == 0 && r[0].comments == []
      && r[0].title == form.title && r[0].reportedBy == "Current User"
    ensures HandleSubmit(form).Some? ==>
      && DraftOf(r[0]) == HandleSubmit(form).value
      && r[0].description == form.description && r[0].kind == form.kind
      && r[0].media == form.media && r[0].location == form.location
      && r[0].id == id && r[0].createdAt == now && r[0].updatedAt == now
  {
    match HandleSubmit(form)
    case None => store
    case Some(d) => AddIssue(store, d, id, now)
  }

  /** The submit button's `disabled` attribute. It blocks an undetected
      location and a submit in flight, and nothing else; while it is enabled,
      the handler accepts exactly when both texts are filled in. */
  function SubmitDisabled(form: ReportForm): (r: bool)
    ensures form.location.latitude == 0.0 ==> r
    ensures form.isSubmitting ==> r
    ensures !form.isSubmitting && form.location.latitude != 0.0 ==> !r
    ensures !r ==> (HandleSubmit(form).Some? <==> form.title != "" && form.description != "")
  {
    form.isSubmitting || form.location.latitude == 0.0
  }

  /** Until a location is detected the form can neither be submitted by its
      button nor accepted by its handler, whatever else is filled in. */
  lemma UndetectedLocationBlocks(form: ReportForm)
    requires form.location.latitude == 0.0
    ensures SubmitDisabled(form)
    ensures HandleSubmit(form).None?
  {
  }

  /** The initial form is in that state. */
  lemma InitialFormBlocked()
    ensures SubmitDisabled(InitialForm()) && HandleSubmit(InitialForm()).None?
  {
  }

  /** `handleMediaUpload`: one placeholder appended when at least one file was
      chosen (a missing file list counts as none); otherwise no change. */
  function MediaUpload(media: seq<string>, fileCount: nat): (r: seq<string>)
    ensures fileCount == 0 ==> r == media
    ensures fileCount > 0 ==> |r| == |media| + 1 && r[..|media|] == media && r[|media|] == Placeholder
  {
    if fileCount == 0 then media else media + [Placeholder]
  }

  /** `prev.filter((_, i) => i !== index)` over the suffix of the list that
      starts at position `from`. */
  function KeepOtherIndices(media: seq<string>, index: int, from: nat): (r: seq<string>)
    requires from <= |media|
    ensures from <= index < |media| ==> r == media[from..index] + media[index + 1..]
    ensures !(from <= index < |media|) ==> r == media[from..]
    decreases |media| - from
  {
    if from == |media| then []
    else
      var rest := KeepOtherIndices(media, index, from + 1);
      assert media[from..] == [media[from]] + media[from + 1..];
      if from == index then rest
      else
        assert from < index < |media| ==> media[from..index] == [media[from]] + media[from + 1..index];
        [media[from]] + rest
  }

  /** `removeMedia(index)`: exactly the element at `index` is removed and the
      others keep their order; an index out of range changes nothing. */
  function RemoveMedia(media: seq<string>, index: int): (r: seq<string>)
    ensures 0 <= index < |media| ==> |r| == |media| - 1 && r == media[..index] + media[index + 1..]
    ensures !(0 <= index < |media|) ==> r == media
  {
    assert media[0..] == media;
    KeepOtherIndices(media, index, 0)
  }

  /** Uploading then removing the new last entry restores the list. */
  lemma UploadThenRemove(media: seq<string>, fileCount: nat)
    requires fileCount > 0
    ensures RemoveMedia(MediaUpload(media, fileCount), |media|) == media
  {
    var m := MediaUpload(media, fileCount);
    assert m[..|media|] == media;
  }
}
