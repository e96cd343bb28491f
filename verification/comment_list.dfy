/** The comment form under an issue: a draft text box whose submit handler
    posts the draft to the store only when its trimmed text is non-empty. */
module CommentList {
  import opened Types
  import opened IssueStore
  import opened Text

  /** The form's inputs: which issue, whether the viewer is staff, and the
      text typed so far. */
  datatype CommentForm = CommentForm(issueId: string, isAdmin: bool, content: string)

  /** What a submit leaves behind: the store and the text box. */
  datatype Submitted = Submitted(store: seq<Issue>, content: string)

  /** The author name shown for a comment posted from this form. */
  function AuthorFor(isAdmin: bool): (r: string)
    ensures isAdmin ==> r == "CityAdmin"
    ensures !isAdmin ==> r == "You"
  {
    if isAdmin then "CityAdmin" else "You"
  }

  /** The gate: `commentContent.trim()` is truthy, which is exactly when
      some character of the draft is not white space. */
  function Accepts(content: string): (r: bool)
    ensures r <==> !Blank(content)
    ensures r ==> content != ""
  {
    TrimEmptyIffBlank(content);
    Trim(content) != []
  }

  /** The submit button's `disabled` attribute: the negation of the gate, so
      the button is disabled exactly on an all-white-space draft. */
  function SubmitDisabled(content: string): (r: bool)
    ensures r <==> !Accepts(content)
    ensures r <==> Blank(content)
  {
    TrimEmptyIffBlank(content);
    Trim(content) == []
  }

  /** `handleSubmitComment`: when the gate passes, one `addComment` call with the
      author derived from `isAdmin`, `isAdmin` itself and the untrimmed text,
      then the text box is cleared; otherwise nothing changes. */
  function SubmitComment(store: seq<Issue>, form: CommentForm, commentId: string, now: nat): (r: Submitted)
    ensures !Accepts(form.content) ==> r == Submitted(store, form.content)
    ensures Accepts(form.content) ==>
      && r.content == ""
      && r.store == AddComment(store, form.issueId, CommentDraft(AuthorFor(form.isAdmin), form.isAdmin, form.content), commentId, now)
  {
    if Accepts(form.content) then
      Submitted(AddComment(store, form.issueId, CommentDraft(AuthorFor(form.isAdmin), form.isAdmin, form.content), commentId, now), "")
    else Submitted(store, form.content)
  }

  /** What an accepted submit appends to the commented issue: a comment
      carrying the issue's id, the mapped author, the flag unchanged and the
      text exactly as typed (not trimmed), after all earlier comments. */
  lemma AcceptedCommentShape(store: seq<Issue>, form: CommentForm, commentId: string, now: nat, k: nat)
    requires Accepts(form.content)
    requires k < |store| && store[k].id == form.issueId
    ensures var c := SubmitComment(store, form, commentId, now).store[k].comments;
      && |c| == |store[k].comments| + 1
      && c[..|store[k].comments|] == store[k].comments
      && c[|c| - 1] == Comment(commentId, form.issueId, AuthorFor(form.isAdmin), form.isAdmin, form.content, now)
  {
  }

  /** The button is disabled exactly when submitting would do nothing at all:
      a blank draft leaves store and text box as they are, and a non-blank
      draft at least clears the text box. */
  lemma DisabledIffNoEffect(store: seq<Issue>, form: CommentForm, commentId: string, now: nat)
    ensures SubmitDisabled(form.content) <==> SubmitComment(store, form, commentId, now) == Submitted(store, form.content)
    ensures SubmitDisabled(form.content) <==> Blank(form.content)
  {
    TrimEmptyIffBlank(form.content);
    if Accepts(form.content) {
      assert form.content != "";
    }
  }
}
