/** The edit page: the form loaded from the stored blog, the validation that
    gates the save, the unsaved-changes flag and the save itself. */
module EditBlog {
  import opened Common
  import opened Text
  import opened Http
  import opened BlogController
  import opened AuthGuard
  import opened BlogForm

  /** The messages the validation can show. */
  datatype Problem =
    | TitleRequired | TitleTooShort | TitleTooLong
    | ContentRequired | ContentTooShort
    | InvalidUrl

  /** The text the page shows under the field. */
  function Message(p: Problem): string {
    match p
    case TitleRequired => "Title is required"
    case TitleTooShort => "Title must be at least 5 characters"
    case TitleTooLong => "Title must be less than 200 characters"
    case ContentRequired => "Content is required"
    case ContentTooShort => "Content must be at least 20 characters"
    case InvalidUrl => "Please enter a valid URL"
  }

  /** `errors`: at most one problem per field. */
  datatype Errors = Errors(title: Option<Problem>, content: Option<Problem>, image: Option<Problem>)

  predicate NoErrors(e: Errors) {
    e.title.None? && e.content.None? && e.image.None?
  }

  /** The title's message, checked on the trimmed title. */
  function TitleError(title: string): Option<Problem> {
    var t := Trim(title);
    if |t| == 0 then Some(TitleRequired)
    else if |t| < 5 then Some(TitleTooShort)
    else if |t| > 200 then Some(TitleTooLong)
    else None
  }

  /** Which message the title gets: "required" for a blank title, then the
      two length bounds; none exactly for 5 to 200 trimmed characters. */
  lemma TitleMessages(title: string)
    ensures TitleError(title) == Some(TitleRequired) <==> AllSpace(title)
    ensures TitleError(title) == Some(TitleTooShort) <==> 0 < |Trim(title)| < 5
    ensures TitleError(title) == Some(TitleTooLong) <==> |Trim(title)| > 200
    ensures TitleError(title).None? <==> 5 <= |Trim(title)| <= 200
  {
  }

  /** The content's message, checked on the trimmed content. */
  function ContentError(content: string): Option<Problem> {
    var t := Trim(content);
    if |t| == 0 then Some(ContentRequired)
    else if |t| < 20 then Some(ContentTooShort)
    else None
  }

  /** Which message the content gets: "required" when blank, then the
      minimum length; none exactly for at least 20 trimmed characters. */
  lemma ContentMessages(content: string)
    ensures ContentError(content) == Some(ContentRequired) <==> AllSpace(content)
    ensures ContentError(content) == Some(ContentTooShort) <==> 0 < |Trim(content)| < 20
    ensures ContentError(content).None? <==> |Trim(content)| >= 20
  {
  }

  /** The image is checked only when it is not blank, by parsing its trimmed
      value as a URL. The browser's `URL` constructor is not part of this
      model: `urlParses` says whether it accepts the trimmed image. */
  function ImageError(image: string, urlParses: bool): Option<Problem> {
    if Trim(image) != "" && !urlParses then Some(InvalidUrl) else None
  }

  /** A blank image is never an error; any other one must parse as a URL. */
  lemma ImageMessages(image: string, urlParses: bool)
    ensures ImageError(image, urlParses).Some? <==> !AllSpace(image) && !urlParses
    ensures ImageError(image, urlParses).Some? ==> ImageError(image, urlParses) == Some(InvalidUrl)
  {
  }

  /** `validateForm`. */
  function ValidateForm(f: FormData, urlParses: bool): Errors {
    Errors(TitleError(f.title), ContentError(f.content), ImageError(f.image, urlParses))
  }

  /** The form passes exactly when the trimmed title has 5 to 200 characters,
      the trimmed content at least 20, and the image is blank or a URL. */
  lemma ValidateFormIff(f: FormData, urlParses: bool)
    ensures NoErrors(ValidateForm(f, urlParses)) <==>
      && 5 <= |Trim(f.title)| <= 200
      && |Trim(f.content)| >= 20
      && (AllSpace(f.image) || urlParses)
  {
    TitleMessages(f.title);
    ContentMessages(f.content);
    ImageMessages(f.image, urlParses);
  }

  /** A form that passes validation holds a blog the server accepts: a title
      that is not blank and content that is not empty. */
  lemma ValidFormIsStorable(f: FormData, urlParses: bool)
    requires NoErrors(ValidateForm(f, urlParses))
    ensures !AllSpace(f.title) && f.content != ""
  {
    ValidateFormIff(f, urlParses);
  }

  /** The form filled from the fetched blog: a missing image becomes "". */
  function FormOf(v: BlogView): FormData {
    FormData(v.title, v.content, v.image.GetOr(""), v.tags)
  }

  /** The answers the update endpoint gives, the guard's included. */
  predicate UpdateAnswer(r: Response) {
    || r == MissingHeader || r == InvalidToken
    || r == BlogNotFound || r == UpdateForbidden || r == UpdateFailed
    || (r.status == 200 && r.body.BlogBody? && r.body.message == "Blog updated successfully")
  }

  /** As written, the page never recognises a successful update: the saved
      blog comes back under `blog`, not as a bare document with `_id`. */
  lemma UpdateSuccessMissed(r: Response)
    requires UpdateAnswer(r) && r.status == 200
    ensures SaveOutcomeAsWritten(Some(r.body), "Failed to update blog", "An error occurred during update")
         == ShowError("Failed to update blog")
  {
  }

  /** Checking for the saved blog instead, the page moves on exactly when the
      server saved the update, and otherwise shows the server's own error. */
  lemma SaveOutcomeMatchesUpdate(r: Response)
    requires UpdateAnswer(r)
    ensures SaveOutcome(Some(r.body), "Failed to update blog", "An error occurred during update") == Navigate
        <==> r.status == 200
    ensures r.status != 200 ==>
      SaveOutcome(Some(r.body), "Failed to update blog", "An error occurred during update") == ShowError(r.body.error)
  {
  }

  /** The edit page's state once the blog was fetched. */
  class EditBlogPage {
    var form: FormData
    var tagInput: string
    var isDirty: bool
    var saving: bool
    var errors: Errors
    var error: string
    var previewMode: bool

    /** `fetchBlog` settled (`None` when the request failed): a blog fills the
        form, an error body shows its error, and a failed request shows its
        own message. Nothing has been edited yet. */
    constructor (fetched: Option<Body>)
      ensures tagInput == "" && !isDirty && !saving && !previewMode
      ensures errors == Errors(None, None, None)
      ensures fetched.Some? && fetched.value.BlogViewBody? ==>
        form == FormOf(fetched.value.view) && error == ""
      ensures fetched.Some? && fetched.value.ErrorBody? && fetched.value.error != "" ==>
        form == EmptyForm && error == fetched.value.error
      ensures fetched.None? ==> form == EmptyForm && error == "Failed to fetch blog details"
    {
      form := EmptyForm;
      tagInput := "";
      isDirty := false;
      saving := false;
      errors := Errors(None, None, None);
      error := "";
      previewMode := false;
      match fetched {
        case None =>
          error := "Failed to fetch blog details";
        case Some(b) =>
          if b.ErrorBody? && b.error != "" {
            error := b.error;
          } else if b.BlogViewBody? {
            form := FormOf(b.view);
          }
      }
    }

    /** `disabled={saving || !isDirty}` on the update button. */
    predicate UpdateDisabled()
      reads this
    {
      saving || !isDirty
    }

    /** The preview button flips between the editor and the preview. */
    method TogglePreview()
      modifies `previewMode
      ensures previewMode == !old(previewMode)
    {
      previewMode := !previewMode;
    }

    /** `handleChange`: the field takes the value; the page is now dirty. */
    method HandleChange(field: Field, value: string)
      modifies `form, `isDirty
      ensures form == WithField(old(form), field, value) && isDirty
    {
      form := WithField(form, field, value);
      isDirty := true;
    }

    /** `handleAddTag`: the page becomes dirty only when a tag was added. */
    method HandleAddTag(key: string)
      modifies `form, `tagInput, `isDirty
      ensures var step := AddTag(old(form.tags), old(tagInput), key);
        && form == old(form).(tags := step.tags) && tagInput == step.input
        && isDirty == (old(isDirty) || step.added)
    {
      var step := AddTag(form.tags, tagInput, key);
      form := form.(tags := step.tags);
      tagInput := step.input;
      if step.added {
        isDirty := true;
      }
    }

    /** `removeTag`: always marks the page dirty, even when nothing matched. */
    method RemoveTag(t: string)
      modifies `form, `isDirty
      ensures form == old(form).(tags := BlogForm.RemoveTag(old(form.tags), t)) && isDirty
    {
      form := form.(tags := BlogForm.RemoveTag(form.tags, t));
      isDirty := true;
    }

    /** `validateForm` with `setErrors`: only the messages change. */
    method Validate(urlParses: bool) returns (ok: bool)
      modifies `errors
      ensures errors == ValidateForm(form, urlParses)
      ensures ok <==> NoErrors(errors)
    {
      var f := form;
      errors := ValidateForm(f, urlParses);
      ok := NoErrors(errors);
    }

    /** The synchronous part of `handleSubmit`: validation, then, for a valid
        form, the request goes out and the update button is disabled. */
    method BeginSubmit(urlParses: bool) returns (apiCalled: bool)
      modifies `errors, `saving, `error
      ensures errors == ValidateForm(form, urlParses)
      ensures apiCalled <==> NoErrors(errors)
      ensures apiCalled ==> saving && error == "" && UpdateDisabled()
      ensures !apiCalled ==> saving == old(saving) && error == old(error)
    {
      apiCalled := Validate(urlParses);
      if apiCalled {
        saving := true;
        error := "";
      }
    }

    /** The rest of `handleSubmit`, once the update request settled (`None`
        when it failed): a save clears the dirty flag and leaves the page;
        anything else shows an error and keeps the edits. */
    method FinishSubmit(response: Option<Body>) returns (navigated: bool)
      requires saving
      modifies `saving, `isDirty, `error
      ensures !saving
      ensures var o := SaveOutcome(response, "Failed to update blog", "An error occurred during update");
        && (navigated <==> o == Navigate)
        && (navigated ==> !isDirty && error == old(error))
        && (!navigated ==> isDirty == old(isDirty) && error == o.message)
    {
      var o := SaveOutcome(response, "Failed to update blog", "An error occurred during update");
      saving := false;
      if o == Navigate {
        isDirty := false;
        navigated := true;
      } else {
        error := o.message;
        navigated := false;
      }
    }
  }
}
