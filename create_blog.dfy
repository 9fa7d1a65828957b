/** The create page: the empty form, the presence check that gates the
    request, and the handling of the answer. */
module CreateBlog {
  import opened Common
  import opened Http
  import opened BlogController
  import opened AuthGuard
  import opened BlogForm

  const MissingFields := "Title and content are required"

  /** The answers the create endpoint gives, the guard's included. */
  predicate CreateAnswer(r: Response) {
    || r == MissingHeader || r == InvalidToken || r == CreateFailed
    || (r.status == 201 && r.body.BlogBody? && r.body.message == "Blog created successfully")
  }

  /** As written, the page never recognises a created blog: it comes back
      under `blog`, not as a bare document with `_id`. */
  lemma CreateSuccessMissed(r: Response)
    requires CreateAnswer(r) && r.status == 201
    ensures SaveOutcomeAsWritten(Some(r.body), "Failed to create blog", "An error occurred during blog creation")
         == ShowError("Failed to create blog")
  {
  }

  /** Checking for the saved blog instead, the page moves on exactly when the
      server created the blog, and otherwise shows the server's own error. */
  lemma SaveOutcomeMatchesCreate(r: Response)
    requires CreateAnswer(r)
    ensures SaveOutcome(Some(r.body), "Failed to create blog", "An error occurred during blog creation") == Navigate
        <==> r.status == 201
    ensures r.status != 201 ==>
      SaveOutcome(Some(r.body), "Failed to create blog", "An error occurred during blog creation") == ShowError(r.body.error)
  {
  }

  /** The create page's state. */
  class CreateBlogPage {
    var form: FormData
    var tagInput: string
    var loading: bool
    var error: string
    var previewMode: bool

    constructor ()
      ensures form == EmptyForm && tagInput == "" && !loading && error == "" && !previewMode
    {
      form := EmptyForm;
      tagInput := "";
      loading := false;
      error := "";
      previewMode := false;
    }

    /** The preview button flips between the editor and the preview. */
    method TogglePreview()
      modifies `previewMode
      ensures previewMode == !old(previewMode)
    {
      previewMode := !previewMode;
    }

    /** `handleChange`: the field takes the value. */
    method HandleChange(field: Field, value: string)
      modifies `form
      ensures form == WithField(old(form), field, value)
    {
      form := WithField(form, field, value);
    }

    /** `handleAddTag`. */
    method HandleAddTag(key: string)
      modifies `form, `tagInput
      ensures var step := AddTag(old(form.tags), old(tagInput), key);
        form == old(form).(tags := step.tags) && tagInput == step.input
    {
      var step := AddTag(form.tags, tagInput, key);
      form := form.(tags := step.tags);
      tagInput := step.input;
    }

    /** `removeTag`. */
    method RemoveTag(t: string)
      modifies `form
      ensures form == old(form).(tags := BlogForm.RemoveTag(old(form.tags), t))
    {
      form := form.(tags := BlogForm.RemoveTag(form.tags, t));
    }

    /** The synchronous part of `handleSubmit`: only presence is checked (a
        blank but non-empty title passes); then the request goes out and the
        publish button is disabled. */
    method BeginSubmit() returns (apiCalled: bool)
      modifies `loading, `error
      ensures apiCalled <==> form.title != "" && form.content != ""
      ensures !apiCalled ==> error == MissingFields && loading == old(loading)
      ensures apiCalled ==> error == "" && loading
    {
      if form.title == "" || form.content == "" {
        error := MissingFields;
        return false;
      }
      loading := true;
      error := "";
      apiCalled := true;
    }

    /** The rest of `handleSubmit`, once the create request settled (`None`
        when it failed): a created blog leaves the page; anything else shows
        an error and keeps the form. */
    method FinishSubmit(response: Option<Body>) returns (navigated: bool)
      requires loading
      modifies `loading, `error
      ensures !loading
      ensures var o := SaveOutcome(response, "Failed to create blog", "An error occurred during blog creation");
        && (navigated <==> o == Navigate)
        && (navigated ==> error == old(error))
        && (!navigated ==> error == o.message)
    {
      var o := SaveOutcome(response, "Failed to create blog", "An error occurred during blog creation");
      loading := false;
      if o == Navigate {
        navigated := true;
      } else {
        error := o.message;
        navigated := false;
      }
    }
  }
}
