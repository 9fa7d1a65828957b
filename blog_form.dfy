/** The blog editor's form state, shared by the create and the edit page:
    the field values, the tag list with its add and remove rules, and the
    live word count. */
module BlogForm {
  import opened Common
  import opened Text
  import opened Seqs
  import opened Http
  import opened ApiClient

  datatype FormData = FormData(title: string, content: string, image: string, tags: seq<string>)

  /** The form's initial state: three empty fields and no tags. */
  const EmptyForm: FormData := FormData("", "", "", [])

  /** The text inputs, by their `name` attribute. */
  datatype Field = Title | Content | Image

  function FieldValue(f: FormData, field: Field): string {
    match field
    case Title => f.title
    case Content => f.content
    case Image => f.image
  }

  /** `{ ...formData, [name]: value }`: the named field takes the value and
      every other field, the tags included, is unchanged. */
  function WithField(f: FormData, field: Field, value: string): (r: FormData)
    ensures FieldValue(r, field) == value
    ensures forall other :: other != field ==> FieldValue(r, other) == FieldValue(f, other)
    ensures r.tags == f.tags
  {
    match field
    case Title => f.(title := value)
    case Content => f.(content := value)
    case Image => f.(image := value)
  }

  /** The tag list and the tag input after a key press in the tag input, and
      whether a tag was appended. */
  datatype TagStep = TagStep(tags: seq<string>, input: string, added: bool)

  /** `handleAddTag`: only Enter with a non-blank input acts. Acting appends
      the trimmed input unless the list already holds it, and always clears
      the input, also for a duplicate. */
  function AddTag(tags: seq<string>, input: string, key: string): (r: TagStep)
    ensures !(key == "Enter" && !AllSpace(input)) ==> r == TagStep(tags, input, false)
    ensures key == "Enter" && !AllSpace(input) ==> r.input == ""
    ensures r.added <==> key == "Enter" && !AllSpace(input) && Trim(input) !in tags
    ensures r.added ==> r.tags == tags + [Trim(input)] && Trim(input) != ""
    ensures !r.added ==> r.tags == tags
    ensures NoDuplicates(tags) ==> NoDuplicates(r.tags)
  {
    if key == "Enter" && Trim(input) != "" then
      var t := Trim(input);
      if t !in tags then TagStep(tags + [t], "", true) else TagStep(tags, "", false)
    else
      TagStep(tags, input, false)
  }

  /** `removeTag`: `tags.filter(tag => tag !== t)`. */
  function RemoveTag(tags: seq<string>, t: string): (r: seq<string>)
    ensures t !in r
    ensures IsSubsequence(r, tags)
    ensures forall x :: x != t ==> multiset(r)[x] == multiset(tags)[x]
    ensures NoDuplicates(tags) ==> NoDuplicates(r)
  {
    var r := Filter(tags, x => x != t);
    FilterSpec(tags, x => x != t);
    assert NoDuplicates(tags) ==> NoDuplicates(r) by {
      if NoDuplicates(tags) {
        SubsequenceNoDuplicates(r, tags);
      }
    }
    r
  }

  /** Removing a tag that was just added gives the list back. */
  lemma {:induction false} RemoveUndoesAdd(tags: seq<string>, input: string)
    requires AddTag(tags, input, "Enter").added
    ensures RemoveTag(AddTag(tags, input, "Enter").tags, Trim(input)) == tags
  {
    var t := Trim(input);
    FilterAppend(tags, [t], x => x != t);
    FilterSpec(tags, x => x != t);
    assert Filter([t], x => x != t) == [] by {
      assert [t][1..] == [];
    }
  }

  /** The live word count: 0 for blank content, otherwise the number of pieces
      of the trimmed content split on runs of whitespace. */
  function WordCount(content: string): (n: nat)
    ensures n == Words(content)
    ensures n == 0 <==> AllSpace(content)
  {
    var t := Trim(content);
    WordsTrim(content);
    if t != "" then
      SplitTrimmed(t);
      assert !AllSpace(content);
      assert Words(t) > 0 by {
        assert t[..1] == [t[0]];
        CountNoSpacePrefix(t, 1, true);
      }
      |Split(t)|
    else
      WordsAllSpace(content);
      0
  }

  /** What an editor page does with the answer to a save. */
  datatype Saved = Navigate | ShowError(message: string)

  /** The answer handling of both editor pages as written: a body with a
      top-level `_id` is a success; any other body shows its error or the
      fallback; a request that failed shows `failure`. */
  function SaveOutcomeAsWritten(response: Option<Body>, fallback: string, failure: string): (o: Saved)
    ensures response.None? ==> o == ShowError(failure)
    ensures response.Some? ==> (o == Navigate <==> HasTopLevelId(response.value))
    ensures response.Some? && o.ShowError? ==> o.message == ErrorOr(response.value, fallback)
  {
    match response
    case None => ShowError(failure)
    case Some(b) => if HasTopLevelId(b) then Navigate else ShowError(ErrorOr(b, fallback))
  }

  /** The same handling with the success test the save endpoints' answers
      call for: the body carries the saved blog. */
  function SaveOutcome(response: Option<Body>, fallback: string, failure: string): (o: Saved)
    ensures response.None? ==> o == ShowError(failure)
    ensures response.Some? ==> (o == Navigate <==> HasBlog(response.value))
    ensures response.Some? && o.ShowError? ==> o.message == ErrorOr(response.value, fallback)
  {
    match response
    case None => ShowError(failure)
    case Some(b) => if HasBlog(b) then Navigate else ShowError(ErrorOr(b, fallback))
  }
}
