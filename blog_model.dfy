/** The Blog schema: the record shape, the trim setter on the title, the
    required title and content, the optional author, the tag list and image,
    and the creation-time default. */
module BlogModel {
  import opened Common
  import opened Text

  datatype Blog = Blog(
    id: ObjectId,
    title: string,
    content: string,
    author: Option<ObjectId>,
    tags: seq<string>,
    image: Option<string>,
    createdAt: int)

  /** The fields a client sends to create a blog; each may be absent. */
  datatype BlogInput = BlogInput(
    title: Option<string>,
    content: Option<string>,
    tags: Option<seq<string>>,
    image: Option<string>)

  /** A stored record: the title went through the trim setter, and the
      `required` validator refuses an empty title or content. */
  predicate BlogValid(b: Blog) {
    b.title != "" && Trimmed(b.title) && b.content != ""
  }

  /** `new Blog({...})` followed by validation: the title is trimmed and must
      then be non-empty, the content must be non-empty but is not trimmed,
      tags default to the empty list and `createdAt` to the clock. */
  function NewBlog(id: ObjectId, input: BlogInput, author: Option<ObjectId>, now: int): (r: Option<Blog>)
    ensures r.Some? <==>
      input.title.Some? && !AllSpace(input.title.value) && input.content.Some? && input.content.value != ""
    ensures r.Some? ==> BlogValid(r.value) && r.value.id == id && r.value.author == author
    ensures r.Some? ==> r.value.title == Trim(input.title.value) && r.value.content == input.content.value
    ensures r.Some? ==> r.value.tags == input.tags.GetOr([]) && r.value.image == input.image
    ensures r.Some? ==> r.value.createdAt == now
  {
    if input.title.Some? && Trim(input.title.value) != "" && input.content.Some? && input.content.value != "" then
      Some(Blog(id, Trim(input.title.value), input.content.value, author, input.tags.GetOr([]), input.image, now))
    else
      None
  }
}
