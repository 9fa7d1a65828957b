/** The blog endpoints over the blog collection: create, list, get, update and
    delete, with the ownership rule that guards the two mutating ones. */
module BlogController {
  import opened Common
  import opened Text
  import opened UserModel
  import opened BlogModel
  import opened Http

  const BlogNotFound: Response := Error(404, "Blog not found")
  const CreateFailed: Response := Error(500, "Failed to create blog")
  const UpdateForbidden: Response := Error(403, "Not authorized to update this blog")
  const UpdateFailed: Response := Error(500, "Failed to update blog")
  const DeleteForbidden: Response := Error(403, "Not authorized to delete this blog")

  /** The ownership rule of update and delete: a blog without an author may be
      changed by anyone; otherwise only by its author. */
  predicate CanMutate(b: Blog, caller: ObjectId) {
    b.author.None? || b.author.value == caller
  }

  // ------------------------------------------------------------ population

  /** `populate("author", "username")`: the author reference is replaced by the
      author's id and username, or by nothing when the blog has no author or
      the referenced user does not exist. Every other field is copied. */
  function Populate(b: Blog, users: map<ObjectId, User>): (v: BlogView)
    ensures v.id == b.id && v.title == b.title && v.content == b.content
    ensures v.tags == b.tags && v.image == b.image && v.createdAt == b.createdAt
    ensures v.author.Some? <==> b.author.Some? && b.author.value in users
    ensures v.author.Some? ==>
      v.author.value == AuthorView(b.author.value, users[b.author.value].username)
  {
    var author :=
      if b.author.Some? && b.author.value in users
      then Some(AuthorView(b.author.value, users[b.author.value].username))
      else None;
    BlogView(b.id, b.title, b.content, author, b.tags, b.image, b.createdAt)
  }

  function PopulateAll(s: seq<Blog>, users: map<ObjectId, User>): (r: seq<BlogView>)
    ensures |r| == |s|
    ensures forall k :: 0 <= k < |s| ==> r[k] == Populate(s[k], users)
  {
    if s == [] then [] else [Populate(s[0], users)] + PopulateAll(s[1..], users)
  }

  // ------------------------------------------------------------ listing order

  /** Every stored blog is filed under its own id. */
  predicate KeyedById(m: map<ObjectId, Blog>) {
    forall id :: id in m ==> m[id].id == id
  }

  /** `b` is one of the stored blogs. */
  predicate Stored(m: map<ObjectId, Blog>, b: Blog) {
    b.id in m && m[b.id] == b
  }

  /** The stored blogs with an id below `n`, in increasing id (insertion) order. */
  function InIdOrder(m: map<ObjectId, Blog>, n: nat): (r: seq<Blog>)
    requires KeyedById(m)
    ensures forall b :: multiset(r)[b] == if b.id < n && Stored(m, b) then 1 else 0
  {
    if n == 0 then []
    else
      var prefix := InIdOrder(m, n - 1);
      if n - 1 in m then prefix + [m[n - 1]] else prefix
  }

  predicate NewestFirstOrdered(s: seq<Blog>) {
    forall i, j :: 0 <= i < j < |s| ==> s[i].createdAt >= s[j].createdAt
  }

  lemma PrependKeepsOrder(x: Blog, s: seq<Blog>)
    requires NewestFirstOrdered(s) && forall k :: 0 <= k < |s| ==> s[k].createdAt <= x.createdAt
    ensures NewestFirstOrdered([x] + s)
  {
    var r := [x] + s;
    forall i, j | 0 <= i < j < |r| ensures r[i].createdAt >= r[j].createdAt {
      assert r[j] == s[j - 1];
      if i > 0 {
        assert r[i] == s[i - 1];
      }
    }
  }

  /** `b` placed in front of the first blog that is not newer than it. */
  function InsertByDate(b: Blog, s: seq<Blog>): (r: seq<Blog>)
    requires NewestFirstOrdered(s)
    ensures NewestFirstOrdered(r)
    ensures multiset(r) == multiset(s) + multiset{b}
  {
    assert s == [] || s == [s[0]] + s[1..];
    if s == [] || b.createdAt >= s[0].createdAt then
      PrependKeepsOrder(b, s);
      [b] + s
    else
      var rest := InsertByDate(b, s[1..]);
      forall k | 0 <= k < |rest| ensures rest[k].createdAt <= s[0].createdAt {
        var x := rest[k];
        assert x in multiset(rest);
        if x != b {
          assert x in multiset(s[1..]);
          var i :| 0 <= i < |s| - 1 && s[1..][i] == x;
          assert s[i + 1] == x;
        }
      }
      PrependKeepsOrder(s[0], rest);
      [s[0]] + rest
  }

  /** `sort({ createdAt: -1 })`, by insertion. Blogs created at the same
      instant keep the order of the input (here: id order). */
  function SortNewestFirst(s: seq<Blog>): (r: seq<Blog>)
    ensures NewestFirstOrdered(r)
    ensures multiset(r) == multiset(s)
  {
    if s == [] then []
    else
      assert s == [s[0]] + s[1..];
      InsertByDate(s[0], SortNewestFirst(s[1..]))
  }

  /** `Blog.find().sort({ createdAt: -1 })` over the blogs with id below `n`. */
  function NewestFirst(m: map<ObjectId, Blog>, n: nat): seq<Blog>
    requires KeyedById(m)
  {
    SortNewestFirst(InIdOrder(m, n))
  }

  /** When every key is below `n`, the listing holds each stored blog exactly
      once, nothing else, newest first. */
  lemma ListingIsStore(m: map<ObjectId, Blog>, n: nat)
    requires KeyedById(m) && forall id :: id in m ==> id < n
    ensures NewestFirstOrdered(NewestFirst(m, n))
    ensures forall b :: multiset(NewestFirst(m, n))[b] == if Stored(m, b) then 1 else 0
    ensures forall b :: b in NewestFirst(m, n) <==> b in m.Values
  {
    var r := NewestFirst(m, n);
    forall b ensures b in r <==> b in m.Values {
      assert b in r <==> multiset(r)[b] > 0;
      if b in m.Values {
        var id :| id in m && m[id] == b;
        assert Stored(m, b);
      }
    }
  }

  // ------------------------------------------------------------ update

  /** The fields an update request may carry; each may be absent. */
  datatype BlogPatch = BlogPatch(
    title: Option<string>,
    content: Option<string>,
    tags: Option<seq<string>>,
    image: Option<string>)

  /** A present, non-empty string: truthy in JavaScript. */
  predicate Truthy(x: Option<string>) {
    x.Some? && x.value != ""
  }

  /** `blog.title = title || blog.title` and the same for the other three
      fields, with the title going through the schema's trim setter. An array
      is always truthy, so any supplied tag list replaces the old one. */
  function ApplyPatch(b: Blog, p: BlogPatch): (r: Blog)
    ensures r.id == b.id && r.author == b.author && r.createdAt == b.createdAt
    ensures r.title == Trim(if Truthy(p.title) then p.title.value else b.title)
    ensures r.content == if Truthy(p.content) then p.content.value else b.content
    ensures r.tags == p.tags.GetOr(b.tags)
    ensures r.image == if Truthy(p.image) then p.image else b.image
  {
    Blog(
      b.id,
      Trim(if Truthy(p.title) then p.title.value else b.title),
      if Truthy(p.content) then p.content.value else b.content,
      b.author,
      p.tags.GetOr(b.tags),
      if Truthy(p.image) then p.image else b.image,
      b.createdAt)
  }

  /** An image, once set to a non-empty string, can never be cleared or
      emptied by an update; an empty tag list does replace the tags. */
  lemma UpdateNeverClearsImage(b: Blog, p: BlogPatch)
    ensures Truthy(b.image) ==> Truthy(ApplyPatch(b, p).image)
    ensures p.tags == Some([]) ==> ApplyPatch(b, p).tags == []
  {
  }

  /** Sending the same update twice has the effect of sending it once. */
  lemma ApplyPatchIdempotent(b: Blog, p: BlogPatch)
    ensures ApplyPatch(ApplyPatch(b, p), p) == ApplyPatch(b, p)
  {
    TrimIdempotent(if Truthy(p.title) then p.title.value else b.title);
  }

  /** An update that carries no field leaves a stored blog as it was. */
  lemma EmptyPatchKeeps(b: Blog)
    requires BlogValid(b)
    ensures ApplyPatch(b, BlogPatch(None, None, None, None)) == b
  {
    TrimNoop(b.title);
  }

  /** On a stored blog, the patched record fails validation exactly when the
      update carries a non-empty title made only of whitespace. */
  lemma PatchValidIff(b: Blog, p: BlogPatch)
    requires BlogValid(b)
    ensures BlogValid(ApplyPatch(b, p)) <==> !(Truthy(p.title) && AllSpace(p.title.value))
  {
    if !Truthy(p.title) {
      TrimNoop(b.title);
    }
  }

  // ------------------------------------------------------------ the store

  /** The blog collection. */
  class BlogStore {
    var blogs: map<ObjectId, Blog>
    var nextId: ObjectId

    /** Every blog is filed under its own id, was given an id before `nextId`,
        and passed the schema's validators. */
    ghost predicate Valid()
      reads this
    {
      && KeyedById(blogs)
      && (forall id :: id in blogs ==> id < nextId && BlogValid(blogs[id]))
    }

    constructor ()
      ensures Valid() && blogs == map[] && nextId == 0
    {
      blogs := map[];
      nextId := 0;
    }

    /** `createBlogController`: the caller becomes the author, the request
        fields are copied, and nobody's ownership is checked. A record the
        schema refuses gives 500 and nothing is stored. */
    method Create(input: BlogInput, caller: ObjectId, now: int) returns (resp: Response)
      requires Valid()
      modifies this
      ensures Valid()
      ensures NewBlog(old(nextId), input, Some(caller), now).None? ==>
        resp == CreateFailed && blogs == old(blogs) && nextId == old(nextId)
      ensures NewBlog(old(nextId), input, Some(caller), now).Some? ==>
        var b := NewBlog(old(nextId), input, Some(caller), now).value;
        && resp == Response(201, BlogBody("Blog created successfully", b))
        && blogs == old(blogs)[old(nextId) := b] && nextId == old(nextId) + 1
        && b.author == Some(caller) && old(nextId) !in old(blogs)
    {
      var candidate := NewBlog(nextId, input, Some(caller), now);
      if candidate.None? {
        return CreateFailed;
      }
      blogs := blogs[nextId := candidate.value];
      nextId := nextId + 1;
      resp := Response(201, BlogBody("Blog created successfully", candidate.value));
    }

    /** `getBlogsController`: every blog, newest first, authors populated. */
    method List(users: map<ObjectId, User>) returns (resp: Response)
      requires Valid()
      ensures resp == Response(200, BlogsBody(PopulateAll(NewestFirst(blogs, nextId), users)))
    {
      resp := Response(200, BlogsBody(PopulateAll(NewestFirst(blogs, nextId), users)));
    }

    /** `getBlogByIdController`. */
    method Get(id: ObjectId, users: map<ObjectId, User>) returns (resp: Response)
      ensures id !in blogs ==> resp == BlogNotFound
      ensures id in blogs ==> resp == Response(200, BlogViewBody(Populate(blogs[id], users)))
    {
      if id !in blogs {
        return BlogNotFound;
      }
      resp := Response(200, BlogViewBody(Populate(blogs[id], users)));
    }

    /** `updateBlogController`. A missing blog is 404 and a blog owned by
        someone else is 403; otherwise the patch is applied to that blog
        alone and saved, and a record that no longer validates gives 500.
        Every failure leaves the collection as it was. */
    method Update(id: ObjectId, patch: BlogPatch, caller: ObjectId) returns (resp: Response)
      requires Valid()
      modifies this
      ensures Valid() && nextId == old(nextId)
      ensures id !in old(blogs) ==> resp == BlogNotFound && blogs == old(blogs)
      ensures id in old(blogs) && !CanMutate(old(blogs)[id], caller) ==>
        resp == UpdateForbidden && blogs == old(blogs)
      ensures id in old(blogs) && CanMutate(old(blogs)[id], caller) ==>
        var b := ApplyPatch(old(blogs)[id], patch);
        if BlogValid(b) then
          resp == Response(200, BlogBody("Blog updated successfully", b)) && blogs == old(blogs)[id := b]
        else
          resp == UpdateFailed && blogs == old(blogs)
    {
      if id !in blogs {
        return BlogNotFound;
      }
      var b := blogs[id];
      if b.author.Some? && b.author.value != caller {
        return UpdateForbidden;
      }
      var updated := ApplyPatch(b, patch);
      if !BlogValid(updated) {
        return UpdateFailed;
      }
      blogs := blogs[id := updated];
      resp := Response(200, BlogBody("Blog updated successfully", updated));
    }

    /** `deleteBlogController`: 404 for a missing blog, 403 for one owned by
        someone else, otherwise exactly that blog is removed. */
    method Delete(id: ObjectId, caller: ObjectId) returns (resp: Response)
      requires Valid()
      modifies this
      ensures Valid() && nextId == old(nextId)
      ensures id !in old(blogs) ==> resp == BlogNotFound && blogs == old(blogs)
      ensures id in old(blogs) && !CanMutate(old(blogs)[id], caller) ==>
        resp == DeleteForbidden && blogs == old(blogs)
      ensures id in old(blogs) && CanMutate(old(blogs)[id], caller) ==>
        resp == Response(200, MessageBody("Blog deleted successfully")) && blogs == old(blogs) - {id}
    {
      if id !in blogs {
        return BlogNotFound;
      }
      var b := blogs[id];
      if b.author.Some? && b.author.value != caller {
        return DeleteForbidden;
      }
      blogs := blogs - {id};
      resp := Response(200, MessageBody("Blog deleted successfully"));
    }
  }

  lemma IdOrderOfThree(b1: Blog, b2: Blog, b3: Blog)
    requires b1.id == 0 && b2.id == 1 && b3.id == 2
    ensures InIdOrder(map[0 := b1, 1 := b2, 2 := b3], 3) == [b1, b2, b3]
  {
    var m := map[0 := b1, 1 := b2, 2 := b3];
    assert InIdOrder(m, 0) == [];
    assert InIdOrder(m, 1) == [b1];
    assert InIdOrder(m, 2) == [b1, b2];
  }

  lemma OrderedPair(a: Blog, b: Blog)
    requires b.createdAt <= a.createdAt
    ensures NewestFirstOrdered([a, b])
  {
  }

  /** A blog older than the head of the list goes behind that head. */
  lemma InsertBehind(x: Blog, s: seq<Blog>)
    requires NewestFirstOrdered(s) && s != [] && x.createdAt < s[0].createdAt
    ensures NewestFirstOrdered(s[1..])
    ensures InsertByDate(x, s) == [s[0]] + InsertByDate(x, s[1..])
  {
  }

  lemma InsertBehindOne(x: Blog, a: Blog)
    requires x.createdAt < a.createdAt
    ensures InsertByDate(x, [a]) == [a, x]
  {
    assert [a][1..] == [];
    assert InsertByDate(x, []) == [x];
  }

  lemma InsertBehindTwo(x: Blog, a: Blog, b: Blog)
    requires x.createdAt < b.createdAt <= a.createdAt
    ensures InsertByDate(x, [a, b]) == [a, b, x]
  {
    var s := [a, b];
    OrderedPair(a, b);
    assert s[1..] == [b];
    InsertBehind(x, s);
    InsertBehindOne(x, b);
    assert [a] + [b, x] == [a, b, x];
  }

  lemma SortOfThree(b1: Blog, b2: Blog, b3: Blog)
    requires b1.createdAt < b2.createdAt < b3.createdAt
    ensures SortNewestFirst([b1, b2, b3]) == [b3, b2, b1]
  {
    assert [b1, b2, b3][1..] == [b2, b3] && [b2, b3][1..] == [b3] && [b3][1..] == [];
    assert SortNewestFirst([b3]) == [b3];
    InsertBehindOne(b2, b3);
    assert SortNewestFirst([b2, b3]) == [b3, b2];
    InsertBehindTwo(b1, b3, b2);
  }

  /** Three blogs created at increasing times are listed newest first. */
  lemma ListNewestFirstExample(b1: Blog, b2: Blog, b3: Blog)
    requires b1.id == 0 && b2.id == 1 && b3.id == 2
    requires b1.createdAt < b2.createdAt < b3.createdAt
    ensures NewestFirst(map[0 := b1, 1 := b2, 2 := b3], 3) == [b3, b2, b1]
  {
    IdOrderOfThree(b1, b2, b3);
    SortOfThree(b1, b2, b3);
  }
}
