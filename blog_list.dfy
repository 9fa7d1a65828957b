/** The home page's search box over the fetched blog list. */
module BlogList {
  import opened Common
  import opened Text
  import opened Seqs
  import opened Http

  /** `s?.toLowerCase().includes(q)`, with an absent string never matching. */
  predicate MentionsLower(s: Option<string>, q: string) {
    s.Some? && Includes(ToLower(s.value), q)
  }

  function AuthorName(b: BlogView): Option<string> {
    if b.author.Some? then Some(b.author.value.username) else None
  }

  /** The search test for one blog: a blank query keeps everything; otherwise
      the lower-cased query, not trimmed, must occur in the lower-cased title,
      content or author username. */
  predicate MatchesQuery(b: BlogView, query: string) {
    AllSpace(query)
    || MentionsLower(Some(b.title), ToLower(query))
    || MentionsLower(Some(b.content), ToLower(query))
    || MentionsLower(AuthorName(b), ToLower(query))
  }

  /** `filteredBlogs`: the blogs that pass the search test, in the order the
      server listed them. */
  function FilteredBlogs(blogs: seq<BlogView>, query: string): (r: seq<BlogView>)
    ensures IsSubsequence(r, blogs)
    ensures forall b :: b in r <==> b in blogs && MatchesQuery(b, query)
    ensures AllSpace(query) ==> r == blogs
  {
    FilterSpec(blogs, b => MatchesQuery(b, query));
    Filter(blogs, b => MatchesQuery(b, query))
  }

  /** The search ignores the case of the query. */
  lemma SearchIgnoresQueryCase(blogs: seq<BlogView>, query: string)
    ensures FilteredBlogs(blogs, ToLower(query)) == FilteredBlogs(blogs, query)
  {
    ToLowerAllSpace(query);
    ToLowerIdempotent(query);
    FilterCongruent(blogs, b => MatchesQuery(b, ToLower(query)), b => MatchesQuery(b, query));
  }

  /** A listed blog whose lower-cased title holds the lower-cased query at
      some position survives the search. */
  lemma TitleOccurrenceKept(blogs: seq<BlogView>, query: string, b: BlogView, i: nat)
    requires b in blogs && i <= |b.title|
    requires StartsWith(ToLower(b.title)[i..], ToLower(query))
    ensures b in FilteredBlogs(blogs, query)
  {
    IncludesIff(ToLower(b.title), ToLower(query));
  }
}
