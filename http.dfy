/** The JSON bodies and status codes the REST layer answers with. */
module Http {
  import opened Common
  import opened UserModel
  import opened BlogModel
  import opened Session

  /** A populated author reference: only `_id` and `username` are selected. */
  datatype AuthorView = AuthorView(id: ObjectId, username: string)

  /** A blog as the read endpoints return it, with its author populated. */
  datatype BlogView = BlogView(
    id: ObjectId,
    title: string,
    content: string,
    author: Option<AuthorView>,
    tags: seq<string>,
    image: Option<string>,
    createdAt: int)

  /** The public user summary: no password field exists in it. */
  datatype UserSummary = UserSummary(id: ObjectId, username: string, email: string, role: Role)

  datatype Body =
    | ErrorBody(error: string)
    | MessageBody(message: string)
    | BlogBody(message: string, blog: Blog)
    | AuthBody(message: string, token: Token, user: UserSummary)
    | BlogsBody(blogs: seq<BlogView>)
    | BlogViewBody(view: BlogView)

  datatype Response = Response(status: int, body: Body)

  function Error(status: int, message: string): Response {
    Response(status, ErrorBody(message))
  }
}
