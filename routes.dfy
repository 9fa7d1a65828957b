/** The user router: which endpoint each request reaches, and which of them
    sit behind the bearer-token guard. */
module Routes {
  import opened Common
  import opened BlogModel
  import opened Session
  import opened Http
  import opened AuthGuard
  import opened AuthController
  import opened BlogController

  /** The requests the router serves, with the body and path fields each one reads. */
  datatype Request =
    | SignupRequest(username: string, email: string, password: string)
    | LoginRequest(email: string, password: string)
    | CreateBlogRequest(input: BlogInput)
    | ListBlogsRequest
    | GetBlogRequest(id: ObjectId)
    | UpdateBlogRequest(id: ObjectId, patch: BlogPatch)
    | DeleteBlogRequest(id: ObjectId)

  /** The routes mounted with `authenticateUser` in front of the controller. */
  predicate Protected(r: Request) {
    r.CreateBlogRequest? || r.UpdateBlogRequest? || r.DeleteBlogRequest?
  }

  /** What the controller behind a protected route does to the blog
      collection (`blogs`, `nextId` before; `blogs'`, `nextId'` after) and
      answers, for an authenticated `caller`: the contract of that route's
      controller, and nothing else. */
  ghost predicate GuardedEffect(req: Request, caller: ObjectId, now: int,
                                blogs: map<ObjectId, Blog>, nextId: ObjectId,
                                blogs': map<ObjectId, Blog>, nextId': ObjectId, resp: Response) {
    match req
    case CreateBlogRequest(input) =>
      var made := NewBlog(nextId, input, Some(caller), now);
      if made.None? then
        resp == CreateFailed && blogs' == blogs && nextId' == nextId
      else
        && resp == Response(201, BlogBody("Blog created successfully", made.value))
        && blogs' == blogs[nextId := made.value] && nextId' == nextId + 1
    case UpdateBlogRequest(id, patch) =>
      && nextId' == nextId
      && (id !in blogs ==> resp == BlogNotFound && blogs' == blogs)
      && (id in blogs && !CanMutate(blogs[id], caller) ==> resp == UpdateForbidden && blogs' == blogs)
      && (id in blogs && CanMutate(blogs[id], caller) ==>
            var b := ApplyPatch(blogs[id], patch);
            if BlogValid(b) then
              resp == Response(200, BlogBody("Blog updated successfully", b)) && blogs' == blogs[id := b]
            else
              resp == UpdateFailed && blogs' == blogs)
    case DeleteBlogRequest(id) =>
      && nextId' == nextId
      && (id !in blogs ==> resp == BlogNotFound && blogs' == blogs)
      && (id in blogs && !CanMutate(blogs[id], caller) ==> resp == DeleteForbidden && blogs' == blogs)
      && (id in blogs && CanMutate(blogs[id], caller) ==>
            resp == Response(200, MessageBody("Blog deleted successfully")) && blogs' == blogs - {id})
    case _ => false
  }

  /** The routes without the guard: registration, login and the two reads.
      Only registration writes, and only to the user collection. */
  method HandleOpen(req: Request, crypto: Crypto, salt: string, users: UserStore, store: BlogStore)
    returns (resp: Response)
    requires !Protected(req) && users.Valid() && store.Valid()
    modifies users
    ensures users.Valid()
    ensures resp != MissingHeader && resp != InvalidToken
    ensures !req.SignupRequest? ==> unchanged(users)
    ensures req.SignupRequest? ==> SignupShape(resp)
    ensures req.LoginRequest? ==> resp.status == 200 || resp == InvalidCredentials
    ensures req.ListBlogsRequest? ==> resp.status == 200
    ensures req.GetBlogRequest? ==> (resp == BlogNotFound <==> req.id !in store.blogs)
  {
    match req {
      case SignupRequest(username, email, password) =>
        resp := users.Signup(username, email, password, salt, crypto);
      case LoginRequest(email, password) =>
        resp := users.Login(email, password, crypto);
      case ListBlogsRequest =>
        resp := store.List(users.users);
      case GetBlogRequest(id) =>
        resp := store.Get(id, users.users);
    }
  }

  /** The routes behind the guard, run for an authenticated caller. */
  method HandleGuarded(req: Request, caller: ObjectId, now: int, store: BlogStore)
    returns (resp: Response)
    requires Protected(req) && store.Valid()
    modifies store
    ensures store.Valid()
    ensures GuardedEffect(req, caller, now, old(store.blogs), old(store.nextId), store.blogs, store.nextId, resp)
    ensures req.CreateBlogRequest? && resp.status == 201 ==>
      old(store.nextId) in store.blogs && store.blogs[old(store.nextId)].author == Some(caller)
    ensures req.UpdateBlogRequest? || req.DeleteBlogRequest? ==>
      (resp.status == 403 <==> req.id in old(store.blogs) && !CanMutate(old(store.blogs)[req.id], caller))
  {
    match req {
      case CreateBlogRequest(input) =>
        resp := store.Create(input, caller, now);
      case UpdateBlogRequest(id, patch) =>
        resp := store.Update(id, patch, caller);
      case DeleteBlogRequest(id) =>
        resp := store.Delete(id, caller);
    }
  }

  /** One request, handled as one atomic step. On a protected route the guard
      runs first; when it answers, no controller runs and nothing is written.
      Otherwise the controller runs, with the token's `userId` as the caller. */
  method Handle(req: Request, header: Option<string>, crypto: Crypto, salt: string, now: int,
                users: UserStore, store: BlogStore)
    returns (resp: Response)
    requires users.Valid() && store.Valid()
    modifies users, store
    ensures users.Valid() && store.Valid()
    ensures Protected(req) && Authenticate(header, crypto.verify).Reject? ==>
      resp == Authenticate(header, crypto.verify).response && unchanged(users) && unchanged(store)
    ensures !Protected(req) ==> resp != MissingHeader && resp != InvalidToken && unchanged(store)
    ensures Protected(req) ==> unchanged(users)
    ensures Protected(req) && Authenticate(header, crypto.verify).Proceed? ==>
      var caller := Authenticate(header, crypto.verify).identity.userId;
      && GuardedEffect(req, caller, now, old(store.blogs), old(store.nextId), store.blogs, store.nextId, resp)
      && (req.CreateBlogRequest? && resp.status == 201 ==>
            old(store.nextId) in store.blogs && store.blogs[old(store.nextId)].author == Some(caller))
      && (req.UpdateBlogRequest? || req.DeleteBlogRequest? ==>
            (resp.status == 403 <==> req.id in old(store.blogs) && !CanMutate(old(store.blogs)[req.id], caller)))
  {
    if Protected(req) {
      var outcome := Authenticate(header, crypto.verify);
      if outcome.Reject? {
        return outcome.response;
      }
      resp := HandleGuarded(req, outcome.identity.userId, now, store);
    } else {
      resp := HandleOpen(req, crypto, salt, users, store);
    }
  }
}
