/** Registration and login over the user collection. */
module AuthController {
  import opened Common
  import opened UserModel
  import opened Session
  import opened Http

  const DuplicateUser: Response := Error(400, "User with this email or username already exists")
  const RegisterFailed: Response := Error(500, "Failed to register user")
  const InvalidCredentials: Response := Error(401, "Invalid email or password")

  /** The public summary of a user: id, username, email and role. */
  function Summary(u: User): (s: UserSummary)
    ensures s.id == u.id && s.username == u.username && s.email == u.email && s.role == u.role
  {
    UserSummary(u.id, u.username, u.email, u.role)
  }

  /** The record registration builds: the password replaced by its hash and
      the role set to `user`. */
  function Registered(id: ObjectId, username: string, email: string, password: string, salt: string, crypto: Crypto): Option<User> {
    NewUser(id, username, email, crypto.hash(password, salt), Some("user"))
  }

  /** The schema's minimum length applies to the stored hash, not to the
      password the user typed: registration only depends on the hash. */
  lemma HashLengthChecked(id: ObjectId, username: string, email: string, password: string, salt: string, crypto: Crypto)
    ensures Registered(id, username, email, password, salt, crypto).Some? <==>
      username != "" && IsEmail(NormaliseEmail(email)) && |crypto.hash(password, salt)| >= 6
    ensures Registered(id, username, email, password, salt, crypto).Some? ==>
      Registered(id, username, email, password, salt, crypto).value.password == crypto.hash(password, salt)
  {
  }

  /** The responses registration can give: 201 with a session, or an error. */
  predicate SignupShape(r: Response) {
    (r.status == 201 && r.body.AuthBody? && r.body.message == "User registered successfully")
    || r == DuplicateUser || r == RegisterFailed
  }

  /** Every stored user is a valid record under its own id, and every id was
      handed out before `nextId`. */
  ghost predicate RecordsValid(users: map<ObjectId, User>, nextId: ObjectId) {
    forall id :: id in users ==> id < nextId && users[id].id == id && UserValid(users[id])
  }

  /** No two users share an email or a username (the unique indexes). */
  ghost predicate Unique(users: map<ObjectId, User>) {
    forall a, b :: a in users && b in users && a != b ==>
      users[a].email != users[b].email && users[a].username != users[b].username
  }

  ghost predicate StoreValid(users: map<ObjectId, User>, nextId: ObjectId) {
    RecordsValid(users, nextId) && Unique(users)
  }

  lemma InsertKeepsRecordsValid(users: map<ObjectId, User>, nextId: ObjectId, u: User)
    requires RecordsValid(users, nextId) && UserValid(u) && u.id == nextId
    ensures RecordsValid(users[nextId := u], nextId + 1)
  {
    var m := users[nextId := u];
    forall id | id in m
      ensures id < nextId + 1 && m[id].id == id && UserValid(m[id])
    {
      if id != nextId {
        assert m[id] == users[id];
      }
    }
  }

  lemma InsertKeepsUnique(users: map<ObjectId, User>, nextId: ObjectId, u: User)
    requires Unique(users) && nextId !in users
    requires forall id :: id in users ==> users[id].email != u.email && users[id].username != u.username
    ensures Unique(users[nextId := u])
  {
    var m := users[nextId := u];
    forall a, b | a in m && b in m && a != b
      ensures m[a].email != m[b].email && m[a].username != m[b].username
    {
      if a != nextId && b != nextId {
        assert m[a] == users[a] && m[b] == users[b];
      }
    }
  }

  /** Inserting a valid record under a fresh id that the unique indexes accept
      keeps the collection valid. */
  lemma InsertKeepsValid(users: map<ObjectId, User>, nextId: ObjectId, u: User)
    requires StoreValid(users, nextId) && UserValid(u) && u.id == nextId
    requires forall id :: id in users ==> users[id].email != u.email && users[id].username != u.username
    ensures StoreValid(users[nextId := u], nextId + 1)
  {
    InsertKeepsRecordsValid(users, nextId, u);
    InsertKeepsUnique(users, nextId, u);
  }

  /** The user collection, with the unique indexes on email and username. */
  class UserStore {
    var users: map<ObjectId, User>
    var nextId: ObjectId

    ghost predicate Valid()
      reads this
    {
      StoreValid(users, nextId)
    }

    constructor ()
      ensures Valid() && users == map[] && nextId == 0
    {
      users := map[];
      nextId := 0;
    }

    /** `findOne({ $or: [{ email }, { username }] })` finds a user. The
        schema's setters also run on query filters, so the email is compared
        after trimming and lower-casing; the username has no setter. */
    predicate Taken(email: string, username: string)
      reads this
    {
      exists id :: id in users && (users[id].email == NormaliseEmail(email) || users[id].username == username)
    }

    /** The unique indexes accept `u` beside the stored users. */
    predicate IndexesAccept(u: User)
      reads this
    {
      forall id :: id in users ==> users[id].email != u.email && users[id].username != u.username
    }

    /** `user.save()` for a record the schema and the unique indexes accept:
        it is stored under the next id. */
    method Insert(u: User)
      requires Valid() && UserValid(u) && u.id == nextId && IndexesAccept(u)
      modifies this
      ensures Valid()
      ensures users == old(users)[old(nextId) := u] && nextId == old(nextId) + 1
    {
      InsertKeepsValid(users, nextId, u);
      users := users[nextId := u];
      nextId := nextId + 1;
    }

    /** `signupController`. A request whose email (normalised, as the query
        sees it) or username is already stored is refused with 400 and
        nothing is written. Otherwise the password is hashed and a user with
        role `user` is built; a record the schema refuses gives 500. On
        success exactly one user is added, and the answer is 201 with a token
        for `{userId, username, role}` and the user's public summary. */
    method Signup(username: string, email: string, password: string, salt: string, crypto: Crypto)
      returns (resp: Response)
      requires Valid()
      modifies this
      ensures Valid()
      ensures SignupShape(resp)
      ensures resp == DuplicateUser <==> old(Taken(email, username))
      ensures resp.status != 201 && !old(Taken(email, username)) ==> resp == RegisterFailed
      ensures resp.status != 201 ==> users == old(users) && nextId == old(nextId)
      ensures resp.status == 201 <==>
        !old(Taken(email, username)) && Registered(old(nextId), username, email, password, salt, crypto).Some?
      ensures resp.status == 201 ==>
        var u := Registered(old(nextId), username, email, password, salt, crypto).value;
        && u.role == RegularUser && u.password == crypto.hash(password, salt)
        && users == old(users)[old(nextId) := u] && nextId == old(nextId) + 1
        && resp.body == AuthBody("User registered successfully", crypto.sign(ClaimsOf(u), TokenLifetime), Summary(u))
    {
      if Taken(email, username) {
        return DuplicateUser;
      }
      var candidate := Registered(nextId, username, email, password, salt, crypto);
      if candidate.None? {
        return RegisterFailed;
      }
      var u := candidate.value;
      // Nothing stored shares the normalised email or the username, so the
      // unique indexes accept the record.
      assert IndexesAccept(u);
      Insert(u);
      var token := crypto.sign(ClaimsOf(u), TokenLifetime);
      resp := Response(201, AuthBody("User registered successfully", token, Summary(u)));
    }

    /** `loginController`. The query's email goes through the schema's
        setters, so the stored user is found by the normalised email. An
        unknown email and a wrong password give the same 401; otherwise 200
        with a token and the public summary of that user. Nothing is
        written. */
    method Login(email: string, password: string, crypto: Crypto) returns (resp: Response)
      requires Valid()
      ensures resp.status == 200 || resp == InvalidCredentials
      ensures resp.status == 200 <==>
        exists id :: id in users && users[id].email == NormaliseEmail(email) && crypto.compare(password, users[id].password)
      ensures resp.status == 200 ==>
        exists id :: id in users && users[id].email == NormaliseEmail(email) &&
          resp.body == AuthBody("Login successful", crypto.sign(ClaimsOf(users[id]), TokenLifetime), Summary(users[id]))
    {
      var key := NormaliseEmail(email);
      if !exists id :: id in users && users[id].email == key {
        return InvalidCredentials;
      }
      var id :| id in users && users[id].email == key;
      var u := users[id];
      if !crypto.compare(password, u.password) {
        return InvalidCredentials;
      }
      var token := crypto.sign(ClaimsOf(u), TokenLifetime);
      resp := Response(200, AuthBody("Login successful", token, Summary(u)));
    }
  }

  /** Registering and then logging in with the email as typed at
      registration and the same password succeeds, and both sessions are for
      the same user. */
  method RegisterThenLogin(store: UserStore, username: string, email: string, password: string, salt: string, crypto: Crypto)
    returns (signup: Response, login: Response)
    requires store.Valid() && HashesMatch(crypto)
    modifies store
    ensures store.Valid()
    ensures signup.status == 201 ==>
      login.status == 200 && login.body.AuthBody? && signup.body.AuthBody? && login.body.user == signup.body.user
  {
    signup := store.Signup(username, email, password, salt, crypto);
    login := store.Login(email, password, crypto);
    if signup.status == 201 {
      var u := Registered(old(store.nextId), username, email, password, salt, crypto).value;
      assert store.users[u.id] == u;
      assert crypto.compare(password, u.password);
      assert login.status == 200;
      var id :| id in store.users && store.users[id].email == NormaliseEmail(email) &&
        login.body == AuthBody("Login successful", crypto.sign(ClaimsOf(store.users[id]), TokenLifetime), Summary(store.users[id]));
      assert id == u.id;
    }
  }
}
