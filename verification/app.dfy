/**
 * The request handlers as pure transitions: each takes the state (store and
 * session) and the request's fields, and returns the reply together with the
 * state it leaves behind. An exception a handler does not catch escapes as
 * `Raised`, which the web framework serves as a 500, and nothing is committed.
 */
module App {
  import opened Wrappers
  import opened Json
  import opened Text
  import opened Hashing
  import opened Models
  import opened Store

  /** The store and the `user_id` entry of the client's session. */
  datatype State = State(db: Db, session: Option<nat>)

  /** A reply body: a JSON document, or the exception that escaped the handler. */
  datatype Body = Doc(json: Json) | Raised(exception: Exception)

  datatype Reply = Reply(status: nat, body: Body)

  /** A handler's reply and the state after the request. */
  datatype Step = Step(reply: Reply, next: State)

  /** The JSON object a client posts, field by field. */
  type Request = map<string, Value>

  const UnauthorizedMessage: string := "401 Unauthorized"
  const InvalidUserMessage: string := "Invalid user data"
  const InvalidLoginMessage: string := "Invalid username or password"
  const InvalidRecipeMessage: string := "Invalid recipe data"

  /** The exceptions the signup handler turns into a 422. */
  const SignupCaught: set<Exception> := {KeyError, IntegrityError, ValueError}
  /** The exceptions the recipe-creation handler turns into a 422. */
  const RecipeCaught: set<Exception> := {KeyError, ValueError}

  /** An `{"error": message}` reply. */
  function Error(status: nat, message: string): Reply {
    Reply(status, Doc(JObj([Field("error", JStr(message))])))
  }

  /** A refusal: the error reply, with the state left as it was. */
  function Reject(st: State, status: nat, message: string): Step {
    Step(Error(status, message), st)
  }

  /**
   * An exception raised before anything was committed: a 422 when the
   * handler's `except` clause names it, otherwise it escapes.
   */
  function Except(st: State, e: Exception, caught: set<Exception>, message: string): Step {
    if e in caught then Reject(st, 422, message) else Step(Reply(500, Raised(e)), st)
  }

  /** `data.get(key)`: the field, or `Null` when the client left it out. */
  function Get(body: Request, key: string): Value {
    if key in body then body[key] else Null
  }

  /** The field is present and a string. */
  predicate IsText(body: Request, key: string) {
    key in body && body[key].Text?
  }

  /** The session's `user_id` is truthy: present and not 0. */
  predicate LoggedIn(session: Option<nat>) {
    session.Some? && session.value != 0
  }

  /** The user row the serialised reply for `u` is built from, with its recipes. */
  function UserReply(db: Db, u: User): Json {
    UserToDict(u, OwnedBy(db.recipes, u.id), {})
  }

  // ---------------------------------------------------------------------
  // Signup

  /** The conditions under which a signup is committed. */
  predicate SignupAccepted(db: Db, body: Request, b: Bcrypt, salt: Salt) {
    && IsText(body, "username") && !IsBlank(body["username"].s)
    && IsText(body, "password") && b.generate(salt, body["password"].s).Some?
    && Bindable(Get(body, "image_url")) && Bindable(Get(body, "bio"))
    && !UsernameTaken(db.users, body["username"].s)
  }

  /**
   * `after` is `before` with exactly one user appended, under a fresh id,
   * with the given name and hash, and the session holding that id.
   */
  predicate SignedUp(before: State, after: State, name: string, hash: string) {
    && after.db.recipes == before.db.recipes
    && |after.db.users| == |before.db.users| + 1
    && after.db.users[..|before.db.users|] == before.db.users
    && var u := after.db.users[|before.db.users|];
       && u.username == name
       && u.passwordHash == Some(hash)
       && u.id >= 1
       && u.id !in UserIds(before.db.users)
       && after.session == Some(u.id)
  }

  /**
   * The part of `Signup.post` before the commit: read and validate the
   * username, read the password and hash it into a pending user. Fails with
   * the exception the first failing step raises.
   */
  function PendingUser(body: Request, b: Bcrypt, salt: Salt): (r: Result<User, Exception>)
    ensures r.Ok? <==>
              && IsText(body, "username") && !IsBlank(body["username"].s)
              && IsText(body, "password") && b.generate(salt, body["password"].s).Some?
    ensures r.Ok? ==>
              && r.value.username == body["username"].s
              && r.value.passwordHash == b.generate(salt, body["password"].s)
              && r.value.imageUrl == Get(body, "image_url") && r.value.bio == Get(body, "bio")
    ensures r.Err? ==> r.error == KeyError || r.error == ValueError || r.error == AttributeError
    ensures "username" !in body ==> r == Err(KeyError)
    ensures IsText(body, "username") && IsBlank(body["username"].s) ==> r == Err(ValueError)
    ensures "username" in body && !Truthy(body["username"]) ==> r == Err(ValueError)
    ensures "username" in body && Truthy(body["username"]) && !body["username"].Text? ==> r == Err(AttributeError)
    ensures IsText(body, "username") && "password" !in body ==> r.Err? && r.error != AttributeError
    ensures IsText(body, "username") && IsText(body, "password") ==> r.Ok? || r == Err(ValueError)
  {
    if "username" !in body then Err(KeyError)
    else match ValidateUsername(body["username"])
      case Err(e) => Err(e)
      case Ok(name) =>
        if "password" !in body then Err(KeyError)
        else
          // The id is a placeholder until the commit assigns the primary key.
          SetPassword(User(0, name, None, Get(body, "image_url"), Get(body, "bio")), b, salt, body["password"])
  }

  /**
   * The part of `Signup.post` from the commit on: store the pending user,
   * start its session and reply with its document, or report the commit's
   * failure.
   */
  function SignupCommit(st: State, u: User): (r: Step)
    ensures r.reply.status == 201 || r.reply.status == 422 || r.reply.status == 500
    ensures r.reply.status != 201 ==> r.next == st
    ensures r.reply.status == 422 ==> r.reply == Error(422, InvalidUserMessage)
    ensures r.reply.status == 500 <==> !Bindable(u.imageUrl) || !Bindable(u.bio)
    ensures r.reply.status == 500 ==> r.reply.body == Raised(OverflowError)
    ensures r.reply.status == 201 <==>
              Bindable(u.imageUrl) && Bindable(u.bio) && !UsernameTaken(st.db.users, u.username)
    ensures r.reply.status == 201 ==>
              && r.next.db.recipes == st.db.recipes
              && r.next.db.users == st.db.users + [u.(id := NextId(UserIds(st.db.users)))]
              && r.next.session == Some(NextId(UserIds(st.db.users)))
              && r.reply.body == Doc(UserReply(r.next.db, r.next.db.users[|st.db.users|]))
    ensures Valid(st.db) && !IsBlank(u.username) ==> Valid(r.next.db)
  {
    match CommitUser(st.db, u)
    case Err(e) => Except(st, e, SignupCaught, InvalidUserMessage)
    case Ok(db) =>
      var saved := db.users[|db.users| - 1];
      Step(Reply(201, Doc(UserReply(db, saved))), State(db, Some(saved.id)))
  }

  /** `Signup.post`. */
  function Signup(st: State, body: Request, b: Bcrypt, salt: Salt): (r: Step)
    ensures r.reply.status == 201 || r.reply.status == 422 || r.reply.status == 500
    ensures r.reply.status != 201 ==> r.next == st
    ensures r.reply.status == 422 ==> r.reply == Error(422, InvalidUserMessage)
    ensures r.reply.status == 500 ==> r.reply.body == Raised(AttributeError) || r.reply.body == Raised(OverflowError)
    ensures r.reply.status == 201 <==> SignupAccepted(st.db, body, b, salt)
    ensures "username" !in body ==> r.reply.status == 422
    ensures IsText(body, "username") && IsBlank(body["username"].s) ==> r.reply.status == 422
    ensures "username" in body && !Truthy(body["username"]) ==> r.reply == Error(422, InvalidUserMessage)
    ensures "username" in body && Truthy(body["username"]) && !body["username"].Text? ==>
              r.reply == Reply(500, Raised(AttributeError))
    ensures IsText(body, "username") && "password" !in body ==> r.reply.status == 422
    ensures (&& IsText(body, "username") && IsText(body, "password")
             && Bindable(Get(body, "image_url")) && Bindable(Get(body, "bio"))
             && UsernameTaken(st.db.users, body["username"].s)) ==> r.reply.status == 422
    ensures (&& IsText(body, "username") && !IsBlank(body["username"].s)
             && IsText(body, "password") && b.generate(salt, body["password"].s).Some?
             && (!Bindable(Get(body, "image_url")) || !Bindable(Get(body, "bio")))) ==>
              r.reply == Reply(500, Raised(OverflowError))
    ensures r.reply.status == 201 ==>
              && SignedUp(st, r.next, body["username"].s, b.generate(salt, body["password"].s).value)
              && var u := r.next.db.users[|st.db.users|];
                 && u.imageUrl == Get(body, "image_url") && u.bio == Get(body, "bio")
                 && r.reply.body == Doc(UserReply(r.next.db, u))
    ensures Valid(st.db) ==> Valid(r.next.db)
  {
    match PendingUser(body, b, salt)
    case Err(e) => Except(st, e, SignupCaught, InvalidUserMessage)
    case Ok(u) =>
      var r := SignupCommit(st, u);
      assert r.reply.status == 201 ==> r.next.db.users[..|st.db.users|] == st.db.users;
      r
  }

  // ---------------------------------------------------------------------
  // CheckSession

  /** `CheckSession.get`. */
  function CheckSession(st: State): (r: Step)
    ensures r.next == st
    ensures r.reply.status == 200 || r.reply == Error(401, UnauthorizedMessage)
    ensures r.reply.status == 200 <==>
              LoggedIn(st.session) && exists i :: 0 <= i < |st.db.users| && st.db.users[i].id == st.session.value
    ensures r.reply.status == 200 ==>
              exists i :: 0 <= i < |st.db.users| && st.db.users[i].id == st.session.value
                          && r.reply.body == Doc(UserReply(st.db, st.db.users[i]))
  {
    if LoggedIn(st.session) then
      match FindUser(st.db.users, st.session.value)
      case Some(u) => Step(Reply(200, Doc(UserReply(st.db, u))), st)
      case None => Reject(st, 401, UnauthorizedMessage)
    else Reject(st, 401, UnauthorizedMessage)
  }

  // ---------------------------------------------------------------------
  // Login

  /** `data.get("password", "")`. */
  function LoginPassword(body: Request): Value {
    if "password" in body then body["password"] else Text("")
  }

  /**
   * The text `filter_by(username=v)` compares the column with. The column
   * has text affinity, so SQLite compares a bound integer as its decimal
   * text. A null compares equal to no row, since the column is never null.
   */
  function LookupName(v: Value): Option<string> {
    match v
    case Null => None
    case Text(s) => Some(s)
    case Number(n) => Some(IntToDecimal(n))
  }

  /**
   * The user a login looks up: the first row whose username equals the
   * posted username, compared as text. Binding an integer outside the
   * 64-bit range fails with `OverflowError` before the query runs.
   */
  function LoginCandidate(db: Db, body: Request): (r: Result<Option<User>, Exception>)
    ensures r.Err? <==> !Bindable(Get(body, "username"))
    ensures r.Err? ==> r.error == OverflowError
    ensures var v := Get(body, "username");
            r.Ok? ==> (r.value.Some? <==> LookupName(v).Some? && UsernameTaken(db.users, LookupName(v).value))
    ensures r.Ok? && r.value.Some? ==>
              r.value.value in db.users && Some(r.value.value.username) == LookupName(Get(body, "username"))
    ensures "username" !in body || body["username"] == Null ==> r == Ok(None)
    ensures IsText(body, "username") ==> r == Ok(FindByUsername(db.users, body["username"].s))
    ensures (&& "username" in body && body["username"].Number?
             && Bindable(body["username"])) ==> r == Ok(FindByUsername(db.users, IntToDecimal(body["username"].n)))
  {
    var v := Get(body, "username");
    if !Bindable(v) then Err(OverflowError)
    else match LookupName(v)
      case None => Ok(None)
      case Some(name) => Ok(FindByUsername(db.users, name))
  }

  /** `Login.post`. */
  function Login(st: State, body: Request, b: Bcrypt): (r: Step)
    ensures r.next.db == st.db
    ensures r.reply.status == 200 || r.reply.status == 401 || r.reply.status == 500
    ensures r.reply.status != 200 ==> r.next == st
    ensures r.reply.status == 401 ==> r.reply == Error(401, InvalidLoginMessage)
    ensures r.reply.status == 500 ==> r.reply.body == Raised(AttributeError) || r.reply.body == Raised(OverflowError)
    ensures !Bindable(Get(body, "username")) ==> r.reply == Reply(500, Raised(OverflowError))
    ensures var name := LookupName(Get(body, "username"));
            (&& Bindable(Get(body, "username"))
             && (name.None? || !UsernameTaken(st.db.users, name.value))) ==> r.reply == Error(401, InvalidLoginMessage)
    ensures var name := LookupName(Get(body, "username"));
            r.reply.status == 200 ==>
              && name.Some?
              && exists i :: 0 <= i < |st.db.users| && st.db.users[i].username == name.value
                             && Authenticate(st.db.users[i], b, LoginPassword(body)) == Ok(true)
                             && r.next.session == Some(st.db.users[i].id)
                             && r.reply.body == Doc(UserReply(st.db, st.db.users[i]))
  {
    match LoginCandidate(st.db, body)
    case Err(e) => Step(Reply(500, Raised(e)), st)
    case Ok(None) => Reject(st, 401, InvalidLoginMessage)
    case Ok(Some(u)) =>
      match Authenticate(u, b, LoginPassword(body))
      case Err(e) => Step(Reply(500, Raised(e)), st)
      case Ok(ok) =>
        if ok then Step(Reply(200, Doc(UserReply(st.db, u))), st.(session := Some(u.id)))
        else Reject(st, 401, InvalidLoginMessage)
  }

  // ---------------------------------------------------------------------
  // Logout

  /** `Logout.delete`. */
  function Logout(st: State): (r: Step)
    ensures r.next.db == st.db
    ensures r.reply.status == 204 <==> LoggedIn(st.session)
    ensures r.reply.status == 204 ==> r.next.session == None && r.reply.body == Doc(JStr(""))
    ensures r.reply.status != 204 ==> r.reply == Error(401, UnauthorizedMessage) && r.next == st
  {
    if LoggedIn(st.session) then Step(Reply(204, Doc(JStr(""))), st.(session := None))
    else Reject(st, 401, UnauthorizedMessage)
  }

  // ---------------------------------------------------------------------
  // RecipeIndex

  /** `[f(x) for x in xs]`. */
  function MapSeq<T, U>(xs: seq<T>, f: T -> U): (ys: seq<U>)
    ensures |ys| == |xs|
    ensures forall i :: 0 <= i < |xs| ==> ys[i] == f(xs[i])
  {
    seq(|xs|, i requires 0 <= i < |xs| => f(xs[i]))
  }

  /** The image of every element of the original is in the mapped list. */
  lemma MapSeqCovers<T, U>(xs: seq<T>, f: T -> U)
    ensures forall x :: x in xs ==> f(x) in MapSeq(xs, f)
  {
    var ys := MapSeq(xs, f);
    forall x | x in xs
      ensures f(x) in ys
    {
      var n :| 0 <= n < |xs| && xs[n] == x;
      assert ys[n] == f(x);
    }
  }

  /**
   * The listing for user `uid`: each recipe serialised with its owner
   * embedded. It holds a recipe exactly when `uid` owns it.
   */
  function OwnRecipes(db: Db, uid: nat): (items: seq<Json>)
    ensures forall n :: 0 <= n < |items| ==>
              exists x :: x in db.recipes && x.userId == Some(uid) && items[n] == RecipeToDict(x, FindUser(db.users, uid), {})
    ensures forall x :: x in db.recipes && x.userId == Some(uid) ==> RecipeToDict(x, FindUser(db.users, uid), {}) in items
    ensures |items| == |OwnedBy(db.recipes, uid)|
  {
    var owned := OwnedBy(db.recipes, uid);
    var owner := FindUser(db.users, uid);
    var f := x => RecipeToDict(x, owner, {});
    var items := MapSeq(owned, f);
    assert forall n :: 0 <= n < |items| ==> owned[n] in owned && items[n] == f(owned[n]);
    MapSeqCovers(owned, f);
    items
  }

  /** `RecipeIndex.get`. */
  function ListRecipes(st: State): (r: Step)
    ensures r.next == st
    ensures r.reply.status == 200 <==> LoggedIn(st.session)
    ensures r.reply.status != 200 ==> r.reply == Error(401, UnauthorizedMessage)
    ensures r.reply.status == 200 ==> r.reply.body == Doc(JArr(OwnRecipes(st.db, st.session.value)))
  {
    if !LoggedIn(st.session) then Reject(st, 401, UnauthorizedMessage)
    else Step(Reply(200, Doc(JArr(OwnRecipes(st.db, st.session.value)))), st)
  }

  /** The conditions under which a recipe is committed. */
  predicate RecipeAccepted(st: State, body: Request) {
    && LoggedIn(st.session)
    && "title" in body && body["title"] != Null
    && IsText(body, "instructions") && |body["instructions"].s| >= MinInstructionsLength
    && Bindable(body["title"]) && Bindable(Get(body, "minutes_to_complete"))
  }

  /** `RecipeIndex.post`. */
  function CreateRecipe(st: State, body: Request): (r: Step)
    ensures r.reply.status == 201 || r.reply.status == 401 || r.reply.status == 422 || r.reply.status == 500
    ensures r.reply.status != 201 ==> r.next == st
    ensures r.reply.status == 401 <==> !LoggedIn(st.session)
    ensures r.reply.status == 401 ==> r.reply == Error(401, UnauthorizedMessage)
    ensures r.reply.status == 422 ==> r.reply == Error(422, InvalidRecipeMessage)
    ensures r.reply.status == 500 ==>
              || r.reply.body == Raised(TypeError) || r.reply.body == Raised(IntegrityError)
              || r.reply.body == Raised(OverflowError)
    ensures LoggedIn(st.session) && ("title" !in body || "instructions" !in body) ==> r.reply.status == 422
    ensures (&& LoggedIn(st.session) && IsText(body, "instructions")
             && |body["instructions"].s| < MinInstructionsLength) ==> r.reply.status == 422
    ensures r.reply.status == 201 <==> RecipeAccepted(st, body)
    ensures (&& LoggedIn(st.session) && "title" in body
             && IsText(body, "instructions") && |body["instructions"].s| >= MinInstructionsLength
             && (!Bindable(body["title"]) || !Bindable(Get(body, "minutes_to_complete")))) ==>
              r.reply == Reply(500, Raised(OverflowError))
    ensures r.reply.status == 201 ==>
              && r.next.session == st.session
              && r.next.db.users == st.db.users
              && |r.next.db.recipes| == |st.db.recipes| + 1
              && r.next.db.recipes[..|st.db.recipes|] == st.db.recipes
              && var x := r.next.db.recipes[|st.db.recipes|];
                 && x.userId == st.session
                 && x.title == body["title"]
                 && x.instructions == body["instructions"].s
                 && x.minutesToComplete == Get(body, "minutes_to_complete")
                 && x.id >= 1 && x.id !in RecipeIds(st.db.recipes)
                 && r.reply.body == Doc(RecipeToDict(x, FindUser(st.db.users, st.session.value), {}))
    ensures Valid(st.db) ==> Valid(r.next.db)
  {
    if !LoggedIn(st.session) then Reject(st, 401, UnauthorizedMessage)
    else if "title" !in body || "instructions" !in body then Except(st, KeyError, RecipeCaught, InvalidRecipeMessage)
    else match ValidateInstructions(body["instructions"])
      case Err(e) => Except(st, e, RecipeCaught, InvalidRecipeMessage)
      case Ok(text) =>
        // The id is a placeholder until the commit assigns the primary key.
        var pending := Recipe(0, body["title"], text, Get(body, "minutes_to_complete"), st.session);
        match CommitRecipe(st.db, pending)
        case Err(e) => Except(st, e, RecipeCaught, InvalidRecipeMessage)
        case Ok(db) =>
          var saved := db.recipes[|db.recipes| - 1];
          assert db.recipes[..|st.db.recipes|] == st.db.recipes;
          Step(Reply(201, Doc(RecipeToDict(saved, FindUser(db.users, st.session.value), {}))), st.(db := db))
  }
}
