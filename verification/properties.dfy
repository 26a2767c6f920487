/**
 * Properties that relate several requests: what one handler leaves behind
 * and what the next one then sees, the store invariant every handler keeps,
 * and the isolation between users.
 */
module Properties {
  import opened Wrappers
  import opened Json
  import opened Text
  import opened Hashing
  import opened Models
  import opened Store
  import opened App

  // ---------------------------------------------------------------------
  // Lookups after an insert

  /** A row appended under a fresh id is what a lookup by that id finds. */
  lemma {:induction false} FindUserAfterAppend(us: seq<User>, u: User)
    requires u.id !in UserIds(us)
    ensures FindUser(us + [u], u.id) == Some(u)
    decreases |us|
  {
    if |us| > 0 {
      assert us[0].id == UserIds(us)[0];
      assert UserIds(us[1..]) == UserIds(us)[1..];
      assert (us + [u])[1..] == us[1..] + [u];
      FindUserAfterAppend(us[1..], u);
    }
  }

  /** A row appended under an unused username is what a lookup by that name finds. */
  lemma {:induction false} FindByUsernameAfterAppend(us: seq<User>, u: User)
    requires !UsernameTaken(us, u.username)
    ensures FindByUsername(us + [u], u.username) == Some(u)
    decreases |us|
  {
    if |us| > 0 {
      assert us[0].username != u.username;
      assert !UsernameTaken(us[1..], u.username) by {
        forall i | 0 <= i < |us[1..]|
          ensures us[1..][i].username != u.username
        {
          assert us[1..][i] == us[i + 1];
        }
      }
      assert (us + [u])[1..] == us[1..] + [u];
      FindByUsernameAfterAppend(us[1..], u);
    }
  }

  /** With unique usernames, the lookup by a stored username finds that row. */
  lemma {:induction false} FindByUsernameUnique(us: seq<User>, i: nat)
    requires UniqueUsernames(us) && i < |us|
    ensures FindByUsername(us, us[i].username) == Some(us[i])
    decreases i
  {
    if i > 0 {
      assert us[0].username != us[i].username;
      assert UniqueUsernames(us[1..]) by {
        forall a, c | 0 <= a < c < |us[1..]|
          ensures us[1..][a].username != us[1..][c].username
        {
          assert us[1..][a] == us[a + 1] && us[1..][c] == us[c + 1];
        }
      }
      FindByUsernameUnique(us[1..], i - 1);
    }
  }

  /** Appending a recipe owned by someone else leaves a user's listing unchanged. */
  lemma {:induction false} OwnedByAppendOther(rs: seq<Recipe>, x: Recipe, uid: nat)
    requires x.userId != Some(uid)
    ensures OwnedBy(rs + [x], uid) == OwnedBy(rs, uid)
    decreases |rs|
  {
    if |rs| == 0 {
      assert OwnedBy([x], uid) == [] + OwnedBy([], uid);
    } else {
      assert (rs + [x])[1..] == rs[1..] + [x];
      OwnedByAppendOther(rs[1..], x, uid);
    }
  }

  // ---------------------------------------------------------------------
  // Signup, then the next request

  /** The new user a successful signup appends, and what is known of it. */
  lemma SignupOutcome(st: State, body: Request, b: Bcrypt, salt: Salt) returns (u: User)
    requires Signup(st, body, b, salt).reply.status == 201
    ensures var r := Signup(st, body, b, salt);
            && r.next == State(st.db.(users := st.db.users + [u]), Some(u.id))
            && r.reply == Reply(201, Doc(UserReply(r.next.db, u)))
            && u.id !in UserIds(st.db.users)
            && !UsernameTaken(st.db.users, u.username)
            && IsText(body, "username") && u.username == body["username"].s
            && IsText(body, "password") && u.passwordHash == b.generate(salt, body["password"].s)
  {
    var r := Signup(st, body, b, salt);
    u := r.next.db.users[|st.db.users|];
    assert r.next.db.users == st.db.users + [u];
  }

  /**
   * After a successful signup the session names the new user: checking the
   * session answers 200 with the same document signup returned.
   */
  lemma SignupThenCheckSession(st: State, body: Request, b: Bcrypt, salt: Salt)
    requires Signup(st, body, b, salt).reply.status == 201
    ensures CheckSession(Signup(st, body, b, salt).next).reply == Signup(st, body, b, salt).reply.(status := 200)
  {
    var u := SignupOutcome(st, body, b, salt);
    var after := Signup(st, body, b, salt).next;
    FindUserAfterAppend(st.db.users, u);
    assert CheckSession(after) == Step(Reply(200, Doc(UserReply(after.db, u))), after);
  }

  /**
   * After a successful signup, logging in with the same username and
   * password succeeds, keeps the session on the new user and answers with
   * the same document.
   */
  lemma SignupThenLogin(st: State, body: Request, b: Bcrypt, salt: Salt)
    requires Sound(b)
    requires Signup(st, body, b, salt).reply.status == 201
    ensures Login(Signup(st, body, b, salt).next, body, b).reply == Signup(st, body, b, salt).reply.(status := 200)
    ensures Login(Signup(st, body, b, salt).next, body, b).next == Signup(st, body, b, salt).next
  {
    var u := SignupOutcome(st, body, b, salt);
    var after := Signup(st, body, b, salt).next;
    FindByUsernameAfterAppend(st.db.users, u);
    assert LoginCandidate(after.db, body) == Ok(Some(u));
    assert Authenticate(u, b, LoginPassword(body)) == Ok(true);
    assert Login(after, body, b) == Step(Reply(200, Doc(UserReply(after.db, u))), after);
  }

  /**
   * Signing up twice with the same username: the second attempt is a 422
   * that changes nothing.
   */
  lemma SignupTwiceRejected(st: State, body: Request, b: Bcrypt, salt: Salt, salt2: Salt)
    requires Signup(st, body, b, salt).reply.status == 201
    ensures Signup(Signup(st, body, b, salt).next, body, b, salt2) ==
              Step(Error(422, InvalidUserMessage), Signup(st, body, b, salt).next)
  {
    var u := SignupOutcome(st, body, b, salt);
    var after := Signup(st, body, b, salt).next;
    assert after.db.users[|st.db.users|] == u;
    assert UsernameTaken(after.db.users, u.username);
  }

  /** After a successful signup exactly one stored user has the new username. */
  lemma SignupNameUnique(st: State, body: Request, b: Bcrypt, salt: Salt)
    requires Signup(st, body, b, salt).reply.status == 201
    ensures var after := Signup(st, body, b, salt).next;
            forall i :: 0 <= i < |after.db.users| && after.db.users[i].username == body["username"].s ==>
              i == |st.db.users|
  {
    var u := SignupOutcome(st, body, b, salt);
  }

  // ---------------------------------------------------------------------
  // Login

  /**
   * With unique usernames, a login succeeds exactly when the posted
   * username, compared as text, names a stored user that authenticates
   * with the posted password (missing meaning ""), and the session then
   * holds that user.
   */
  lemma LoginSucceedsIff(st: State, body: Request, b: Bcrypt)
    requires UniqueUsernames(st.db.users)
    ensures var name := LookupName(Get(body, "username"));
            Login(st, body, b).reply.status == 200 <==>
              && Bindable(Get(body, "username")) && name.Some?
              && exists i :: 0 <= i < |st.db.users| && st.db.users[i].username == name.value
                             && Authenticate(st.db.users[i], b, LoginPassword(body)) == Ok(true)
  {
    var name := LookupName(Get(body, "username"));
    if Bindable(Get(body, "username")) && name.Some? {
      if i :| 0 <= i < |st.db.users| && st.db.users[i].username == name.value
             && Authenticate(st.db.users[i], b, LoginPassword(body)) == Ok(true) {
        FindByUsernameUnique(st.db.users, i);
      }
    }
  }

  /**
   * A numeric username in the 64-bit range logs in exactly as its decimal
   * text would: `{"username": 5}` reaches the user named "5", and only
   * that one, since no other integer has the text "5".
   */
  lemma NumericUsernameIsItsDecimalText(st: State, body: Request, b: Bcrypt, n: int)
    requires "username" in body && body["username"] == Number(n)
    requires MinInt64 <= n <= MaxInt64
    ensures Login(st, body, b) == Login(st, body["username" := Text(IntToDecimal(n))], b)
    ensures forall m :: m != n ==> LookupName(Number(m)) != LookupName(body["username"])
  {
    var other := body["username" := Text(IntToDecimal(n))];
    assert LoginPassword(other) == LoginPassword(body);
    assert LoginCandidate(st.db, other) == LoginCandidate(st.db, body);
    forall m | m != n
      ensures LookupName(Number(m)) != LookupName(body["username"])
    {
      IntToDecimalInjective(m, n);
    }
  }

  /**
   * An unknown username and a wrong password for a stored user get the
   * same reply and leave the same state: a client cannot tell them apart.
   */
  lemma LoginFailuresLookAlike(st: State, b: Bcrypt, unknown: Request, wrong: Request, i: nat)
    requires UniqueUsernames(st.db.users)
    requires IsText(unknown, "username") && !UsernameTaken(st.db.users, unknown["username"].s)
    requires i < |st.db.users| && IsText(wrong, "username") && wrong["username"].s == st.db.users[i].username
    requires Authenticate(st.db.users[i], b, LoginPassword(wrong)) == Ok(false)
    ensures Login(st, unknown, b) == Login(st, wrong, b) == Step(Error(401, InvalidLoginMessage), st)
  {
    FindByUsernameUnique(st.db.users, i);
  }

  // ---------------------------------------------------------------------
  // Logout

  /** After a logout every session-gated request is refused as unauthorised. */
  lemma LogoutThenAnonymous(st: State, body: Request)
    requires Logout(st).reply.status == 204
    ensures ListRecipes(Logout(st).next).reply == Error(401, UnauthorizedMessage)
    ensures CheckSession(Logout(st).next).reply == Error(401, UnauthorizedMessage)
    ensures CreateRecipe(Logout(st).next, body).reply == Error(401, UnauthorizedMessage)
    ensures Logout(Logout(st).next).reply == Error(401, UnauthorizedMessage)
  {
  }

  // ---------------------------------------------------------------------
  // Recipes

  /** A created recipe appears in its creator's listing, as the create reply showed it. */
  lemma CreateThenList(st: State, body: Request)
    requires CreateRecipe(st, body).reply.status == 201
    ensures var after := CreateRecipe(st, body).next;
            && ListRecipes(after).reply.status == 200
            && CreateRecipe(st, body).reply.body.json in ListRecipes(after).reply.body.json.items
  {
    var after := CreateRecipe(st, body).next;
    var x := after.db.recipes[|st.db.recipes|];
    assert x in after.db.recipes;
  }

  /** Creating a recipe changes nothing in the listing any other user sees. */
  lemma CreateInvisibleToOthers(st: State, body: Request, other: nat)
    requires CreateRecipe(st, body).reply.status == 201
    requires Some(other) != st.session
    ensures var after := CreateRecipe(st, body).next;
            ListRecipes(after.(session := Some(other))).reply == ListRecipes(st.(session := Some(other))).reply
  {
    var after := CreateRecipe(st, body).next;
    var x := after.db.recipes[|st.db.recipes|];
    assert after.db.recipes == st.db.recipes + [x];
    OwnedByAppendOther(st.db.recipes, x, other);
  }

  /**
   * For a signed-in user with a title, 49 characters of instructions are
   * refused and 50 accepted, unless the title is an integer the database
   * cannot bind.
   */
  lemma InstructionsBoundaryOnCreate(st: State, title: Value, short: string, exact: string)
    requires LoggedIn(st.session) && title != Null
    requires |short| == 49 && |exact| == 50
    ensures CreateRecipe(st, map["title" := title, "instructions" := Text(short)]) ==
              Step(Error(422, InvalidRecipeMessage), st)
    ensures CreateRecipe(st, map["title" := title, "instructions" := Text(exact)]).reply.status ==
              if Bindable(title) then 201 else 500
  {
  }

  // ---------------------------------------------------------------------
  // Every request, and any sequence of them

  /** One request to one of the routes. */
  datatype Call =
    | SignupCall(body: Request, salt: Salt)
    | CheckSessionCall
    | LoginCall(body: Request)
    | LogoutCall
    | ListRecipesCall
    | CreateRecipeCall(body: Request)

  /** Serve one request. */
  function Serve(st: State, call: Call, b: Bcrypt): Step {
    match call
    case SignupCall(body, salt) => Signup(st, body, b, salt)
    case CheckSessionCall => CheckSession(st)
    case LoginCall(body) => Login(st, body, b)
    case LogoutCall => Logout(st)
    case ListRecipesCall => ListRecipes(st)
    case CreateRecipeCall(body) => CreateRecipe(st, body)
  }

  /** Serve a sequence of requests from one client, in order. */
  function Run(st: State, calls: seq<Call>, b: Bcrypt): State
    decreases |calls|
  {
    if |calls| == 0 then st else Run(Serve(st, calls[0], b).next, calls[1..], b)
  }

  /**
   * Every handler keeps the store valid: unique non-blank usernames, keyed
   * tables, non-null titles and long-enough instructions.
   */
  lemma ServePreservesValid(st: State, call: Call, b: Bcrypt)
    requires Valid(st.db)
    ensures Valid(Serve(st, call, b).next.db)
  {
  }

  /**
   * A handler leaves the session as it was, clears it, or points it at a
   * user stored after the request.
   */
  lemma ServeSessionTransitions(st: State, call: Call, b: Bcrypt)
    ensures var next := Serve(st, call, b).next;
            || next.session == st.session
            || next.session == None
            || exists i :: 0 <= i < |next.db.users| && next.session == Some(next.db.users[i].id)
  {
    match call
    case SignupCall(body, salt) =>
      var r := Signup(st, body, b, salt);
      if r.reply.status == 201 {
        assert r.next.session == Some(r.next.db.users[|st.db.users|].id);
      }
    case _ =>
  }

  /** Any sequence of requests keeps the store valid. */
  lemma {:induction false} RunPreservesValid(st: State, calls: seq<Call>, b: Bcrypt)
    requires Valid(st.db)
    ensures Valid(Run(st, calls, b).db)
    decreases |calls|
  {
    if |calls| > 0 {
      ServePreservesValid(st, calls[0], b);
      RunPreservesValid(Serve(st, calls[0], b).next, calls[1..], b);
    }
  }

  /** Starting from an empty store, no two stored users ever share a username. */
  lemma UsernamesStayUnique(calls: seq<Call>, b: Bcrypt)
    ensures UniqueUsernames(Run(State(Db([], []), None), calls, b).db.users)
  {
    RunPreservesValid(State(Db([], []), None), calls, b);
  }
}
