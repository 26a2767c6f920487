/**
 * The two ORM models, User and Recipe: their attribute validators, the
 * write-only password attribute with `authenticate`, and the serialisation
 * rules that decide which attributes reach a JSON response.
 */
module Models {
  import opened Wrappers
  import opened Json
  import opened Text
  import opened Hashing

  /** The Python exceptions raised on the paths this model covers. */
  datatype Exception = KeyError | ValueError | TypeError | AttributeError | IntegrityError | OverflowError

  /**
   * A row of the `users` table. `passwordHash` is the `_password_hash`
   * column; `imageUrl` and `bio` hold whatever the client sent.
   */
  datatype User = User(id: nat, username: string, passwordHash: Option<string>, imageUrl: Value, bio: Value)

  /** A row of the `recipes` table; `userId` is the nullable owner reference. */
  datatype Recipe = Recipe(id: nat, title: Value, instructions: string, minutesToComplete: Value, userId: Option<nat>)

  /** The shortest instructions the recipe validator accepts. */
  const MinInstructionsLength: nat := 50

  /**
   * The `username` validator: a falsy value or one that strips to nothing
   * raises `ValueError`; a truthy non-string has no `strip` and raises
   * `AttributeError`; any other string is stored unchanged.
   */
  function ValidateUsername(v: Value): (r: Result<string, Exception>)
    ensures r.Ok? <==> v.Text? && !IsBlank(v.s)
    ensures r.Ok? ==> r.value == v.s
    ensures r.Err? ==> (r.error == AttributeError <==> Truthy(v) && !v.Text?)
    ensures r.Err? ==> r.error == ValueError || r.error == AttributeError
  {
    if !Truthy(v) then Err(ValueError)
    else match v
      case Text(s) =>
        StripEmptyIffBlank(s);
        if Strip(s) == "" then Err(ValueError) else Ok(s)
      case _ => Err(AttributeError)
  }

  /**
   * The `instructions` validator: a string shorter than the minimum raises
   * `ValueError`, a value without a length raises `TypeError`, and an
   * accepted string is stored unchanged.
   */
  function ValidateInstructions(v: Value): (r: Result<string, Exception>)
    ensures r.Ok? <==> v.Text? && |v.s| >= MinInstructionsLength
    ensures r.Ok? ==> r.value == v.s
    ensures r.Err? ==> (r.error == ValueError <==> v.Text?)
    ensures r.Err? && !v.Text? ==> r.error == TypeError
  {
    match v
    case Text(s) => if |s| < MinInstructionsLength then Err(ValueError) else Ok(s)
    case _ => Err(TypeError)
  }

  /** 49 characters of instructions are refused and 50 are accepted. */
  lemma InstructionsBoundary(short: string, exact: string)
    requires |short| == MinInstructionsLength - 1 && |exact| == MinInstructionsLength
    ensures ValidateInstructions(Text(short)) == Err(ValueError)
    ensures ValidateInstructions(Text(exact)) == Ok(exact)
  {
  }

  /** A hash is set in the sense of the source's `if not self._password_hash`. */
  predicate HasHash(u: User) {
    u.passwordHash.Some? && u.passwordHash.value != ""
  }

  /** Reading the `password_hash` attribute: it always raises, whatever the user holds. */
  function ReadPasswordHash(u: User): (r: Result<string, Exception>)
    ensures r.Err? && r.error == AttributeError
  {
    Err(AttributeError)
  }

  /**
   * Assigning `password_hash`: a string password is hashed with the given
   * salt and only the hash is stored; a non-string has no `encode` and
   * raises `AttributeError`; a password the extension refuses raises
   * `ValueError`. No other attribute changes.
   */
  function SetPassword(u: User, b: Bcrypt, salt: Salt, password: Value): (r: Result<User, Exception>)
    ensures r.Ok? <==> password.Text? && b.generate(salt, password.s).Some?
    ensures r.Ok? ==> r.value.passwordHash == b.generate(salt, password.s)
    ensures r.Ok? ==> r.value.(passwordHash := u.passwordHash) == u
    ensures r.Err? ==> (r.error == AttributeError <==> !password.Text?)
    ensures r.Err? ==> r.error == AttributeError || r.error == ValueError
  {
    match password
    case Text(p) =>
      (match b.generate(salt, p)
       case Some(h) => Ok(u.(passwordHash := Some(h)))
       case None => Err(ValueError))
    case _ => Err(AttributeError)
  }

  /**
   * `User.authenticate`: false whenever no hash is set, for any candidate;
   * otherwise a string candidate is checked against the stored hash and a
   * non-string one raises `AttributeError`.
   */
  function Authenticate(u: User, b: Bcrypt, password: Value): (r: Result<bool, Exception>)
    ensures !HasHash(u) ==> r == Ok(false)
    ensures r == Ok(true) <==> HasHash(u) && password.Text? && b.check(u.passwordHash.value, password.s)
    ensures r.Err? ==> HasHash(u) && !password.Text? && r.error == AttributeError
    ensures HasHash(u) && !password.Text? ==> r == Err(AttributeError)
  {
    if !HasHash(u) then Ok(false)
    else match password
      case Text(p) => Ok(b.check(u.passwordHash.value, p))
      case _ => Err(AttributeError)
  }

  /** Once a password is set, authenticating with that same password succeeds. */
  lemma SetPasswordThenAuthenticate(u: User, b: Bcrypt, salt: Salt, p: string)
    requires Sound(b)
    requires SetPassword(u, b, salt, Text(p)).Ok?
    ensures Authenticate(SetPassword(u, b, salt, Text(p)).value, b, Text(p)) == Ok(true)
  {
    var h := b.generate(salt, p);
    assert h.Some? && h.value != "" && b.check(h.value, p);
  }

  // Serialisation rules. Each names attributes left out of a `to_dict`:
  // a user hides its password hash and, for each of its recipes, the
  // back-reference to itself; a recipe embeds its user without that
  // user's recipe list.

  /** User's `-_password_hash`. */
  const UserHidden: set<string> := {"_password_hash"}
  /** User's `-recipes.user`: what a recipe nested in a user leaves out. */
  const UserRecipeHidden: set<string> := {"user"}
  /** Recipe's `-user.recipes`: what a user nested in a recipe leaves out. */
  const RecipeUserHidden: set<string> := {"recipes"}

  /** The members of `fs` whose keys are not denied, in their original order. */
  function Omit(fs: seq<Field>, deny: set<string>): (r: seq<Field>)
    ensures forall i :: 0 <= i < |r| ==> r[i].key !in deny && r[i] in fs
    ensures forall i :: 0 <= i < |fs| && fs[i].key !in deny ==> fs[i] in r
    decreases |fs|
  {
    if |fs| == 0 then []
    else (if fs[0].key in deny then [] else [fs[0]]) + Omit(fs[1..], deny)
  }

  /** Omitting keys never adds a member, nor repeats one: the result is a sub-multiset. */
  lemma {:induction false} OmitSubMultiset(fs: seq<Field>, deny: set<string>)
    ensures multiset(Omit(fs, deny)) <= multiset(fs)
    decreases |fs|
  {
    if |fs| > 0 {
      assert fs == [fs[0]] + fs[1..];
      OmitSubMultiset(fs[1..], deny);
    }
  }

  /** Every column of a user row, the password hash among them. */
  function UserColumns(u: User): seq<Field> {
    [ Field("id", JInt(u.id)),
      Field("username", JStr(u.username)),
      Field("_password_hash", match u.passwordHash case None => JNull case Some(h) => JStr(h)),
      Field("image_url", FromValue(u.imageUrl)),
      Field("bio", FromValue(u.bio)) ]
  }

  /** Every column of a recipe row. */
  function RecipeColumns(r: Recipe): seq<Field> {
    [ Field("id", JInt(r.id)),
      Field("title", FromValue(r.title)),
      Field("instructions", JStr(r.instructions)),
      Field("minutes_to_complete", FromValue(r.minutesToComplete)),
      Field("user_id", match r.userId case None => JNull case Some(i) => JInt(i)) ]
  }

  /**
   * `to_dict` of a user whose recipes are `recipes`, leaving out the keys in
   * `deny` besides the user's own hidden ones. The recipe list is expanded
   * only when not denied, and its recipes are expanded without their user:
   * the nesting always stops, which is what the decreases clause records.
   */
  function UserToDict(u: User, recipes: seq<Recipe>, deny: set<string>): Json
    decreases if "recipes" in deny then 0 else 2
  {
    JObj(Omit(UserColumns(u), deny + UserHidden)
         + if "recipes" in deny then []
           else [Field("recipes", JArr(seq(|recipes|, i requires 0 <= i < |recipes| =>
                                               RecipeToDict(recipes[i], None, UserRecipeHidden))))])
  }

  /**
   * `to_dict` of a recipe whose owner is `owner`, leaving out the keys in
   * `deny`. The owner, when not denied, is embedded without its recipe list.
   */
  function RecipeToDict(r: Recipe, owner: Option<User>, deny: set<string>): Json
    decreases 1
  {
    JObj(Omit(RecipeColumns(r), deny)
         + if "user" in deny then []
           else [Field("user", match owner case None => JNull case Some(u) => UserToDict(u, [], RecipeUserHidden))])
  }

  /** No member of `fs` is named `k` or mentions `k` inside its value. */
  predicate Avoids(fs: seq<Field>, k: string) {
    forall i :: 0 <= i < |fs| ==> fs[i].key != k && !Mentions(fs[i].val, k)
  }

  /** Omitting denied keys removes `k` when `k` is denied and the values never mention it. */
  lemma OmitAvoids(fs: seq<Field>, deny: set<string>, k: string)
    requires forall i :: 0 <= i < |fs| ==> !Mentions(fs[i].val, k) && (fs[i].key == k ==> k in deny)
    ensures Avoids(Omit(fs, deny), k)
  {
    var r := Omit(fs, deny);
    forall i | 0 <= i < |r|
      ensures r[i].key != k && !Mentions(r[i].val, k)
    {
      var n :| 0 <= n < |fs| && fs[n] == r[i];
    }
  }

  /** An object whose members avoid `k` does not mention `k`. */
  lemma AvoidsHides(fs: seq<Field>, k: string)
    requires Avoids(fs, k)
    ensures !Mentions(JObj(fs), k)
  {
  }

  /** Members that avoid `k` still avoid it when concatenated. */
  lemma AvoidsConcat(a: seq<Field>, b: seq<Field>, k: string)
    requires Avoids(a, k) && Avoids(b, k)
    ensures Avoids(a + b, k)
  {
    forall i | 0 <= i < |a + b|
      ensures (a + b)[i].key != k && !Mentions((a + b)[i].val, k)
    {
      if i >= |a| {
        assert (a + b)[i] == b[i - |a|];
      }
    }
  }

  /** A recipe nested in a user names neither the hash, nor a user, nor a recipe list. */
  lemma NestedRecipeAvoids(r: Recipe, k: string)
    requires k == "_password_hash" || k == "user" || k == "recipes"
    ensures !Mentions(RecipeToDict(r, None, UserRecipeHidden), k)
  {
    OmitAvoids(RecipeColumns(r), UserRecipeHidden, k);
    assert RecipeToDict(r, None, UserRecipeHidden) == JObj(Omit(RecipeColumns(r), UserRecipeHidden));
  }

  /** A user nested in a recipe is its columns under both deny rules, with no recipe list. */
  lemma NestedUserColumns(u: User)
    ensures UserToDict(u, [], RecipeUserHidden) == JObj(Omit(UserColumns(u), RecipeUserHidden + UserHidden))
  {
  }

  /** A user nested in a recipe names neither the hash nor a recipe list. */
  lemma NestedUserAvoids(u: User, k: string)
    requires k == "_password_hash" || k == "recipes"
    ensures !Mentions(UserToDict(u, [], RecipeUserHidden), k)
  {
    NestedUserColumns(u);
    OmitAvoids(UserColumns(u), RecipeUserHidden + UserHidden, k);
  }

  /**
   * A serialised user never carries the password hash, at any depth, and
   * its recipes never carry the `user` back-reference; its id and username
   * are present unless denied, and so is the list of its recipes.
   */
  lemma {:induction false} UserToDictVisibility(u: User, recipes: seq<Recipe>, deny: set<string>)
    ensures !Mentions(UserToDict(u, recipes, deny), "_password_hash")
    ensures !Mentions(UserToDict(u, recipes, deny), "user")
    ensures "id" !in deny ==> Field("id", JInt(u.id)) in UserToDict(u, recipes, deny).fields
    ensures "username" !in deny ==> Field("username", JStr(u.username)) in UserToDict(u, recipes, deny).fields
    ensures "recipes" !in deny ==>
      Field("recipes", JArr(seq(|recipes|, i requires 0 <= i < |recipes| =>
                                  RecipeToDict(recipes[i], None, UserRecipeHidden)))) in UserToDict(u, recipes, deny).fields
  {
    var cols := Omit(UserColumns(u), deny + UserHidden);
    var xs := seq(|recipes|, i requires 0 <= i < |recipes| => RecipeToDict(recipes[i], None, UserRecipeHidden));
    var tail := if "recipes" in deny then [] else [Field("recipes", JArr(xs))];
    assert UserToDict(u, recipes, deny) == JObj(cols + tail);
    assert UserColumns(u)[0] == Field("id", JInt(u.id));
    assert UserColumns(u)[1] == Field("username", JStr(u.username));
    UserMembersAvoid(u, recipes, deny, "_password_hash");
    UserMembersAvoid(u, recipes, deny, "user");
  }

  /** The members of a serialised user avoid the hash and the back-reference. */
  lemma UserMembersAvoid(u: User, recipes: seq<Recipe>, deny: set<string>, k: string)
    requires k == "_password_hash" || k == "user"
    ensures !Mentions(UserToDict(u, recipes, deny), k)
  {
    var cols := Omit(UserColumns(u), deny + UserHidden);
    var xs := seq(|recipes|, i requires 0 <= i < |recipes| => RecipeToDict(recipes[i], None, UserRecipeHidden));
    var tail := if "recipes" in deny then [] else [Field("recipes", JArr(xs))];
    assert UserToDict(u, recipes, deny) == JObj(cols + tail);
    OmitAvoids(UserColumns(u), deny + UserHidden, k);
    forall n | 0 <= n < |xs|
      ensures !Mentions(xs[n], k)
    {
      NestedRecipeAvoids(recipes[n], k);
    }
    AvoidsConcat(cols, tail, k);
    AvoidsHides(cols + tail, k);
  }

  /**
   * A serialised recipe never carries the password hash, at any depth, and
   * never a `recipes` list: its embedded user stops at the user's columns.
   * Unless denied, the embedded user is present.
   */
  lemma {:induction false} RecipeToDictVisibility(r: Recipe, owner: Option<User>, deny: set<string>)
    ensures !Mentions(RecipeToDict(r, owner, deny), "_password_hash")
    ensures !Mentions(RecipeToDict(r, owner, deny), "recipes")
    ensures "user" !in deny ==> HasKey(RecipeToDict(r, owner, deny), "user")
  {
    RecipeMembersAvoid(r, owner, deny, "_password_hash");
    RecipeMembersAvoid(r, owner, deny, "recipes");
    if "user" !in deny {
      var j := RecipeToDict(r, owner, deny);
      assert j.fields[|Omit(RecipeColumns(r), deny)|].key == "user";
    }
  }

  /** The members of a serialised recipe avoid the hash and the recipe list. */
  lemma RecipeMembersAvoid(r: Recipe, owner: Option<User>, deny: set<string>, k: string)
    requires k == "_password_hash" || k == "recipes"
    ensures !Mentions(RecipeToDict(r, owner, deny), k)
  {
    var cols := Omit(RecipeColumns(r), deny);
    var embedded := match owner case None => JNull case Some(u) => UserToDict(u, [], RecipeUserHidden);
    var tail := if "user" in deny then [] else [Field("user", embedded)];
    assert RecipeToDict(r, owner, deny) == JObj(cols + tail);
    OmitAvoids(RecipeColumns(r), deny, k);
    if owner.Some? {
      NestedUserAvoids(owner.value, k);
    }
    AvoidsConcat(cols, tail, k);
    AvoidsHides(cols + tail, k);
  }
}
