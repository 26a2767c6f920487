/**
 * The relational store as two tables kept in row order, with the lookups
 * the handlers issue, id allocation, and the invariants the schema and the
 * validators maintain.
 */
module Store {
  import opened Wrappers
  import opened Json
  import opened Text
  import opened Models

  /** The `users` and `recipes` tables, each in primary-key order. */
  datatype Db = Db(users: seq<User>, recipes: seq<Recipe>)

  function UserIds(us: seq<User>): seq<nat> {
    seq(|us|, i requires 0 <= i < |us| => us[i].id)
  }

  function RecipeIds(rs: seq<Recipe>): seq<nat> {
    seq(|rs|, i requires 0 <= i < |rs| => rs[i].id)
  }

  /**
   * The id an integer primary key receives on insert: one more than the
   * largest id in the table, or 1 in an empty table.
   */
  function NextId(ids: seq<nat>): (r: nat)
    ensures r >= 1
    ensures forall i :: 0 <= i < |ids| ==> ids[i] < r
    ensures |ids| > 0 ==> r - 1 in ids
    ensures |ids| == 0 ==> r == 1
    decreases |ids|
  {
    if |ids| == 0 then 1
    else
      var prev := NextId(ids[..|ids| - 1]);
      var last := ids[|ids| - 1] + 1;
      if prev > last then prev else last
  }

  /** Positive ids in strictly increasing order: each id names one row. */
  predicate IdsIncreasing(ids: seq<nat>) {
    && (forall i :: 0 <= i < |ids| ==> ids[i] >= 1)
    && (forall i, j :: 0 <= i < j < |ids| ==> ids[i] < ids[j])
  }

  /** The `unique=True` constraint on `username`. */
  predicate UniqueUsernames(us: seq<User>) {
    forall i, j :: 0 <= i < j < |us| ==> us[i].username != us[j].username
  }

  /** Some row of `us` has username `name`. */
  predicate UsernameTaken(us: seq<User>, name: string) {
    exists i :: 0 <= i < |us| && us[i].username == name
  }

  /**
   * What the schema and the validators guarantee of every committed row:
   * keyed tables, unique non-blank usernames, non-null titles and
   * instructions of at least the minimum length.
   */
  predicate Valid(db: Db) {
    && IdsIncreasing(UserIds(db.users))
    && IdsIncreasing(RecipeIds(db.recipes))
    && UniqueUsernames(db.users)
    && (forall i :: 0 <= i < |db.users| ==> !IsBlank(db.users[i].username))
    && (forall i :: 0 <= i < |db.recipes| ==>
          db.recipes[i].title != Null && |db.recipes[i].instructions| >= MinInstructionsLength)
  }

  /** `User.query.get(id)`: the row with that primary key, if any. */
  function FindUser(us: seq<User>, id: nat): (r: Option<User>)
    ensures r.Some? <==> exists i :: 0 <= i < |us| && us[i].id == id
    ensures r.Some? ==> r.value in us && r.value.id == id
    decreases |us|
  {
    if |us| == 0 then None
    else if us[0].id == id then Some(us[0])
    else
      var rest := FindUser(us[1..], id);
      assert forall i :: 1 <= i < |us| ==> us[i] == us[1..][i - 1];
      rest
  }

  /** `User.query.filter_by(username=name).first()`: the first row with that username. */
  function FindByUsername(us: seq<User>, name: string): (r: Option<User>)
    ensures r.Some? <==> UsernameTaken(us, name)
    ensures r.Some? ==> r.value in us && r.value.username == name
    decreases |us|
  {
    if |us| == 0 then None
    else if us[0].username == name then Some(us[0])
    else
      var rest := FindByUsername(us[1..], name);
      assert forall i :: 1 <= i < |us| ==> us[i] == us[1..][i - 1];
      rest
  }

  /**
   * `Recipe.query.filter_by(user_id=uid).all()`: exactly the recipes owned
   * by `uid`, in table order.
   */
  function OwnedBy(rs: seq<Recipe>, uid: nat): (r: seq<Recipe>)
    ensures forall x :: x in r <==> x in rs && x.userId == Some(uid)
    ensures multiset(r) <= multiset(rs)
    ensures |r| <= |rs|
    decreases |rs|
  {
    if |rs| == 0 then []
    else
      assert rs == [rs[0]] + rs[1..];
      (if rs[0].userId == Some(uid) then [rs[0]] else []) + OwnedBy(rs[1..], uid)
  }

  /** The range of SQLite's 64-bit signed `INTEGER`. */
  const MinInt64: int := -0x8000_0000_0000_0000
  const MaxInt64: int := 0x7FFF_FFFF_FFFF_FFFF

  /**
   * A column value the database driver can bind: an integer outside the
   * 64-bit range makes the driver raise `OverflowError` before the
   * statement runs, so before any constraint is checked.
   */
  predicate Bindable(v: Value) {
    v.Number? ==> MinInt64 <= v.n <= MaxInt64
  }

  /**
   * Committing a pending user: the row receives the next primary key, and
   * the `unique` constraint on `username` raises `IntegrityError` when the
   * name is already stored. Binding `image_url` or `bio` fails first when
   * either is an integer outside the 64-bit range. On failure nothing is
   * written.
   */
  function CommitUser(db: Db, pending: User): (r: Result<Db, Exception>)
    ensures r.Err? <==>
              || !Bindable(pending.imageUrl) || !Bindable(pending.bio)
              || UsernameTaken(db.users, pending.username)
    ensures r.Err? ==> (r.error == OverflowError <==> !Bindable(pending.imageUrl) || !Bindable(pending.bio))
    ensures r.Err? ==> r.error == OverflowError || r.error == IntegrityError
    ensures r.Ok? ==> r.value.recipes == db.recipes
    ensures r.Ok? ==> r.value.users == db.users + [pending.(id := NextId(UserIds(db.users)))]
    ensures r.Ok? && Valid(db) && !IsBlank(pending.username) ==> Valid(r.value)
  {
    if !Bindable(pending.imageUrl) || !Bindable(pending.bio) then Err(OverflowError)
    else if UsernameTaken(db.users, pending.username) then Err(IntegrityError)
    else
      var u := pending.(id := NextId(UserIds(db.users)));
      var next := db.(users := db.users + [u]);
      assert UserIds(next.users) == UserIds(db.users) + [u.id];
      Ok(next)
  }

  /**
   * Committing a pending recipe: the row receives the next primary key, and
   * the `nullable=False` constraint on `title` raises `IntegrityError` for a
   * null title. Binding `title` or `minutes_to_complete` fails first when
   * either is an integer outside the 64-bit range. On failure nothing is
   * written.
   */
  function CommitRecipe(db: Db, pending: Recipe): (r: Result<Db, Exception>)
    ensures r.Err? <==>
              || !Bindable(pending.title) || !Bindable(pending.minutesToComplete)
              || pending.title == Null
    ensures r.Err? ==> (r.error == OverflowError <==> !Bindable(pending.title) || !Bindable(pending.minutesToComplete))
    ensures r.Err? ==> r.error == OverflowError || r.error == IntegrityError
    ensures r.Ok? ==> r.value.users == db.users
    ensures r.Ok? ==> r.value.recipes == db.recipes + [pending.(id := NextId(RecipeIds(db.recipes)))]
    ensures r.Ok? && Valid(db) && |pending.instructions| >= MinInstructionsLength ==> Valid(r.value)
  {
    if !Bindable(pending.title) || !Bindable(pending.minutesToComplete) then Err(OverflowError)
    else if pending.title == Null then Err(IntegrityError)
    else
      var x := pending.(id := NextId(RecipeIds(db.recipes)));
      var next := db.(recipes := db.recipes + [x]);
      assert RecipeIds(next.recipes) == RecipeIds(db.recipes) + [x.id];
      Ok(next)
  }
}
