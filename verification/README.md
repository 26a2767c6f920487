# Recipe backend with session authentication — a Dafny model

This project models the core of a small recipe-sharing backend: users sign
up, log in and out behind a session cookie, and keep a personal list of
recipes. The five request handlers of `server/app.py` (Signup,
CheckSession, Login, Logout, RecipeIndex get/post) are pure functions from
a state (the store and the session's `user_id`) and the request's fields to
a reply (status and body) and the next state. The two ORM models of
`server/models.py` supply the validators, the write-only password attribute
with `authenticate`, and the serialisation rules.

Modules, leaves first:

- `Wrappers` (`wrappers.dfy`): `Option` and `Result`.
- `Json` (`json.dfy`): request field values (`Null`, `Text`, `Number`; a
  missing key is absent from the body map), response documents, Python
  truthiness, and `Mentions` (a key occurs at any depth).
- `Text` (`text.dfy`): Python's `str.isspace` and `str.strip()`, and the
  decimal text of an integer.
- `Hashing` (`hashing.dfy`): the password-hashing extension kept opaque — a
  `generate` and a `check` operation passed in as a value, the salt as a
  parameter, and one assumption `Sound`: a produced hash is non-empty and
  checks against the password it was made from.
- `Models` (`models.dfy`): `User`, `Recipe`, the validators, the password
  attribute, `authenticate`, and `to_dict` with the serialisation rules.
- `Store` (`store.dfy`): the two tables in primary-key order, lookups,
  id allocation, the commit-time constraints and the store invariant `Valid`.
- `App` (`app.dfy`): the handlers.
- `Properties` (`properties.dfy`): properties across requests and the
  invariant over any sequence of requests.

Design decisions:

- The session is `Option<nat>`, the `user_id` entry. The handlers test it
  the way Python does (`if user_id:`), so a stored `0` counts as anonymous.
  Ids issued by the store start at 1, so this never arises for sessions the
  handlers set.
- An exception a handler does not catch is the body `Raised(e)` with status
  500, and the state is left as it was, since nothing was committed. This
  covers a truthy non-string username or a non-string password
  (`AttributeError`), a non-string instructions field (`TypeError`), a null
  title (`IntegrityError` at commit) and an integer the database cannot
  bind (`OverflowError` at commit).
- A failed commit writes nothing (all-or-nothing). A duplicate username or
  a null title makes `CommitUser` / `CommitRecipe` return
  `Err(IntegrityError)`.
- The database is taken to be SQLite, whose `INTEGER` is 64-bit signed.
  Its driver refuses to bind a Python integer outside that range and raises
  `OverflowError` before the statement runs, so before any constraint is
  checked (`Store.Bindable`). Of the columns a request fills, `image_url`
  and `bio` at signup, and `title` and `minutes_to_complete` at recipe
  creation, can receive such an integer. Neither handler catches
  `OverflowError`, so it is a 500 even when the username is also taken.
  The login lookup binds the posted username the same way.
- The `username` column has text affinity, so SQLite compares a bound
  integer with it as the integer's decimal text (`App.LookupName`,
  `Text.IntToDecimal`). A login posting `{"username": 5}` reaches the user
  named "5" and no other: "05" or "+5" are never the text of an integer.
- A new row's id is one more than the largest id in its table, or 1 in an
  empty table (`Store.NextId`). That is how SQLite assigns an integer
  primary key. The engine is chosen in the `config` module, which is not
  part of this model.
- Serialisation applies each class's rules as deny-sets of keys over the
  full column list, `_password_hash` included. `to_dict` of a user is
  `UserToDict`: it hides the hash and expands its recipes without their
  `user`. `to_dict` of a recipe is `RecipeToDict`: it embeds its user
  without that user's `recipes`. The termination measure of these two
  mutually recursive functions is the elision of the back-reference.
- Results are lists in table order. The queries have no ordering clause.

Exceptions the handlers do not catch:

- `RecipeIndex.post` lets through a null `title` (`IntegrityError`), a
  non-string `instructions` (`TypeError`) and an out-of-range integer
  `title` or `minutes_to_complete` (`OverflowError`).
- `Signup.post` lets through a non-string `password` and a truthy
  non-string `username` (`AttributeError`), and an out-of-range integer
  `image_url` or `bio` (`OverflowError`).
- `Login.post` lets through a non-string `password` for a user with a hash
  (`AttributeError`), and an out-of-range integer `username`
  (`OverflowError`).
- The model returns 500 with `Raised` for each. A hash operation that
  refuses the password raises `ValueError`, which signup catches, so that
  is a 422.

## Model

| member | source | states |
|---|---|---|
| `Models.ValidateUsername` | server/models.py:42-46 | Accepts exactly the strings that are not blank under Python's whitespace, returning them unchanged. A falsy value raises `ValueError`. A truthy non-string raises `AttributeError`. |
| `Text.Strip` | server/models.py:44 | Python's `strip()`: the result is the slice of the input that remains after its leading whitespace and its trailing whitespace are cut, so only whitespace lies before and after it, and neither of its ends is whitespace. `Text.StripEmptyIffBlank` states when it is empty. |
| `Text.StripEmptyIffBlank` | server/models.py:44 | `s.strip() == ""` holds exactly when every character of `s` is whitespace. The empty string counts as blank. |
| `Text.IntToDecimal` | server/app.py:52 | The decimal text of an integer: a minus sign for a negative one, then digits without a leading zero. `Text.NatToDecimalRoundTrip` and `Text.IntToDecimalInjective` characterise it: the digits read back as the number, and distinct integers have distinct texts. |
| `Text.NatToDecimalRoundTrip` | server/app.py:52 | Reading back the decimal digits of a natural number gives the number. This is the text SQLite compares a numeric username as. |
| `Text.IntToDecimalInjective` | server/app.py:52 | Two integers have the same decimal text exactly when they are equal, so a numeric username matches the name of one integer only. |
| `Models.ValidateInstructions` | server/models.py:68-72 | Accepts exactly the strings of length at least 50, returning them unchanged. A shorter string raises `ValueError`. A value without a length raises `TypeError`. |
| `Models.InstructionsBoundary` | server/models.py:70 | 49 characters are refused with `ValueError`. 50 characters are accepted. |
| `Models.ReadPasswordHash` | server/models.py:25-27 | Reading the password attribute always fails with `AttributeError`, whatever the user holds. |
| `Models.SetPassword` | server/models.py:29-32 | Assigning a string password stores exactly the hash the extension produces for it and changes no other attribute. A non-string raises `AttributeError`. A refused password raises `ValueError`. |
| `Models.Authenticate` | server/models.py:34-37 | Returns false for every candidate when no hash is set (none or empty). It returns true exactly when a hash is set, the candidate is a string and the check accepts it. A non-string candidate against a set hash always raises `AttributeError`, and that is the only way it fails. |
| `Models.SetPasswordThenAuthenticate` | server/models.py:29-37 | Under the hashing assumption, after a password is set, authenticating with that password succeeds. |
| `Models.Omit` | server/models.py:12 | Applying a deny rule keeps exactly the members whose keys are not denied. Each kept member is one of the originals. |
| `Models.OmitSubMultiset` | server/models.py:12 | Applying a deny rule adds no member and repeats none: every member occurs in the result at most as often as in the input. So each column key of a serialised row occurs once, as in the dictionary `to_dict` builds. |
| `Models.UserToDict` | server/models.py:12 | `to_dict` of a user: its columns without `_password_hash`, then its recipes, each without its `user`. What it hides and keeps is stated by `Models.UserToDictVisibility`. |
| `Models.RecipeToDict` | server/models.py:66 | `to_dict` of a recipe: its columns, then its owner without the owner's `recipes`. What it hides and keeps is stated by `Models.RecipeToDictVisibility`. |
| `Models.UserToDictVisibility` | server/models.py:12-20 | A serialised user never mentions `_password_hash` or `user` at any depth. It carries its id and username. Unless denied, it carries the list of its recipes. |
| `Models.RecipeToDictVisibility` | server/models.py:66 | A serialised recipe never mentions `_password_hash` or `recipes` at any depth. Unless denied, it carries its `user`. |
| `Store.NextId` | server/models.py:14 | A new primary key is at least 1 and larger than every stored id. It is one more than the largest stored id, or 1 in an empty table. |
| `Store.FindUser` | server/app.py:40 | Finds a user exactly when a row has that id, and returns that row. |
| `Store.FindByUsername` | server/app.py:52 | Finds a user exactly when some row has that username, and returns a row with it. |
| `Store.OwnedBy` | server/app.py:79 | Holds exactly the recipes whose `user_id` is the given id. No recipe occurs more often than it is stored, so each matching row is returned once. |
| `Store.Bindable` | server/models.py:61 | The driver's bind check: a value binds unless it is an integer outside SQLite's 64-bit signed range (`MinInt64`..`MaxInt64`). Every `OverflowError` in the model is decided by it, in `Store.CommitUser`, `Store.CommitRecipe` and `App.LoginCandidate`. It has no contract of its own. |
| `Store.CommitUser` | server/models.py:15-18 | Fails and writes nothing exactly when `image_url` or `bio` is an integer outside the 64-bit range (`OverflowError`, checked first) or the username is already stored (`IntegrityError`). Otherwise it appends the user under the next id, and a valid store stays valid. |
| `Store.CommitRecipe` | server/models.py:59-61 | Fails and writes nothing exactly when `title` or `minutes_to_complete` is an integer outside the 64-bit range (`OverflowError`, checked first) or the title is null (`IntegrityError`). Otherwise it appends the recipe under the next id, and a valid store stays valid. |
| `App.PendingUser` | server/app.py:17-22 | The pre-commit part of signup succeeds exactly when the username is a non-blank string, the password is a string and the hash operation accepts it. A missing username is a `KeyError`. A falsy username (null, 0, the empty string) or a blank string username is a `ValueError`. A truthy non-string username is an `AttributeError`. |
| `App.SignupCommit` | server/app.py:23-30 | Committing a pending user fails with a 500 (`OverflowError`) exactly when `image_url` or `bio` is an out-of-range integer. Otherwise it fails with the fixed 422 exactly when the name is taken. Every failure changes nothing. On 201 the user is appended under the next id, the session holds that id, and the reply is the user's document. A valid store stays valid. |
| `App.Signup` | server/app.py:14-30 | Returns 201, 422 or 500. Every failure leaves store and session unchanged. A missing username, a falsy one (null, 0, empty) and a blank string are each a 422 with the fixed message, whatever else is posted. A truthy non-string username is a 500 with `AttributeError`. With a string username, a missing password is a 422. With a string username and a string password, a taken name is a 422 when `image_url` and `bio` are in range. An out-of-range integer `image_url` or `bio` with otherwise acceptable credentials is a 500 with `OverflowError`, taken name or not. It returns 201 exactly when all checks pass. Then exactly one user is appended under a fresh id, with the requested name and the hash of the password, and the session holds that id. |
| `App.CheckSession` | server/app.py:37-43 | Never changes the state. Returns 200 exactly when the session holds a truthy id of a stored user, and the reply is that user. Otherwise it returns 401 with the fixed message. |
| `App.LookupName` | server/app.py:52 | The text `filter_by(username=...)` compares the column with: a string as itself, an integer as its decimal text (the column has text affinity), and null as nothing, since no row has a null username. It has no contract of its own. `App.LoginCandidate` and `Properties.NumericUsernameIsItsDecimalText` state its effect. |
| `App.LoginCandidate` | server/app.py:52 | The user a login looks up. An integer username outside the 64-bit range fails with `OverflowError`. Otherwise a user is found exactly when the posted username, compared as text, is some stored user's name, and then it is a stored user with that name. A string is compared as itself and an integer as its decimal text. A missing or null username finds no one. |
| `App.LoginPassword` | server/app.py:53 | `data.get("password", "")`: the posted password, or the empty string when it is missing. It has no contract of its own. `App.Login`, `Properties.LoginSucceedsIff` and `Properties.SignupThenLogin` state the login outcome through it. |
| `App.Login` | server/app.py:50-56 | Never changes the store. Every 401 has the same body. A missing, null or unknown username is a 401. An out-of-range integer username is a 500 with `OverflowError`. On 200, a stored user with that name authenticates with the password (missing means `""`) and the session becomes that user's id. Any other outcome leaves the session unchanged. |
| `App.Logout` | server/app.py:63-67 | Never changes the store. Returns 204 exactly when the session is set, and the session then becomes empty. Otherwise it returns 401 with nothing changed. |
| `App.OwnRecipes` | server/app.py:79-80 | The listing holds a recipe exactly when the user owns it, each serialised with its owner. It has one item per owned row, so no recipe is listed twice. |
| `App.ListRecipes` | server/app.py:74-80 | Never changes the state. Returns 401 exactly when anonymous. Otherwise it returns 200 with the listing of the session user's recipes. |
| `App.CreateRecipe` | server/app.py:82-100 | Returns 401 exactly when anonymous. A missing title or instructions field, or instructions shorter than 50, is a 422. Every failure leaves the state unchanged. An out-of-range integer `title` or `minutes_to_complete` with acceptable instructions is a 500 with `OverflowError`. It returns 201 exactly when signed in with a non-null title and string instructions of at least 50 characters, and no out-of-range integer in `title` or `minutes_to_complete`. Then exactly one recipe is appended under a fresh id, owned by the session user and holding the posted fields. |
| `Properties.SignupThenCheckSession` | server/app.py:26-42 | After a successful signup, checking the session returns 200 with the same user document signup returned. |
| `Properties.SignupThenLogin` | server/app.py:22-55 | Under the hashing assumption, logging in with the credentials just signed up with returns 200 with the same document. The session stays on the new user. |
| `Properties.SignupOutcome` | server/app.py:17-27 | A successful signup appends exactly one user, under an id no stored user has. The user has the requested username and the hash of the requested password. The session holds its id and the reply is its document. |
| `Properties.SignupTwiceRejected` | server/app.py:23-30 | A second signup with the same body is a 422 that changes nothing. |
| `Properties.SignupNameUnique` | server/models.py:15 | After a successful signup exactly one stored user has the new username. |
| `Properties.FindByUsernameUnique` | server/app.py:52 | With unique usernames, looking up a stored user's name finds that user. |
| `Properties.LoginSucceedsIff` | server/app.py:52-55 | With unique usernames, login returns 200 exactly when the username is bindable and a stored user whose name is the posted username, compared as text, authenticates with the posted password. |
| `Properties.NumericUsernameIsItsDecimalText` | server/app.py:52-55 | A numeric username in the 64-bit range logs in exactly as its decimal text does, with the same reply and state. No other integer has that text. |
| `Properties.LoginFailuresLookAlike` | server/app.py:52-56 | An unknown username and a wrong password give identical replies and identical states. |
| `Properties.LogoutThenAnonymous` | server/app.py:63-85 | After a logout, listing, checking the session, creating a recipe and logging out again are all refused with 401. |
| `Properties.CreateThenList` | server/app.py:79-97 | A created recipe appears in its creator's listing, serialised as the create reply showed it. |
| `Properties.CreateInvisibleToOthers` | server/app.py:79-93 | Creating a recipe leaves unchanged the listing every other user sees. |
| `Properties.InstructionsBoundaryOnCreate` | server/app.py:88-100 | For a signed-in user with a non-null title, 49 characters of instructions are a 422 with nothing changed. 50 characters are a 201, or a 500 when the title is an integer outside the 64-bit range. |
| `Properties.ServePreservesValid` | server/app.py:14-100 | Every handler keeps the store valid: keyed tables, unique non-blank usernames, non-null titles, instructions of at least 50 characters. |
| `Properties.ServeSessionTransitions` | server/app.py:26-65 | A handler either keeps the session, clears it, or points it at a user stored after the request. |
| `Properties.RunPreservesValid` | server/app.py:14-100 | Any sequence of requests keeps a valid store valid. |
| `Properties.UsernamesStayUnique` | server/models.py:15 | From an empty store, no sequence of requests ever stores two users with the same username. |

## Left out

- The web framework glue is not modelled: reading the JSON body, the session cookie, resource registration (server/app.py:106-110), table creation (server/app.py:116-117) and `app.run` (server/app.py:120-121). Bodies, the session and replies are explicit values instead.
- The `config` module is not part of this model. The database is taken to be SQLite, (see Design decisions above). The secret key and the hashing rounds are not modelled.
- A request body that is not a JSON object is not modelled, nor is a field holding a boolean, an array or an object. Field values are null, strings and integers.
- Session ids outside the 64-bit range are not modelled as failing lookups. The handlers only store ids the database issued, and `Store.NextId` is not bounded by the 64-bit range either, since a table would need 2^63 rows to reach it.
- Lone surrogate code points are not modelled: a Dafny `char` cannot hold one. In the source, encoding such a password to UTF-8 raises `UnicodeEncodeError`, a kind of `ValueError`. At signup that is a 422. At login against a user with a hash it escapes as a 500.
- Values are echoed as the client sent them. No column type coercion by the database is modelled, for example a string stored in the integer `minutes_to_complete` column.
- The foreign key on `user_id` is not enforced, as in SQLite without foreign-key enforcement. A recipe may name a user id that is not stored, and its embedded `user` is then null.
- The hashing extension's internals are not modelled: salting, cost rounds and its refusal rules. `generate` may refuse a password (`None`), `check` is arbitrary, and `Sound` is the only assumption.
- Python's `SQLAlchemy` session state after a failed commit (the missing rollback) is not modelled. Each request is modelled on its own, and a failed request commits nothing.
- Concurrent requests, session expiry and server restarts are not modelled.
- The `__repr__` methods (server/models.py:48-49, 74-75) are debugging output and are not modelled.
- The explicit `rules=("user",)` in `RecipeIndex` adds nothing to the default expansion, so it is not modelled separately.
- An escaped exception is modelled as `Raised(e)` with status 500. The framework's error page is not modelled.
- `App.Login`: on a 200 it states that some stored user with the posted name authenticated. Identifying that user as the unique one needs unique usernames, which `Properties.LoginSucceedsIff` assumes and `Store.Valid` guarantees.
