# rvkg-api core, modelled in Dafny

The service is a small read-only HTTP API (actix-web) over hard-coded users
and posts, plus a random-number endpoint. Everything in it apart from the
framework glue is pure, and this project models that pure core as Dafny
datatypes, functions and lemmas. The one exception is the random-number
handler, which is a method with a nondeterministic choice:

- **Types** (`types.dfy`): `User`, `Post`, `UserFilter`, `PostFilter`,
  `RandomNumberParams`, the `Error` enum and the replies. Rust's `i32` and
  `u8` are the subset types `I32` and `U8`.
- **Store** (`store.dfy`): the literal record lists. There are four of them,
  one per handler, as in the source. `/users` has six users and
  `/users/{id}` has only the first five. The two post handlers carry the
  same nine posts.
- **Sequences** (`sequences.dfy`): the iterator adaptors `filter` (`Retain`)
  and `find` (`Find`, through `FirstIndex`). They are stated generically and
  characterised completely. A filtered list holds exactly the accepted
  elements, in input order (a subsequence), each accepted value as often as
  in the input. `find` returns the first accepted element.
- **Filters** (`filters.dfy`): the `get_users` / `get_posts` closures. Each
  present query field is an exact, case-sensitive equality test. An absent
  field accepts everything. A record passes when all tests pass.
- **Lookup** (`lookup.dfy`): `find(..).ok_or(UserNotFound(id))` and its post
  counterpart. On lists with unique ids, the lookup agrees with filtering
  by id.
- **RandomNumber** (`random_number.dfy`): the bounds default to 0 and 255,
  `min > max` is rejected with `InvalidRange`, and otherwise a number is
  chosen in `min..=max`.
- **Errors** (`errors.dfy`) and **Decimal** (`decimal.dfy`):
  `error_response`. It maps to 400 for `InvalidRange` and 404 for the
  not-found errors, and builds the `{error, details}` body. `format!`'s
  integer rendering is a concrete decimal printer with a parser that reads
  it back and accepts only what the printer produces (no leading zeros, no
  "-0"). So the reply's details are proved to name the id that was asked
  for, the message is the only text that reads back as that id, and
  distinct errors give distinct replies.
- **Handlers** (`handlers.dfy`): the endpoints as the `Result` each handler
  returns, and `Serve`, the framework's error-to-reply conversion.
- **Scenarios** (`scenarios.dfy`): concrete facts about the data. For
  example, `name=Alice` does not match "Another Alice", `author_id=1`
  yields posts 1 and 6 in that order, and user 6 can be filtered but not
  looked up.

The two user handlers carry different literals: the one behind
`GET /users/{id}` stops at user 5. The model keeps both, so `GetUserById(6)` is a
`UserNotFound(6)` while filtering `/users` by `id=6` returns user 6 (see
`Scenarios.UserSixListedButNotFound`).

## Model

| member | source | states |
|---|---|---|
| Sequences.Retain | src/main.rs:139-147 | `filter(..).collect()`: the result holds x iff the input holds x and the closure accepts x; it is never longer than the input |
| Sequences.RetainIsSubsequence | src/main.rs:139-145 | the filtered list is a subsequence of the input: order is kept |
| Sequences.RetainMultiplicity | src/main.rs:139-145 | every accepted value keeps its full multiplicity; every rejected value has none |
| Sequences.RetainAppend | src/main.rs:139-145 | filtering distributes over concatenation: each element is judged on its own |
| Sequences.RetainAllKept | src/main.rs:139-145 | when every element is accepted, filtering returns the input unchanged |
| Sequences.RetainNoneKept | src/main.rs:139-145 | when no element is accepted, filtering returns the empty list |
| Sequences.RetainSingle | src/main.rs:139-145 | when exactly one position is accepted, filtering returns just that element |
| Sequences.RetainIdempotent | src/main.rs:139-145 | filtering twice with the same closure equals filtering once |
| Sequences.RetainFused | src/main.rs:144 | filtering by p and then by q equals filtering once by `p && q` |
| Sequences.FirstIndex | src/main.rs:258 | `None` iff no element is accepted; otherwise an accepted position with no accepted position before it |
| Sequences.Find | src/main.rs:258 | `find`: `None` iff nothing is accepted; otherwise an accepted element at a position before which nothing is accepted |
| Filters.FilterUsers | src/main.rs:139-147 | the result holds exactly the input users whose id, name and age equal every present field of the query |
| Filters.FilterPosts | src/main.rs:209-218 | the result holds exactly the input posts whose id, title, content and author id equal every present field of the query |
| Filters.FilterUsersKeepsOrder | src/main.rs:139-147 | the user result keeps input order |
| Filters.FilterUsersMultiplicity | src/main.rs:139-147 | a matching user appears as often as in the input; a non-matching one never appears |
| Filters.FilterPostsKeepsOrder | src/main.rs:209-218 | the post result keeps input order |
| Filters.FilterPostsMultiplicity | src/main.rs:209-218 | a matching post appears as often as in the input; a non-matching one never appears |
| Filters.FilterUsersAppend | src/main.rs:139-145 | user filtering distributes over concatenation |
| Filters.FilterPostsAppend | src/main.rs:209-216 | post filtering distributes over concatenation |
| Filters.FilterPostsSplit | src/main.rs:209-216 | post filtering of a list equals filtering its two halves, split at any point |
| Filters.NoUserFilterKeepsAll | src/main.rs:140-144 | a query with no field set returns the whole user list unchanged |
| Filters.NoPostFilterKeepsAll | src/main.rs:210-215 | a query with no field set returns the whole post list unchanged |
| Filters.FilterUsersIdempotent | src/main.rs:139-145 | re-filtering a user result with the same query changes nothing |
| Filters.FilterPostsIdempotent | src/main.rs:209-216 | re-filtering a post result with the same query changes nothing |
| Filters.UserFieldsConjoin | src/main.rs:140-144 | a user query gives the same result as its id, name and age tests applied one after another |
| Filters.PostFieldsConjoin | src/main.rs:210-215 | a post query gives the same result as its four single-field tests applied one after another |
| Lookup.FindUser | src/main.rs:258 | fails iff no user has the id, and then with `UserNotFound(id)` for that same id; otherwise the first user with that id |
| Lookup.FindPost | src/main.rs:324 | fails iff no post has the id, and then with `PostNotFound(id)` for that same id; otherwise the first post with that id |
| Lookup.FindUserNumbered | src/main.rs:258 | on a list numbered 1, 2, ..., the user lookup succeeds iff 1 <= id <= length, and returns the user at position id - 1 |
| Lookup.FindPostNumbered | src/main.rs:324 | on a list numbered 1, 2, ..., the post lookup succeeds iff 1 <= id <= length, and returns the post at position id - 1 |
| Lookup.FindUserAgreesWithFilter | src/main.rs:256-258 | with unique ids, the user lookup finds u iff filtering by that id gives [u], and fails iff it gives [] |
| Lookup.FindPostAgreesWithFilter | src/main.rs:322-324 | with unique ids, the post lookup finds p iff filtering by that id gives [p], and fails iff it gives [] |
| RandomNumber.CheckRange | src/main.rs:83-90 | an absent min is 0 and an absent max is 255; the range is rejected with `InvalidRange("Minimum value cannot be greater than maximum value.")` iff both bounds are given and min > max |
| RandomNumber.RandomNumber | src/main.rs:82-95 | fails exactly on an empty range, with that error; otherwise a 200 reply whose number lies in `[min, max]`, and is min itself when min == max |
| Decimal.NatToDecimal | src/main.rs:71 | the decimal digits of a natural number: non-empty, digits only, no leading zero |
| Decimal.IntToDecimal | src/main.rs:71 | `{}` of an integer: a leading '-' iff the value is negative, then digits |
| Decimal.NatToDecimalRoundTrip | src/main.rs:71 | reading back the digits of n gives n |
| Decimal.IntToDecimalRoundTrip | src/main.rs:75 | parsing the rendering of i gives i |
| Decimal.IntToDecimalInjective | src/main.rs:75 | distinct integers render differently |
| Decimal.CanonicalIsNatToDecimal | src/main.rs:71 | digits with no leading zero are exactly the rendering of the number they denote |
| Decimal.ParseIntIsCanonical | src/main.rs:71 | any text the parser accepts is exactly the rendering of the integer it returns, so the rendering is the only spelling of an id |
| Errors.NotFoundDetails | src/main.rs:71 | the not-found message reads back as the requested id |
| Errors.NotFoundDetailsUnique | src/main.rs:75 | a message that reads back as an id is exactly `"<prefix>{id} not found"` for that id |
| Errors.ZeroPaddedIdRejected | src/main.rs:71 | "User with id 0999 not found" and "User with id -0 not found" are not messages the service sends |
| Errors.ErrorResponse | src/main.rs:62-78 | every error becomes a 4xx error body; 400 iff `InvalidRange`, with its details unchanged; 404 iff not found, with label "User not found" / "Post not found" and details exactly `"User with id {id} not found"` / `"Post with id {id} not found"`, which read back as the requested id |
| Errors.ErrorResponseInjective | src/main.rs:64-77 | two errors with the same reply are the same error |
| Store.ListedUsersWellFormed | src/main.rs:100-137 | the `/users` list has unique ids 1 to 6 in order |
| Store.LookupUsersWellFormed | src/main.rs:223-254 | the `/users/{id}` list has unique ids 1 to 5 in order |
| Store.ListedPostsWellFormed | src/main.rs:152-207 | the `/posts` list has unique ids 1 to 9 in order |
| Store.LookupPostsWellFormed | src/main.rs:265-320 | the `/posts/{id}` list has unique ids 1 to 9 in order |
| Store.PostAuthors | src/main.rs:152-207 | posts 1 to 5 are by authors 1 to 5, and posts 6 to 9 by authors 1 to 4 |
| Store.LookupUsersArePrefix | src/main.rs:223-254 | the lookup user list is the listed one without user 6 |
| Store.PostListsAgree | src/main.rs:265-320 | the two post literals are the same list |
| Handlers.Serve | src/main.rs:62-79 | a success is sent as is; an error is sent as its `error_response` reply, a 4xx error body |
| Handlers.GetUsers | src/main.rs:98-148 | never fails; a 200 whose users are the user filter's result over the listed users: exactly the matching users, as a subsequence in list order |
| Handlers.GetPosts | src/main.rs:150-219 | never fails; a 200 whose posts are the post filter's result over the listed posts: exactly the matching posts, as a subsequence in list order |
| Handlers.GetUserById | src/main.rs:221-261 | succeeds iff 1 <= id <= 5, with the user at that position; otherwise `UserNotFound(id)` |
| Handlers.GetPostById | src/main.rs:263-326 | succeeds iff 1 <= id <= 9, with the post at that position; otherwise `PostNotFound(id)` |
| Handlers.StaticFile | src/main.rs:328-340 | the file if it opens; otherwise `InvalidRange("File not found")`, served as a 400 |
| Handlers.ApiDocs | src/main.rs:328-331 | `static/api-docs.html` if it opens; otherwise `InvalidRange("File not found")` |
| Handlers.ApiTutorial | src/main.rs:332-335 | `static/api-tutorial.html` if it opens; otherwise `InvalidRange("File not found")` |
| Handlers.Index | src/main.rs:337-340 | `static/index.html` if it opens; otherwise `InvalidRange("File not found")` |
| Scenarios.NameAliceMatchesOnlyUserOne | src/main.rs:141 | `name=Alice` returns only user 1; "Another Alice" does not match |
| Scenarios.AuthorOnePosts | src/main.rs:209-218 | `author_id=1` returns posts 1 and 6, in that order |
| Scenarios.UnfilteredUsers | src/main.rs:139-147 | `GET /users` with no query returns all six users in list order |
| Scenarios.UserSixListedButNotFound | src/main.rs:256-258 | filtering by `id=6` returns user 6, but `GET /users/6` is `UserNotFound(6)` |
| Scenarios.UserThree | src/main.rs:236-241 | `GET /users/3` returns Charlie, aged 35, "I am a data scientist" |
| Scenarios.UserNineNineNineNotFound | src/main.rs:69-72 | `GET /users/999` is a 404 "User not found" / "User with id 999 not found" |
| Scenarios.PostNine | src/main.rs:314-319 | `GET /posts/9` returns "Post 9" by author 4 |
| Scenarios.PostFortyTwoNotFound | src/main.rs:73-76 | `GET /posts/42` is a 404 "Post not found" / "Post with id 42 not found" |

## Left out

- HTTP routing, `web::Query` / `web::Path` extraction and JSON serialisation (actix-web). A handler's output is a `Reply` datatype with a status and a payload. Framework-level failures to parse a query or a path are not modelled.
- `rand::thread_rng().gen_range`: only its promise, a value in the inclusive range, is modelled, as a nondeterministic choice. Its distribution is not modelled.
- `NamedFile::open`: whether a static file opens is a parameter of `Handlers.StaticFile` and the three page handlers. File contents and content types are not modelled.
- The shuttle `main` and service registration, and asynchronous execution: hosting glue.
- The `Display` messages of the `Error` enum (`#[error(..)]`): nothing in the service sends them to a client.
- `bio` is carried in `User` but is never filtered on, as in the source.
