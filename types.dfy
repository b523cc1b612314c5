/**
 * The records, filters, query parameters and domain errors of the service
 * (the structs and the `Error` enum of src/main.rs).
 */
module Types {
  import opened Wrappers

  /** Rust's `i32`: record ids, ages, author ids and path ids. */
  type I32 = x: int | -0x8000_0000 <= x < 0x8000_0000

  /** Rust's `u8`: the bounds and the result of `/random-number`. */
  type U8 = x: int | 0 <= x < 0x100

  /** A user record; `bio` may be absent. */
  datatype User = User(id: I32, name: string, age: I32, bio: Option<string>)

  /** A post record; `authorId` names a user id but is never checked against the users. */
  datatype Post = Post(id: I32, title: string, content: string, authorId: I32)

  /** The query of `GET /users`: every field optional. */
  datatype UserFilter = UserFilter(id: Option<I32>, name: Option<string>, age: Option<I32>)

  /** The query of `GET /posts`: every field optional. */
  datatype PostFilter = PostFilter(id: Option<I32>, title: Option<string>, content: Option<string>, authorId: Option<I32>)

  /** The query of `GET /random-number`. */
  datatype RandomNumberParams = RandomNumberParams(min: Option<U8>, max: Option<U8>)

  /** The domain errors, one variant per kind, each with its payload. */
  datatype Error =
    | InvalidRange(details: string)
    | UserNotFound(userId: I32)
    | PostNotFound(postId: I32)

  /** The JSON payload of a reply. */
  datatype Body =
    | NumberJson(number: U8)
    | UsersJson(users: seq<User>)
    | UserJson(user: User)
    | PostsJson(posts: seq<Post>)
    | PostJson(post: Post)
    | ErrorJson(error: string, details: string)
    | FileBody(path: string)

  /** An HTTP reply: a status code and a payload. */
  datatype Reply = Reply(status: nat, body: Body)

  const StatusOk: nat := 200
  const StatusBadRequest: nat := 400
  const StatusNotFound: nat := 404
}
