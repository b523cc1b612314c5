/**
 * The endpoints of the service, each as the `Result<reply, Error>` its
 * handler returns, and `Serve`, which turns a domain error into its reply
 * the way the framework does through `ResponseError`.
 */
module Handlers {
  import opened Wrappers
  import opened Types
  import opened Store
  import opened Filters
  import opened Lookup
  import opened Errors
  import opened Sequences

  /** What the client receives for a handler's result. */
  function Serve(r: Result<Reply, Error>): (reply: Reply)
    ensures r.Success? ==> reply == r.value
    ensures r.Failure? ==> reply == ErrorResponse(r.error)
    ensures r.Failure? ==> reply.body.ErrorJson? && 400 <= reply.status < 500
  {
    match r
    case Success(reply) => reply
    case Failure(e) => ErrorResponse(e)
  }

  /** `GET /users`: never fails; the listed users that match the query, in list order. */
  function GetUsers(f: UserFilter): (r: Result<Reply, Error>)
    ensures r.Success? && r.value.status == StatusOk && r.value.body.UsersJson?
    ensures forall u :: u in r.value.body.users <==> u in ListedUsers && UserMatches(f, u)
    ensures r.value.body.users == FilterUsers(ListedUsers, f)
    ensures IsSubsequence(r.value.body.users, ListedUsers)
  {
    FilterUsersKeepsOrder(ListedUsers, f);
    Success(Reply(StatusOk, UsersJson(FilterUsers(ListedUsers, f))))
  }

  /** `GET /posts`: never fails; the listed posts that match the query, in list order. */
  function GetPosts(f: PostFilter): (r: Result<Reply, Error>)
    ensures r.Success? && r.value.status == StatusOk && r.value.body.PostsJson?
    ensures forall p :: p in r.value.body.posts <==> p in ListedPosts && PostMatches(f, p)
    ensures r.value.body.posts == FilterPosts(ListedPosts, f)
    ensures IsSubsequence(r.value.body.posts, ListedPosts)
  {
    FilterPostsKeepsOrder(ListedPosts, f);
    Success(Reply(StatusOk, PostsJson(FilterPosts(ListedPosts, f))))
  }

  /** `GET /users/{id}`: found exactly for ids 1 to 5, the lookup list's range. */
  function GetUserById(id: I32): (r: Result<Reply, Error>)
    ensures r.Success? <==> 1 <= id <= 5
    ensures r.Success? ==> r.value == Reply(StatusOk, UserJson(LookupUsers[id - 1]))
    ensures r.Failure? ==> r.error == UserNotFound(id)
  {
    LookupUsersWellFormed();
    FindUserNumbered(LookupUsers, id);
    match FindUser(LookupUsers, id)
    case Success(u) => Success(Reply(StatusOk, UserJson(u)))
    case Failure(e) => Failure(e)
  }

  /** `GET /posts/{id}`: found exactly for ids 1 to 9. */
  function GetPostById(id: I32): (r: Result<Reply, Error>)
    ensures r.Success? <==> 1 <= id <= 9
    ensures r.Success? ==> r.value == Reply(StatusOk, PostJson(LookupPosts[id - 1]))
    ensures r.Failure? ==> r.error == PostNotFound(id)
  {
    LookupPostsWellFormed();
    FindPostNumbered(LookupPosts, id);
    match FindPost(LookupPosts, id)
    case Success(p) => Success(Reply(StatusOk, PostJson(p)))
    case Failure(e) => Failure(e)
  }

  const ApiDocsPath: string := "static/api-docs.html"
  const ApiTutorialPath: string := "static/api-tutorial.html"
  const IndexPath: string := "static/index.html"

  /**
   * `GET /api-docs`, `GET /api-tutorial` and `GET /`: the file at `path`, or,
   * when it cannot be opened, the range error reused with "File not found".
   * Whether the file opens is a fact about the file system, given here as
   * `opens`.
   */
  function StaticFile(path: string, opens: bool): (r: Result<Reply, Error>)
    ensures r.Success? <==> opens
    ensures r.Success? ==> r.value == Reply(StatusOk, FileBody(path))
    ensures r.Failure? ==> r.error == InvalidRange("File not found") && Serve(r).status == StatusBadRequest
  {
    if opens then Success(Reply(StatusOk, FileBody(path))) else Failure(InvalidRange("File not found"))
  }

  /** `GET /api-docs`. */
  function ApiDocs(opens: bool): (r: Result<Reply, Error>)
    ensures r.Success? <==> opens
    ensures r.Success? ==> r.value.body == FileBody(ApiDocsPath)
    ensures r.Failure? ==> r.error == InvalidRange("File not found")
  {
    StaticFile(ApiDocsPath, opens)
  }

  /** `GET /api-tutorial`. */
  function ApiTutorial(opens: bool): (r: Result<Reply, Error>)
    ensures r.Success? <==> opens
    ensures r.Success? ==> r.value.body == FileBody(ApiTutorialPath)
    ensures r.Failure? ==> r.error == InvalidRange("File not found")
  {
    StaticFile(ApiTutorialPath, opens)
  }

  /** `GET /`. */
  function Index(opens: bool): (r: Result<Reply, Error>)
    ensures r.Success? <==> opens
    ensures r.Success? ==> r.value.body == FileBody(IndexPath)
    ensures r.Failure? ==> r.error == InvalidRange("File not found")
  {
    StaticFile(IndexPath, opens)
  }
}
