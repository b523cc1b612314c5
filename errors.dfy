/**
 * `impl ResponseError for Error`: every domain error becomes a 4xx reply
 * whose JSON body is `{ "error": <label>, "details": <message> }`.
 */
module Errors {
  import opened Types
  import opened Decimal
  import opened Wrappers

  const UserDetailsPrefix: string := "User with id "
  const PostDetailsPrefix: string := "Post with id "
  const DetailsSuffix: string := " not found"

  /** Reads the id back out of a not-found message; `None` when the text has another shape. */
  function IdInDetails(prefix: string, d: string): Option<int> {
    if |d| >= |prefix| + |DetailsSuffix| && d[..|prefix|] == prefix && d[|d| - |DetailsSuffix|..] == DetailsSuffix
    then ParseInt(d[|prefix|..|d| - |DetailsSuffix|])
    else None
  }

  /**
   * `format!("User with id {} not found", id)` and its post counterpart: a
   * message from which the id reads back. By NotFoundDetailsUnique, it is
   * the only message that reads back as `id`.
   */
  function NotFoundDetails(prefix: string, id: I32): (d: string)
    ensures IdInDetails(prefix, d) == Some(id as int)
  {
    var d := prefix + IntToDecimal(id) + DetailsSuffix;
    assert d[..|prefix|] == prefix && d[|d| - |DetailsSuffix|..] == DetailsSuffix;
    assert d[|prefix|..|d| - |DetailsSuffix|] == IntToDecimal(id);
    IntToDecimalRoundTrip(id);
    d
  }

  /** A message that reads back as `id` is exactly the one `format!` builds for `id`. */
  lemma NotFoundDetailsUnique(prefix: string, d: string, id: I32)
    requires IdInDetails(prefix, d) == Some(id as int)
    ensures d == NotFoundDetails(prefix, id)
    ensures d == prefix + IntToDecimal(id) + DetailsSuffix
  {
    var mid := d[|prefix|..|d| - |DetailsSuffix|];
    ParseIntIsCanonical(mid, id);
    assert d == d[..|prefix|] + mid + d[|d| - |DetailsSuffix|..];
  }

  /** A zero-padded id is not a message `format!` produces. */
  lemma ZeroPaddedIdRejected()
    ensures IdInDetails(UserDetailsPrefix, "User with id 0999 not found") == None
    ensures IdInDetails(UserDetailsPrefix, "User with id -0 not found") == None
  {
  }

  /** `error_response`: the reply the framework sends for a domain error. */
  function ErrorResponse(e: Error): (r: Reply)
    ensures r.body.ErrorJson?
    ensures 400 <= r.status < 500
    ensures r.status == StatusBadRequest <==> e.InvalidRange?
    ensures r.status == StatusNotFound <==> (e.UserNotFound? || e.PostNotFound?)
    ensures e.InvalidRange? ==> r.body == ErrorJson("Invalid range", e.details)
    ensures e.UserNotFound? ==> r.body.error == "User not found" &&
                                IdInDetails(UserDetailsPrefix, r.body.details) == Some(e.userId as int)
    ensures e.UserNotFound? ==> r.body.details == UserDetailsPrefix + IntToDecimal(e.userId) + DetailsSuffix
    ensures e.PostNotFound? ==> r.body.error == "Post not found" &&
                                IdInDetails(PostDetailsPrefix, r.body.details) == Some(e.postId as int)
    ensures e.PostNotFound? ==> r.body.details == PostDetailsPrefix + IntToDecimal(e.postId) + DetailsSuffix
  {
    match e
    case InvalidRange(details) =>
      Reply(StatusBadRequest, ErrorJson("Invalid range", details))
    case UserNotFound(id) =>
      Reply(StatusNotFound, ErrorJson("User not found", NotFoundDetails(UserDetailsPrefix, id)))
    case PostNotFound(id) =>
      Reply(StatusNotFound, ErrorJson("Post not found", NotFoundDetails(PostDetailsPrefix, id)))
  }

  /** Distinct errors produce distinct replies: the reply identifies the error. */
  lemma ErrorResponseInjective(e1: Error, e2: Error)
    requires ErrorResponse(e1) == ErrorResponse(e2)
    ensures e1 == e2
  {
  }
}
