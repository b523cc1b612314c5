/**
 * The by-id lookups of `get_user_by_id` and `get_post_by_id`:
 * `find(|r| r.id == id).ok_or(NotFound(id))`.
 */
module Lookup {
  import opened Wrappers
  import opened Types
  import opened Sequences
  import opened Filters
  import opened Store

  /** The first user with id `id`, or `UserNotFound(id)` when there is none. */
  function FindUser(users: seq<User>, id: I32): (r: Result<User, Error>)
    ensures r.Failure? <==> forall i :: 0 <= i < |users| ==> users[i].id != id
    ensures r.Failure? ==> r.error == UserNotFound(id)
    ensures r.Success? ==> exists i :: 0 <= i < |users| && users[i] == r.value && r.value.id == id &&
                                       forall j :: 0 <= j < i ==> users[j].id != id
  {
    match Find(users, (u: User) => u.id == id)
    case Some(u) => Success(u)
    case None => Failure(UserNotFound(id))
  }

  /** The first post with id `id`, or `PostNotFound(id)` when there is none. */
  function FindPost(posts: seq<Post>, id: I32): (r: Result<Post, Error>)
    ensures r.Failure? <==> forall i :: 0 <= i < |posts| ==> posts[i].id != id
    ensures r.Failure? ==> r.error == PostNotFound(id)
    ensures r.Success? ==> exists i :: 0 <= i < |posts| && posts[i] == r.value && r.value.id == id &&
                                       forall j :: 0 <= j < i ==> posts[j].id != id
  {
    match Find(posts, (p: Post) => p.id == id)
    case Some(p) => Success(p)
    case None => Failure(PostNotFound(id))
  }

  /** On a list numbered 1, 2, ..., the lookup finds id `n` exactly at position `n - 1`. */
  lemma FindUserNumbered(users: seq<User>, id: I32)
    requires forall i :: 0 <= i < |users| ==> users[i].id == i + 1
    ensures FindUser(users, id).Success? <==> 1 <= id <= |users|
    ensures FindUser(users, id).Success? ==> FindUser(users, id).value == users[id - 1]
  {
    if 1 <= id <= |users| {
      assert users[id - 1].id == id;
    }
  }

  lemma FindPostNumbered(posts: seq<Post>, id: I32)
    requires forall i :: 0 <= i < |posts| ==> posts[i].id == i + 1
    ensures FindPost(posts, id).Success? <==> 1 <= id <= |posts|
    ensures FindPost(posts, id).Success? ==> FindPost(posts, id).value == posts[id - 1]
  {
    if 1 <= id <= |posts| {
      assert posts[id - 1].id == id;
    }
  }

  /**
   * On a list with unique ids, looking a user up by id and filtering the
   * same list by that id agree: the lookup finds `u` exactly when the filter
   * returns `[u]`, and fails exactly when the filter returns nothing.
   */
  lemma FindUserAgreesWithFilter(users: seq<User>, id: I32)
    requires UserIdsDistinct(users)
    ensures FindUser(users, id).Success? ==> FilterUsers(users, UserFilter(Some(id), None, None)) == [FindUser(users, id).value]
    ensures FindUser(users, id).Failure? ==> FilterUsers(users, UserFilter(Some(id), None, None)) == []
  {
    var f := UserFilter(Some(id), None, None);
    var keep := (u: User) => UserMatches(f, u);
    var r := FindUser(users, id);
    if r.Failure? {
      RetainNoneKept(users, keep);
    } else {
      var i :| 0 <= i < |users| && users[i] == r.value && r.value.id == id;
      RetainSingle(users, keep, i);
    }
  }

  /** The same agreement between post lookup and post filtering. */
  lemma FindPostAgreesWithFilter(posts: seq<Post>, id: I32)
    requires PostIdsDistinct(posts)
    ensures FindPost(posts, id).Success? ==> FilterPosts(posts, PostFilter(Some(id), None, None, None)) == [FindPost(posts, id).value]
    ensures FindPost(posts, id).Failure? ==> FilterPosts(posts, PostFilter(Some(id), None, None, None)) == []
  {
    var f := PostFilter(Some(id), None, None, None);
    var keep := (p: Post) => PostMatches(f, p);
    var r := FindPost(posts, id);
    if r.Failure? {
      RetainNoneKept(posts, keep);
    } else {
      var i :| 0 <= i < |posts| && posts[i] == r.value && r.value.id == id;
      RetainSingle(posts, keep, i);
    }
  }
}
