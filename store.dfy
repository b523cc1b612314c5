/**
 * The hard-coded record lists the handlers build on every request. The
 * source keeps a separate literal list in each handler: `/users` sees six
 * users, `/users/{id}` only the first five, and both post handlers see the
 * same nine posts.
 */
module Store {
  import opened Wrappers
  import opened Types

  /** No two records of a list share an id. */
  predicate UserIdsDistinct(users: seq<User>) {
    forall i, j :: 0 <= i < j < |users| ==> users[i].id != users[j].id
  }

  predicate PostIdsDistinct(posts: seq<Post>) {
    forall i, j :: 0 <= i < j < |posts| ==> posts[i].id != posts[j].id
  }

  /** The users of `GET /users`. */
  const ListedUsers: seq<User> := [
    User(1, "Alice", 25, Some("I am a software developer")),
    User(2, "Bob", 30, None),
    User(3, "Charlie", 35, Some("I am a data scientist")),
    User(4, "David", 40, None),
    User(5, "Eve", 45, Some("I am a security analyst")),
    User(6, "Another Alice", 25, Some("I am also a software developer"))
  ]

  /** The users of `GET /users/{id}`: there is no user 6 here. */
  const LookupUsers: seq<User> := [
    User(1, "Alice", 25, Some("I am a software developer")),
    User(2, "Bob", 30, None),
    User(3, "Charlie", 35, Some("I am a data scientist")),
    User(4, "David", 40, None),
    User(5, "Eve", 45, Some("I am a security analyst"))
  ]

  /** The posts of `GET /posts`. */
  const ListedPosts: seq<Post> := [
    Post(1, "Post 1", "Content of post 1", 1),
    Post(2, "Post 2", "Content of post 2", 2),
    Post(3, "Post 3", "Content of post 3", 3),
    Post(4, "Post 4", "Content of post 4", 4),
    Post(5, "Post 5", "Content of post 5", 5),
    Post(6, "Post 6", "Content of post 6", 1),
    Post(7, "Post 7", "Content of post 7", 2),
    Post(8, "Post 8", "Content of post 8", 3),
    Post(9, "Post 9", "Content of post 9", 4)
  ]

  /** The posts of `GET /posts/{id}`, a second copy of the same literal. */
  const LookupPosts: seq<Post> := [
    Post(1, "Post 1", "Content of post 1", 1),
    Post(2, "Post 2", "Content of post 2", 2),
    Post(3, "Post 3", "Content of post 3", 3),
    Post(4, "Post 4", "Content of post 4", 4),
    Post(5, "Post 5", "Content of post 5", 5),
    Post(6, "Post 6", "Content of post 6", 1),
    Post(7, "Post 7", "Content of post 7", 2),
    Post(8, "Post 8", "Content of post 8", 3),
    Post(9, "Post 9", "Content of post 9", 4)
  ]

  /** The listed users have unique ids 1 to 6, in increasing order. */
  lemma ListedUsersWellFormed()
    ensures UserIdsDistinct(ListedUsers)
    ensures forall i :: 0 <= i < |ListedUsers| ==> ListedUsers[i].id == i + 1
  {
  }

  /** The lookup users have unique ids 1 to 5, in increasing order. */
  lemma LookupUsersWellFormed()
    ensures UserIdsDistinct(LookupUsers)
    ensures forall i :: 0 <= i < |LookupUsers| ==> LookupUsers[i].id == i + 1
  {
  }

  /** The listed posts have unique ids 1 to 9, in increasing order. */
  lemma ListedPostsWellFormed()
    ensures PostIdsDistinct(ListedPosts)
    ensures forall i :: 0 <= i < |ListedPosts| ==> ListedPosts[i].id == i + 1
  {
  }

  /** The lookup posts have unique ids 1 to 9, in increasing order. */
  lemma LookupPostsWellFormed()
    ensures PostIdsDistinct(LookupPosts)
    ensures forall i :: 0 <= i < |LookupPosts| ==> LookupPosts[i].id == i + 1
  {
  }

  /** Authors 1 to 5 wrote posts 1 to 5; authors 1 to 4 wrote posts 6 to 9. */
  lemma PostAuthors()
    ensures forall i :: 0 <= i < 5 ==> ListedPosts[i].authorId == i + 1
    ensures forall i :: 5 <= i < |ListedPosts| ==> ListedPosts[i].authorId == i - 4
  {
  }

  /** The lookup user list is the listed one without its last user, id 6. */
  lemma LookupUsersArePrefix()
    ensures LookupUsers == ListedUsers[..5]
    ensures ListedUsers[5].id == 6
  {
  }

  /** The two copies of the post literal are the same list. */
  lemma PostListsAgree()
    ensures LookupPosts == ListedPosts
  {
  }
}
