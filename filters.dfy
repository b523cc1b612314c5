/**
 * The filter closures of `get_users` and `get_posts`: each present field of
 * the query is an exact-equality test (`map_or(true, |v| field == v)`), an
 * absent field accepts anything, and a record passes when every test does.
 */
module Filters {
  import opened Wrappers
  import opened Types
  import opened Sequences

  /** `want.map_or(true, |v| actual == v)`. */
  predicate FieldMatches<T(==)>(want: Option<T>, actual: T) {
    match want
    case None => true
    case Some(v) => actual == v
  }

  /** `id_match && name_match && age_match`. */
  predicate UserMatches(f: UserFilter, u: User) {
    FieldMatches(f.id, u.id) && FieldMatches(f.name, u.name) && FieldMatches(f.age, u.age)
  }

  /** `id_match && title_match && content_match && author_id_match`. */
  predicate PostMatches(f: PostFilter, p: Post) {
    FieldMatches(f.id, p.id) && FieldMatches(f.title, p.title) &&
    FieldMatches(f.content, p.content) && FieldMatches(f.authorId, p.authorId)
  }

  /** The filter with no field set. */
  const NoUserFilter := UserFilter(None, None, None)
  const NoPostFilter := PostFilter(None, None, None, None)

  /** The users that pass every present field of `f`, in their input order. */
  function FilterUsers(users: seq<User>, f: UserFilter): (r: seq<User>)
    ensures forall u | u in r ::
      && u in users
      && (f.id.Some? ==> u.id == f.id.value)
      && (f.name.Some? ==> u.name == f.name.value)
      && (f.age.Some? ==> u.age == f.age.value)
    ensures forall u | u in users ::
      (&& (f.id.Some? ==> u.id == f.id.value)
       && (f.name.Some? ==> u.name == f.name.value)
       && (f.age.Some? ==> u.age == f.age.value))
      ==> u in r
  {
    Retain(users, u => UserMatches(f, u))
  }

  /** The posts that pass every present field of `f`, in their input order. */
  function FilterPosts(posts: seq<Post>, f: PostFilter): (r: seq<Post>)
    ensures forall p | p in r ::
      && p in posts
      && (f.id.Some? ==> p.id == f.id.value)
      && (f.title.Some? ==> p.title == f.title.value)
      && (f.content.Some? ==> p.content == f.content.value)
      && (f.authorId.Some? ==> p.authorId == f.authorId.value)
    ensures forall p | p in posts ::
      (&& (f.id.Some? ==> p.id == f.id.value)
       && (f.title.Some? ==> p.title == f.title.value)
       && (f.content.Some? ==> p.content == f.content.value)
       && (f.authorId.Some? ==> p.authorId == f.authorId.value))
      ==> p in r
  {
    Retain(posts, p => PostMatches(f, p))
  }

  /** Filtering never reorders: the result is a subsequence of the input. */
  lemma FilterUsersKeepsOrder(users: seq<User>, f: UserFilter)
    ensures IsSubsequence(FilterUsers(users, f), users)
  {
    RetainIsSubsequence(users, u => UserMatches(f, u));
  }

  /** Every matching user is kept as often as it occurs, and no other user is. */
  lemma FilterUsersMultiplicity(users: seq<User>, f: UserFilter, u: User)
    ensures multiset(FilterUsers(users, f))[u] == if UserMatches(f, u) then multiset(users)[u] else 0
  {
    RetainMultiplicity(users, u => UserMatches(f, u), u);
  }

  lemma FilterPostsKeepsOrder(posts: seq<Post>, f: PostFilter)
    ensures IsSubsequence(FilterPosts(posts, f), posts)
  {
    RetainIsSubsequence(posts, p => PostMatches(f, p));
  }

  lemma FilterPostsMultiplicity(posts: seq<Post>, f: PostFilter, p: Post)
    ensures multiset(FilterPosts(posts, f))[p] == if PostMatches(f, p) then multiset(posts)[p] else 0
  {
    RetainMultiplicity(posts, p => PostMatches(f, p), p);
  }

  /** Each record is judged on its own: filtering distributes over concatenation. */
  lemma FilterUsersAppend(a: seq<User>, b: seq<User>, f: UserFilter)
    ensures FilterUsers(a + b, f) == FilterUsers(a, f) + FilterUsers(b, f)
  {
    RetainAppend(a, b, u => UserMatches(f, u));
  }

  lemma FilterPostsAppend(a: seq<Post>, b: seq<Post>, f: PostFilter)
    ensures FilterPosts(a + b, f) == FilterPosts(a, f) + FilterPosts(b, f)
  {
    RetainAppend(a, b, p => PostMatches(f, p));
  }

  /** Filtering a list is filtering its two halves, split at any point. */
  lemma FilterPostsSplit(posts: seq<Post>, k: nat, f: PostFilter)
    requires k <= |posts|
    ensures FilterPosts(posts, f) == FilterPosts(posts[..k], f) + FilterPosts(posts[k..], f)
  {
    assert posts == posts[..k] + posts[k..];
    FilterPostsAppend(posts[..k], posts[k..], f);
  }

  /** A query with no field set returns the whole list, unchanged. */
  lemma NoUserFilterKeepsAll(users: seq<User>)
    ensures FilterUsers(users, NoUserFilter) == users
  {
    RetainAllKept(users, u => UserMatches(NoUserFilter, u));
  }

  lemma NoPostFilterKeepsAll(posts: seq<Post>)
    ensures FilterPosts(posts, NoPostFilter) == posts
  {
    RetainAllKept(posts, p => PostMatches(NoPostFilter, p));
  }

  /** Filtering an already filtered list with the same query changes nothing. */
  lemma FilterUsersIdempotent(users: seq<User>, f: UserFilter)
    ensures FilterUsers(FilterUsers(users, f), f) == FilterUsers(users, f)
  {
    RetainIdempotent(users, u => UserMatches(f, u));
  }

  lemma FilterPostsIdempotent(posts: seq<Post>, f: PostFilter)
    ensures FilterPosts(FilterPosts(posts, f), f) == FilterPosts(posts, f)
  {
    RetainIdempotent(posts, p => PostMatches(f, p));
  }

  /**
   * The fields combine by conjunction: a query with several fields gives what
   * applying its single-field queries one after another gives.
   */
  lemma UserFieldsConjoin(users: seq<User>, f: UserFilter)
    ensures FilterUsers(users, f) ==
      FilterUsers(FilterUsers(FilterUsers(users, UserFilter(f.id, None, None)),
                              UserFilter(None, f.name, None)),
                  UserFilter(None, None, f.age))
  {
    var byId := UserFilter(f.id, None, None);
    var byName := UserFilter(None, f.name, None);
    var byAge := UserFilter(None, None, f.age);
    var idName := UserFilter(f.id, f.name, None);
    RetainFused(users, u => UserMatches(byId, u), u => UserMatches(byName, u), u => UserMatches(idName, u));
    RetainFused(users, u => UserMatches(idName, u), u => UserMatches(byAge, u), u => UserMatches(f, u));
  }

  lemma PostFieldsConjoin(posts: seq<Post>, f: PostFilter)
    ensures FilterPosts(posts, f) ==
      FilterPosts(FilterPosts(FilterPosts(FilterPosts(posts, PostFilter(f.id, None, None, None)),
                                          PostFilter(None, f.title, None, None)),
                              PostFilter(None, None, f.content, None)),
                  PostFilter(None, None, None, f.authorId))
  {
    var g1 := PostFilter(f.id, None, None, None);
    var g2 := PostFilter(None, f.title, None, None);
    var g3 := PostFilter(None, None, f.content, None);
    var g4 := PostFilter(None, None, None, f.authorId);
    var g12 := PostFilter(f.id, f.title, None, None);
    var g123 := PostFilter(f.id, f.title, f.content, None);
    RetainFused(posts, p => PostMatches(g1, p), p => PostMatches(g2, p), p => PostMatches(g12, p));
    RetainFused(posts, p => PostMatches(g12, p), p => PostMatches(g3, p), p => PostMatches(g123, p));
    RetainFused(posts, p => PostMatches(g123, p), p => PostMatches(g4, p), p => PostMatches(f, p));
  }
}
