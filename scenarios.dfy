/**
 * Concrete request/response facts about the hard-coded data: exact string
 * matching, a multi-field result in list order, and the gap between the
 * listed and the looked-up users.
 */
module Scenarios {
  import opened Wrappers
  import opened Types
  import opened Sequences
  import opened Store
  import opened Filters
  import opened Handlers
  import opened Errors
  import opened Decimal

  /** `?name=Alice` matches user 1 only: "Another Alice" (user 6) is no match. */
  lemma NameAliceMatchesOnlyUserOne()
    ensures FilterUsers(ListedUsers, UserFilter(None, Some("Alice"), None)) == [ListedUsers[0]]
    ensures ListedUsers[5].name == "Another Alice"
  {
    var f := UserFilter(None, Some("Alice"), None);
    RetainSingle(ListedUsers, u => UserMatches(f, u), 0);
  }

  /** `?author_id=1` yields posts 1 and 6, in that order. */
  lemma AuthorOnePosts()
    ensures FilterPosts(ListedPosts, PostFilter(None, None, None, Some(1))) == [ListedPosts[0], ListedPosts[5]]
  {
    var f := PostFilter(None, None, None, Some(1));
    var front, back := ListedPosts[..5], ListedPosts[5..];
    FilterPostsSplit(ListedPosts, 5, f);
    assert FilterPosts(front, f) == [ListedPosts[0]] by {
      AuthorOneAmong(front, ListedPosts[0]);
    }
    assert FilterPosts(back, f) == [ListedPosts[5]] by {
      AuthorOneAmong(back, ListedPosts[5]);
    }
  }

  /** Helper: a five-post run of the list whose first post alone is by author 1. */
  lemma AuthorOneAmong(run: seq<Post>, first: Post)
    requires run == ListedPosts[..5] || run == ListedPosts[5..]
    requires first == run[0]
    ensures FilterPosts(run, PostFilter(None, None, None, Some(1))) == [first]
  {
    PostAuthors();
    assert forall j :: 0 <= j < |run| ==> run[j].authorId == j + 1;
    RetainSingle(run, p => PostMatches(PostFilter(None, None, None, Some(1)), p), 0);
  }

  /** An empty query returns every listed user, in list order. */
  lemma UnfilteredUsers()
    ensures Serve(GetUsers(NoUserFilter)) == Reply(StatusOk, UsersJson(ListedUsers))
  {
    NoUserFilterKeepsAll(ListedUsers);
  }

  /**
   * User 6 is found by filtering on `id=6` but not by `GET /users/6`, whose
   * list stops at user 5.
   */
  lemma UserSixListedButNotFound()
    ensures FilterUsers(ListedUsers, UserFilter(Some(6), None, None)) == [ListedUsers[5]]
    ensures GetUserById(6) == Failure(UserNotFound(6))
  {
    var f := UserFilter(Some(6), None, None);
    RetainSingle(ListedUsers, u => UserMatches(f, u), 5);
  }

  /** `GET /users/3` returns Charlie. */
  lemma UserThree()
    ensures Serve(GetUserById(3)) == Reply(StatusOk, UserJson(User(3, "Charlie", 35, Some("I am a data scientist"))))
  {
  }

  /** `GET /users/999` is a 404 whose details name the id asked for. */
  lemma UserNineNineNineNotFound()
    ensures Serve(GetUserById(999)) == Reply(StatusNotFound, ErrorJson("User not found", "User with id 999 not found"))
  {
    assert GetUserById(999) == Failure(UserNotFound(999));
    assert IntToDecimal(999) == "999" by {
      assert DigitChar(9) == '9';
      assert NatToDecimal(9) == "9";
      assert NatToDecimal(99) == "99";
    }
    assert NotFoundDetails(UserDetailsPrefix, 999) == "User with id 999 not found";
  }

  /** `GET /posts/9` returns post 9, by author 4. */
  lemma PostNine()
    ensures Serve(GetPostById(9)) == Reply(StatusOk, PostJson(Post(9, "Post 9", "Content of post 9", 4)))
  {
  }

  /** Helper: the message for post 42. */
  lemma DetailsOfFortyTwo()
    ensures NotFoundDetails(PostDetailsPrefix, 42) == "Post with id 42 not found"
  {
    assert DigitChar(4) == '4' && DigitChar(2) == '2';
    assert NatToDecimal(4) == "4";
    assert IntToDecimal(42) == "42";
  }

  /** `GET /posts/42` is a 404 naming post 42. */
  lemma PostFortyTwoNotFound()
    ensures Serve(GetPostById(42)) == Reply(StatusNotFound, ErrorJson("Post not found", "Post with id 42 not found"))
  {
    assert GetPostById(42) == Failure(PostNotFound(42));
    DetailsOfFortyTwo();
  }
}
