/** Request sequences a client of the forum can rely on, derived from the
    handlers' contracts alone. */
module ForumScenarios {
  import opened Documents
  import opened Forum

  /** Registering the same email twice: the second answer is "already
      exists" and the users are unchanged. */
  method RegisterTwice(payload: User, first: ObjectId, second: ObjectId)
    requires first != second
  {
    var store := new Store();
    var r1 := store.RegisterUser(payload, first);
    assert r1 == Ok(200, Inserted(first));
    var before := store.users;
    var r2 := store.RegisterUser(payload, second);
    assert r2 == Ok(200, AlreadyExists);
    assert store.users == before && |store.users| == 1;
  }

  /** The first up vote of a fresh post counts one; the same user's second
      vote, of any type, is refused and changes nothing; an unknown type is
      refused before anything changes. */
  method VoteOnce(post: Post, id: ObjectId, other: string)
    requires post.upVote == Some(0) && post.downVote == Some(0) && post.voters == Some([])
    requires other != "up" && other != "down"
  {
    var store := new Store();
    var c := store.CreatePost(post, id);
    var r := store.Vote(id, "U2", other);
    assert r == Err(400, InvalidVoteType);
    r := store.Vote(id, "U1", "up");
    assert r.Ok? && store.posts[id].upVote == Some(1) && store.posts[id].downVote == Some(0);
    var after := store.posts;
    r := store.Vote(id, "U1", "down");
    assert r == Err(400, AlreadyVoted) && store.posts == after;
    r := store.Vote(id, "U1", other);
    assert r == Err(400, AlreadyVoted) && store.posts == after;
  }

  /** Create a post, add two comments, delete the first as its author: the
      post keeps exactly the second comment. */
  method CommentThread(post: Post, id: ObjectId, first: ObjectId, second: ObjectId, t0: int, t1: int)
    requires post.comments == Some([])
    requires first != second
  {
    var store := new Store();
    var c := store.CreatePost(post, id);
    var a1 := store.AddComment(id, Some("hello"), Some("alice"), Some("Alice"), first, t0);
    var a2 := store.AddComment(id, Some("hi"), Some("bob"), Some("Bob"), second, t1);
    var comments := store.posts[id].comments.value;
    assert comments == [a1.value, a2.value];
    assert FindComment(comments, first) == Some(a1.value);
    assert WithoutComment(comments, first) == [a2.value];
    var d := store.DeleteComment(id, first, Some("alice"));
    assert d == Ok(200, ());
    assert CommentsOf(store.posts[id]) == [a2.value];
  }

  /** Someone other than its author may not delete a comment, and the post
      is unchanged. */
  method ForeignDelete(post: Post, id: ObjectId, cid: ObjectId, t0: int)
    requires post.comments == Some([])
  {
    var store := new Store();
    var c := store.CreatePost(post, id);
    var a := store.AddComment(id, Some("hello"), Some("alice"), Some("Alice"), cid, t0);
    var before := store.posts;
    var comments := store.posts[id].comments.value;
    assert comments == [a.value];
    assert FindComment(comments, cid) == Some(a.value);
    var d := store.DeleteComment(id, cid, Some("bob"));
    assert d == Err(403, NotCommentOwner) && store.posts == before;
  }

  /** Deleting a post that does not exist answers 404. */
  method DeleteMissingPost(id: ObjectId)
  {
    var store := new Store();
    var d := store.DeletePost(id);
    assert d == Err(404, PostNotFound);
  }
}
