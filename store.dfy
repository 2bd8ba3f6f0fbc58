/** The forum's request handlers over an in-memory document store: the
    `posts` and `users` collections are maps from document id to document,
    and each handler is a method that answers with an HTTP status and a
    body, and updates the collections the way its database calls do. */
module Forum {
  import opened Documents

  /** A handler's answer: a success status with its body, or an error
      status with the message the handler sends. */
  datatype Reply<T> = Ok(status: int, value: T) | Err(status: int, message: string)

  const PostNotFound := "Post not found"
  const AlreadyVoted := "You have already voted on this post."
  const InvalidVoteType := "Invalid vote type"
  const UserIdMissing := "userId missing"
  const CommentNotFound := "Comment not found"
  const NotCommentOwner := "You can only delete your own comment"
  const DeleteCommentFailed := "Failed to delete comment"

  /** The body of a registration answer. */
  datatype Registration = AlreadyExists | Inserted(id: ObjectId)

  /** The model's stand-in for the body of a membership answer. The handler
      sends the driver's update result (match and modification counts, and
      `upsertedId` after an insert), which never carries the id of a matched
      user; here `Matched` names the user document the `$set` updated and
      `Upserted` the one the upsert created. */
  datatype MembershipUpdate = Matched(id: ObjectId) | Upserted(id: ObjectId)

  class Store {
    var posts: map<ObjectId, Post>
    var users: map<ObjectId, User>

    /** Registration and membership keep at most one user per email. */
    ghost predicate Valid()
      reads this
    {
      UniqueEmails(users)
    }

    constructor ()
      ensures Valid()
      ensures posts == map[] && users == map[]
    {
      posts := map[];
      users := map[];
    }

    /** `POST /users`: inserts the body unless a user with its email
        already exists. `freshId` is the id the store assigns. */
    method RegisterUser(payload: User, freshId: ObjectId) returns (r: Reply<Registration>)
      requires Valid()
      requires freshId !in users
      modifies this
      ensures Valid()
      ensures posts == old(posts)
      ensures EmailTaken(old(users), payload.email) ==>
                r == Ok(200, AlreadyExists) && users == old(users)
      ensures !EmailTaken(old(users), payload.email) ==>
                r == Ok(200, Inserted(freshId)) && users == old(users)[freshId := payload]
    {
      if EmailTaken(users, payload.email) {
        return Ok(200, AlreadyExists);
      }
      users := users[freshId := payload];
      r := Ok(200, Inserted(freshId));
    }

    /** `POST /membership`: sets `isMember` on the user with that email,
        creating `{ email, isMember: true }` when there is none. */
    method SetMembership(email: string, freshId: ObjectId) returns (r: Reply<MembershipUpdate>)
      requires Valid()
      requires freshId !in users
      modifies this
      ensures Valid()
      ensures posts == old(posts)
      ensures r.Ok? && r.status == 200
      ensures EmailTaken(old(users), email) ==>
                r.value.Matched? && r.value.id in old(users) && old(users)[r.value.id].email == email &&
                users == old(users)[r.value.id := old(users)[r.value.id].(isMember := Some(true))]
      ensures !EmailTaken(old(users), email) ==>
                r == Ok(200, Upserted(freshId)) &&
                users == old(users)[freshId := User(email, Some(true), map[])]
    {
      if EmailTaken(users, email) {
        var k :| k in users && users[k].email == email;
        users := users[k := users[k].(isMember := Some(true))];
        r := Ok(200, Matched(k));
      } else {
        users := users[freshId := User(email, Some(true), map[])];
        r := Ok(200, Upserted(freshId));
      }
    }

    /** `GET /posts`: the posts selected by the optional email filter,
        most recent first. */
    method ListPosts(email: Option<string>) returns (r: Reply<seq<PostDoc>>)
      ensures r.Ok? && r.status == 200
      ensures NewestFirst(r.value)
      ensures DistinctIds(r.value)
      ensures forall d :: d in r.value ==>
                d.id in posts && posts[d.id] == d.post && Matches(PostQuery(email), d.post)
      ensures forall k :: k in posts && Matches(PostQuery(email), posts[k]) ==> k in IdSet(r.value)
    {
      var query := PostQuery(email);
      var found: seq<PostDoc> := [];
      var pending := posts.Keys;
      while pending != {}
        invariant pending <= posts.Keys
        invariant NewestFirst(found) && DistinctIds(found)
        invariant forall d :: d in found ==>
                    d.id in posts && posts[d.id] == d.post && Matches(query, d.post) && d.id !in pending
        invariant forall k :: k in posts && k !in pending && Matches(query, posts[k]) ==> k in IdSet(found)
        decreases pending
      {
        var k :| k in pending;
        if Matches(query, posts[k]) {
          found := InsertNewest(PostDoc(k, posts[k]), found);
        }
        pending := pending - {k};
      }
      r := Ok(200, found);
    }

    /** `POST /posts`: stores the body as a new post under `freshId`. */
    method CreatePost(payload: Post, freshId: ObjectId) returns (r: Reply<ObjectId>)
      requires freshId !in posts
      modifies this
      ensures r == Ok(201, freshId)
      ensures posts == old(posts)[freshId := payload] && users == old(users)
    {
      posts := posts[freshId := payload];
      r := Ok(201, freshId);
    }

    /** `GET /posts/:id`. */
    method GetPost(id: ObjectId) returns (r: Reply<PostDoc>)
      ensures id in posts ==> r == Ok(200, PostDoc(id, posts[id]))
      ensures id !in posts ==> r == Err(404, PostNotFound)
    {
      if id !in posts {
        return Err(404, PostNotFound);
      }
      r := Ok(200, PostDoc(id, posts[id]));
    }

    /** `DELETE /posts/:id`: succeeds exactly when one post was deleted. */
    method DeletePost(id: ObjectId) returns (r: Reply<()>)
      modifies this
      ensures users == old(users)
      ensures id in old(posts) ==> r == Ok(200, ()) && posts == old(posts) - {id}
      ensures id !in old(posts) ==> r == Err(404, PostNotFound) && posts == old(posts)
    {
      if id in posts {
        posts := posts - {id};
        r := Ok(200, ());
      } else {
        r := Err(404, PostNotFound);
      }
    }

    /** `POST /posts/:id/comments`: appends a new comment to the post and
        answers with it; a missing post matches nothing, and the answer is
        the same. `freshId` and `now` are the comment's generated id and
        creation time. */
    method AddComment(id: ObjectId, text: Option<string>, userId: Option<string>,
                      userName: Option<string>, freshId: ObjectId, now: int)
      returns (r: Reply<Comment>)
      requires id in posts ==> !HasComment(CommentsOf(posts[id]), freshId)
      modifies this
      ensures r == Ok(200, Comment(freshId, text, userId, userName, now))
      ensures users == old(users)
      ensures id in old(posts) ==> posts == old(posts)[id := AppendComment(old(posts)[id], r.value)]
      ensures id !in old(posts) ==> posts == old(posts)
      ensures id in old(posts) && CommentIdsUnique(CommentsOf(old(posts)[id])) ==>
                CommentIdsUnique(CommentsOf(posts[id]))
    {
      var comment := Comment(freshId, text, userId, userName, now);
      if id in posts {
        posts := posts[id := AppendComment(posts[id], comment)];
      }
      r := Ok(200, comment);
    }

    /** `DELETE /posts/:id/comments/:commentId`: the requester `userId`
        may delete only a comment whose stored `userId` is theirs. The
        checks run in this order; a post stored without a `comments`
        array makes the lookup throw, which the handler answers with 500. */
    method DeleteComment(id: ObjectId, commentId: ObjectId, userId: Option<string>)
      returns (r: Reply<()>)
      modifies this
      ensures users == old(users)
      ensures r.Err? ==> posts == old(posts)
      ensures userId.None? || userId.value == "" ==> r == Err(400, UserIdMissing)
      ensures userId.Some? && userId.value != "" ==>
        if id !in old(posts) then r == Err(404, PostNotFound)
        else if old(posts)[id].comments.None? then r == Err(500, DeleteCommentFailed)
        else
          var comments := old(posts)[id].comments.value;
          if !HasComment(comments, commentId) then r == Err(404, CommentNotFound)
          else if FindComment(comments, commentId).value.userId != userId then
            r == Err(403, NotCommentOwner)
          else
            r == Ok(200, ()) &&
            posts == old(posts)[id := old(posts)[id].(comments := Some(WithoutComment(comments, commentId)))]
      ensures r.Ok? && id in old(posts) && CommentIdsUnique(CommentsOf(old(posts)[id])) ==>
        var comments := CommentsOf(old(posts)[id]);
        exists i :: 0 <= i < |comments| && comments[i].id == commentId &&
                    CommentsOf(posts[id]) == comments[..i] + comments[i + 1..]
    {
      if userId.None? || userId.value == "" {
        return Err(400, UserIdMissing);
      }
      if id !in posts {
        return Err(404, PostNotFound);
      }
      var post := posts[id];
      if post.comments.None? {
        return Err(500, DeleteCommentFailed);
      }
      var found := FindComment(post.comments.value, commentId);
      if found.None? {
        return Err(404, CommentNotFound);
      }
      if found.value.userId != userId {
        return Err(403, NotCommentOwner);
      }
      if CommentIdsUnique(post.comments.value) {
        var i :| 0 <= i < |post.comments.value| && post.comments.value[i].id == commentId;
        WithoutCommentAt(post.comments.value, i);
      }
      posts := posts[id := post.(comments := Some(WithoutComment(post.comments.value, commentId)))];
      r := Ok(200, ());
    }

    /** `POST /posts/:id/vote`: one vote per user per post. The checks run
        in this order: the post must exist, the user must not have voted
        yet, and the type must be "up" or "down". */
    method Vote(id: ObjectId, userId: string, voteType: string) returns (r: Reply<()>)
      modifies this
      ensures users == old(users)
      ensures r.Err? ==> posts == old(posts)
      ensures id !in old(posts) ==> r == Err(404, PostNotFound)
      ensures id in old(posts) ==>
        var voters := VotersOf(old(posts)[id]);
        if HasVoted(voters, userId) then r == Err(400, AlreadyVoted)
        else if voteType != "up" && voteType != "down" then r == Err(400, InvalidVoteType)
        else
          var kind := if voteType == "up" then Up else Down;
          r == Ok(200, ()) && posts == old(posts)[id := CastVote(old(posts)[id], userId, kind)]
      ensures id in old(posts) && r.Ok? ==>
        VotesBy(VotersOf(posts[id]), userId) == 1 &&
        (VotersUnique(VotersOf(old(posts)[id])) ==> VotersUnique(VotersOf(posts[id]))) &&
        (TallyMatches(old(posts)[id]) ==> TallyMatches(posts[id]))
    {
      if id !in posts {
        return Err(404, PostNotFound);
      }
      var post := posts[id];
      var voters := VotersOf(post);
      if FindVoter(voters, userId).Some? {
        return Err(400, AlreadyVoted);
      }
      var kind := ParseVoteType(voteType);
      if kind.None? {
        return Err(400, InvalidVoteType);
      }
      CastVoteRecordsOnce(post, userId, kind.value);
      if TallyMatches(post) {
        CastVoteKeepsTally(post, userId, kind.value);
      }
      posts := posts[id := CastVote(post, userId, kind.value)];
      r := Ok(200, ());
    }
  }
}
