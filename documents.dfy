/** The documents kept by the forum's store, and the pure parts of the
    request handlers: lookups in embedded arrays, the update documents
    built for a vote, the `$pull` of a comment, the listing query and the
    newest-first order of the listing. */
module Documents {

  datatype Option<T> = None | Some(value: T) {
    function GetOr(default: T): T {
      if Some? then value else default
    }
  }

  /** A store-generated document id; its hexadecimal text form. */
  datatype ObjectId = ObjectId(hex: string)

  /** The two accepted values of a vote's `type`. */
  datatype VoteKind = Up | Down

  /** One entry of a post's `voters` array: `{ userId, type }`. */
  datatype Voter = Voter(userId: string, kind: VoteKind)

  /** A comment embedded in a post. `text`, `userId` and `userName` are
      copied from the request body and may be absent. */
  datatype Comment = Comment(
    id: ObjectId,
    text: Option<string>,
    userId: Option<string>,
    userName: Option<string>,
    createdAt: int)

  /** A post document. The fields the handlers update with `$inc` and
      `$push` may be absent (`None`) in a document submitted without them;
      every other field of the submitted body is kept opaque in `rest`. */
  datatype Post = Post(
    createdBy: string,
    createdAt: int,
    upVote: Option<int>,
    downVote: Option<int>,
    voters: Option<seq<Voter>>,
    comments: Option<seq<Comment>>,
    rest: map<string, string>)

  /** A post as returned by a query: its id together with its fields. */
  datatype PostDoc = PostDoc(id: ObjectId, post: Post)

  /** A user document: `email`, the `isMember` flag (absent until set) and
      the other profile fields of the registration body. */
  datatype User = User(email: string, isMember: Option<bool>, rest: map<string, string>)

  /* ---------------------------------------------------------------------
     Votes
     --------------------------------------------------------------------- */

  /** The voters of a post; a missing `voters` array reads as empty. */
  function VotersOf(p: Post): seq<Voter> {
    p.voters.GetOr([])
  }

  /** `$inc` on a missing counter starts from zero. */
  function UpCount(p: Post): int {
    p.upVote.GetOr(0)
  }

  function DownCount(p: Post): int {
    p.downVote.GetOr(0)
  }

  ghost predicate HasVoted(vs: seq<Voter>, u: string) {
    exists i :: 0 <= i < |vs| && vs[i].userId == u
  }

  /** No user appears twice among the voters. */
  ghost predicate VotersUnique(vs: seq<Voter>) {
    forall i, j :: 0 <= i < j < |vs| ==> vs[i].userId != vs[j].userId
  }

  /** How many voters carry user id `u`. */
  function VotesBy(vs: seq<Voter>, u: string): nat {
    if vs == [] then 0
    else (if vs[0].userId == u then 1 else 0) + VotesBy(vs[1..], u)
  }

  /** How many voters voted `k`. */
  function VotesOfKind(vs: seq<Voter>, k: VoteKind): nat {
    if vs == [] then 0
    else (if vs[0].kind == k then 1 else 0) + VotesOfKind(vs[1..], k)
  }

  /** The counters agree with the recorded voters. */
  ghost predicate TallyMatches(p: Post) {
    UpCount(p) == VotesOfKind(VotersOf(p), Up) &&
    DownCount(p) == VotesOfKind(VotersOf(p), Down)
  }

  /** `post.voters.find(v => v.userId === userId)`: the first voter with
      that user id, if any. */
  function FindVoter(vs: seq<Voter>, u: string): (r: Option<Voter>)
    ensures r.None? <==> !HasVoted(vs, u)
    ensures r.Some? ==> r.value in vs && r.value.userId == u
  {
    if vs == [] then None
    else if vs[0].userId == u then Some(vs[0])
    else
      var r := FindVoter(vs[1..], u);
      assert HasVoted(vs, u) ==> HasVoted(vs[1..], u) by {
        if HasVoted(vs, u) {
          var i :| 0 <= i < |vs| && vs[i].userId == u;
          assert vs[1..][i - 1].userId == u;
        }
      }
      r
  }

  /** The vote `type` of the request body: only "up" and "down" are
      accepted. */
  function ParseVoteType(t: string): (r: Option<VoteKind>)
    ensures r == Some(Up) <==> t == "up"
    ensures r == Some(Down) <==> t == "down"
    ensures r.None? <==> t != "up" && t != "down"
  {
    if t == "up" then Some(Up)
    else if t == "down" then Some(Down)
    else None
  }

  /** The effect of the vote's update document: `$inc` of the counter that
      matches the kind and `$push` of `{ userId, type }` onto `voters`. */
  function CastVote(p: Post, u: string, k: VoteKind): (r: Post)
    ensures VotersOf(r) == VotersOf(p) + [Voter(u, k)]
    ensures UpCount(r) == UpCount(p) + (if k == Up then 1 else 0)
    ensures DownCount(r) == DownCount(p) + (if k == Down then 1 else 0)
    ensures k == Up ==> r.downVote == p.downVote
    ensures k == Down ==> r.upVote == p.upVote
    ensures r.createdBy == p.createdBy && r.createdAt == p.createdAt
    ensures r.comments == p.comments && r.rest == p.rest
  {
    var voters := Some(VotersOf(p) + [Voter(u, k)]);
    match k
    case Up => p.(upVote := Some(UpCount(p) + 1), voters := voters)
    case Down => p.(downVote := Some(DownCount(p) + 1), voters := voters)
  }

  lemma {:induction false} VotesByAppend(vs: seq<Voter>, v: Voter, u: string)
    ensures VotesBy(vs + [v], u) == VotesBy(vs, u) + (if v.userId == u then 1 else 0)
  {
    if vs != [] {
      assert (vs + [v])[1..] == vs[1..] + [v];
      VotesByAppend(vs[1..], v, u);
    }
  }

  lemma {:induction false} VotesOfKindAppend(vs: seq<Voter>, v: Voter, k: VoteKind)
    ensures VotesOfKind(vs + [v], k) == VotesOfKind(vs, k) + (if v.kind == k then 1 else 0)
  {
    if vs != [] {
      assert (vs + [v])[1..] == vs[1..] + [v];
      VotesOfKindAppend(vs[1..], v, k);
    }
  }

  lemma {:induction false} NotVotedCountsZero(vs: seq<Voter>, u: string)
    requires !HasVoted(vs, u)
    ensures VotesBy(vs, u) == 0
  {
    if vs != [] {
      assert vs[0].userId != u;
      NotVotedCountsZero(vs[1..], u);
    }
  }

  /** A vote accepted from a user who had not voted leaves that user
      recorded exactly once, and keeps the voters free of repeats. */
  lemma CastVoteRecordsOnce(p: Post, u: string, k: VoteKind)
    requires !HasVoted(VotersOf(p), u)
    ensures VotesBy(VotersOf(CastVote(p, u, k)), u) == 1
    ensures VotersUnique(VotersOf(p)) ==> VotersUnique(VotersOf(CastVote(p, u, k)))
  {
    NotVotedCountsZero(VotersOf(p), u);
    VotesByAppend(VotersOf(p), Voter(u, k), u);
  }

  /** Counters that agree with the voters still agree after a vote. */
  lemma CastVoteKeepsTally(p: Post, u: string, k: VoteKind)
    requires TallyMatches(p)
    ensures TallyMatches(CastVote(p, u, k))
  {
    VotesOfKindAppend(VotersOf(p), Voter(u, k), Up);
    VotesOfKindAppend(VotersOf(p), Voter(u, k), Down);
  }

  /* ---------------------------------------------------------------------
     Comments
     --------------------------------------------------------------------- */

  /** The comments of a post; `$push` onto a missing array starts from
      an empty one. */
  function CommentsOf(p: Post): seq<Comment> {
    p.comments.GetOr([])
  }

  ghost predicate HasComment(cs: seq<Comment>, id: ObjectId) {
    exists i :: 0 <= i < |cs| && cs[i].id == id
  }

  /** No two comments of a post share an id. */
  ghost predicate CommentIdsUnique(cs: seq<Comment>) {
    forall i, j :: 0 <= i < j < |cs| ==> cs[i].id != cs[j].id
  }

  /** `post.comments.find(c => c._id.toString() === commentId)`: the
      first comment with that id, if any. */
  function FindComment(cs: seq<Comment>, id: ObjectId): (r: Option<Comment>)
    ensures r.None? <==> !HasComment(cs, id)
    ensures r.Some? ==> exists i :: 0 <= i < |cs| && cs[i] == r.value && cs[i].id == id &&
                                    forall j :: 0 <= j < i ==> cs[j].id != id
  {
    if cs == [] then None
    else if cs[0].id == id then
      Some(cs[0])
    else
      var r := FindComment(cs[1..], id);
      assert HasComment(cs, id) ==> HasComment(cs[1..], id) by {
        if HasComment(cs, id) {
          var i :| 0 <= i < |cs| && cs[i].id == id;
          assert cs[1..][i - 1].id == id;
        }
      }
      assert r.Some? ==> exists i :: 0 <= i < |cs| && cs[i] == r.value && cs[i].id == id &&
                                     forall j :: 0 <= j < i ==> cs[j].id != id by {
        if r.Some? {
          var i :| 0 <= i < |cs[1..]| && cs[1..][i] == r.value && cs[1..][i].id == id &&
                   forall j :: 0 <= j < i ==> cs[1..][j].id != id;
          assert cs[i + 1] == r.value;
          assert forall j :: 0 <= j < i + 1 ==> cs[j].id != id by {
            forall j | 0 <= j < i + 1 ensures cs[j].id != id {
              if j > 0 { assert cs[j] == cs[1..][j - 1]; }
            }
          }
        }
      }
      r
  }

  /** `$pull: { comments: { _id: id } }`: every comment with that id is
      removed, the others are kept in their order. */
  function WithoutComment(cs: seq<Comment>, id: ObjectId): (r: seq<Comment>)
    ensures forall c :: c in r <==> c in cs && c.id != id
    ensures |r| <= |cs|
  {
    if cs == [] then []
    else if cs[0].id == id then WithoutComment(cs[1..], id)
    else [cs[0]] + WithoutComment(cs[1..], id)
  }

  lemma {:induction false} WithoutCommentConcat(a: seq<Comment>, b: seq<Comment>, id: ObjectId)
    ensures WithoutComment(a + b, id) == WithoutComment(a, id) + WithoutComment(b, id)
  {
    if a == [] {
      assert a + b == b;
    } else {
      assert (a + b)[1..] == a[1..] + b;
      WithoutCommentConcat(a[1..], b, id);
    }
  }

  lemma {:induction false} WithoutAbsentComment(cs: seq<Comment>, id: ObjectId)
    requires forall i :: 0 <= i < |cs| ==> cs[i].id != id
    ensures WithoutComment(cs, id) == cs
  {
    if cs != [] {
      WithoutAbsentComment(cs[1..], id);
    }
  }

  /** When comment ids are unique, pulling the id of the comment at index
      `i` removes exactly that comment and keeps the rest in order. */
  lemma WithoutCommentAt(cs: seq<Comment>, i: nat)
    requires CommentIdsUnique(cs)
    requires i < |cs|
    ensures WithoutComment(cs, cs[i].id) == cs[..i] + cs[i + 1..]
    ensures |WithoutComment(cs, cs[i].id)| == |cs| - 1
  {
    var id := cs[i].id;
    assert cs == cs[..i] + ([cs[i]] + cs[i + 1..]);
    WithoutCommentConcat(cs[..i], [cs[i]] + cs[i + 1..], id);
    WithoutCommentConcat([cs[i]], cs[i + 1..], id);
    WithoutAbsentComment(cs[..i], id);
    WithoutAbsentComment(cs[i + 1..], id);
  }

  /** The effect of `$push: { comments: c }`. */
  function AppendComment(p: Post, c: Comment): (r: Post)
    ensures CommentsOf(r) == CommentsOf(p) + [c]
    ensures CommentIdsUnique(CommentsOf(p)) && !HasComment(CommentsOf(p), c.id) ==>
              CommentIdsUnique(CommentsOf(r))
    ensures r.(comments := p.comments) == p
  {
    p.(comments := Some(CommentsOf(p) + [c]))
  }

  /* ---------------------------------------------------------------------
     Listing
     --------------------------------------------------------------------- */

  /** The filter of the listing: a non-empty `email` selects the posts
      whose `created_by` equals it; no email or an empty one selects all
      posts (`None`). */
  function PostQuery(email: Option<string>): (q: Option<string>)
    ensures q.None? <==> email.None? || email.value == ""
    ensures q.Some? ==> q == email
  {
    if email.Some? && email.value != "" then email else None
  }

  predicate Matches(q: Option<string>, p: Post) {
    q.None? || p.createdBy == q.value
  }

  /** Ordered by `createdAt`, most recent first. */
  ghost predicate NewestFirst(ds: seq<PostDoc>) {
    forall i, j :: 0 <= i < j < |ds| ==> ds[i].post.createdAt >= ds[j].post.createdAt
  }

  ghost predicate DistinctIds(ds: seq<PostDoc>) {
    forall i, j :: 0 <= i < j < |ds| ==> ds[i].id != ds[j].id
  }

  function IdSet(ds: seq<PostDoc>): set<ObjectId> {
    set d | d in ds :: d.id
  }

  /** The number of leading documents strictly newer than `t`. */
  function NewerPrefix(ds: seq<PostDoc>, t: int): (n: nat)
    ensures n <= |ds|
    ensures forall j :: 0 <= j < n ==> ds[j].post.createdAt > t
    ensures n < |ds| ==> ds[n].post.createdAt <= t
  {
    if ds == [] || ds[0].post.createdAt <= t then 0
    else 1 + NewerPrefix(ds[1..], t)
  }

  /** Places `d` into a newest-first sequence, after every strictly newer
      document. */
  function InsertNewest(d: PostDoc, ds: seq<PostDoc>): (r: seq<PostDoc>)
    requires NewestFirst(ds)
    ensures NewestFirst(r)
    ensures |r| == |ds| + 1
    ensures forall x :: x in r <==> x == d || x in ds
    ensures IdSet(r) == IdSet(ds) + {d.id}
    ensures DistinctIds(ds) && d.id !in IdSet(ds) ==> DistinctIds(r)
  {
    var n := NewerPrefix(ds, d.post.createdAt);
    InsertAtKeepsOrder(d, ds, n);
    InsertAtElements(d, ds, n);
    ds[..n] + [d] + ds[n..]
  }

  /** Inserting at the boundary between newer and not-newer documents keeps
      the order. */
  lemma InsertAtKeepsOrder(d: PostDoc, ds: seq<PostDoc>, n: nat)
    requires NewestFirst(ds)
    requires n <= |ds|
    requires forall j :: 0 <= j < n ==> ds[j].post.createdAt > d.post.createdAt
    requires n < |ds| ==> ds[n].post.createdAt <= d.post.createdAt
    ensures NewestFirst(ds[..n] + [d] + ds[n..])
  {
  }

  /** Inserting at any position adds exactly that document. */
  lemma InsertAtElements(d: PostDoc, ds: seq<PostDoc>, n: nat)
    requires n <= |ds|
    ensures forall x :: x in ds[..n] + [d] + ds[n..] <==> x == d || x in ds
    ensures IdSet(ds[..n] + [d] + ds[n..]) == IdSet(ds) + {d.id}
    ensures DistinctIds(ds) && d.id !in IdSet(ds) ==> DistinctIds(ds[..n] + [d] + ds[n..])
  {
  }

  /* ---------------------------------------------------------------------
     Users
     --------------------------------------------------------------------- */

  /** `findOne({ email })` finds a document. */
  predicate EmailTaken(us: map<ObjectId, User>, email: string) {
    exists k :: k in us && us[k].email == email
  }

  /** At most one user document per email. */
  ghost predicate UniqueEmails(us: map<ObjectId, User>) {
    forall a, b :: a in us && b in us && us[a].email == us[b].email ==> a == b
  }
}
