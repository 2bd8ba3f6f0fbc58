# Forum server: request handlers over an in-memory document store

This project models the request-decision logic of a small discussion-forum
backend: user registration, membership, listing, creating, reading and
deleting posts, adding and deleting embedded comments, and single-choice
up/down voting. In the server each handler reads and writes a MongoDB
collection. Here the `posts` and `users` collections are two maps from
document id to document, held by a class `Forum.Store`. Each handler is a
method of that class. It returns a `Reply`: either `Ok(status, body)` or
`Err(status, message)`, carrying the HTTP status and the exact error
message the handler sends.

- `documents.dfy` (module `Documents`): the post, comment, voter and user
  documents, and the pure parts of the handlers. These are the voter and
  comment lookups (`Array.prototype.find`), the vote's update document
  (`$inc` plus `$push`), the comment `$pull`, the listing filter and the
  newest-first order. The lemmas about them are here too.
- `store.dfy` (module `Forum`): the class `Store` with one method per
  handler. Every method states the full new state and the reply for every
  branch, in the order the handler checks them.
- `scenarios.dfy` (module `ForumScenarios`): request sequences proved from
  the handlers' contracts alone. These are: registering twice; a repeated
  vote; an invalid vote type; deleting a comment as its author and as
  someone else; deleting a missing post.

Generated ids (`new ObjectId()`) and timestamps (`new Date()`) are method
parameters. The store guarantees that a generated id is fresh, so that is a
precondition. The model handles one request at a time.

Fields that a submitted post may lack are `Option`s: `upVote`, `downVote`,
`voters` and `comments`. `$inc` on a missing counter starts from 0. `$push`
onto a missing array starts from an empty one. The vote handler treats a
missing `voters` as empty. The delete-comment handler does not default
`comments`: on a post stored without it, `post.comments.find` throws, and
the handler answers 500 "Failed to delete comment". The model keeps that
branch.

Three behaviours of the code that a REST client might not expect, all kept
by the model:
- a repeated vote is answered 400 "You have already voted on this post."
  (index.js:223-225), the same status as an invalid vote type;
- adding a comment to a post that does not exist is answered 200 with the
  comment, and nothing is stored (index.js:158-162);
- a successful vote answers with the driver's update result, not the new
  counts (index.js:249); the model's reply body for it is empty.

## Model

| member | source | states |
|---|---|---|
| `Documents.FindVoter` | index.js:216-220 | finds a voter exactly when some voter has the requester's `userId`, and the one it returns has that `userId` |
| `Documents.ParseVoteType` | index.js:230-242 | only "up" and "down" are accepted, each mapping to its own kind; every other `type` is rejected |
| `Documents.CastVote` | index.js:228-247 | a vote appends exactly one `{userId, type}` to the end of `voters` (a missing array counts as empty); it adds 1 to the counter that matches `type` and leaves the other counter and every other field unchanged |
| `Documents.CastVoteRecordsOnce` | index.js:219-247 | after an accepted vote from a user who had not voted, that user appears exactly once in `voters`, and voters that had no repeated user still have none |
| `Documents.CastVoteKeepsTally` | index.js:228-247 | if `upVote`/`downVote` equal the numbers of up/down entries in `voters` before a vote, they still do afterwards |
| `Documents.FindComment` | index.js:181-183 | finds a comment exactly when one has the requested id, and returns the first such comment |
| `Documents.WithoutComment` | index.js:195-198 | the `$pull` keeps exactly the comments whose id differs from the requested one, and never adds any |
| `Documents.WithoutCommentConcat` | index.js:195-198 | the `$pull` acts on each part of a comment array independently, so it keeps the order of what remains |
| `Documents.WithoutCommentAt` | index.js:181-198 | when comment ids are unique, deleting the comment at position i leaves the comments before and after it, in order, with one fewer |
| `Documents.AppendComment` | index.js:158-161 | the `$push` puts the comment at the end of `comments` (a missing array counts as empty), changes no other field, and keeps comment ids unique when the new id is fresh |
| `Documents.PostQuery` | index.js:83-88 | a non-empty `email` becomes a `created_by` filter; a missing or empty one selects every post |
| `Documents.NewerPrefix` | index.js:92 | the position in a newest-first listing after every post strictly newer than a given `createdAt` |
| `Documents.InsertNewest` | index.js:90-93 | inserting a post into a newest-first listing keeps it ordered by `createdAt` descending, adds exactly that post, and keeps post ids distinct |
| `Forum.Store.RegisterUser` | index.js:65-78 | if a user with the email exists, replies `inserted: false` and leaves the users unchanged; otherwise inserts the body; keeps at most one user per email |
| `Forum.Store.SetMembership` | index.js:275-287 | sets `isMember` to true on the user with that email and changes nothing else, or inserts `{email, isMember: true}` when there is none; keeps at most one user per email |
| `Forum.Store.ListPosts` | index.js:81-100 | replies 200 with exactly the posts matching the filter, each once and as stored, ordered by `createdAt` non-increasing |
| `Forum.Store.CreatePost` | index.js:103-111 | stores the body under a fresh id and replies 201 with it |
| `Forum.Store.GetPost` | index.js:114-124 | replies 200 with the stored post, or 404 "Post not found" when there is none |
| `Forum.Store.DeletePost` | index.js:127-145 | replies 200 and removes exactly that post when it exists; otherwise replies 404 and changes nothing |
| `Forum.Store.AddComment` | index.js:148-167 | appends the new comment (fresh id, text, userId, userName, createdAt) to the post and replies 200 with it; for a missing post, stores nothing and replies the same |
| `Forum.Store.DeleteComment` | index.js:170-205 | rejects in this order, changing nothing: no `userId` gives 400; no post gives 404; no `comments` array gives 500; no comment with that id gives 404; a different owner gives 403; otherwise it pulls that id and replies 200, removing exactly that comment when ids are unique |
| `Forum.Store.Vote` | index.js:208-254 | rejects in this order, changing nothing: no post gives 404; an existing voter gives 400 "already voted" (whatever the type); a type other than up/down gives 400; otherwise the post becomes `CastVote` of it and replies 200 |

## Left out

- Express wiring, CORS, JSON parsing, `app.listen` and the liveness route: transport only.
- The MongoDB connection, its ping and failures of the driver: the collections are in-memory maps. The 500 answers that only a driver failure can cause are not modelled.
- Ids given as text that is not a valid ObjectId, which makes `new ObjectId(id)` throw and the handler answer 500: ids are an abstract datatype.
- The Firebase token middleware (`verifyFBToken`): an external identity call. It is attached to no route, so no handler depends on it.
- The Stripe payment-intent handler: an external API, and its `amount * 100` is floating-point arithmetic.
- The payments handler: it inserts the request body with no checks, so it holds no decision logic.
- The check-then-act races: between the vote handler's `findOne` and its `updateOne`; between registration's `findOne` and its `insertOne`; and between a registration and a concurrent membership upsert. The model handles one request at a time. Under concurrency these races can store two users with one email, so the uniqueness invariant `Forum.Store.Valid` holds only when requests run one at a time.
- Request bodies whose fields have unexpected JSON types: a vote's `userId` and `type`, a post's `created_by` and `createdAt`, and a user's `email` are modelled as present strings and integers; a new comment's `text`, `userId` and `userName` are modelled as optional strings (`Option<string>` in `Documents.Comment` and in the parameters of `Forum.Store.AddComment`), so a number, boolean, array or object sent in one of them is not modelled. A missing `email` in registration or membership would turn the query into a match on `null`; that is not modelled. A vote does not query on `userId`. It compares in JavaScript with `v.userId === userId` against the voters as read back, and pushes `{ userId, type }`. With a missing `userId`, that comparison is a strict test against `undefined`, and the pushed entry has no usable `userId`; that is not modelled either.
- A submitted post whose `upVote`, `downVote`, `voters` or `comments` is stored as `null`, a string or another type that is neither absent nor a number (for the counters) or an array (for the arrays): the model's `Option` has only "absent" and "present with the right type". In the code, `$inc` or `$push` on such a field fails in the driver, so `Forum.Store.Vote` would answer 500 "Failed to vote" (index.js:244-253) and `Forum.Store.AddComment` 500 "Failed to add comment" (index.js:158-166), leaving the post unchanged; a non-array `comments` also makes `post.comments.find` throw in delete-comment, answered 500 like a missing one (index.js:181-183, 201-203).
- The numbers `upVote` and `downVote` are JavaScript doubles; the model uses unbounded integers.
- Documents are compared only on the fields listed in `Documents`; the other fields of a post or user body are an opaque string map.
- `Forum.Store.ListPosts`: MongoDB leaves the order of posts with equal `createdAt` unspecified; the model fixes some order and states only that `createdAt` is non-increasing.
- `Forum.Store.CreatePost`: the model assumes every post id, and every id of a comment embedded in a post, is an ObjectId the store generated. In the code, `insertOne` keeps an `_id` that the request body supplies, for posts and for users alike. Comments inside a submitted post body can carry a text `_id` or none, because JSON cannot carry an ObjectId.
- `Forum.Store.DeleteComment`: the lookup compares text (`c._id.toString() === commentId`), but the `$pull` matches a parsed ObjectId. The model uses one id equality for both. So for a comment that arrived in a post body with a text `_id`, the code finds it and passes the owner check. Its `$pull` then matches nothing, and it still answers 200, leaving the comment in place; the model removes it. For such a comment with no `_id`, `c._id.toString()` throws and the code answers 500. The model cannot represent that input. The lookup also compares letter case, while post ids do not: `new ObjectId(text)` accepts upper-case hex, so a post id written in capitals finds the same post in every handler (index.js:117, 177, 213), but a `commentId` written in capitals never equals the lower-case `c._id.toString()` (index.js:182). The code then answers 404 "Comment not found" (index.js:185-186) for a store-generated comment the `$pull` at index.js:195-198 would have matched. The model's `ObjectId` stands for the id itself, not for one spelling of it, so it finds the comment and, for its author, removes it and answers 200.
- `Forum.Store.RegisterUser`: like posts, a user document keeps an `_id` that the registration body supplies; the model always assigns a fresh store-generated id.
- `Forum.Store.ListPosts`: the `email` query parameter is modelled as an optional string. Express hands a repeated parameter (`?email=a&email=b`) to the handler as an array. Its extended query parser hands `?email[$ne]=x` over as an object. In both cases `{ created_by: email }` becomes an array match or an operator query, not the equality that `Documents.PostQuery` and `Documents.Matches` state.
- `Forum.Store.DeleteComment`: the body's `userId` is modelled as an optional string. The falsy non-strings `0`, `false` and `null` get 400 "userId missing" in the code. Add-comment stores the body's `userId` as sent (index.js:154), so a truthy non-string such as `7` or `true` passes the strict `comment.userId !== userId` test when the comment was posted with that same value, and the code removes the comment and answers 200; it gets 403 when the stored value differs in value or type, and always for an object or array, which `!==` compares by reference. The model cannot represent any of these inputs.
