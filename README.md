# Request guards of the parentingo forum backend, in Dafny

This project models the request-handling core of the parentingo backend, an
Express/Mongoose forum server where users post in groups and comment on posts.

- **Guards** (the middleware). Each guard looks at a request and does one of
  three things. It calls `next()`, sometimes after attaching a looked-up
  document as `req.group`, `req.post`, `req.comment` or `req.userDocument`. It
  answers with an exact status and message. Or it throws an internal error.
  The guards are: the authentication gate; the ObjectId shape checks for
  group, post, comment and user ids; the existence lookups; and the group
  membership and group admin checks.
- **Route pipelines.** POST `/groups/:groupId/posts` and the four comment
  routes list their guards in a fixed order. The first guard that does not
  call `next()` decides the response, and nothing after it runs.
- **Controllers.** Post creation, comment creation and the comment count.
  Each creation handler checks the sanitized text. It then either answers 400
  and writes nothing, or stores exactly one record under a fresh id and
  answers with a message and a URI.
- **`makePostList`.** It folds a list of posts into an object keyed by post id.

Layout, one module per source file:

- `domain.dfy` holds the entities, the request context, the outcomes and the
  `Store` class. The store's four collections are maps keyed by id.
- `auth.dfy`, `groups.dfy`, `posts.dfy`, `comments.dfy` and `users.dfy` hold
  the guards.
- `pipeline.dfy` holds the guard runner and its composition lemmas.
- `posts_routes.dfy` and `comments_routes.dfy` hold the route pipelines and
  their precedence lemmas.
- `validation.dfy`, `posts_controller.dfy` and `comments_controller.dfy` hold
  the controllers.
- `decimal.dfy` writes the count in the comment-count message.
- `post_list.dfy` holds `makePostList`.

A guard is a function from the request context to an `Outcome`:
`Next(req')`, `Respond(response)` or `Throw(error)`. The two handlers that
save a document are module-level methods that take the `Store` as a
parameter. Their frames name only the collection they write.

Three library routines are not modelled. They are fields of an `Env` record
of total functions: Mongoose's `isValidObjectId`, and express-validator's
`trim` and `escape`.

The session user that Passport attaches (configs/passport.ts:46-55) has an
ObjectId object as its `id`. A request counts as authenticated exactly when
that user is present. When Mongoose stores this id in a String path, or looks
it up in an array of strings, it uses the id's string form.

## Model

| member | source | states |
|---|---|---|
| `AuthMiddleware.IsAuthenticated` | middleware/auth.ts:3-9 | A signed-in request passes unchanged. Any other gets 401 "User authentication required" and does not reach `next`. |
| `GroupMiddleware.IsValidGroupId` | middleware/groups.ts:9-16 | Passes exactly when `groupId` is a valid ObjectId, with no lookup. Otherwise 400 "Invalid group id". |
| `GroupMiddleware.CheckAndAddToRequest` | middleware/groups.ts:19-32 | Passes exactly when a group is stored under `groupId`. Only `req.group` changes, and it becomes that group. Otherwise 404 "No group found with id {groupId}". |
| `GroupMiddleware.CheckIfGroupMember` | middleware/groups.ts:34-53 | A missing user or group throws the source's two error messages. Otherwise it passes if and only if the user's id is in `members`. A non-member, banned or not, gets 403 "{username} is not a member of {group name} group". |
| `GroupMiddleware.CheckIfGroupAdmin` | middleware/groups.ts:55-74 | The corrected admin check. It passes if and only if `admin` equals the user's id, whatever `members` and `mods` hold. Otherwise 403 "Only group admin can make this request". A missing user or group throws. |
| `GroupMiddleware.CheckIfGroupAdminAsWritten` | middleware/groups.ts:55-74 | The check as written. A request with both a user and a group always gets 403, because `!==` compares the stored string with the session's ObjectId. |
| `GroupMiddleware.AdminRefusedAsWritten` | middleware/groups.ts:65-71 | The group's own admin is refused by the check as written and passed by the corrected one. |
| `PostMiddleware.IsValidPostId` | middleware/posts.ts:7-14 | Passes exactly when `postId` is a valid ObjectId. Otherwise 400 "Invalid post id". |
| `PostMiddleware.CheckAndAddToRequest` | middleware/posts.ts:17-30 | Passes exactly when a post is stored under `postId`. Only `req.post` changes. Otherwise 404 "No post found with id {postId}". |
| `CommentMiddleware.IsValidCommentId` | middleware/comments.ts:9-16 | Passes exactly when `commentId` is a valid ObjectId. Otherwise 400 "Invalid comment id". |
| `CommentMiddleware.CheckAndAddToRequest` | middleware/comments.ts:19-32 | Passes exactly when a comment is stored under `commentId`. Only `req.comment` changes. Otherwise 404 "No comment found with id {commentId}". |
| `UserMiddleware.IsValidUserId` | middleware/users.ts:7-14 | Passes exactly when `userId` is a valid ObjectId. Otherwise 400 "Invalid user id". |
| `UserMiddleware.Exists` | middleware/users.ts:17-26 | Passes exactly when a user is stored under `userId`. Only `req.userDocument` changes. Otherwise 404 "No user found with id {userId}". |
| `Pipeline.Step` | routes/comments.ts:13-55 | Every guard that answers writes a 400, 401, 403 or 404 with a plain message. A guard that passes keeps the session user, the parameters and the body. Only the membership and admin checks can throw. |
| `Pipeline.Run` | routes/posts.ts:11-18 | Running a handler list answers only with a guard's client-error response. A list that runs through keeps the user, the parameters and the body. |
| `Pipeline.RunConcat` | routes/comments.ts:35-44 | Running two lists in a row is running their concatenation. A stop in the first list means the second never runs. |
| `Pipeline.FirstStopDecides` | routes/posts.ts:11-18 | If every guard before position i passes and guard i stops, the whole list gives guard i's response, whatever follows. |
| `Pipeline.GroupScopeLadder` | routes/comments.ts:13-55 | For the prefix auth, then group id, then group lookup: 401 comes before 400, and 400 before 404, even on a malformed id. A request the prefix stops gets the prefix's response whatever follows. A request it passes goes on with the group attached. |
| `PostsRoutes.NewPostLadder` | routes/posts.ts:11-18 | POST `/`: 401, then 400, then 404, then 403 for a non-member. A member reaches the controller with the group attached. |
| `PostsRoutes.CreatePost` | routes/posts.ts:11-18 | The route end to end never throws. A guard's stop is the response, and the post collection is unchanged. Any answer other than 201 leaves the collection unchanged. A signed-in member of a stored group, with a valid group id and text of 1 to 50000 characters once sanitized, gets 201. A request that passes the guards with text that is empty or over 50000 characters once sanitized gets the 400 invalid-input answer, and the collection is unchanged. A 201 means the user is a member of the path's group and the sanitized text had 1 to 50000 characters, and exactly one post was added under the new id, and every other post is as it was. The new post is in the path's group and by the acting user. It holds the sanitized text and the creation time, with empty `likes` and `comments` and no title, image or sticky flag. Its URI is "groups/{groupId}/posts/{newId}". |
| `CommentsRoutes.PostScopeLadder` | routes/comments.ts:18-19 | The post guards: 400 for a malformed post id comes before 404 for an absent post. A found post is attached. |
| `CommentsRoutes.ReadRoutesLadder` | routes/comments.ts:13-32 | GET `/count` and GET `/` run the same guards and never check membership. Once the group is resolved, only the post id decides. |
| `CommentsRoutes.PostOfAnotherGroupPasses` | middleware/posts.ts:22-28 | A post stored under a different group still passes the guards of GET `/count` and is attached. |
| `CommentsRoutes.NewCommentLadder` | routes/comments.ts:35-44 | POST `/`: membership is checked after the group lookup and before the post id. A non-member gets 403 whatever the post id. A member then gets 400 or 404 from the post guards, or passes with group and post attached. |
| `CommentsRoutes.DeleteLadder` | routes/comments.ts:47-55 | DELETE `/:commentId`: once the group is resolved, only the comment id decides (400, 404, or pass with the comment attached). The post id and membership are never checked. |
| `CommentsRoutes.NoGuardThrows` | routes/comments.ts:13-55 | The guards of none of the four comment routes can throw. |
| `CommentsRoutes.CountComments` | routes/comments.ts:13-21 | GET `/count` end to end never throws. A guard's stop is the response. A signed-in request with a valid id of a stored group and a valid id of a stored post gets 200. A 200 reports the number of stored comments whose `post` is the path's post id, with the matching message. |
| `CommentsRoutes.CreateComment` | routes/comments.ts:35-44 | POST `/` end to end never throws. A stopped or invalid request leaves the comment collection unchanged. A signed-in member of a stored group, naming a stored post by a valid id, with text of 1 to 20000 characters once sanitized, gets 200. A request that passes the guards with text that is empty or over 20000 characters once sanitized gets the 400 invalid-input answer, and the collection is unchanged. A 200 means the user is a member of the path's group and the sanitized text had 1 to 20000 characters, and exactly one comment was added under the new id, and every other comment is as it was. The new comment is on the path's post, by the acting user, with the sanitized text and the creation time. The post's count grew by one. |
| `Validation.CheckText` | controllers/postsController.ts:12-33 | The text is trimmed and then escaped. It passes if and only if the result has 1 to `max` characters, and then the body holds the sanitized text. Otherwise 400 "Invalid input - check each field for errors". The `text` error is "Text required" when empty, else the length message. |
| `PostsController.ValidatePostText` | controllers/postsController.ts:12-33 | Post text passes if and only if, once sanitized, it has 1 to 50000 characters. Otherwise 400 with the invalid-input message. |
| `PostsController.PostNewPost` | controllers/postsController.ts:11-69 | Failed validation, a missing group, or a missing user (checked in that order) writes nothing. Otherwise exactly one post is added under the new id and no other post changes. Its author is the user's id and its group is the group's id. It holds the sanitized text and empty `likes` and `comments`. The answer is 201 "New post added to {group name} group" with the new id and URI. |
| `CommentsController.CountMessage` | controllers/commentsController.ts:21-24 | The message starts "Post has ". It ends in " comment" exactly when the count is 1, and in " comments" otherwise. |
| `CommentsController.CountMessageReadsBack` | controllers/commentsController.ts:21-24 | The number written in the message reads back as the count and has no leading zero. |
| `CommentsController.OneCommentMessage` | controllers/commentsController.ts:21-24 | A count of one gives exactly "Post has 1 comment". |
| `CommentsController.GetCommentCount` | controllers/commentsController.ts:11-32 | A missing group, then a missing post, throws. Otherwise 200 with the number of stored comments whose `post` is the attached post's id. Being a function, it changes nothing. |
| `CommentsController.CountAfterSave` | controllers/commentsController.ts:68-77 | Storing a comment under a fresh id adds one to its own post's count and leaves every other post's count as it was. |
| `CommentsController.ValidateCommentText` | controllers/commentsController.ts:36-54 | Comment text passes if and only if, once sanitized, it has 1 to 20000 characters. Otherwise 400 with the invalid-input message. |
| `CommentsController.PostNewComment` | controllers/commentsController.ts:35-89 | Failed validation, or a missing user, group or post (checked in that order), writes nothing. Otherwise exactly one comment is added under the new id: by the user, on the attached post, with the sanitized text. The answer is 200 "Comment created successfully" with URI "/groups/{group id}/posts/{post id}/comments/{new id}". |
| `Decimal.NatToString` | controllers/commentsController.ts:22 | The count is written as a non-empty string of digits with no leading zero. |
| `Decimal.ValueOfNatToString` | controllers/commentsController.ts:22 | Reading that numeral back gives the count. |
| `PostListUtil.EntryOf` | util/posts.ts:12-22 | The entry of a post is filed under that post's own id. |
| `PostListUtil.MakePostList` | util/posts.ts:5-25 | The loop builds the object that assigning each post in turn gives. Its keys are exactly the input ids, each entry's `id` is its key, and an empty input gives no entries. There are at most as many entries as posts. The last post with a given id wins, and keys follow the first occurrence of their ids. |
| `PostListUtil.CollectedKeys` | util/posts.ts:8-12 | The keys are exactly the input post ids, each listed once, and each entry's `id` equals its key. |
| `PostListUtil.CollectedLastWins` | util/posts.ts:8-12 | When ids repeat, the entry holds the last post with that id. |
| `PostListUtil.CollectedOrder` | util/posts.ts:8-12 | Keys are in the order their ids first occur in the input. |
| `PostListUtil.FirstKeyIsFirstPost` | util/posts.ts:8-12 | For a non-empty input, the first key is the first post's id. |
| `PostListUtil.CollectedSize` | util/posts.ts:7-24 | The entry count is at most the input length, and equal to it when ids are distinct. |

## Findings

| source | as written | input that shows it | evidently intended | confidence | as-written member | corrected member |
|---|---|---|---|---|---|---|
| middleware/groups.ts:65 | `group.admin !== userInfo.id` compares the stored admin id, a string, with `req.user.id`. The session deserializer sets that id to the document's ObjectId object (configs/passport.ts:51). Strict inequality between a string and an object is always true. | The group's own admin, signed in, on a route that uses the check. They get 403 "Only group admin can make this request". | The admin passes and everyone else gets 403. | not executed; medium (it rests on `req.user.id` staying an ObjectId, as configs/passport.ts:51 sets it) | `GroupMiddleware.CheckIfGroupAdminAsWritten`, shown by `GroupMiddleware.AdminRefusedAsWritten` | `GroupMiddleware.CheckIfGroupAdmin` (the pipeline's `GroupAdmin` guard uses it) |

## Left out

- Mongoose persistence is a map per collection. Save failures and the 500 answers they lead to are not modelled: "Error adding new post" (controllers/postsController.ts:64-66), "Error creating new comment" and "Error getting comment count". Neither are query cast errors or the database-connection check (app.ts:60-68).
- Mongoose schema validation is not modelled. In particular, models/post.ts:10 requires `title`, but the post handler never sets one. The post schema also has no `comments` path, so a real save would drop it. As written, then, every `newPost.save()` fails validation and the route answers 500 "Error adding new post" (controllers/postsController.ts:64-66) where the model answers 201. The model stores the record the handler builds.
- Lookups by id find a document under the path parameter exactly as given (`groupId in db.groups` and the like). `findById` first casts the parameter to an ObjectId, so an upper-case hex id, or a 12-character string, finds the document stored under its canonical form, while the model answers 404. The lookups assume the parameter already is the canonical lower-case 24-digit id.
- `Validation.CheckText`: the 400 answer's `errors` keeps only each field's message. The source sends `validationErrors.mapped()`, whose entry for a field is the whole first error object (`type`, `value`, `msg`, `path`, `location`).
- New ObjectIds and `new Date()` are the parameters `newId` and `now`. That a generated id is new is a precondition (`newId !in store.posts`).
- `isValidObjectId`, `trim` and `escape` stay open (`Env`). Their character-level rules are library code. Length is the number of characters in the model's string. This only approximates the validator's `isLength`, which counts UTF-16 code units less surrogate pairs and, in some releases, leaves out variation selectors. An absent `text` field is treated as the empty string; both give "Text required".
- Attaching a document to the request is a record update threaded from guard to guard. The in-place mutation of the shared request object, and any aliasing of it, are not captured.
- A thrown error is the outcome `Throw(message)`. The application error handler (app.ts:85-98) that turns it into a 500 is not modelled, and neither is the async sequencing.
- `getAllComments` and `deleteComment` (routes/comments.ts:31,54) are not part of this model: they are referenced but not defined. Those two routes are modelled up to their controller.
- The user guards are modelled, but no route in routes/ uses them (routes/users.ts only wires one inline handler that echoes the body). That handler and the group routes are not modelled.
- app.ts does not mount the comment router. The model takes the parameters `groupId` and `postId` as the comment routes' tests supply them. Route parameters are always strings; an undefined parameter is not modelled.
- models/group.ts:12 registers the group schema under the model name "User", which clashes with the user model at models/user.ts:19. The model assumes a working group collection that the group lookups read.
- Groups have no `banned` field: neither the group interface nor the schema declares one. A banned user who is not in `members` is a plain non-member.
- `PostListUtil.MakePostList`: keys are kept in insertion order. JavaScript lists array-index keys first, but a 24-character ObjectId string is never one.
- Comment creation answers 200, as the source does, although one test expects 201.
- Image upload, the 413 file-size answer, Firebase storage, likes, moderation, follows and bans are not modelled. No controller implements them.
