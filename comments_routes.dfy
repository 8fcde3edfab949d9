/**
 * The comment routes under /groups/:groupId/posts/:postId/comments. All four
 * start with authentication, the group id's shape and the group's existence;
 * they differ in what follows.
 */
module CommentsRoutes {
  import opened Domain
  import opened Pipeline
  import GroupMiddleware
  import PostMiddleware
  import CommentMiddleware
  import CommentsController
  import Validation

  /** The post id's shape, then the post's existence. */
  const PostScope: seq<Guard> := [ValidPostId, PostFound]

  /** GET /count */
  const CountGuards: seq<Guard> := GroupScope + PostScope
  /** GET / */
  const ListGuards: seq<Guard> := GroupScope + PostScope
  /** POST /: membership is checked before the post id. */
  const NewCommentGuards: seq<Guard> := GroupScope + [GroupMember] + PostScope
  /** DELETE /:commentId: neither the post id nor membership is checked. */
  const DeleteGuards: seq<Guard> := GroupScope + [ValidCommentId, CommentFound]

  /** The two post guards: 400 for a malformed post id before 404 for an
      absent post; a stored post is attached and nothing else changes. */
  lemma PostScopeLadder(env: Env, db: Db, req: Request)
    ensures var o := Run(env, db, PostScope, req);
            var postId := req.params.postId;
            && (!env.isValidObjectId(postId) ==> o == Reply(400, PostMiddleware.InvalidPostId))
            && (env.isValidObjectId(postId) && postId !in db.posts ==>
                  o == Reply(404, PostMiddleware.NotFound(postId)))
            && (env.isValidObjectId(postId) && postId in db.posts ==>
                  o == Next(req.(post := Some(db.posts[postId]))))
  {
    assert PostScope[1..] == [PostFound];
    assert PostScope[1..][1..] == [];
  }

  /** GET /count and GET / run the same guards, and neither checks
      membership: once the group is resolved only the post id decides. */
  lemma ReadRoutesLadder(env: Env, db: Db, req: Request)
    ensures ListGuards == CountGuards
    ensures !GroupResolved(env, db, req) ==>
              Run(env, db, CountGuards, req) == Run(env, db, GroupScope, req)
    ensures GroupResolved(env, db, req) ==>
              var o := Run(env, db, CountGuards, req);
              var postId := req.params.postId;
              && (!env.isValidObjectId(postId) ==> o == Reply(400, PostMiddleware.InvalidPostId))
              && (env.isValidObjectId(postId) && postId !in db.posts ==>
                    o == Reply(404, PostMiddleware.NotFound(postId)))
              && (env.isValidObjectId(postId) && postId in db.posts ==>
                    o == Next(WithGroup(db, req).(post := Some(db.posts[postId]))))
  {
    GroupScopeLadder(env, db, PostScope, req);
    if GroupResolved(env, db, req) {
      PostScopeLadder(env, db, WithGroup(db, req));
    }
  }

  /** The post lookup uses the post id alone: a post stored under another
      group still passes the guards of GET /count and is attached. */
  lemma PostOfAnotherGroupPasses(env: Env, db: Db, req: Request)
    requires GroupResolved(env, db, req)
    requires env.isValidObjectId(req.params.postId) && req.params.postId in db.posts
    requires db.posts[req.params.postId].group != req.params.groupId
    ensures Run(env, db, CountGuards, req).Next?
    ensures Run(env, db, CountGuards, req).req.post == Some(db.posts[req.params.postId])
  {
    ReadRoutesLadder(env, db, req);
  }

  /** POST /: a non-member of a resolved group gets 403 whatever the post id
      is; a member then meets the post guards. */
  lemma NewCommentLadder(env: Env, db: Db, req: Request)
    ensures !GroupResolved(env, db, req) ==>
              Run(env, db, NewCommentGuards, req) == Run(env, db, GroupScope, req)
    ensures GroupResolved(env, db, req) ==>
              var o := Run(env, db, NewCommentGuards, req);
              var group := db.groups[req.params.groupId];
              var user := req.user.value;
              var postId := req.params.postId;
              && (ActorId(user) !in group.members ==>
                    o == Reply(403, GroupMiddleware.NotAMember(user.username, group.name)))
              && (ActorId(user) in group.members ==>
                    && (!env.isValidObjectId(postId) ==> o == Reply(400, PostMiddleware.InvalidPostId))
                    && (env.isValidObjectId(postId) && postId !in db.posts ==>
                          o == Reply(404, PostMiddleware.NotFound(postId)))
                    && (env.isValidObjectId(postId) && postId in db.posts ==>
                          o == Next(WithGroup(db, req).(post := Some(db.posts[postId])))))
  {
    assert NewCommentGuards == GroupScope + ([GroupMember] + PostScope);
    GroupScopeLadder(env, db, [GroupMember] + PostScope, req);
    if GroupResolved(env, db, req) {
      var req' := WithGroup(db, req);
      RunConcat(env, db, [GroupMember], PostScope, req');
      PostScopeLadder(env, db, req');
    }
  }

  /** DELETE /:commentId: once the group is resolved only the comment id
      decides; the post id and membership play no part. */
  lemma DeleteLadder(env: Env, db: Db, req: Request)
    ensures !GroupResolved(env, db, req) ==>
              Run(env, db, DeleteGuards, req) == Run(env, db, GroupScope, req)
    ensures GroupResolved(env, db, req) ==>
              var o := Run(env, db, DeleteGuards, req);
              var commentId := req.params.commentId;
              && (!env.isValidObjectId(commentId) ==> o == Reply(400, CommentMiddleware.InvalidCommentId))
              && (env.isValidObjectId(commentId) && commentId !in db.comments ==>
                    o == Reply(404, CommentMiddleware.NotFound(commentId)))
              && (env.isValidObjectId(commentId) && commentId in db.comments ==>
                    o == Next(WithGroup(db, req).(comment := Some(db.comments[commentId]))))
  {
    GroupScopeLadder(env, db, [ValidCommentId, CommentFound], req);
    assert [ValidCommentId, CommentFound][1..] == [CommentFound];
  }

  /** No comment route's guards ever throw: the membership check, the only
      guard here that can, always finds the user and the group attached. */
  lemma NoGuardThrows(env: Env, db: Db, req: Request)
    ensures !Run(env, db, CountGuards, req).Throw?
    ensures !Run(env, db, ListGuards, req).Throw?
    ensures !Run(env, db, NewCommentGuards, req).Throw?
    ensures !Run(env, db, DeleteGuards, req).Throw?
  {
    GroupScopeLadder(env, db, [], req);
    assert GroupScope + [] == GroupScope;
    ReadRoutesLadder(env, db, req);
    NewCommentLadder(env, db, req);
    DeleteLadder(env, db, req);
  }

  /** GET /count end to end: the guards, then the count handler. It never
      throws; a request the guards let through gets 200, and a 200 reports
      the number of stored comments on the post named in the path. */
  function CountComments(env: Env, db: Db, req: Request): (o: Outcome)
    ensures !o.Throw?
    ensures var pre := Run(env, db, CountGuards, req);
            !pre.Next? ==> o == pre
    ensures Keyed(db) && o.Respond? && o.res.status == 200 ==>
              var count := |CommentsController.CommentsOn(db.comments, req.params.postId)|;
              o.res.payload == CommentCount(CommentsController.CountMessage(count), count)
    ensures Keyed(db) && GroupResolved(env, db, req)
            && env.isValidObjectId(req.params.postId) && req.params.postId in db.posts ==>
              var count := |CommentsController.CommentsOn(db.comments, req.params.postId)|;
              o == Respond(Response(200, CommentCount(CommentsController.CountMessage(count), count)))
  {
    NoGuardThrows(env, db, req);
    ReadRoutesLadder(env, db, req);
    match Run(env, db, CountGuards, req)
    case Next(req') => CommentsController.GetCommentCount(db, req')
    case stop => stop
  }

  /** POST / end to end. A request any guard stops gets that guard's
      response and the comment collection is unchanged; so is it for a
      request that fails validation. The route never throws, and a created
      comment is by the acting user, a member of the group in the path, on
      the post named in the path. A member posting valid text on a stored
      post gets 200. */
  method CreateComment(env: Env, store: Store, req: Request, newId: string, now: int)
    returns (o: Outcome)
    requires store.Valid() && newId !in store.comments
    modifies store`comments
    ensures store.Valid()
    ensures !o.Throw?
    ensures var pre := Run(env, old(store.Snapshot()), NewCommentGuards, req);
            !pre.Next? ==> o == pre && store.comments == old(store.comments)
    ensures o.Respond? && o.res.status != 200 ==> store.comments == old(store.comments)
    ensures var pre := Run(env, old(store.Snapshot()), NewCommentGuards, req);
            pre.Next? && !(0 < |Validation.Sanitize(env, req.body.text)| <= CommentsController.MaxCommentLength)
            ==> o == CommentsController.ValidateCommentText(env, req) && store.comments == old(store.comments)
    ensures GroupResolved(env, old(store.Snapshot()), req)
            && ActorId(req.user.value) in old(store.groups)[req.params.groupId].members
            && env.isValidObjectId(req.params.postId) && req.params.postId in old(store.posts)
            && 0 < |Validation.Sanitize(env, req.body.text)| <= CommentsController.MaxCommentLength
            ==> o.Respond? && o.res.status == 200
    ensures o.Respond? && o.res.status == 200 ==>
              var postId := req.params.postId;
              && req.user.Some? && req.params.groupId in old(store.groups)
              && ActorId(req.user.value) in old(store.groups)[req.params.groupId].members
              && postId in old(store.posts)
              && 0 < |Validation.Sanitize(env, req.body.text)| <= CommentsController.MaxCommentLength
              && store.comments.Keys == old(store.comments).Keys + {newId}
              && (forall k :: k in old(store.comments) ==> store.comments[k] == old(store.comments)[k])
              && store.comments[newId]
                 == Comment(newId, ActorId(req.user.value), now, Validation.Sanitize(env, req.body.text), postId)
              && |CommentsController.CommentsOn(store.comments, postId)|
                 == |CommentsController.CommentsOn(old(store.comments), postId)| + 1
              && o.res.payload == CommentCreated(CommentsController.Created,
                   CommentsController.CommentUri(req.params.groupId, postId, newId))
  {
    NewCommentLadder(env, store.Snapshot(), req);
    NoGuardThrows(env, store.Snapshot(), req);
    var pre := Run(env, store.Snapshot(), NewCommentGuards, req);
    if !pre.Next? {
      return pre;
    }
    o := CommentsController.PostNewComment(env, store, pre.req, newId, now);
  }
}
