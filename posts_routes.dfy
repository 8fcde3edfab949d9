/**
 * POST /groups/:groupId/posts: authentication, the group id's shape, the
 * group's existence and membership, then the post-creation controller.
 */
module PostsRoutes {
  import opened Domain
  import opened Pipeline
  import AuthMiddleware
  import GroupMiddleware
  import PostsController
  import Validation

  const NewPostGuards: seq<Guard> := GroupScope + [GroupMember]

  /** The response ladder of the route's guards: 401, then 400 for a
      malformed group id, then 404 for an absent group, then 403 for a
      non-member; a member reaches the controller with the group attached. */
  lemma NewPostLadder(env: Env, db: Db, req: Request)
    ensures var o := Run(env, db, NewPostGuards, req);
            var groupId := req.params.groupId;
            && (req.user.None? ==>
                  o == Reply(401, AuthMiddleware.AuthenticationRequired))
            && (req.user.Some? && !env.isValidObjectId(groupId) ==>
                  o == Reply(400, GroupMiddleware.InvalidGroupId))
            && (req.user.Some? && env.isValidObjectId(groupId) && groupId !in db.groups ==>
                  o == Reply(404, GroupMiddleware.NotFound(groupId)))
            && (req.user.Some? && env.isValidObjectId(groupId) && groupId in db.groups ==>
                  var group := db.groups[groupId];
                  && (ActorId(req.user.value) !in group.members ==>
                        o == Reply(403, GroupMiddleware.NotAMember(req.user.value.username, group.name)))
                  && (ActorId(req.user.value) in group.members ==>
                        o == Next(req.(group := Some(group)))))
  {
    GroupScopeLadder(env, db, [GroupMember], req);
  }

  /** The route end to end. The guards read the store as it is when the
      request arrives; a request any guard stops gets that guard's response
      and the controller does not run. The route never throws: every value
      the controller needs is attached by the time it runs. A created post
      belongs to the group in the path and is written by the acting user, and
      a member of a stored group posting valid text gets 201. */
  method CreatePost(env: Env, store: Store, req: Request, newId: string, now: int)
    returns (o: Outcome)
    requires store.Valid() && newId !in store.posts
    modifies store`posts
    ensures store.Valid()
    ensures !o.Throw?
    ensures var pre := Run(env, old(store.Snapshot()), NewPostGuards, req);
            !pre.Next? ==> o == pre && store.posts == old(store.posts)
    ensures o.Respond? && o.res.status != 201 ==> store.posts == old(store.posts)
    ensures var pre := Run(env, old(store.Snapshot()), NewPostGuards, req);
            pre.Next? && !(0 < |Validation.Sanitize(env, req.body.text)| <= PostsController.MaxPostLength)
            ==> o == PostsController.ValidatePostText(env, req) && store.posts == old(store.posts)
    ensures GroupResolved(env, old(store.Snapshot()), req)
            && ActorId(req.user.value) in old(store.groups)[req.params.groupId].members
            && 0 < |Validation.Sanitize(env, req.body.text)| <= PostsController.MaxPostLength
            ==> o.Respond? && o.res.status == 201
    ensures o.Respond? && o.res.status == 201 ==>
              && req.user.Some? && req.params.groupId in old(store.groups)
              && ActorId(req.user.value) in old(store.groups)[req.params.groupId].members
              && 0 < |Validation.Sanitize(env, req.body.text)| <= PostsController.MaxPostLength
              && store.posts.Keys == old(store.posts).Keys + {newId}
              && (forall k :: k in old(store.posts) ==> store.posts[k] == old(store.posts)[k])
              && store.posts[newId].group == req.params.groupId
              && PostsController.IsNewPost(store.posts[newId], newId, req.user.value,
                   old(store.groups)[req.params.groupId], Validation.Sanitize(env, req.body.text), now)
              && o.res.payload == PostCreated(
                   PostsController.AddedMessage(old(store.groups)[req.params.groupId].name),
                   newId, PostsController.PostUri(req.params.groupId, newId))
  {
    NewPostLadder(env, store.Snapshot(), req);
    var pre := Run(env, store.Snapshot(), NewPostGuards, req);
    if !pre.Next? {
      return pre;
    }
    o := PostsController.PostNewPost(env, store, pre.req, newId, now);
  }
}
