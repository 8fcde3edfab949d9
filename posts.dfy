/** The post guards: id shape and existence (attaching the post document). */
module PostMiddleware {
  import opened Domain

  const InvalidPostId := "Invalid post id"

  function NotFound(postId: string): string
  {
    "No post found with id " + postId
  }

  function IsValidPostId(env: Env, req: Request): (o: Outcome)
    ensures o.Next? <==> env.isValidObjectId(req.params.postId)
    ensures o.Next? ==> o.req == req
    ensures !o.Next? ==> o == Reply(400, InvalidPostId)
  {
    RequireObjectId(env, req.params.postId, InvalidPostId, req)
  }

  /** Looks the post up by `postId` alone: whether the post belongs to the
      group in the path is not checked. */
  function CheckAndAddToRequest(db: Db, req: Request): (o: Outcome)
    ensures o.Next? <==> req.params.postId in db.posts
    ensures o.Next? ==> o.req == req.(post := Some(db.posts[req.params.postId]))
    ensures !o.Next? ==> o == Reply(404, NotFound(req.params.postId))
  {
    var postId := req.params.postId;
    if postId !in db.posts then Reply(404, NotFound(postId))
    else Next(req.(post := Some(db.posts[postId])))
  }
}
