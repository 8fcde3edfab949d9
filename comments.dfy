/** The comment guards: id shape and existence (attaching the comment document). */
module CommentMiddleware {
  import opened Domain

  const InvalidCommentId := "Invalid comment id"

  function NotFound(commentId: string): string
  {
    "No comment found with id " + commentId
  }

  function IsValidCommentId(env: Env, req: Request): (o: Outcome)
    ensures o.Next? <==> env.isValidObjectId(req.params.commentId)
    ensures o.Next? ==> o.req == req
    ensures !o.Next? ==> o == Reply(400, InvalidCommentId)
  {
    RequireObjectId(env, req.params.commentId, InvalidCommentId, req)
  }

  function CheckAndAddToRequest(db: Db, req: Request): (o: Outcome)
    ensures o.Next? <==> req.params.commentId in db.comments
    ensures o.Next? ==> o.req == req.(comment := Some(db.comments[req.params.commentId]))
    ensures !o.Next? ==> o == Reply(404, NotFound(req.params.commentId))
  {
    var commentId := req.params.commentId;
    if commentId !in db.comments then Reply(404, NotFound(commentId))
    else Next(req.(comment := Some(db.comments[commentId])))
  }
}
