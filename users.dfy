/** The user guards: id shape and existence (attaching the user document). */
module UserMiddleware {
  import opened Domain

  const InvalidUserId := "Invalid user id"

  function NotFound(userId: string): string
  {
    "No user found with id " + userId
  }

  function IsValidUserId(env: Env, req: Request): (o: Outcome)
    ensures o.Next? <==> env.isValidObjectId(req.params.userId)
    ensures o.Next? ==> o.req == req
    ensures !o.Next? ==> o == Reply(400, InvalidUserId)
  {
    RequireObjectId(env, req.params.userId, InvalidUserId, req)
  }

  function Exists(db: Db, req: Request): (o: Outcome)
    ensures o.Next? <==> req.params.userId in db.users
    ensures o.Next? ==> o.req == req.(userDocument := Some(db.users[req.params.userId]))
    ensures !o.Next? ==> o == Reply(404, NotFound(req.params.userId))
  {
    var userId := req.params.userId;
    if userId !in db.users then Reply(404, NotFound(userId))
    else Next(req.(userDocument := Some(db.users[userId])))
  }
}
