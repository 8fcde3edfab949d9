/** The authentication gate every modelled route starts with. */
module AuthMiddleware {
  import opened Domain

  const AuthenticationRequired := "User authentication required"

  /** `req.isAuthenticated()` holds exactly when Passport attached a session
      user; an anonymous request is answered with 401 and goes no further. */
  function IsAuthenticated(req: Request): (o: Outcome)
    ensures o.Next? <==> req.user.Some?
    ensures o.Next? ==> o.req == req
    ensures !o.Next? ==> o == Reply(401, AuthenticationRequired)
  {
    if req.user.None? then Reply(401, AuthenticationRequired) else Next(req)
  }
}
