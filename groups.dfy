/** The group guards: id shape, existence (attaching the group document),
    membership and admin checks. */
module GroupMiddleware {
  import opened Domain

  const InvalidGroupId := "Invalid group id"
  const AdminOnly := "Only group admin can make this request"

  function NotFound(groupId: string): string
  {
    "No group found with id " + groupId
  }

  function NotAMember(username: string, groupName: string): string
  {
    username + " is not a member of " + groupName + " group"
  }

  function IsValidGroupId(env: Env, req: Request): (o: Outcome)
    ensures o.Next? <==> env.isValidObjectId(req.params.groupId)
    ensures o.Next? ==> o.req == req
    ensures !o.Next? ==> o == Reply(400, InvalidGroupId)
  {
    RequireObjectId(env, req.params.groupId, InvalidGroupId, req)
  }

  /** Looks the group up by `groupId`; a hit is attached as `req.group` and
      nothing else in the request changes. */
  function CheckAndAddToRequest(db: Db, req: Request): (o: Outcome)
    ensures o.Next? <==> req.params.groupId in db.groups
    ensures o.Next? ==> o.req == req.(group := Some(db.groups[req.params.groupId]))
    ensures !o.Next? ==> o == Reply(404, NotFound(req.params.groupId))
  {
    var groupId := req.params.groupId;
    if groupId !in db.groups then Reply(404, NotFound(groupId))
    else Next(req.(group := Some(db.groups[groupId])))
  }

  /** Membership is decided by the acting user's id (in its string form, as
      Mongoose's array `includes` casts it) being listed in `members`, and by
      nothing else. A missing user or group is an internal error. */
  function CheckIfGroupMember(req: Request): (o: Outcome)
    ensures req.user.None? ==> o == Throw(AuthUserInfoError)
    ensures req.user.Some? && req.group.None? ==> o == Throw(GroupInfoError)
    ensures req.user.Some? && req.group.Some? ==>
              && (o.Next? <==> ActorId(req.user.value) in req.group.value.members)
              && (o.Next? ==> o.req == req)
              && (!o.Next? ==> o == Reply(403, NotAMember(req.user.value.username, req.group.value.name)))
  {
    if req.user.None? then Throw(AuthUserInfoError)
    else if req.group.None? then Throw(GroupInfoError)
    else
      var user, group := req.user.value, req.group.value;
      if ActorId(user) !in group.members then Reply(403, NotAMember(user.username, group.name))
      else Next(req)
  }

  /** The admin check as the comparison evidently means it: the acting user's
      id in its string form against the group's `admin`; `members` and `mods`
      play no part. */
  function CheckIfGroupAdmin(req: Request): (o: Outcome)
    ensures req.user.None? ==> o == Throw(AuthUserInfoError)
    ensures req.user.Some? && req.group.None? ==> o == Throw(GroupInfoError)
    ensures req.user.Some? && req.group.Some? ==>
              && (o.Next? <==> req.group.value.admin == ActorId(req.user.value))
              && (o.Next? ==> o.req == req)
              && (!o.Next? ==> o == Reply(403, AdminOnly))
  {
    if req.user.None? then Throw(AuthUserInfoError)
    else if req.group.None? then Throw(GroupInfoError)
    else if req.group.value.admin != ActorId(req.user.value) then Reply(403, AdminOnly)
    else Next(req)
  }

  /** The admin check as written: `group.admin !== userInfo.id` compares the
      stored string with the session user's ObjectId object, so no request,
      not even the admin's own, ever gets past it. */
  function CheckIfGroupAdminAsWritten(req: Request): (o: Outcome)
    ensures req.user.None? ==> o == Throw(AuthUserInfoError)
    ensures req.user.Some? && req.group.None? ==> o == Throw(GroupInfoError)
    ensures req.user.Some? && req.group.Some? ==> o == Reply(403, AdminOnly)
  {
    if req.user.None? then Throw(AuthUserInfoError)
    else if req.group.None? then Throw(GroupInfoError)
    else if !StrictlyEqual(JsString(req.group.value.admin), JsObjectId(req.user.value.id))
    then Reply(403, AdminOnly)
    else Next(req)
  }

  /** The group's own admin, signed in, is refused by the check as written and
      let through by the corrected one. */
  lemma AdminRefusedAsWritten(req: Request)
    requires req.user.Some? && req.group.Some?
    requires req.group.value.admin == ActorId(req.user.value)
    ensures CheckIfGroupAdminAsWritten(req) == Reply(403, AdminOnly)
    ensures CheckIfGroupAdmin(req) == Next(req)
  {
    assert !StrictlyEqual(JsString(req.group.value.admin), JsObjectId(req.user.value.id));
  }
}
