/**
 * A route is an ordered list of handlers; Express calls the first, and each
 * one either calls `next()`, handing the request on to the following one, or
 * ends the request. This module names the guards, runs a list of them with
 * that short-circuit, and proves how the result of a list is made up of the
 * results of its parts.
 */
module Pipeline {
  import opened Domain
  import AuthMiddleware
  import GroupMiddleware
  import PostMiddleware
  import CommentMiddleware
  import UserMiddleware

  datatype Guard =
    | Authenticated
    | ValidGroupId | GroupFound | GroupMember | GroupAdmin
    | ValidPostId | PostFound
    | ValidCommentId | CommentFound
    | ValidUserId | UserFound

  /** A response a guard writes: a client error with a plain message. */
  predicate IsGuardResponse(res: Response)
  {
    res.status in {400, 401, 403, 404} && res.payload.Message?
  }

  /** What a guard may change in a request it hands on: only the documents it
      attaches. The session user, the path parameters and the body stay. */
  predicate SameOrigin(req: Request, req': Request)
  {
    req'.user == req.user && req'.params == req.params && req'.body == req.body
  }

  /** One guard on one request. Every guard is the code as written except
      `GroupAdmin`, which runs the corrected admin check; the as-written one
      refuses every request that reaches it. */
  function Step(env: Env, db: Db, g: Guard, req: Request): (o: Outcome)
    ensures o.Respond? ==> IsGuardResponse(o.res)
    ensures o.Next? ==> SameOrigin(req, o.req)
    ensures o.Throw? ==> g in {GroupMember, GroupAdmin}
  {
    match g
    case Authenticated => AuthMiddleware.IsAuthenticated(req)
    case ValidGroupId => GroupMiddleware.IsValidGroupId(env, req)
    case GroupFound => GroupMiddleware.CheckAndAddToRequest(db, req)
    case GroupMember => GroupMiddleware.CheckIfGroupMember(req)
    case GroupAdmin => GroupMiddleware.CheckIfGroupAdmin(req)
    case ValidPostId => PostMiddleware.IsValidPostId(env, req)
    case PostFound => PostMiddleware.CheckAndAddToRequest(db, req)
    case ValidCommentId => CommentMiddleware.IsValidCommentId(env, req)
    case CommentFound => CommentMiddleware.CheckAndAddToRequest(db, req)
    case ValidUserId => UserMiddleware.IsValidUserId(env, req)
    case UserFound => UserMiddleware.Exists(db, req)
  }

  /** Runs the guards in order; the first one that does not call `next()`
      decides the outcome and no later guard runs. A list that runs to its
      end hands the request on to whatever follows it, and whatever ends
      the request early ends it with a guard's own client-error response or
      an internal error. */
  function Run(env: Env, db: Db, gs: seq<Guard>, req: Request): (o: Outcome)
    decreases |gs|
    ensures o.Respond? ==> IsGuardResponse(o.res)
    ensures o.Next? ==> SameOrigin(req, o.req)
  {
    if gs == [] then Next(req)
    else
      match Step(env, db, gs[0], req)
      case Next(req') => Run(env, db, gs[1..], req')
      case stop => stop
  }

  /** Hands an outcome on to a further list of guards if it is a `next()`. */
  function Then(env: Env, db: Db, o: Outcome, gs: seq<Guard>): Outcome
  {
    match o
    case Next(req) => Run(env, db, gs, req)
    case stop => stop
  }

  /** Running two lists one after the other is running their concatenation. */
  lemma {:induction false} RunConcat(env: Env, db: Db, gs1: seq<Guard>, gs2: seq<Guard>, req: Request)
    ensures Run(env, db, gs1 + gs2, req) == Then(env, db, Run(env, db, gs1, req), gs2)
    decreases |gs1|
  {
    if gs1 == [] {
      assert gs1 + gs2 == gs2;
    } else {
      assert (gs1 + gs2)[0] == gs1[0];
      assert (gs1 + gs2)[1..] == gs1[1..] + gs2;
      match Step(env, db, gs1[0], req)
      case Next(req') => RunConcat(env, db, gs1[1..], gs2, req');
      case _ =>
    }
  }

  /** The first guard that stops decides: if the guards before position `i`
      all hand on, ending with `req'`, and guard `i` stops on `req'`, the
      whole list stops exactly so, whatever comes after. */
  lemma FirstStopDecides(env: Env, db: Db, gs: seq<Guard>, i: nat, req: Request, req': Request)
    requires i < |gs|
    requires Run(env, db, gs[..i], req) == Next(req')
    requires !Step(env, db, gs[i], req').Next?
    ensures Run(env, db, gs, req) == Step(env, db, gs[i], req')
  {
    assert gs == gs[..i] + gs[i..];
    RunConcat(env, db, gs[..i], gs[i..], req);
  }

  /** The prefix every modelled route starts with: authentication, then the
      group id's shape, then the group's existence. */
  const GroupScope: seq<Guard> := [Authenticated, ValidGroupId, GroupFound]

  /** A request the prefix lets through: signed in, a well-formed group id,
      and a stored group under it. */
  predicate GroupResolved(env: Env, db: Db, req: Request)
  {
    req.user.Some? && env.isValidObjectId(req.params.groupId) && req.params.groupId in db.groups
  }

  /** The request as the prefix hands it on: with the group attached. */
  function WithGroup(db: Db, req: Request): Request
    requires req.params.groupId in db.groups
  {
    req.(group := Some(db.groups[req.params.groupId]))
  }

  /** The precedence the prefix fixes: 401 before 400 before 404, and a
      request that passes all three continues with the group attached. A
      request the prefix stops gets the prefix's own response, whatever
      follows it. */
  lemma GroupScopeLadder(env: Env, db: Db, rest: seq<Guard>, req: Request)
    ensures !GroupResolved(env, db, req) ==>
              var o := Run(env, db, GroupScope, req);
              !o.Next? && Run(env, db, GroupScope + rest, req) == o
    ensures var o := Run(env, db, GroupScope + rest, req);
            var groupId := req.params.groupId;
            && (req.user.None? ==>
                  o == Reply(401, AuthMiddleware.AuthenticationRequired))
            && (req.user.Some? && !env.isValidObjectId(groupId) ==>
                  o == Reply(400, GroupMiddleware.InvalidGroupId))
            && (req.user.Some? && env.isValidObjectId(groupId) && groupId !in db.groups ==>
                  o == Reply(404, GroupMiddleware.NotFound(groupId)))
            && (req.user.Some? && env.isValidObjectId(groupId) && groupId in db.groups ==>
                  o == Run(env, db, rest, req.(group := Some(db.groups[groupId]))))
  {
    RunConcat(env, db, GroupScope, rest, req);
    assert GroupScope[1..] == [ValidGroupId, GroupFound];
    assert GroupScope[1..][1..] == [GroupFound];
    assert GroupScope[1..][1..][1..] == [];
  }
}
