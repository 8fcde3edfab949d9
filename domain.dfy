/**
 * The entities of the forum backend as the request handlers see them: the
 * documents of the four collections, the session user that Passport attaches
 * to a request, the request context the middleware chain threads from guard to
 * guard, and the responses the handlers write.
 */
module Domain {

  datatype Option<+T> = None | Some(value: T)

  /** A MongoDB ObjectId as an object (not a string); `hex` is what its
      `toString()` gives. */
  datatype ObjectId = ObjectId(hex: string)

  /** The user snapshot Passport's deserializer attaches as `req.user`: its
      `id` is the document's `_id`, an ObjectId, not a string. */
  datatype SessionUser = SessionUser(id: ObjectId, username: string)

  /** The string form of the acting user's id, as Mongoose casts it when it
      is stored in a String path or searched for in an array of strings. */
  function ActorId(u: SessionUser): string
  {
    u.id.hex
  }

  datatype User = User(id: string, username: string, name: string,
                       followers: seq<string>, following: seq<string>)

  /** A group document; `admin`, `mods` and `members` hold user ids. */
  datatype Group = Group(id: string, name: string, admin: string,
                         mods: seq<string>, members: seq<string>)

  /** A post document. `title` and `sticky` are read by the post-list helper
      although the handler that creates posts never sets them. */
  datatype Post = Post(id: string, author: string, timestamp: int, text: string,
                       title: Option<string>, group: string, image: Option<string>,
                       comments: seq<string>, likes: seq<string>, sticky: Option<bool>)

  datatype Comment = Comment(id: string, author: string, timestamp: int,
                             text: string, post: string)

  /** The route parameters. Every modelled route binds each parameter it reads. */
  datatype Params = Params(groupId: string, postId: string, commentId: string, userId: string)

  /** The form body; an absent `text` field is the empty string. */
  datatype Body = Body(text: string)

  /** The request context: the session user (present exactly when the request
      is authenticated), the route parameters, the body, and the documents
      the lookup guards attach. */
  datatype Request = Request(user: Option<SessionUser>, params: Params, body: Body,
                             group: Option<Group>, post: Option<Post>,
                             comment: Option<Comment>, userDocument: Option<User>)

  /** The JSON bodies the handlers write; each carries a `message`. */
  datatype Payload =
    | Message(message: string)
    | Invalid(message: string, errors: map<string, string>)
    | PostCreated(message: string, id: string, uri: string)
    | CommentCreated(message: string, uri: string)
    | CommentCount(message: string, count: nat)

  datatype Response = Response(status: int, payload: Payload)

  /** What one handler of the chain does: call `next()` with the (possibly
      augmented) request, write a response, or throw an error that the
      async wrapper forwards to the application's error handler. */
  datatype Outcome = Next(req: Request) | Respond(res: Response) | Throw(error: string)

  /** The errors thrown when a handler finds no session user or no attached
      group, shared by the group checks and the post-creation handler. */
  const AuthUserInfoError := "Error deserializing authenticated user's info"
  const GroupInfoError := "Error getting group info from database"

  function Reply(status: int, message: string): (o: Outcome)
    ensures o.Respond? && o.res.status == status && o.res.payload.message == message
  {
    Respond(Response(status, Message(message)))
  }

  /** A JavaScript operand of `===` / `!==`: a string primitive or an
      ObjectId object. */
  datatype JsValue = JsString(s: string) | JsObjectId(oid: ObjectId)

  /** Strict equality never converts: a string is never identical to an
      object, and two ObjectId objects are identical only when they are the
      same instance, which two separately loaded values never are. */
  function StrictlyEqual(a: JsValue, b: JsValue): (r: bool)
    ensures r ==> a.JsString? && b.JsString?
  {
    a.JsString? && b.JsString? && a.s == b.s
  }

  /** The shape every id guard shares: `next()` when Mongoose's
      `isValidObjectId` accepts the parameter, otherwise a 400 with `message`. */
  function RequireObjectId(env: Env, id: string, message: string, req: Request): (o: Outcome)
    ensures o.Next? <==> env.isValidObjectId(id)
    ensures o.Next? ==> o.req == req
    ensures !o.Next? ==> o == Reply(400, message)
  {
    if !env.isValidObjectId(id) then Reply(400, message) else Next(req)
  }

  /** The library routines the handlers call but the model leaves open:
      Mongoose's `isValidObjectId` and express-validator's `trim` and
      `escape` sanitizers. */
  datatype Env = Env(isValidObjectId: string -> bool, trim: string -> string,
                     escape: string -> string)

  /** The four collections, each keyed by document id. */
  datatype Db = Db(groups: map<string, Group>, posts: map<string, Post>,
                   comments: map<string, Comment>, users: map<string, User>)

  /** Every stored document sits under its own id. */
  ghost predicate Keyed(db: Db)
  {
    && (forall k :: k in db.groups ==> db.groups[k].id == k)
    && (forall k :: k in db.posts ==> db.posts[k].id == k)
    && (forall k :: k in db.comments ==> db.comments[k].id == k)
    && (forall k :: k in db.users ==> db.users[k].id == k)
  }

  /** The database as mutable state: saving a document replaces the map of its
      collection. */
  class Store {
    var groups: map<string, Group>
    var posts: map<string, Post>
    var comments: map<string, Comment>
    var users: map<string, User>

    ghost predicate Valid()
      reads this
    {
      Keyed(Snapshot())
    }

    function Snapshot(): Db
      reads this
    {
      Db(groups, posts, comments, users)
    }

    constructor (db: Db)
      requires Keyed(db)
      ensures Valid() && Snapshot() == db
    {
      groups, posts, comments, users := db.groups, db.posts, db.comments, db.users;
    }
  }
}
