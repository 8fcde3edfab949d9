/**
 * The post-creation controller: the text rule, then the handler that builds
 * the post record, stores it under a fresh id and answers 201.
 */
module PostsController {
  import opened Domain
  import Validation

  const MaxPostLength := 50000
  const PostTooLong := "Post cannot be more than 50,000 characters"

  /** The validator chain and the check that follows it. */
  function ValidatePostText(env: Env, req: Request): (o: Outcome)
    ensures var text := Validation.Sanitize(env, req.body.text);
            && (o.Next? <==> 0 < |text| <= MaxPostLength)
            && (o.Next? ==> o.req == req.(body := Body(text)))
            && (!o.Next? ==> o.Respond? && o.res.status == 400 &&
                             o.res.payload.message == Validation.InvalidInput)
  {
    Validation.CheckText(env, req, MaxPostLength, PostTooLong)
  }

  function AddedMessage(groupName: string): string
  {
    "New post added to " + groupName + " group"
  }

  function PostUri(groupId: string, postId: string): string
  {
    "groups/" + groupId + "/posts/" + postId
  }

  /** The record the handler saves for a request that passed validation. */
  predicate IsNewPost(p: Post, id: string, user: SessionUser, group: Group, text: string, now: int)
  {
    && p.id == id && p.author == ActorId(user) && p.group == group.id
    && p.text == text && p.timestamp == now
    && p.likes == [] && p.comments == []
    && p.title.None? && p.image.None? && p.sticky.None?
  }

  /** The whole controller: validation, then the save handler. `newId` is the
      ObjectId the model's constructor generates and `now` the creation time.
      A request that fails validation, or that lacks the group or the user,
      leaves the post collection as it was; any other adds exactly one post
      under `newId` and touches no other. */
  method PostNewPost(env: Env, store: Store, req: Request, newId: string, now: int)
    returns (o: Outcome)
    requires store.Valid() && newId !in store.posts
    modifies store`posts
    ensures store.Valid()
    ensures var v := ValidatePostText(env, req);
            && (!v.Next? ==> o == v && store.posts == old(store.posts))
            && (v.Next? && req.group.None? ==>
                  o == Throw(GroupInfoError) && store.posts == old(store.posts))
            && (v.Next? && req.group.Some? && req.user.None? ==>
                  o == Throw(AuthUserInfoError) && store.posts == old(store.posts))
            && (v.Next? && req.group.Some? && req.user.Some? ==>
                  var group := req.group.value;
                  && store.posts.Keys == old(store.posts).Keys + {newId}
                  && (forall k :: k in old(store.posts) ==> store.posts[k] == old(store.posts)[k])
                  && IsNewPost(store.posts[newId], newId, req.user.value, group, v.req.body.text, now)
                  && o == Respond(Response(201, PostCreated(AddedMessage(group.name), newId,
                                                             PostUri(group.id, newId)))))
  {
    var v := ValidatePostText(env, req);
    if !v.Next? {
      return v;
    }
    var r := v.req;
    if r.group.None? {
      return Throw(GroupInfoError);
    } else if r.user.None? {
      return Throw(AuthUserInfoError);
    }
    var group, user := r.group.value, r.user.value;
    var post := Post(newId, ActorId(user), now, r.body.text, None, group.id, None, [], [], None);
    store.posts := store.posts[newId := post];
    o := Respond(Response(201, PostCreated(AddedMessage(group.name), newId, PostUri(group.id, newId))));
  }
}
