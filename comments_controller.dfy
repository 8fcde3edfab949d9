/**
 * The comment controllers: the comment count of a post, and comment creation
 * (the text rule, then the handler that stores the comment under a fresh id).
 */
module CommentsController {
  import opened Domain
  import Validation
  import Decimal

  const MaxCommentLength := 20000
  const CommentTooLong := "Comment cannot be more than 20,000 characters"
  const UserInfoError := "Error deserializing user's info"
  const PostInfoError := "Error getting post info from database"
  const Created := "Comment created successfully"

  /** The ids of the stored comments that belong to post `postId`. */
  function CommentsOn(comments: map<string, Comment>, postId: string): set<string>
  {
    set k | k in comments && comments[k].post == postId
  }

  /** "Post has N comment", with an "s" unless N is one. */
  function CountMessage(n: nat): (r: string)
    ensures |r| >= 18 && r[..9] == "Post has "
    ensures n == 1 <==> r[|r| - 8..] == " comment"
    ensures n != 1 ==> r[|r| - 9..] == " comments"
  {
    var head := "Post has " + Decimal.NatToString(n);
    if n == 1 then head + " comment"
    else
      var r := head + " comments";
      assert r[|r| - 8] == 'c';
      r
  }

  /** The number in the message is the count itself. */
  lemma CountMessageReadsBack(n: nat)
    ensures var r := CountMessage(n);
            var digits := r[9..|r| - (if n == 1 then 8 else 9)];
            && Decimal.IsDigits(digits) && Decimal.Value(digits) == n
            && (|digits| == 1 || digits[0] != '0')
  {
    var r := CountMessage(n);
    var numeral := Decimal.NatToString(n);
    assert r[9..|r| - (if n == 1 then 8 else 9)] == numeral;
    Decimal.ValueOfNatToString(n);
  }

  lemma OneCommentMessage()
    ensures CountMessage(1) == "Post has 1 comment"
  {
    assert Decimal.NatToString(1) == "1";
  }

  /** Counts the comments whose `post` is the attached post's id; reading
      leaves the store as it is. */
  function GetCommentCount(db: Db, req: Request): (o: Outcome)
    ensures req.group.None? ==> o == Throw(GroupInfoError)
    ensures req.group.Some? && req.post.None? ==> o == Throw(PostInfoError)
    ensures req.group.Some? && req.post.Some? ==>
              var count := |CommentsOn(db.comments, req.post.value.id)|;
              o == Respond(Response(200, CommentCount(CountMessage(count), count)))
  {
    if req.group.None? then Throw(GroupInfoError)
    else if req.post.None? then Throw(PostInfoError)
    else
      var count := |CommentsOn(db.comments, req.post.value.id)|;
      Respond(Response(200, CommentCount(CountMessage(count), count)))
  }

  /** Saving a comment under a fresh id adds one to the count of its own post
      and leaves the count of every other post as it was. */
  lemma CountAfterSave(comments: map<string, Comment>, newId: string, c: Comment, postId: string)
    requires newId !in comments
    ensures |CommentsOn(comments[newId := c], postId)|
            == |CommentsOn(comments, postId)| + (if c.post == postId then 1 else 0)
  {
    var before, after := CommentsOn(comments, postId), CommentsOn(comments[newId := c], postId);
    if c.post == postId {
      assert after == before + {newId};
    } else {
      assert after == before;
    }
  }

  function ValidateCommentText(env: Env, req: Request): (o: Outcome)
    ensures var text := Validation.Sanitize(env, req.body.text);
            && (o.Next? <==> 0 < |text| <= MaxCommentLength)
            && (o.Next? ==> o.req == req.(body := Body(text)))
            && (!o.Next? ==> o.Respond? && o.res.status == 400 &&
                             o.res.payload.message == Validation.InvalidInput)
  {
    Validation.CheckText(env, req, MaxCommentLength, CommentTooLong)
  }

  function CommentUri(groupId: string, postId: string, commentId: string): string
  {
    "/groups/" + groupId + "/posts/" + postId + "/comments/" + commentId
  }

  /** The whole comment-creation controller. `newId` is the generated ObjectId
      and `now` the creation time. Failing validation, or a missing user,
      group or post, leaves the comment collection unchanged; otherwise
      exactly one comment is added under `newId`, by the acting user, on the
      attached post. */
  method PostNewComment(env: Env, store: Store, req: Request, newId: string, now: int)
    returns (o: Outcome)
    requires store.Valid() && newId !in store.comments
    modifies store`comments
    ensures store.Valid()
    ensures var v := ValidateCommentText(env, req);
            && (!v.Next? ==> o == v && store.comments == old(store.comments))
            && (v.Next? && req.user.None? ==>
                  o == Throw(UserInfoError) && store.comments == old(store.comments))
            && (v.Next? && req.user.Some? && req.group.None? ==>
                  o == Throw(GroupInfoError) && store.comments == old(store.comments))
            && (v.Next? && req.user.Some? && req.group.Some? && req.post.None? ==>
                  o == Throw(PostInfoError) && store.comments == old(store.comments))
            && (v.Next? && req.user.Some? && req.group.Some? && req.post.Some? ==>
                  var post := req.post.value;
                  && store.comments.Keys == old(store.comments).Keys + {newId}
                  && (forall k :: k in old(store.comments) ==> store.comments[k] == old(store.comments)[k])
                  && store.comments[newId]
                     == Comment(newId, ActorId(req.user.value), now, v.req.body.text, post.id)
                  && |CommentsOn(store.comments, post.id)| == |CommentsOn(old(store.comments), post.id)| + 1
                  && o == Respond(Response(200, CommentCreated(Created,
                                             CommentUri(req.group.value.id, post.id, newId)))))
  {
    var v := ValidateCommentText(env, req);
    if !v.Next? {
      return v;
    }
    var r := v.req;
    if r.user.None? {
      return Throw(UserInfoError);
    } else if r.group.None? {
      return Throw(GroupInfoError);
    } else if r.post.None? {
      return Throw(PostInfoError);
    }
    var group, post, user := r.group.value, r.post.value, r.user.value;
    var comment := Comment(newId, ActorId(user), now, r.body.text, post.id);
    CountAfterSave(store.comments, newId, comment, post.id);
    store.comments := store.comments[newId := comment];
    o := Respond(Response(200, CommentCreated(Created, CommentUri(group.id, post.id, newId))));
  }
}
