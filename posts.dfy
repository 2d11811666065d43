/** The posts routes: create and delete a post, like and unlike it, add and
    delete a comment. Each handler that changes one post receives the post
    document `Post.findById` loaded (null when there is none) and changes its
    arrays in place, as the handlers do before `save()`. */
module Posts {
  import opened Js
  import opened Http
  import opened Models

  // ---------------------------------------------------------------------------
  // List logic

  /** `likes.filter(like => like.user.toString() == caller)`. */
  function LikesBy(likes: seq<Like>, user: UserId): (r: seq<Like>)
    ensures forall i :: 0 <= i < |r| ==> r[i] in likes && r[i].user == user
    ensures forall i :: 0 <= i < |likes| && likes[i].user == user ==> likes[i] in r
  {
    Filter(likes, (l: Like) => l.user == user)
  }

  /** The guard of like and unlike: some like belongs to `user`. */
  function HasLiked(likes: seq<Like>, user: UserId): (b: bool)
    ensures b <==> exists i :: 0 <= i < |likes| && likes[i].user == user
  {
    var mine := LikesBy(likes, user);
    assert |mine| > 0 ==> mine[0] in likes;
    |mine| > 0
  }

  /** `likes` behaves as a set of users: no two likes share a user. */
  ghost predicate LikesAreSet(likes: seq<Like>) {
    forall i, j :: 0 <= i < j < |likes| ==> likes[i].user != likes[j].user
  }

  /** Prepending the like of a user who has none keeps `likes` a set. */
  lemma LikeKeepsSet(likes: seq<Like>, user: UserId)
    requires LikesAreSet(likes) && !HasLiked(likes, user)
    ensures LikesAreSet([Like(user)] + likes)
  {
  }

  // The selectors below are `Js.Map` with one field each. They are named so
  // that each `map` callback of the handlers has one definition: two lambdas
  // written out separately are different values to the verifier, so a
  // contract and the handler that should meet it would not match.

  /** `likes.map(like => like.user)`. */
  function LikeUsers(likes: seq<Like>): seq<UserId> {
    Map(likes, (l: Like) => l.user)
  }

  /** `comments.map(comment => comment.user)`. */
  function CommentUsers(comments: seq<Comment>): seq<UserId> {
    Map(comments, (c: Comment) => c.user)
  }

  /** `comments.map(comment => comment.id)`. */
  function CommentIds(comments: seq<Comment>): seq<string> {
    Map(comments, (c: Comment) => c.id)
  }

  /** `xs.map(x => x.user.toString().indexOf(caller))` given the users of
      `xs`: for each entry, where the caller's id occurs inside that entry's
      user id. This array is what the unlike and comment-delete handlers pass
      to `splice` as its start. */
  function RemoveIndex(users: seq<UserId>, caller: UserId): (r: seq<int>)
    ensures |r| == |users|
  {
    Map(users, (u: UserId) => StringIndexOf(u, caller))
  }

  /** Each entry of the index array is -1 exactly when the caller's id does
      not occur in that user's id, and 0 for the caller's own entries. */
  lemma RemoveIndexEntries(users: seq<UserId>, caller: UserId)
    ensures forall i :: 0 <= i < |users| ==>
              (RemoveIndex(users, caller)[i] == -1 <==> forall j :: !OccursAt(users[i], caller, j))
    ensures forall i :: 0 <= i < |users| && users[i] == caller ==> RemoveIndex(users, caller)[i] == 0
  {
    forall i | 0 <= i < |users| && users[i] == caller ensures OccursAt(users[i], caller, 0) {
      assert users[i][0..|caller|] == caller;
    }
  }


  /** `xs.splice(xs.map(x => x.user.toString().indexOf(caller)), 1)` on a
      non-empty array whose only entry, if it has one, belongs to the caller
      removes the FIRST entry: one index converts to itself (and the caller's
      own id occurs at 0 in itself), two or more indexes convert to NaN, and
      NaN starts the splice at 0. */
  lemma SpliceAtRemoveIndex<T>(xs: seq<T>, users: seq<UserId>, caller: UserId)
    requires |xs| == |users| >= 1
    requires |users| == 1 ==> users[0] == caller
    ensures SpliceOne(xs, ArrayToNumber(RemoveIndex(users, caller))) == xs[1..]
  {
    var idx := RemoveIndex(users, caller);
    if |users| == 1 {
      IndexOfSelf(caller);
      assert idx[0] == 0;
      SpliceOneAtIndex(xs, 0);
    } else {
      ArrayStartOfManyIsZero(idx);
      SpliceOneAtNaN(xs);
    }
  }

  /** What the unlike handler leaves in `likes`, as written. */
  function UnlikeAsWritten(likes: seq<Like>, caller: UserId): seq<Like> {
    SpliceOne(likes, ArrayToNumber(RemoveIndex(LikeUsers(likes), caller)))
  }

  /** Once the guard has passed, unlike removes exactly `likes[0]`, whoever
      it belongs to, and keeps the rest in order. */
  lemma UnlikeRemovesFirstLike(likes: seq<Like>, caller: UserId)
    requires HasLiked(likes, caller)
    ensures UnlikeAsWritten(likes, caller) == likes[1..]
    ensures |UnlikeAsWritten(likes, caller)| == |likes| - 1
  {
    SpliceAtRemoveIndex(likes, LikeUsers(likes), caller);
  }

  /** The first comment whose id is `id`: `comments.find(c => c.id === id)`. */
  function FindComment(comments: seq<Comment>, id: string): (r: Option<Comment>)
    ensures r.None? <==> forall i :: 0 <= i < |comments| ==> comments[i].id != id
    ensures r.Some? ==> r.value in comments && r.value.id == id
  {
    Find(comments, (c: Comment) => c.id == id)
  }

  /** What the comment-delete handler leaves in `comments`, as written. */
  function DeleteCommentAsWritten(comments: seq<Comment>, caller: UserId): seq<Comment> {
    SpliceOne(comments, ArrayToNumber(RemoveIndex(CommentUsers(comments), caller)))
  }

  /** Once the target comment is found and belongs to the caller, the
      handler removes exactly `comments[0]`, whichever comment that is. */
  lemma DeleteCommentRemovesFirstComment(comments: seq<Comment>, id: string, caller: UserId)
    requires FindComment(comments, id).Some? && FindComment(comments, id).value.user == caller
    ensures DeleteCommentAsWritten(comments, caller) == comments[1..]
  {
    var c := FindComment(comments, id).value;
    if |comments| == 1 {
      assert comments[0] == c;
    }
    SpliceAtRemoveIndex(comments, CommentUsers(comments), caller);
  }

  // ---------------------------------------------------------------------------
  // The intended removals (see the findings in README.md)

  /** Unlike as evidently intended: remove the caller's own like,
      `likes.map(like => like.user.toString()).indexOf(caller)`. */
  function UnlikeOwn(likes: seq<Like>, caller: UserId): seq<Like> {
    SpliceOne(likes, Finite(ArrayIndexOf(LikeUsers(likes), caller)))
  }

  /** On a set of likes that holds the caller's, the intended unlike removes
      that like and no other: afterwards the caller has no like, and every
      other user's like is still there. */
  lemma UnlikeOwnRemovesOnlyCallersLike(likes: seq<Like>, caller: UserId)
    requires LikesAreSet(likes) && HasLiked(likes, caller)
    ensures |UnlikeOwn(likes, caller)| == |likes| - 1
    ensures !HasLiked(UnlikeOwn(likes, caller), caller)
    ensures forall i :: 0 <= i < |likes| && likes[i].user != caller ==> likes[i] in UnlikeOwn(likes, caller)
    ensures LikesAreSet(UnlikeOwn(likes, caller))
  {
    var users := LikeUsers(likes);
    var k := ArrayIndexOf(users, caller);
    assert caller in users by {
      var i :| 0 <= i < |likes| && likes[i].user == caller;
      assert users[i] == caller;
    }
    SpliceOneAtIndex(likes, k);
    RemoveOnlyLikeOf(likes, caller, k);
  }

  /** Removing the like at `k`, which is the caller's, from a set of likes
      leaves a set of likes with none of the caller's and every other like. */
  lemma RemoveOnlyLikeOf(likes: seq<Like>, caller: UserId, k: int)
    requires LikesAreSet(likes) && 0 <= k < |likes| && likes[k].user == caller
    ensures var r := likes[..k] + likes[k + 1..];
            && (forall i :: 0 <= i < |r| ==> r[i].user != caller)
            && (forall i :: 0 <= i < |likes| && likes[i].user != caller ==> likes[i] in r)
            && LikesAreSet(r)
  {
    var r := likes[..k] + likes[k + 1..];
    assert forall i :: 0 <= i < |r| ==> r[i] == (if i < k then likes[i] else likes[i + 1]);
    forall i | 0 <= i < |likes| && likes[i].user != caller ensures likes[i] in r {
      if i < k {
        assert r[i] == likes[i];
      } else {
        assert r[i - 1] == likes[i];
      }
    }
  }

  /** Comment delete as evidently intended: remove the comment whose id was
      asked for, `comments.map(c => c.id).indexOf(id)`. */
  function DeleteCommentById(comments: seq<Comment>, id: string): seq<Comment> {
    SpliceOne(comments, Finite(ArrayIndexOf(CommentIds(comments), id)))
  }

  /** The intended comment delete removes exactly the comment that the
      existence and ownership checks looked at. */
  lemma DeleteCommentByIdRemovesTarget(comments: seq<Comment>, id: string)
    requires FindComment(comments, id).Some?
    ensures var k := ArrayIndexOf(CommentIds(comments), id);
      0 <= k < |comments| && comments[k] == FindComment(comments, id).value &&
      DeleteCommentById(comments, id) == comments[..k] + comments[k + 1..]
  {
    var k := ArrayIndexOf(CommentIds(comments), id);
    IdIndexIsFoundComment(comments, id);
    SpliceOneAtIndex(comments, k);
  }

  /** The first index holding `id` in the array of comment ids is the
      position of the comment `find` returns. */
  lemma IdIndexIsFoundComment(comments: seq<Comment>, id: string)
    requires FindComment(comments, id).Some?
    ensures var k := ArrayIndexOf(CommentIds(comments), id);
      0 <= k < |comments| && comments[k] == FindComment(comments, id).value
  {
    var ids := CommentIds(comments);
    var c := FindComment(comments, id).value;
    var i :| 0 <= i < |comments| && comments[i] == c && forall j :: 0 <= j < i ==> comments[j].id != id;
    assert ids[i] == id;
    assert ArrayIndexOf(ids, id) == i;
  }


  /** The as-written unlike can take away another user's like and leave the
      caller's: a post liked by "ann" and then "bob" has `likes` equal to
      `[bob, ann]` (likes are prepended), and when "ann" unlikes it, bob's
      like is the one removed. */
  lemma UnlikeCanRemoveAnotherUsersLike()
    ensures var likes := [Like("bob"), Like("ann")];
      HasLiked(likes, "ann") &&
      UnlikeAsWritten(likes, "ann") == [Like("ann")] &&
      HasLiked(UnlikeAsWritten(likes, "ann"), "ann")
  {
    var likes := [Like("bob"), Like("ann")];
    assert likes[1].user == "ann";
    UnlikeRemovesFirstLike(likes, "ann");
    assert UnlikeAsWritten(likes, "ann")[0].user == "ann";
  }

  /** The as-written comment delete can remove another user's comment: "ann"
      deletes the comment "c2" they wrote, and "bob"'s comment "c1", first in the list,
      is the one removed. */
  lemma DeleteCommentCanRemoveAnotherUsersComment()
    ensures var bobs := Comment("c1", "bob", "hi", "Bob", "b.png");
      var anns := Comment("c2", "ann", "yo", "Ann", "a.png");
      var comments := [bobs, anns];
      FindComment(comments, "c2") == Some(anns) &&
      DeleteCommentAsWritten(comments, "ann") == [anns]
  {
    var bobs := Comment("c1", "bob", "hi", "Bob", "b.png");
    var anns := Comment("c2", "ann", "yo", "Ann", "a.png");
    var comments := [bobs, anns];
    assert comments[1] == anns;
    var found := FindComment(comments, "c2");
    assert found == Some(anns) by {
      assert comments[0].id != "c2";
    }
    DeleteCommentRemovesFirstComment(comments, "c2", "ann");
  }

  // ---------------------------------------------------------------------------
  // Handlers

  /** POST /api/posts: a new post by the caller, with the caller's name and
      avatar copied in. */
  method CreatePost(db: Database, text: string, caller: UserId, newId: PostId) returns (r: Response<Post>)
    requires db.Valid()
    requires KeyAbsent(db.posts, PostIdOf, newId)  // the fresh ObjectId of the new document
    modifies db
    ensures db.Valid()
    ensures db.users == old(db.users) && db.profiles == old(db.profiles)
    ensures text == "" ==> r == Invalid(["Text is required"]) && db.posts == old(db.posts)
    ensures text != "" && FindUserById(db.users, caller).None? ==>
              r == Error(500, PlainText("Internal Server Error")) && db.posts == old(db.posts)
    ensures text != "" && FindUserById(db.users, caller).Some? ==>
              var author := FindUserById(db.users, caller).value;
              && r.Ok? && fresh(r.value)
              && db.posts == old(db.posts) + [r.value]
              && r.value.id == newId && r.value.user == caller && r.value.text == text
              && r.value.name == author.name && r.value.avatar == author.avatar
              && r.value.likes == [] && r.value.comments == []
  {
    if text == "" {
      return Invalid(["Text is required"]);
    }
    var user := FindUserById(db.users, caller);
    if user.None? {
      // user.name on null: a TypeError, caught
      return Error(500, PlainText("Internal Server Error"));
    }
    var post := new Post(newId, caller, text, user.value.name, user.value.avatar);
    AppendKeepsDistinct(db.posts, post, PostIdOf);
    db.posts := db.posts + [post];
    r := Ok(post);
  }

  /** The posts left after `post.remove()` on the post with id `id`. */
  function RemovePost(posts: seq<Post>, id: PostId): (r: seq<Post>)
    ensures forall i :: 0 <= i < |r| ==> r[i] in posts && r[i].id != id
    ensures forall i :: 0 <= i < |posts| && posts[i].id != id ==> posts[i] in r
  {
    Filter(posts, (p: Post) => p.id != id)
  }

  /** DELETE /api/posts/:id: 404 when there is no such post, 401 when it is
      not the caller's, otherwise the post is removed. */
  method DeletePost(db: Database, id: PostId, caller: UserId) returns (r: Response<Body>)
    requires db.Valid()
    modifies db
    ensures db.Valid()
    ensures db.users == old(db.users) && db.profiles == old(db.profiles)
    ensures FindPostById(old(db.posts), id).None? ==>
              r == Error(404, JsonString("Post Not found")) && db.posts == old(db.posts)
    ensures FindPostById(old(db.posts), id).Some? && FindPostById(old(db.posts), id).value.user != caller ==>
              r == Error(401, MsgBody("User not authorized to delete the post")) && db.posts == old(db.posts)
    ensures FindPostById(old(db.posts), id).Some? && FindPostById(old(db.posts), id).value.user == caller ==>
              && r == Ok(MsgBody("post removed"))
              && FindPostById(db.posts, id).None?
              && (forall i :: 0 <= i < |old(db.posts)| && old(db.posts)[i].id != id ==> old(db.posts)[i] in db.posts)
              && (forall i :: 0 <= i < |db.posts| ==> db.posts[i] in old(db.posts))
  {
    var post := FindPostById(db.posts, id);
    if post.None? {
      return Error(404, JsonString("Post Not found"));
    }
    if post.value.user != caller {
      return Error(401, MsgBody("User not authorized to delete the post"));
    }
    FilterKeepsDistinct(db.posts, (p: Post) => p.id != id, PostIdOf);
    db.posts := RemovePost(db.posts, id);
    r := Ok(MsgBody("post removed"));
  }

  /** PUT /api/posts/like/:id: 400 when the caller already likes the post,
      otherwise the caller's like goes first. */
  method LikePost(post: Post?, caller: UserId) returns (r: Response<seq<Like>>)
    modifies post
    ensures post == null ==> r == Error(500, PlainText("Internal Server Error"))
    ensures post != null ==> post.comments == old(post.comments)
    ensures post != null && HasLiked(old(post.likes), caller) ==>
              r == Error(400, MsgBody("Post already liked.")) && post.likes == old(post.likes)
    ensures post != null && !HasLiked(old(post.likes), caller) ==>
              post.likes == [Like(caller)] + old(post.likes) && r == Ok(post.likes)
    ensures post != null && LikesAreSet(old(post.likes)) ==> LikesAreSet(post.likes)
  {
    if post == null {
      // post.likes on null: a TypeError, caught
      return Error(500, PlainText("Internal Server Error"));
    }
    if HasLiked(post.likes, caller) {
      return Error(400, MsgBody("Post already liked."));
    }
    if LikesAreSet(post.likes) {
      LikeKeepsSet(post.likes, caller);
    }
    post.likes := [Like(caller)] + post.likes;
    r := Ok(post.likes);
  }

  /** PUT /api/posts/unlike/:id: 400 when the caller has no like; otherwise,
      as written, the first like of the post is removed. */
  method UnlikePost(post: Post?, caller: UserId) returns (r: Response<seq<Like>>)
    modifies post
    ensures post == null ==> r == Error(500, PlainText("Internal Server Error"))
    ensures post != null ==> post.comments == old(post.comments)
    ensures post != null && !HasLiked(old(post.likes), caller) ==>
              r == Error(400, MsgBody("Post has not yet been liked.")) && post.likes == old(post.likes)
    ensures post != null && HasLiked(old(post.likes), caller) ==>
              post.likes == old(post.likes)[1..] && r == Ok(post.likes)
    ensures post != null && LikesAreSet(old(post.likes)) ==> LikesAreSet(post.likes)
  {
    if post == null {
      return Error(500, PlainText("Internal Server Error"));
    }
    if !HasLiked(post.likes, caller) {
      return Error(400, MsgBody("Post has not yet been liked."));
    }
    var likes := post.likes;
    var removeIndex := RemoveIndex(LikeUsers(likes), caller);
    var after := SpliceOne(likes, ArrayToNumber(removeIndex));
    assert after == likes[1..] by {
      UnlikeRemovesFirstLike(likes, caller);
    }
    post.likes := after;
    r := Ok(after);
  }

  /** POST /api/posts/comment/:id: the caller's comment goes first, with the
      name and avatar of the caller's user record. `users` is the users
      collection `User.findById` reads. */
  method AddComment(post: Post?, users: seq<User>, text: string, caller: UserId, commentId: string)
    returns (r: Response<seq<Comment>>)
    modifies post
    ensures post != null ==> post.likes == old(post.likes)
    ensures text == "" ==> r == Invalid(["Text is required"]) && (post != null ==> post.comments == old(post.comments))
    ensures text != "" && (post == null || FindUserById(users, caller).None?) ==>
              r == Error(500, PlainText("Internal Server Error")) && (post != null ==> post.comments == old(post.comments))
    ensures text != "" && post != null && FindUserById(users, caller).Some? ==>
              var author := FindUserById(users, caller).value;
              && post.comments == [Comment(commentId, caller, text, author.name, author.avatar)] + old(post.comments)
              && r == Ok(post.comments)
  {
    if text == "" {
      return Invalid(["Text is required"]);
    }
    var user := FindUserById(users, caller);
    if user.None? || post == null {
      // user.name or post.comments on null: a TypeError, caught
      return Error(500, PlainText("Internal Server Error"));
    }
    var newComment := Comment(commentId, caller, text, user.value.name, user.value.avatar);
    post.comments := [newComment] + post.comments;
    r := Ok(post.comments);
  }

  /** DELETE /api/posts/comment/:id/:comment_id: 404 when no comment has
      that id, 401 when it is not the caller's; otherwise, as written, the
      first comment of the post is removed. */
  method DeleteComment(post: Post?, commentId: string, caller: UserId) returns (r: Response<seq<Comment>>)
    modifies post
    ensures post == null ==> r == Error(500, PlainText("Internal Server Error"))
    ensures post != null ==> post.likes == old(post.likes)
    ensures post != null && FindComment(old(post.comments), commentId).None? ==>
              r == Error(404, MsgBody("Comment does not exist")) && post.comments == old(post.comments)
    ensures post != null && FindComment(old(post.comments), commentId).Some?
              && FindComment(old(post.comments), commentId).value.user != caller ==>
              r == Error(401, MsgBody("User not authorized to delete his own comment."))
              && post.comments == old(post.comments)
    ensures post != null && FindComment(old(post.comments), commentId).Some?
              && FindComment(old(post.comments), commentId).value.user == caller ==>
              post.comments == old(post.comments)[1..] && r == Ok(post.comments)
  {
    if post == null {
      return Error(500, PlainText("Internal Server Error"));
    }
    var comments := post.comments;
    var comment := FindComment(comments, commentId);
    if comment.None? {
      return Error(404, MsgBody("Comment does not exist"));
    }
    if comment.value.user != caller {
      return Error(401, MsgBody("User not authorized to delete his own comment."));
    }
    var removeIndex := RemoveIndex(CommentUsers(comments), caller);
    var after := SpliceOne(comments, ArrayToNumber(removeIndex));
    assert after == comments[1..] by {
      DeleteCommentRemovesFirstComment(comments, commentId, caller);
    }
    post.comments := after;
    r := Ok(after);
  }
}
