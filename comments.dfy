/** The comment controller: the comments view of a video, adding a comment, and the
    owner-gated edit and delete. */
module CommentController {
  import opened Common
  import opened Text
  import opened Query
  import opened Records
  import opened LikeModel
  import opened Db
  import opened LikeController

  /** A comment as `getVideoComments` returns it: the `$project` of `owner`, `content`,
      `likesCount` and `isLiked`, which keeps `_id`. */
  datatype CommentView = CommentView(id: Id, owner: Option<OwnerView>, content: string, likesCount: nat, isLiked: bool)

  /** `$match: { video: video }`. */
  function UnderVideo(video: Id): Comment -> bool {
    (c: Comment) => c.video == video
  }

  /** `$sort: { createdAt: -1 }` sorts on this key, descending. */
  function CommentTime(c: Comment): SortKey {
    Date(c.createdAt)
  }

  /** The comments of a video, newest first, before the final `$project`. */
  function CommentRows(comments: seq<Comment>, video: Id): seq<Comment> {
    SortOn(Filter(comments, UnderVideo(video)), CommentTime, Descending)
  }

  /** One comment with its owner `$lookup`/`$first`, its likes `$lookup` on `comment`,
      `$size` and `$in`. */
  function CommentViewOf(users: seq<User>, likes: seq<Like>, viewer: Id, c: Comment): (v: CommentView)
    ensures v.id == c.id && v.content == c.content
    ensures v.owner == OwnerOf(users, c.owner)
    ensures v.likesCount == Count(likes, OnTarget(OnComment(c.id)))
    ensures v.isLiked <==> exists i :: 0 <= i < |likes| && likes[i].comment == Some(c.id) && likes[i].likedBy == viewer
  {
    CommentView(c.id, OwnerOf(users, c.owner), c.content, LikesCount(likes, OnComment(c.id)), LikedBy(likes, OnComment(c.id), viewer))
  }

  function ShapeComment(users: seq<User>, likes: seq<Like>, viewer: Id): Comment -> CommentView {
    (c: Comment) => CommentViewOf(users, likes, viewer, c)
  }

  /** The comments pipeline of `getVideoComments`, before pagination. */
  function VideoComments(comments: seq<Comment>, users: seq<User>, likes: seq<Like>, video: Id, viewer: Id): seq<CommentView> {
    Project(CommentRows(comments, video), ShapeComment(users, likes, viewer))
  }

  /** `getVideoComments`: 400 for an invalid video id, 401 without a user, 404 when the
      video does not exist; otherwise 200 and the comments of the video. */
  function GetVideoComments(c: Collections, videoId: RawId, viewer: Option<Id>): (r: Reply<seq<CommentView>>)
    ensures videoId.Malformed? <==> r == Fail(400, "Invalid or missing videoId")
    ensures videoId.WellFormed? && viewer.None? <==> r == Fail(401, "Unathorized request")
    ensures r == Fail(404, "Video does not exist") <==>
      videoId.WellFormed? && viewer.Some? && !VideoExists(c.videos, videoId.id)
    ensures r.Ok? ==> r.status == 200 && r.data == VideoComments(c.comments, c.users, c.likes, videoId.id, viewer.value)
  {
    if videoId.Malformed? then Fail(400, "Invalid or missing videoId")
    else if viewer.None? then Fail(401, "Unathorized request")
    else if !VideoExists(c.videos, videoId.id) then Fail(404, "Video does not exist")
    else Ok(200, VideoComments(c.comments, c.users, c.likes, videoId.id, viewer.value), "Comments fetched successfully")
  }

  /** Every listed comment is a comment on the video. */
  lemma VideoCommentsSound(comments: seq<Comment>, users: seq<User>, likes: seq<Like>, video: Id, viewer: Id, k: nat)
    requires k < |VideoComments(comments, users, likes, video, viewer)|
    ensures exists i :: (0 <= i < |comments| && comments[i].video == video
      && VideoComments(comments, users, likes, video, viewer)[k] == CommentViewOf(users, likes, viewer, comments[i]))
  {
    var mine := Filter(comments, UnderVideo(video));
    var rows := CommentRows(comments, video);
    SortOnMembers(mine, CommentTime, Descending, rows[k]);
    var a :| 0 <= a < |mine| && mine[a] == rows[k];
    assert UnderVideo(video)(mine[a]);
    var i :| 0 <= i < |comments| && comments[i] == rows[k];
  }

  /** Every comment on the video is listed. */
  lemma VideoCommentsComplete(comments: seq<Comment>, users: seq<User>, likes: seq<Like>, video: Id, viewer: Id, i: nat)
    requires i < |comments| && comments[i].video == video
    ensures CommentViewOf(users, likes, viewer, comments[i]) in VideoComments(comments, users, likes, video, viewer)
  {
    var mine := Filter(comments, UnderVideo(video));
    var rows := CommentRows(comments, video);
    assert UnderVideo(video)(comments[i]);
    SortOnMembers(mine, CommentTime, Descending, comments[i]);
    var k :| 0 <= k < |rows| && rows[k] == comments[i];
    assert VideoComments(comments, users, likes, video, viewer)[k] == CommentViewOf(users, likes, viewer, comments[i]);
  }

  /** The list follows the comments' creation times, newest first. */
  lemma VideoCommentsNewestFirst(comments: seq<Comment>, users: seq<User>, likes: seq<Like>, video: Id, viewer: Id)
    ensures var rows := CommentRows(comments, video);
      && |VideoComments(comments, users, likes, video, viewer)| == |rows|
      && (forall k :: 0 <= k < |rows| ==> VideoComments(comments, users, likes, video, viewer)[k].id == rows[k].id)
      && (forall a, b :: 0 <= a < b < |rows| ==> NotAfter(rows[b].createdAt, rows[a].createdAt))
  {
    var rows := CommentRows(comments, video);
    SortOnSorted(Filter(comments, UnderVideo(video)), CommentTime, Descending);
    forall a, b | 0 <= a < b < |rows| ensures NotAfter(rows[b].createdAt, rows[a].createdAt) {
      assert Precedes(rows[a], rows[b], CommentTime, Descending);
    }
  }

  /** The filter `{ _id: id, owner: owner }` of the edit and the delete. */
  predicate OwnedMatch(c: Comment, id: Id, owner: Id) {
    c.id == id && c.owner == owner
  }

  function Owned(id: Id, owner: Id): Comment -> bool {
    (c: Comment) => OwnedMatch(c, id, owner)
  }

  function NotOwned(id: Id, owner: Id): Comment -> bool {
    (c: Comment) => !OwnedMatch(c, id, owner)
  }

  /** The update `{ content: content }`. */
  function SetContent(content: string): Comment -> Comment {
    (c: Comment) => c.(content := content)
  }

  /** The comments after `findOneAndUpdate({ _id: id, owner: owner }, { content })`. */
  function EditedComments(comments: seq<Comment>, id: Id, owner: Id, content: string): seq<Comment> {
    UpdateFirst(comments, Owned(id, owner), SetContent(content))
  }

  /** The comments after `findOneAndDelete({ _id: id, owner: owner })`. */
  function RemainingComments(comments: seq<Comment>, id: Id, owner: Id): seq<Comment> {
    DeleteFirst(comments, Owned(id, owner))
  }

  /** With unique identifiers, at most one comment matches `(_id, owner)`. */
  lemma OwnedAtMostOnce(comments: seq<Comment>, bound: Id, id: Id, owner: Id)
    requires IdsFresh(comments, CommentId, bound)
    ensures Count(comments, Owned(id, owner)) <= 1
  {
    forall i, j | 0 <= i < j < |comments| ensures !(Owned(id, owner)(comments[i]) && Owned(id, owner)(comments[j])) {
      assert CommentId(comments[i]) != CommentId(comments[j]);
    }
    CountAtMostOne(comments, Owned(id, owner));
  }

  /** The edit rewrites the content of the comment with that id when the requester owns it,
      and changes nothing else: no other comment, and no other field. */
  lemma EditChangesOnlyOwnedContent(comments: seq<Comment>, bound: Id, id: Id, owner: Id, content: string)
    requires IdsFresh(comments, CommentId, bound)
    ensures var after := EditedComments(comments, id, owner, content);
      && |after| == |comments|
      && forall k :: 0 <= k < |comments| ==>
        after[k] == if comments[k].id == id && comments[k].owner == owner then comments[k].(content := content) else comments[k]
  {
    OwnedAtMostOnce(comments, bound, id, owner);
    var each := (c: Comment) => if OwnedMatch(c, id, owner) then c.(content := content) else c;
    UpdateFirstIsProject(comments, Owned(id, owner), SetContent(content), each);
  }

  /** The delete removes the comment with that id when the requester owns it, and no other. */
  lemma DeleteRemovesOnlyOwned(comments: seq<Comment>, bound: Id, id: Id, owner: Id)
    requires IdsFresh(comments, CommentId, bound)
    ensures RemainingComments(comments, id, owner) == Filter(comments, NotOwned(id, owner))
  {
    OwnedAtMostOnce(comments, bound, id, owner);
    DeleteFirstIsFilter(comments, Owned(id, owner), NotOwned(id, owner));
  }

  /** Writes the comments collection; the other collections and the counter are kept. */
  method WriteComments(store: Store, comments: seq<Comment>)
    requires store.Valid() && IdsFresh(comments, CommentId, store.nextId)
    modifies store
    ensures store.Valid()
    ensures store.State() == old(store.State()).(comments := comments)
  {
    ghost var before := store.State();
    store.comments := comments;
    assert store.State() == before.(comments := comments);
  }

  /** `save` of the comment at position `i` under its own identifier. */
  method ReplaceComment(store: Store, i: nat, x: Comment)
    requires store.Valid() && i < |store.comments| && x.id == store.comments[i].id
    modifies store
    ensures store.Valid()
    ensures store.State() == old(store.State()).(comments := old(store.comments)[i := x])
  {
    IdsFreshUpdate(store.comments, CommentId, store.nextId, i, x);
    WriteComments(store, store.comments[i := x]);
  }

  /** `Comment.create`: the document is stored under the next identifier. */
  method InsertComment(store: Store, x: Comment)
    requires store.Valid() && x.id == store.nextId
    modifies store
    ensures store.Valid()
    ensures store.State() == old(store.State()).(comments := old(store.comments) + [x], nextId := old(store.nextId) + 1)
  {
    ghost var before := store.State();
    ConsistentRaise(before, before.nextId + 1);
    IdsFreshAppend(before.comments, CommentId, before.nextId, x);
    var id := store.FreshId();
    store.comments := store.comments + [x];
    assert store.State() == before.(comments := before.comments + [x], nextId := before.nextId + 1);
  }

  /** `addComment`: 400 for an invalid video id, 401 without a user, 400 for missing or
      blank content, 404 when the video does not exist; otherwise the comment is created,
      owned by the requester, with the content as sent (not trimmed), and returned with 200. */
  method AddComment(store: Store, videoId: RawId, viewer: Option<Id>, content: Option<string>, now: Instant) returns (r: Reply<Comment>)
    requires store.Valid()
    modifies store
    ensures store.Valid()
    ensures videoId.Malformed? ==> r == Fail(400, "Invalid or missing videoId") && store.State() == old(store.State())
    ensures videoId.WellFormed? && viewer.None? ==> r == Fail(401, "Unauthorized request") && store.State() == old(store.State())
    ensures videoId.WellFormed? && viewer.Some? && MissingOrBlank(content) ==>
      r == Fail(400, "Content cannot be empty") && store.State() == old(store.State())
    ensures videoId.WellFormed? && viewer.Some? && !MissingOrBlank(content) && !VideoExists(old(store.videos), videoId.id) ==>
      r == Fail(404, "Video does not exist") && store.State() == old(store.State())
    ensures videoId.WellFormed? && viewer.Some? && !MissingOrBlank(content) && VideoExists(old(store.videos), videoId.id) ==>
      var added := Comment(old(store.nextId), videoId.id, viewer.value, content.value, now);
      && r == Ok(200, added, "Comment added successfully")
      && store.State() == old(store.State()).(comments := old(store.comments) + [added], nextId := old(store.nextId) + 1)
  {
    if videoId.Malformed? {
      return Fail(400, "Invalid or missing videoId");
    }
    if viewer.None? {
      return Fail(401, "Unauthorized request");
    }
    if MissingOrBlank(content) {
      return Fail(400, "Content cannot be empty");
    }
    if !VideoExists(store.videos, videoId.id) {
      return Fail(404, "Video does not exist");
    }
    var added := Comment(store.nextId, videoId.id, viewer.value, content.value, now);
    InsertComment(store, added);
    r := Ok(200, added, "Comment added successfully");
  }

  /** `updateComment`: 400 for an invalid comment id, 401 without a user, 400 for missing or
      blank content. Then the owner-gated update: the edited comment with 200, or the 403
      thrown inside the `try` as the catch re-wraps it (`error.status || 500`). */
  method UpdateComment(store: Store, shape: ApiErrorShape, commentId: RawId, viewer: Option<Id>, content: Option<string>) returns (r: Reply<Comment>)
    requires store.Valid()
    modifies store
    ensures store.Valid()
    ensures commentId.Malformed? ==> r == Fail(400, "Invalid or missing commentId") && store.State() == old(store.State())
    ensures commentId.WellFormed? && viewer.None? ==> r == Fail(401, "Unauthorized request") && store.State() == old(store.State())
    ensures commentId.WellFormed? && viewer.Some? && MissingOrBlank(content) ==>
      r == Fail(400, "Content cannot be empty") && store.State() == old(store.State())
    ensures commentId.WellFormed? && viewer.Some? && !MissingOrBlank(content) ==>
      store.State() == old(store.State()).(comments := EditedComments(old(store.comments), commentId.id, viewer.value, content.value))
    ensures (commentId.WellFormed? && viewer.Some? && !MissingOrBlank(content)
      && FirstIndex(old(store.comments), Owned(commentId.id, viewer.value)).Some?) ==>
      r == Ok(200, old(store.comments)[FirstIndex(old(store.comments), Owned(commentId.id, viewer.value)).value].(content := content.value), "Comment updated successfully")
    ensures (commentId.WellFormed? && viewer.Some? && !MissingOrBlank(content)
      && FirstIndex(old(store.comments), Owned(commentId.id, viewer.value)).None?) ==>
      r == Rethrow(shape, StatusProp, 403, "Unauthorized request or comment does not exist",
                   "Something went wrong while updating comment")
  {
    if commentId.Malformed? {
      return Fail(400, "Invalid or missing commentId");
    }
    if viewer.None? {
      return Fail(401, "Unauthorized request");
    }
    if MissingOrBlank(content) {
      return Fail(400, "Content cannot be empty");
    }
    var found := FirstIndex(store.comments, Owned(commentId.id, viewer.value));
    match found
    case Some(i) =>
      var edited := store.comments[i].(content := content.value);
      assert EditedComments(store.comments, commentId.id, viewer.value, content.value) == store.comments[i := edited];
      ReplaceComment(store, i, edited);
      r := Ok(200, edited, "Comment updated successfully");
    case None =>
      r := Rethrow(shape, StatusProp, 403, "Unauthorized request or comment does not exist",
                   "Something went wrong while updating comment");
  }

  /** `deleteComment`: 400 for an invalid comment id, 401 without a user. Then the
      owner-gated delete: 200 with an empty data object, or the 403 re-wrapped by the catch. */
  method DeleteComment(store: Store, shape: ApiErrorShape, commentId: RawId, viewer: Option<Id>) returns (r: Reply<()>)
    requires store.Valid()
    modifies store
    ensures store.Valid()
    ensures commentId.Malformed? ==> r == Fail(400, "Invalid or missing commentId") && store.State() == old(store.State())
    ensures commentId.WellFormed? && viewer.None? ==> r == Fail(401, "Unauthorized request") && store.State() == old(store.State())
    ensures commentId.WellFormed? && viewer.Some? ==>
      && store.State() == old(store.State()).(comments := RemainingComments(old(store.comments), commentId.id, viewer.value))
      && if FirstIndex(old(store.comments), Owned(commentId.id, viewer.value)).Some?
         then r == Ok(200, (), "Comment deleted successfully")
         else r == Rethrow(shape, StatusProp, 403, "Unauthorized request or comment does not exist",
                           "Something went wrong while deleting comment")
  {
    if commentId.Malformed? {
      return Fail(400, "Invalid or missing commentId");
    }
    if viewer.None? {
      return Fail(401, "Unauthorized request");
    }
    var found := FirstIndex(store.comments, Owned(commentId.id, viewer.value));
    if found.Some? {
      IdsFreshRemove(store.comments, CommentId, store.nextId, found.value);
      ghost var before := store.State();
      WriteComments(store, RemoveAt(store.comments, found.value));
      assert store.State() == before.(comments := RemoveAt(before.comments, found.value));
      r := Ok(200, (), "Comment deleted successfully");
    } else {
      r := Rethrow(shape, StatusProp, 403, "Unauthorized request or comment does not exist",
                   "Something went wrong while deleting comment");
    }
  }
}
