/** The post controller: creating a post, the posts view of a user, and the owner-gated
    edit and delete. */
module PostController {
  import opened Common
  import opened Text
  import opened Query
  import opened Records
  import opened LikeModel
  import opened Db
  import opened LikeController

  /** A post as `getUserPosts` returns it: the `$project` of `content`, `createdAt`, `owner`,
      `likesCount` and `isLiked`, which keeps `_id`. */
  datatype PostView = PostView(
    id: Id, content: string, createdAt: Instant, owner: Option<OwnerView>,
    likesCount: nat, isLiked: bool)

  /** `$match: { owner: user }`. */
  function ByOwner(user: Id): Post -> bool {
    (p: Post) => p.owner == user
  }

  function PostTime(p: Post): SortKey {
    Date(p.createdAt)
  }

  /** The posts of a user, newest first, before the final `$project`. */
  function PostRows(posts: seq<Post>, user: Id): seq<Post> {
    SortOn(Filter(posts, ByOwner(user)), PostTime, Descending)
  }

  /** One post with its owner `$lookup`/`$first`, its likes `$lookup` on `post`, `$size`
      and `$in`. */
  function PostViewOf(users: seq<User>, likes: seq<Like>, viewer: Id, p: Post): (v: PostView)
    ensures v.id == p.id && v.content == p.content && v.createdAt == p.createdAt
    ensures v.owner == OwnerOf(users, p.owner)
    ensures v.likesCount == Count(likes, OnTarget(OnPost(p.id)))
    ensures v.isLiked <==> exists i :: 0 <= i < |likes| && likes[i].post == Some(p.id) && likes[i].likedBy == viewer
  {
    PostView(p.id, p.content, p.createdAt, OwnerOf(users, p.owner), LikesCount(likes, OnPost(p.id)), LikedBy(likes, OnPost(p.id), viewer))
  }

  function ShapePost(users: seq<User>, likes: seq<Like>, viewer: Id): Post -> PostView {
    (p: Post) => PostViewOf(users, likes, viewer, p)
  }

  /** The pipeline of `getUserPosts`. */
  function UserPosts(posts: seq<Post>, users: seq<User>, likes: seq<Like>, user: Id, viewer: Id): seq<PostView> {
    Project(PostRows(posts, user), ShapePost(users, likes, viewer))
  }

  /** `getUserPosts`: 401 without a user, then 400 for an invalid user id; otherwise 200 and
      the user's posts. Whether that user exists is not checked: an unknown user has no
      posts. */
  function GetUserPosts(c: Collections, userId: RawId, viewer: Option<Id>): (r: Reply<seq<PostView>>)
    ensures viewer.None? <==> r == Fail(401, "Unauthorized request")
    ensures viewer.Some? && userId.Malformed? <==> r == Fail(400, "Invalid userId")
    ensures r.Ok? <==> viewer.Some? && userId.WellFormed?
    ensures r.Ok? ==> r.status == 200 && r.data == UserPosts(c.posts, c.users, c.likes, userId.id, viewer.value)
  {
    if viewer.None? then Fail(401, "Unauthorized request")
    else if userId.Malformed? then Fail(400, "Invalid userId")
    else Ok(200, UserPosts(c.posts, c.users, c.likes, userId.id, viewer.value), "Posts fetched successfully")
  }

  /** Every listed post is one of the user's posts. */
  lemma UserPostsSound(posts: seq<Post>, users: seq<User>, likes: seq<Like>, user: Id, viewer: Id, k: nat)
    requires k < |UserPosts(posts, users, likes, user, viewer)|
    ensures exists i :: (0 <= i < |posts| && posts[i].owner == user
      && UserPosts(posts, users, likes, user, viewer)[k] == PostViewOf(users, likes, viewer, posts[i]))
  {
    var mine := Filter(posts, ByOwner(user));
    var rows := PostRows(posts, user);
    SortOnMembers(mine, PostTime, Descending, rows[k]);
    var a :| 0 <= a < |mine| && mine[a] == rows[k];
    assert ByOwner(user)(mine[a]);
    var i :| 0 <= i < |posts| && posts[i] == rows[k];
  }

  /** Every post of the user is listed. */
  lemma UserPostsComplete(posts: seq<Post>, users: seq<User>, likes: seq<Like>, user: Id, viewer: Id, i: nat)
    requires i < |posts| && posts[i].owner == user
    ensures PostViewOf(users, likes, viewer, posts[i]) in UserPosts(posts, users, likes, user, viewer)
  {
    var mine := Filter(posts, ByOwner(user));
    var rows := PostRows(posts, user);
    assert ByOwner(user)(posts[i]);
    SortOnMembers(mine, PostTime, Descending, posts[i]);
    var k :| 0 <= k < |rows| && rows[k] == posts[i];
    assert UserPosts(posts, users, likes, user, viewer)[k] == PostViewOf(users, likes, viewer, posts[i]);
  }

  /** The list is newest first. */
  lemma UserPostsNewestFirst(posts: seq<Post>, users: seq<User>, likes: seq<Like>, user: Id, viewer: Id)
    ensures var r := UserPosts(posts, users, likes, user, viewer);
      forall a, b :: 0 <= a < b < |r| ==> NotAfter(r[b].createdAt, r[a].createdAt)
  {
    var rows := PostRows(posts, user);
    var r := UserPosts(posts, users, likes, user, viewer);
    SortOnSorted(Filter(posts, ByOwner(user)), PostTime, Descending);
    forall a, b | 0 <= a < b < |r| ensures NotAfter(r[b].createdAt, r[a].createdAt) {
      assert Precedes(rows[a], rows[b], PostTime, Descending);
    }
  }

  /** The filter `{ _id: id, owner: owner }` of the edit and the delete. */
  predicate OwnedMatch(p: Post, id: Id, owner: Id) {
    p.id == id && p.owner == owner
  }

  function Owned(id: Id, owner: Id): Post -> bool {
    (p: Post) => OwnedMatch(p, id, owner)
  }

  function NotOwned(id: Id, owner: Id): Post -> bool {
    (p: Post) => !OwnedMatch(p, id, owner)
  }

  function SetContent(content: string): Post -> Post {
    (p: Post) => p.(content := content)
  }

  /** The posts after `findOneAndUpdate({ _id: id, owner: owner }, { content })`. */
  function EditedPosts(posts: seq<Post>, id: Id, owner: Id, content: string): seq<Post> {
    UpdateFirst(posts, Owned(id, owner), SetContent(content))
  }

  /** The posts after `findOneAndDelete({ _id: id, owner: owner })`. */
  function RemainingPosts(posts: seq<Post>, id: Id, owner: Id): seq<Post> {
    DeleteFirst(posts, Owned(id, owner))
  }

  lemma OwnedAtMostOnce(posts: seq<Post>, bound: Id, id: Id, owner: Id)
    requires IdsFresh(posts, PostId, bound)
    ensures Count(posts, Owned(id, owner)) <= 1
  {
    forall i, j | 0 <= i < j < |posts| ensures !(Owned(id, owner)(posts[i]) && Owned(id, owner)(posts[j])) {
      assert PostId(posts[i]) != PostId(posts[j]);
    }
    CountAtMostOne(posts, Owned(id, owner));
  }

  /** The edit rewrites the content of the requester's own post with that id, and changes
      nothing else. */
  lemma EditChangesOnlyOwnedContent(posts: seq<Post>, bound: Id, id: Id, owner: Id, content: string)
    requires IdsFresh(posts, PostId, bound)
    ensures var after := EditedPosts(posts, id, owner, content);
      && |after| == |posts|
      && forall k :: 0 <= k < |posts| ==>
        after[k] == if posts[k].id == id && posts[k].owner == owner then posts[k].(content := content) else posts[k]
  {
    OwnedAtMostOnce(posts, bound, id, owner);
    var each := (p: Post) => if OwnedMatch(p, id, owner) then p.(content := content) else p;
    UpdateFirstIsProject(posts, Owned(id, owner), SetContent(content), each);
  }

  /** The delete removes the requester's own post with that id, and no other. */
  lemma DeleteRemovesOnlyOwned(posts: seq<Post>, bound: Id, id: Id, owner: Id)
    requires IdsFresh(posts, PostId, bound)
    ensures RemainingPosts(posts, id, owner) == Filter(posts, NotOwned(id, owner))
  {
    OwnedAtMostOnce(posts, bound, id, owner);
    DeleteFirstIsFilter(posts, Owned(id, owner), NotOwned(id, owner));
  }

  /** Writes the posts collection; the other collections and the counter are kept. */
  method WritePosts(store: Store, posts: seq<Post>)
    requires store.Valid() && IdsFresh(posts, PostId, store.nextId)
    modifies store
    ensures store.Valid()
    ensures store.State() == old(store.State()).(posts := posts)
  {
    ghost var before := store.State();
    store.posts := posts;
    assert store.State() == before.(posts := posts);
  }

  /** `save` of the post at position `i` under its own identifier. */
  method ReplacePost(store: Store, i: nat, x: Post)
    requires store.Valid() && i < |store.posts| && x.id == store.posts[i].id
    modifies store
    ensures store.Valid()
    ensures store.State() == old(store.State()).(posts := old(store.posts)[i := x])
  {
    IdsFreshUpdate(store.posts, PostId, store.nextId, i, x);
    WritePosts(store, store.posts[i := x]);
  }

  /** `Post.create`: the document is stored under the next identifier. */
  method InsertPost(store: Store, x: Post)
    requires store.Valid() && x.id == store.nextId
    modifies store
    ensures store.Valid()
    ensures store.State() == old(store.State()).(posts := old(store.posts) + [x], nextId := old(store.nextId) + 1)
  {
    ghost var before := store.State();
    ConsistentRaise(before, before.nextId + 1);
    IdsFreshAppend(before.posts, PostId, before.nextId, x);
    var id := store.FreshId();
    store.posts := store.posts + [x];
    assert store.State() == before.(posts := before.posts + [x], nextId := before.nextId + 1);
  }

  /** `createPost`: 401 without a user, then 400 for missing or blank content; otherwise the
      post is created, owned by the requester, with the content as sent, and returned
      with 200. */
  method CreatePost(store: Store, viewer: Option<Id>, content: Option<string>, now: Instant) returns (r: Reply<Post>)
    requires store.Valid()
    modifies store
    ensures store.Valid()
    ensures viewer.None? ==> r == Fail(401, "Unauthorized request") && store.State() == old(store.State())
    ensures viewer.Some? && MissingOrBlank(content) ==> r == Fail(400, "Content cannot be empty") && store.State() == old(store.State())
    ensures viewer.Some? && !MissingOrBlank(content) ==>
      var created := Post(old(store.nextId), viewer.value, content.value, now);
      && r == Ok(200, created, "Post created successfully")
      && store.State() == old(store.State()).(posts := old(store.posts) + [created], nextId := old(store.nextId) + 1)
  {
    if viewer.None? {
      return Fail(401, "Unauthorized request");
    }
    if MissingOrBlank(content) {
      return Fail(400, "Content cannot be empty");
    }
    var created := Post(store.nextId, viewer.value, content.value, now);
    InsertPost(store, created);
    r := Ok(200, created, "Post created successfully");
  }

  /** `updatePost`: 400 for an invalid post id, 401 without a user, 400 for missing or blank
      content. Then the owner-gated update: the edited post with 200, or the 403 thrown
      inside the `try` as the catch re-wraps it (`error.statusCode || 500`). */
  method UpdatePost(store: Store, shape: ApiErrorShape, postId: RawId, viewer: Option<Id>, content: Option<string>) returns (r: Reply<Post>)
    requires store.Valid()
    modifies store
    ensures store.Valid()
    ensures postId.Malformed? ==> r == Fail(400, "Invalid or missing postId") && store.State() == old(store.State())
    ensures postId.WellFormed? && viewer.None? ==> r == Fail(401, "Unauthorized request") && store.State() == old(store.State())
    ensures postId.WellFormed? && viewer.Some? && MissingOrBlank(content) ==>
      r == Fail(400, "Content cannot be empty") && store.State() == old(store.State())
    ensures postId.WellFormed? && viewer.Some? && !MissingOrBlank(content) ==>
      store.State() == old(store.State()).(posts := EditedPosts(old(store.posts), postId.id, viewer.value, content.value))
    ensures (postId.WellFormed? && viewer.Some? && !MissingOrBlank(content)
      && FirstIndex(old(store.posts), Owned(postId.id, viewer.value)).Some?) ==>
      r == Ok(200, old(store.posts)[FirstIndex(old(store.posts), Owned(postId.id, viewer.value)).value].(content := content.value), "Post updated successfully")
    ensures (postId.WellFormed? && viewer.Some? && !MissingOrBlank(content)
      && FirstIndex(old(store.posts), Owned(postId.id, viewer.value)).None?) ==>
      r == Rethrow(shape, StatusCodeProp, 403, "Unauthorized request or post does not exist",
                   "Something went wrong while updating post")
  {
    if postId.Malformed? {
      return Fail(400, "Invalid or missing postId");
    }
    if viewer.None? {
      return Fail(401, "Unauthorized request");
    }
    if MissingOrBlank(content) {
      return Fail(400, "Content cannot be empty");
    }
    var found := FirstIndex(store.posts, Owned(postId.id, viewer.value));
    match found
    case Some(i) =>
      var edited := store.posts[i].(content := content.value);
      assert EditedPosts(store.posts, postId.id, viewer.value, content.value) == store.posts[i := edited];
      ReplacePost(store, i, edited);
      r := Ok(200, edited, "Post updated successfully");
    case None =>
      r := Rethrow(shape, StatusCodeProp, 403, "Unauthorized request or post does not exist",
                   "Something went wrong while updating post");
  }

  /** `deletePost`: 400 for an invalid post id, 401 without a user. Then the owner-gated
      delete: 200 with an empty data object, or the 403 re-wrapped by the catch. */
  method DeletePost(store: Store, shape: ApiErrorShape, postId: RawId, viewer: Option<Id>) returns (r: Reply<()>)
    requires store.Valid()
    modifies store
    ensures store.Valid()
    ensures postId.Malformed? ==> r == Fail(400, "Invalid or missing postId") && store.State() == old(store.State())
    ensures postId.WellFormed? && viewer.None? ==> r == Fail(401, "Unauthorized request") && store.State() == old(store.State())
    ensures postId.WellFormed? && viewer.Some? ==>
      && store.State() == old(store.State()).(posts := RemainingPosts(old(store.posts), postId.id, viewer.value))
      && if FirstIndex(old(store.posts), Owned(postId.id, viewer.value)).Some?
         then r == Ok(200, (), "Post deleted successfully")
         else r == Rethrow(shape, StatusCodeProp, 403, "Unauthorized request or post does not exist",
                           "Something went wrong while deleting post")
  {
    if postId.Malformed? {
      return Fail(400, "Invalid or missing postId");
    }
    if viewer.None? {
      return Fail(401, "Unauthorized request");
    }
    var found := FirstIndex(store.posts, Owned(postId.id, viewer.value));
    if found.Some? {
      IdsFreshRemove(store.posts, PostId, store.nextId, found.value);
      ghost var before := store.State();
      WritePosts(store, RemoveAt(store.posts, found.value));
      assert store.State() == before.(posts := RemoveAt(before.posts, found.value));
      r := Ok(200, (), "Post deleted successfully");
    } else {
      r := Rethrow(shape, StatusCodeProp, 403, "Unauthorized request or post does not exist",
                   "Something went wrong while deleting post");
    }
  }
}
