/** The like controller: the three like toggles ("find, then delete or insert" on the
    likes collection) and the liked-videos view. */
module LikeController {
  import opened Common
  import opened Query
  import opened Records
  import opened LikeModel
  import opened Db

  /** The filter `{ <target>: t.id, likedBy: liker }` of a toggle's lookup. */
  predicate Matches(l: Like, t: Target, liker: Id) {
    On(l, t) && l.likedBy == liker
  }

  function Pair(t: Target, liker: Id): Like -> bool {
    (l: Like) => Matches(l, t, liker)
  }

  function NotPair(t: Target, liker: Id): Like -> bool {
    (l: Like) => !Matches(l, t, liker)
  }

  /** `Like.findOne({ <target>: t.id, likedBy: liker })`. */
  function FindLike(likes: seq<Like>, t: Target, liker: Id): Option<nat> {
    FirstIndex(likes, Pair(t, liker))
  }

  /** The likes `findByIdAndDelete(id)` keeps: those with another id. */
  function OtherId(id: Id): Like -> bool {
    (l: Like) => l.id != id
  }

  /** `Like.findByIdAndDelete(id)`. */
  function DeleteById(likes: seq<Like>, id: Id): seq<Like> {
    Filter(likes, OtherId(id))
  }

  /** The likes collection after a toggle by `liker` on `t`: the like the lookup found is
      deleted by its id, or else one new like is created with identifier `newId`. */
  function ToggledLikes(likes: seq<Like>, t: Target, liker: Id, newId: Id, now: Instant): (r: seq<Like>)
    ensures forall k :: 0 <= k < |r| ==> r[k] in likes || r[k] == NewLike(newId, t, liker, now)
    ensures FindLike(likes, t, liker).Some? ==> likes[FindLike(likes, t, liker).value] !in r
    ensures forall k :: (0 <= k < |likes| && (FindLike(likes, t, liker).None?
      || likes[k].id != likes[FindLike(likes, t, liker).value].id)) ==> likes[k] in r
  {
    match FindLike(likes, t, liker)
    case Some(i) => DeleteById(likes, likes[i].id)
    case None => likes + [NewLike(newId, t, liker, now)]
  }

  /** With unique identifiers, deleting by the found like's id removes that like and no other. */
  lemma DeleteByIdAbsent(likes: seq<Like>, id: Id)
    requires forall k :: 0 <= k < |likes| ==> likes[k].id != id
    ensures DeleteById(likes, id) == likes
  {
    forall k | 0 <= k < |likes| ensures OtherId(id)(likes[k]) {
    }
    FilterKeepsAll(likes, OtherId(id));
  }

  lemma DeleteByIdCons(likes: seq<Like>, id: Id)
    requires likes != [] && likes[0].id != id
    ensures DeleteById(likes, id) == [likes[0]] + DeleteById(likes[1..], id)
  {
    assert OtherId(id)(likes[0]);
  }

  lemma {:induction false} DeleteByIdRemovesOne(likes: seq<Like>, i: nat)
    requires i < |likes|
    requires forall a, b :: 0 <= a < b < |likes| ==> likes[a].id != likes[b].id
    ensures DeleteById(likes, likes[i].id) == RemoveAt(likes, i)
  {
    var id := likes[i].id;
    var rest := likes[1..];
    if i == 0 {
      forall k | 0 <= k < |rest| ensures rest[k].id != id {
        assert rest[k] == likes[k + 1];
      }
      DeleteByIdAbsent(rest, id);
      assert !OtherId(id)(likes[0]);
    } else {
      forall a, b | 0 <= a < b < |rest| ensures rest[a].id != rest[b].id {
        assert rest[a] == likes[a + 1] && rest[b] == likes[b + 1];
      }
      DeleteByIdRemovesOne(rest, i - 1);
      assert rest[i - 1] == likes[i];
      DeleteByIdCons(likes, id);
      RemoveAtCons(likes, i);
    }
  }

  /** The toggle either removes exactly the like the lookup found or appends one new like. */
  lemma ToggleIsDeleteOrInsert(likes: seq<Like>, t: Target, liker: Id, newId: Id, now: Instant)
    requires IdsFresh(likes, LikeId, newId)
    ensures FindLike(likes, t, liker).Some? ==>
      var i := FindLike(likes, t, liker).value;
      Matches(likes[i], t, liker) && ToggledLikes(likes, t, liker, newId, now) == RemoveAt(likes, i)
    ensures FindLike(likes, t, liker).None? ==>
      (forall j :: 0 <= j < |likes| ==> !Matches(likes[j], t, liker))
      && ToggledLikes(likes, t, liker, newId, now) == likes + [NewLike(newId, t, liker, now)]
  {
    if FindLike(likes, t, liker).Some? {
      var i := FindLike(likes, t, liker).value;
      assert forall a, b :: 0 <= a < b < |likes| ==> LikeId(likes[a]) != LikeId(likes[b]);
      DeleteByIdRemovesOne(likes, i);
    }
  }

  /** The number of likes `liker` has on `t` drops by one when there was one, and becomes
      one when there was none. */
  lemma ToggleCount(likes: seq<Like>, t: Target, liker: Id, newId: Id, now: Instant)
    requires IdsFresh(likes, LikeId, newId)
    ensures Count(ToggledLikes(likes, t, liker, newId, now), Pair(t, liker)) ==
      if Count(likes, Pair(t, liker)) == 0 then 1 else Count(likes, Pair(t, liker)) - 1
  {
    ToggleIsDeleteOrInsert(likes, t, liker, newId, now);
    var n := NewLike(newId, t, liker, now);
    match FindLike(likes, t, liker)
    case Some(i) =>
      CountRemoveAccepted(likes, Pair(t, liker), i);
    case None =>
      CountAppend(likes, [n], Pair(t, liker));
      assert Filter([n], Pair(t, liker)) == [n];
  }

  /** The number of likes on `t`, by anyone, moves by exactly one. */
  lemma ToggleShiftsLikesOnTarget(likes: seq<Like>, t: Target, liker: Id, newId: Id, now: Instant)
    requires IdsFresh(likes, LikeId, newId)
    ensures Count(ToggledLikes(likes, t, liker, newId, now), OnTarget(t)) ==
      if Count(likes, Pair(t, liker)) == 0 then Count(likes, OnTarget(t)) + 1
      else Count(likes, OnTarget(t)) - 1
  {
    ToggleIsDeleteOrInsert(likes, t, liker, newId, now);
    var n := NewLike(newId, t, liker, now);
    match FindLike(likes, t, liker)
    case Some(i) =>
      CountRemoveAccepted(likes, OnTarget(t), i);
    case None =>
      CountAppend(likes, [n], OnTarget(t));
      assert Filter([n], OnTarget(t)) == [n];
  }

  /** A toggle changes no like whose target or `likedBy` differs from the request: those
      likes stay, in the same order. */
  lemma ToggleLeavesOthers(likes: seq<Like>, t: Target, liker: Id, newId: Id, now: Instant)
    requires IdsFresh(likes, LikeId, newId)
    ensures Filter(ToggledLikes(likes, t, liker, newId, now), NotPair(t, liker)) == Filter(likes, NotPair(t, liker))
  {
    ToggleIsDeleteOrInsert(likes, t, liker, newId, now);
    var n := NewLike(newId, t, liker, now);
    match FindLike(likes, t, liker)
    case Some(i) =>
      FilterRemoveRejected(likes, NotPair(t, liker), i);
    case None =>
      FilterAppend(likes, [n], NotPair(t, liker));
      assert Filter([n], NotPair(t, liker)) == [];
  }

  /** Toggling twice from a state without the like restores the collection exactly. */
  lemma ToggleTwiceFromUnliked(likes: seq<Like>, t: Target, liker: Id, newId1: Id, newId2: Id, now1: Instant, now2: Instant)
    requires IdsFresh(likes, LikeId, newId1) && newId1 < newId2
    requires Count(likes, Pair(t, liker)) == 0
    ensures ToggledLikes(ToggledLikes(likes, t, liker, newId1, now1), t, liker, newId2, now2) == likes
  {
    var n := NewLike(newId1, t, liker, now1);
    ToggleIsDeleteOrInsert(likes, t, liker, newId1, now1);
    var once := likes + [n];
    IdsFreshAppend(likes, LikeId, newId1, n);
    IdsFreshRaise(once, LikeId, newId1 + 1, newId2);
    ToggleIsDeleteOrInsert(once, t, liker, newId2, now2);
    var i := FirstIndex(once, Pair(t, liker));
    assert Pair(t, liker)(once[|likes|]);
    assert once[..|likes|] == likes;
    assert i.Some? && i.value == |likes|;
    assert RemoveAt(once, |likes|) == likes;
  }

  /** Without a like by `liker` on `t`, the toggle appends the new like. */
  lemma ToggleFromUnlikedAppends(likes: seq<Like>, t: Target, liker: Id, newId: Id, now: Instant)
    requires Count(likes, Pair(t, liker)) == 0
    ensures ToggledLikes(likes, t, liker, newId, now) == likes + [NewLike(newId, t, liker, now)]
  {
    assert FindLike(likes, t, liker).None?;
  }

  /** Toggling twice from a state with exactly one such like leaves every other like as it
      was and again exactly one like by `liker` on `t`: the new one, at the end. */
  lemma ToggleTwiceFromLiked(likes: seq<Like>, t: Target, liker: Id, newId1: Id, newId2: Id, now1: Instant, now2: Instant)
    requires IdsFresh(likes, LikeId, newId1)
    requires Count(likes, Pair(t, liker)) == 1
    ensures var twice := ToggledLikes(ToggledLikes(likes, t, liker, newId1, now1), t, liker, newId2, now2);
      && Filter(twice, NotPair(t, liker)) == Filter(likes, NotPair(t, liker))
      && Count(twice, Pair(t, liker)) == 1
      && twice[|twice| - 1] == NewLike(newId2, t, liker, now2)
  {
    var once := ToggledLikes(likes, t, liker, newId1, now1);
    var n := NewLike(newId2, t, liker, now2);
    ToggleCount(likes, t, liker, newId1, now1);
    ToggleLeavesOthers(likes, t, liker, newId1, now1);
    ToggleFromUnlikedAppends(once, t, liker, newId2, now2);
    CountAppend(once, [n], Pair(t, liker));
    assert Filter([n], Pair(t, liker)) == [n];
    FilterAppend(once, [n], NotPair(t, liker));
    assert Filter([n], NotPair(t, liker)) == [];
  }

  /** `likesCount: { $size: "$likes" }` after a `$lookup` of the likes whose reference
      is the record's `_id`. */
  function LikesCount(likes: seq<Like>, t: Target): (n: nat)
    ensures n <= |likes|
    ensures n == 0 <==> forall i :: 0 <= i < |likes| ==> !On(likes[i], t)
  {
    Count(likes, OnTarget(t))
  }

  /** `isLiked: { $in: [viewer, "$likes.likedBy"] }` over the same looked-up likes. */
  predicate LikedBy(likes: seq<Like>, t: Target, viewer: Id) {
    exists i :: 0 <= i < |likes| && Matches(likes[i], t, viewer)
  }

  /** With at most one like per user and target (which the toggles maintain), a toggle by
      `liker` flips `isLiked` for `liker` and moves `likesCount` by one in that direction. */
  lemma ToggleFlipsLiked(likes: seq<Like>, t: Target, liker: Id, newId: Id, now: Instant)
    requires IdsFresh(likes, LikeId, newId)
    requires Count(likes, Pair(t, liker)) <= 1
    ensures var after := ToggledLikes(likes, t, liker, newId, now);
      && (LikedBy(after, t, liker) <==> !LikedBy(likes, t, liker))
      && LikesCount(after, t) == if LikedBy(likes, t, liker) then LikesCount(likes, t) - 1 else LikesCount(likes, t) + 1
  {
    var after := ToggledLikes(likes, t, liker, newId, now);
    ToggleCount(likes, t, liker, newId, now);
    ToggleShiftsLikesOnTarget(likes, t, liker, newId, now);
    if LikedBy(likes, t, liker) {
      var i :| 0 <= i < |likes| && Matches(likes[i], t, liker);
      assert Pair(t, liker)(likes[i]);
    }
    if LikedBy(after, t, liker) {
      var i :| 0 <= i < |after| && Matches(after[i], t, liker);
      assert Pair(t, liker)(after[i]);
    }
    if Count(likes, Pair(t, liker)) == 0 {
      var i :| 0 <= i < |after| && Pair(t, liker)(after[i]);
    } else {
      var i :| 0 <= i < |likes| && Pair(t, liker)(likes[i]);
    }
  }

  /** The likes collection and the id counter after a successful toggle. */
  ghost predicate Toggled(before: Collections, after: Collections, t: Target, liker: Id, now: Instant) {
    after == before.(
      likes := ToggledLikes(before.likes, t, liker, before.nextId, now),
      nextId := if FindLike(before.likes, t, liker).None? then before.nextId + 1 else before.nextId)
  }

  /** Deleting a like keeps the store consistent. */
  lemma DeleteKeepsConsistent(c: Collections, i: nat)
    requires Consistent(c) && i < |c.likes|
    ensures Consistent(c.(likes := RemoveAt(c.likes, i)))
  {
    IdsFreshRemove(c.likes, LikeId, c.nextId, i);
    var r := RemoveAt(c.likes, i);
    forall a, b | 0 <= a < b < |r| ensures r[a] == c.likes[if a < i then a else a + 1] && r[b] == c.likes[if b < i then b else b + 1] {
    }
  }

  /** Inserting a like the lookup did not find keeps the store consistent. */
  lemma InsertKeepsConsistent(c: Collections, t: Target, liker: Id, now: Instant)
    requires Consistent(c) && FindLike(c.likes, t, liker).None?
    ensures Consistent(c.(likes := c.likes + [NewLike(c.nextId, t, liker, now)], nextId := c.nextId + 1))
  {
    var n := NewLike(c.nextId, t, liker, now);
    ConsistentRaise(c, c.nextId + 1);
    IdsFreshAppend(c.likes, LikeId, c.nextId, n);
    var r := c.likes + [n];
    forall j | 0 <= j < |c.likes|
      ensures c.likes[j].likedBy != liker || TargetOf(c.likes[j]) != t
    {
      assert !Pair(t, liker)(c.likes[j]);
    }
    assert forall j :: 0 <= j < |c.likes| ==> r[j] == c.likes[j];
  }

  /** The body shared by the three toggles, after validation. */
  method ToggleLike(store: Store, t: Target, liker: Id, now: Instant)
    requires store.Valid()
    modifies store
    ensures store.Valid()
    ensures Toggled(old(store.State()), store.State(), t, liker, now)
  {
    ghost var before := store.State();
    ToggleIsDeleteOrInsert(store.likes, t, liker, store.nextId, now);
    var found := FindLike(store.likes, t, liker);
    if found.Some? {
      var i := found.value;
      DeleteKeepsConsistent(before, i);
      store.likes := DeleteById(store.likes, store.likes[i].id);
      assert store.State() == before.(likes := RemoveAt(before.likes, i));
    } else {
      InsertKeepsConsistent(before, t, liker, now);
      var id := store.FreshId();
      store.likes := store.likes + [NewLike(id, t, liker, now)];
      assert store.State() == before.(likes := before.likes + [NewLike(before.nextId, t, liker, now)], nextId := before.nextId + 1);
    }
  }

  /** `toggleVideoLike`: 400 for an invalid video id, then 401 without a user; otherwise
      the toggle and 200 with an empty data object. */
  method ToggleVideoLike(store: Store, videoId: RawId, viewer: Option<Id>, now: Instant) returns (r: Reply<()>)
    requires store.Valid()
    modifies store
    ensures store.Valid()
    ensures videoId.Malformed? ==> r == Fail(400, "Invalid or missing videoId") && store.State() == old(store.State())
    ensures videoId.WellFormed? && viewer.None? ==> r == Fail(401, "Unauthorized request") && store.State() == old(store.State())
    ensures videoId.WellFormed? && viewer.Some? ==>
      r == Ok(200, (), "Like toggled successfully") && Toggled(old(store.State()), store.State(), OnVideo(videoId.id), viewer.value, now)
  {
    if videoId.Malformed? {
      return Fail(400, "Invalid or missing videoId");
    }
    if viewer.None? {
      return Fail(401, "Unauthorized request");
    }
    ToggleLike(store, OnVideo(videoId.id), viewer.value, now);
    r := Ok(200, (), "Like toggled successfully");
  }

  /** `toggleCommentLike`: as `toggleVideoLike`, keyed on `comment`. */
  method ToggleCommentLike(store: Store, commentId: RawId, viewer: Option<Id>, now: Instant) returns (r: Reply<()>)
    requires store.Valid()
    modifies store
    ensures store.Valid()
    ensures commentId.Malformed? ==> r == Fail(400, "Invalid or missing commentId") && store.State() == old(store.State())
    ensures commentId.WellFormed? && viewer.None? ==> r == Fail(401, "Unauthorized request") && store.State() == old(store.State())
    ensures commentId.WellFormed? && viewer.Some? ==>
      r == Ok(200, (), "Like toggled successfully") && Toggled(old(store.State()), store.State(), OnComment(commentId.id), viewer.value, now)
  {
    if commentId.Malformed? {
      return Fail(400, "Invalid or missing commentId");
    }
    if viewer.None? {
      return Fail(401, "Unauthorized request");
    }
    ToggleLike(store, OnComment(commentId.id), viewer.value, now);
    r := Ok(200, (), "Like toggled successfully");
  }

  /** `togglePostLike`: as `toggleVideoLike`, keyed on `post`. */
  method TogglePostLike(store: Store, postId: RawId, viewer: Option<Id>, now: Instant) returns (r: Reply<()>)
    requires store.Valid()
    modifies store
    ensures store.Valid()
    ensures postId.Malformed? ==> r == Fail(400, "Invalid or missing postId") && store.State() == old(store.State())
    ensures postId.WellFormed? && viewer.None? ==> r == Fail(401, "Unauthorized request") && store.State() == old(store.State())
    ensures postId.WellFormed? && viewer.Some? ==>
      r == Ok(200, (), "Like toggled successfully") && Toggled(old(store.State()), store.State(), OnPost(postId.id), viewer.value, now)
  {
    if postId.Malformed? {
      return Fail(400, "Invalid or missing postId");
    }
    if viewer.None? {
      return Fail(401, "Unauthorized request");
    }
    ToggleLike(store, OnPost(postId.id), viewer.value, now);
    r := Ok(200, (), "Like toggled successfully");
  }

  /** An item of `getLikedVideos`: the fields of the final `$project`. */
  datatype LikedVideo = LikedVideo(
    id: Id, title: string, description: string, owner: Option<OwnerView>,
    thumbnail: string, createdAt: Instant)

  /** A like together with one video its `$lookup` found: a row after `$unwind`. */
  type LikedRow = (Like, Video)

  /** `$match: { likedBy: viewer, video: { $exists: true, $ne: null } }`. */
  function LikedVideoFilter(viewer: Id): Like -> bool {
    (l: Like) => l.likedBy == viewer && l.video.Some?
  }

  /** The join condition of the video `$lookup`: `video` against the video's `_id`. */
  predicate IsVideoOf(l: Like, v: Video) {
    l.video == Some(v.id)
  }

  /** The sort key of `$sort: { createdAt: -1 }`: the like's own creation time. */
  function LikeTime(row: LikedRow): SortKey {
    Date(row.0.createdAt)
  }

  /** The rows of `getLikedVideos` before the final `$project`. */
  function LikedRows(viewer: Id, likes: seq<Like>, videos: seq<Video>): seq<LikedRow> {
    SortOn(Unwind(Filter(likes, LikedVideoFilter(viewer)), videos, IsVideoOf), LikeTime, Descending)
  }

  /** The video fields the inner pipeline keeps, with the owner `$lookup` and `$first`. */
  function LikedVideoOf(users: seq<User>, row: LikedRow): LikedVideo {
    var v := row.1;
    LikedVideo(v.id, v.title, v.description, OwnerOf(users, v.owner), v.thumbnail, v.createdAt)
  }

  /** `getLikedVideos`. */
  function GetLikedVideos(viewer: Option<Id>, likes: seq<Like>, videos: seq<Video>, users: seq<User>): (r: Reply<seq<LikedVideo>>)
    ensures viewer.None? <==> r == Fail(401, "Unauthorized request")
    ensures r.Ok? ==> r.status == 200
  {
    if viewer.None? then Fail(401, "Unauthorized request")
    else
      var rows := LikedRows(viewer.value, likes, videos);
      Ok(200, seq(|rows|, k requires 0 <= k < |rows| => LikedVideoOf(users, rows[k])), "Liked videos fetched successfully")
  }

  /** Each item is a video the viewer liked and that still exists. */
  lemma LikedVideosSound(viewer: Id, likes: seq<Like>, videos: seq<Video>, users: seq<User>)
    ensures var r := GetLikedVideos(Some(viewer), likes, videos, users);
      r.Ok? && forall k :: 0 <= k < |r.data| ==>
        exists i, j :: 0 <= i < |likes| && 0 <= j < |videos|
          && likes[i].likedBy == viewer && likes[i].video == Some(videos[j].id)
          && r.data[k] == LikedVideoOf(users, (likes[i], videos[j]))
  {
    var r := GetLikedVideos(Some(viewer), likes, videos, users);
    var mine := Filter(likes, LikedVideoFilter(viewer));
    var unwound := Unwind(mine, videos, IsVideoOf);
    var rows := LikedRows(viewer, likes, videos);
    forall k | 0 <= k < |r.data|
      ensures exists i, j :: (0 <= i < |likes| && 0 <= j < |videos|
          && likes[i].likedBy == viewer && likes[i].video == Some(videos[j].id)
          && r.data[k] == LikedVideoOf(users, (likes[i], videos[j])))
    {
      SortOnMembers(unwound, LikeTime, Descending, rows[k]);
      var m :| 0 <= m < |unwound| && unwound[m] == rows[k];
      var l := rows[k].0;
      assert l in mine;
      var a :| 0 <= a < |mine| && mine[a] == l;
      assert LikedVideoFilter(viewer)(l);
      var i :| 0 <= i < |likes| && likes[i] == l;
      var j :| 0 <= j < |videos| && videos[j] == rows[k].1;
      assert r.data[k] == LikedVideoOf(users, (likes[i], videos[j]));
    }
  }

  /** Every video the viewer liked that still exists is an item. */
  lemma LikedVideosComplete(viewer: Id, likes: seq<Like>, videos: seq<Video>, users: seq<User>, i: nat, j: nat)
    requires i < |likes| && j < |videos|
    requires likes[i].likedBy == viewer && likes[i].video == Some(videos[j].id)
    ensures var r := GetLikedVideos(Some(viewer), likes, videos, users);
      r.Ok? && LikedVideoOf(users, (likes[i], videos[j])) in r.data
  {
    var mine := Filter(likes, LikedVideoFilter(viewer));
    assert LikedVideoFilter(viewer)(likes[i]);
    var a :| 0 <= a < |mine| && mine[a] == likes[i];
    UnwindComplete(mine, videos, IsVideoOf, a, j);
    var unwound := Unwind(mine, videos, IsVideoOf);
    var rows := LikedRows(viewer, likes, videos);
    SortOnMembers(unwound, LikeTime, Descending, (likes[i], videos[j]));
    var k :| 0 <= k < |rows| && rows[k] == (likes[i], videos[j]);
    var r := GetLikedVideos(Some(viewer), likes, videos, users);
    assert r.data[k] == LikedVideoOf(users, (likes[i], videos[j]));
  }

  /** With unique video ids and every video the viewer liked still stored, there is
      exactly one item per like of the viewer on a video. */
  lemma LikedVideosCount(viewer: Id, likes: seq<Like>, videos: seq<Video>, users: seq<User>)
    requires forall i, j :: 0 <= i < j < |videos| ==> videos[i].id != videos[j].id
    requires forall i :: (0 <= i < |likes| && likes[i].likedBy == viewer && likes[i].video.Some?
      ==> VideoExists(videos, likes[i].video.value))
    ensures var r := GetLikedVideos(Some(viewer), likes, videos, users);
      r.Ok? && |r.data| == Count(likes, LikedVideoFilter(viewer))
  {
    var mine := Filter(likes, LikedVideoFilter(viewer));
    forall a | 0 <= a < |mine| ensures Count(videos, PartnersOf(IsVideoOf, mine[a])) == 1 {
      assert mine[a] in likes && LikedVideoFilter(viewer)(mine[a]);
      var i :| 0 <= i < |likes| && likes[i] == mine[a];
      var k :| 0 <= k < |videos| && videos[k].id == mine[a].video.value;
      var partner := PartnersOf(IsVideoOf, mine[a]);
      assert partner(videos[k]) == IsVideoOf(mine[a], videos[k]);
      forall j | 0 <= j < |videos| && j != k ensures !partner(videos[j]) {
        assert partner(videos[j]) == IsVideoOf(mine[a], videos[j]);
        assert videos[j].id != videos[k].id;
      }
      CountExactlyOne(videos, partner, k);
    }
    UnwindLength(mine, videos, IsVideoOf);
  }

  /** Every row is one of the viewer's likes. */
  lemma LikedRowsByViewer(viewer: Id, likes: seq<Like>, videos: seq<Video>, k: nat)
    requires k < |LikedRows(viewer, likes, videos)|
    ensures LikedRows(viewer, likes, videos)[k].0.likedBy == viewer
  {
    var rows := LikedRows(viewer, likes, videos);
    var mine := Filter(likes, LikedVideoFilter(viewer));
    var unwound := Unwind(mine, videos, IsVideoOf);
    SortOnMembers(unwound, LikeTime, Descending, rows[k]);
    var m :| 0 <= m < |unwound| && unwound[m] == rows[k];
    var a :| 0 <= a < |mine| && mine[a] == rows[k].0;
    assert LikedVideoFilter(viewer)(mine[a]);
  }

  /** Items come newest like first: the order is the likes' own creation times, not the
      videos'. */
  lemma LikedVideosNewestFirst(viewer: Id, likes: seq<Like>, videos: seq<Video>, users: seq<User>)
    ensures var r := GetLikedVideos(Some(viewer), likes, videos, users);
      var rows := LikedRows(viewer, likes, videos);
      && r.Ok? && |r.data| == |rows|
      && (forall k :: 0 <= k < |rows| ==> r.data[k] == LikedVideoOf(users, rows[k]))
      && (forall a, b :: 0 <= a < b < |rows| ==> NotAfter(rows[b].0.createdAt, rows[a].0.createdAt))
  {
    var rows := LikedRows(viewer, likes, videos);
    SortOnSorted(Unwind(Filter(likes, LikedVideoFilter(viewer)), videos, IsVideoOf), LikeTime, Descending);
    forall a, b | 0 <= a < b < |rows| ensures NotAfter(rows[b].0.createdAt, rows[a].0.createdAt) {
      assert Precedes(rows[a], rows[b], LikeTime, Descending);
    }
  }
}
