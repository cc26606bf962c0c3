/** The video controller: the search listing `getAllVideos` and the validation and initial
    fields of `publishAVideo`. */
module VideoController {
  import opened Common
  import opened Text
  import opened Query
  import opened Records
  import opened Db

  /** A video as `getAllVideos` lists it: every stored field, with `owner` replaced by the
      owner's projected fields (absent when the owner does not exist). */
  datatype VideoCard = VideoCard(
    id: Id, videoFile: string, thumbnail: string, title: string, description: string,
    duration: int, views: nat, isPublished: bool, createdAt: Instant, owner: Option<OwnerView>)

  function CardOf(users: seq<User>, v: Video): (card: VideoCard)
    ensures card.id == v.id && card.title == v.title && card.description == v.description
    ensures card.views == v.views && card.duration == v.duration && card.createdAt == v.createdAt
    ensures card.isPublished == v.isPublished
    ensures card.videoFile == v.videoFile && card.thumbnail == v.thumbnail
    ensures card.owner == OwnerOf(users, v.owner)
    ensures card.owner.Some? <==> UserExists(users, v.owner)
  {
    VideoCard(v.id, v.videoFile, v.thumbnail, v.title, v.description, v.duration, v.views,
              v.isPublished, v.createdAt, OwnerOf(users, v.owner))
  }

  function ShapeCard(users: seq<User>): Video -> VideoCard {
    (v: Video) => CardOf(users, v)
  }

  /** The `$match`: published, and the query occurs in the title or in the description,
      ignoring case. */
  predicate Found(v: Video, query: string) {
    v.isPublished && (MatchesIgnoringCase(v.title, query) || MatchesIgnoringCase(v.description, query))
  }

  function FoundBy(query: string): Video -> bool {
    (v: Video) => Found(v, query)
  }

  /** The field `$sort` orders on, once `sortBy` is one of the three accepted names. */
  function CardKey(sortBy: string): VideoCard -> SortKey {
    (c: VideoCard) =>
      if sortBy == "views" then Num(c.views)
      else if sortBy == "duration" then Num(c.duration)
      else Date(c.createdAt)
  }

  /** `sortType === "asc" ? 1 : -1`. */
  function DirectionOf(sortType: string): (d: Direction)
    ensures d == Ascending <==> sortType == "asc"
  {
    if sortType == "asc" then Ascending else Descending
  }

  /** The pipeline of `getAllVideos`, before pagination. */
  function SearchVideos(videos: seq<Video>, users: seq<User>, query: string, sortBy: string, sortType: string): seq<VideoCard> {
    SortOn(Project(Filter(videos, FoundBy(query)), ShapeCard(users)), CardKey(sortBy), DirectionOf(sortType))
  }

  /** A request field with its default: the default applies only when the field is absent. */
  function OrDefault(x: Option<string>, default: string): (r: string)
    ensures x.None? ==> r == default
    ensures x.Some? ==> r == x.value
  {
    if x.None? then default else x.value
  }

  /** `getAllVideos`: `sortBy` defaults to "views" and `sortType` to "desc"; 400 for a
      missing or blank query, then for a `sortBy` other than views, duration or createdAt,
      then for a `sortType` other than asc or desc. An empty result raises 404 inside the
      `try`, which the catch turns into 500. */
  function GetAllVideos(c: Collections, query: Option<string>, sortBy: Option<string>, sortType: Option<string>): (r: Reply<seq<VideoCard>>)
    ensures MissingOrBlank(query) <==> r == Fail(400, "Search query is missing")
    ensures r == Fail(400, "SortBy is missing or invalid") <==>
      !MissingOrBlank(query) && OrDefault(sortBy, "views") !in ["views", "duration", "createdAt"]
    ensures r == Fail(400, "SortType is missing or invalid") <==>
      !MissingOrBlank(query) && OrDefault(sortBy, "views") in ["views", "duration", "createdAt"]
      && OrDefault(sortType, "desc") !in ["asc", "desc"]
    ensures r == Fail(500, "Internal server error") <==>
      !MissingOrBlank(query) && OrDefault(sortBy, "views") in ["views", "duration", "createdAt"]
      && OrDefault(sortType, "desc") in ["asc", "desc"]
      && forall i :: 0 <= i < |c.videos| ==> !Found(c.videos[i], query.value)
    ensures r.Ok? ==> (r.status == 200 && r.data != []
      && r.data == SearchVideos(c.videos, c.users, query.value, OrDefault(sortBy, "views"), OrDefault(sortType, "desc")))
  {
    var field := OrDefault(sortBy, "views");
    var order := OrDefault(sortType, "desc");
    if MissingOrBlank(query) then Fail(400, "Search query is missing")
    else if field !in ["views", "duration", "createdAt"] then Fail(400, "SortBy is missing or invalid")
    else if order !in ["asc", "desc"] then Fail(400, "SortType is missing or invalid")
    else
      var found := SearchVideos(c.videos, c.users, query.value, field, order);
      assert |found| == Count(c.videos, FoundBy(query.value));
      if found == [] then Fail(500, "Internal server error")
      else Ok(200, found, "Videos fetched successfully")
  }

  /** Every listed video is published and matches the query. */
  lemma SearchSound(videos: seq<Video>, users: seq<User>, query: string, sortBy: string, sortType: string, k: nat)
    requires k < |SearchVideos(videos, users, query, sortBy, sortType)|
    ensures exists i :: (0 <= i < |videos| && Found(videos[i], query)
      && SearchVideos(videos, users, query, sortBy, sortType)[k] == CardOf(users, videos[i]))
  {
    var found := Filter(videos, FoundBy(query));
    var cards := Project(found, ShapeCard(users));
    var r := SearchVideos(videos, users, query, sortBy, sortType);
    SortOnMembers(cards, CardKey(sortBy), DirectionOf(sortType), r[k]);
    var m :| 0 <= m < |cards| && cards[m] == r[k];
    assert FoundBy(query)(found[m]);
    var i :| 0 <= i < |videos| && videos[i] == found[m];
  }

  /** Every published video that matches the query is listed. */
  lemma SearchComplete(videos: seq<Video>, users: seq<User>, query: string, sortBy: string, sortType: string, i: nat)
    requires i < |videos| && Found(videos[i], query)
    ensures CardOf(users, videos[i]) in SearchVideos(videos, users, query, sortBy, sortType)
  {
    var found := Filter(videos, FoundBy(query));
    var cards := Project(found, ShapeCard(users));
    assert FoundBy(query)(videos[i]);
    var m :| 0 <= m < |found| && found[m] == videos[i];
    assert cards[m] == CardOf(users, videos[i]);
    SortOnMembers(cards, CardKey(sortBy), DirectionOf(sortType), cards[m]);
  }

  /** The listing is ordered on `sortBy`, ascending exactly when `sortType` is "asc". */
  lemma SearchOrdered(videos: seq<Video>, users: seq<User>, query: string, sortBy: string, sortType: string)
    ensures var r := SearchVideos(videos, users, query, sortBy, sortType);
      forall a, b :: 0 <= a < b < |r| ==>
        if sortType == "asc" then KeyLe(CardKey(sortBy)(r[a]), CardKey(sortBy)(r[b]))
        else KeyLe(CardKey(sortBy)(r[b]), CardKey(sortBy)(r[a]))
  {
    var r := SearchVideos(videos, users, query, sortBy, sortType);
    SortOnSorted(Project(Filter(videos, FoundBy(query)), ShapeCard(users)), CardKey(sortBy), DirectionOf(sortType));
    forall a, b | 0 <= a < b < |r|
      ensures if sortType == "asc" then KeyLe(CardKey(sortBy)(r[a]), CardKey(sortBy)(r[b]))
        else KeyLe(CardKey(sortBy)(r[b]), CardKey(sortBy)(r[a]))
    {
      assert Precedes(r[a], r[b], CardKey(sortBy), DirectionOf(sortType));
    }
  }

  /** What `uploadOnCloudinary` returns for a file: `null`, or a response with a `url` (which
      may be empty) and, for a video, its `duration`. */
  datatype Upload = Upload(url: string, duration: int)

  /** `!upload || !upload.url`. */
  predicate UploadFailed(u: Option<Upload>) {
    u.None? || u.value.url == []
  }

  lemma AddVideoKeepsConsistent(c: Collections, v: Video)
    requires Consistent(c) && v.id == c.nextId
    ensures Consistent(c.(videos := c.videos + [v], nextId := c.nextId + 1))
  {
    ConsistentRaise(c, c.nextId + 1);
    IdsFreshAppend(c.videos, VideoId, c.nextId, v);
  }

  /** `Video.create`: the document is stored under the next identifier. */
  method InsertVideo(store: Store, v: Video)
    requires store.Valid() && v.id == store.nextId
    modifies store
    ensures store.Valid()
    ensures store.State() == old(store.State()).(videos := old(store.videos) + [v], nextId := old(store.nextId) + 1)
  {
    ghost var before := store.State();
    AddVideoKeepsConsistent(before, v);
    var id := store.FreshId();
    store.videos := store.videos + [v];
    assert store.State() == before.(videos := before.videos + [v], nextId := before.nextId + 1);
  }

  /** `publishAVideo`: 400 when the title or the description is missing or blank, 400
      without a video file, 400 without a thumbnail, 401 without a user, 500 when either
      upload failed (the video's first); otherwise a published video with trimmed title and
      description, zero views, the upload's duration and the requester as owner. The upload
      results are parameters: both uploads happen once the checks before them pass. */
  method PublishAVideo(
    store: Store, title: Option<string>, description: Option<string>,
    hasVideoFile: bool, hasThumbnail: bool, viewer: Option<Id>,
    videoUpload: Option<Upload>, thumbnailUpload: Option<Upload>, now: Instant)
    returns (r: Reply<Video>)
    requires store.Valid()
    modifies store
    ensures store.Valid()
    ensures !r.Ok? ==> store.State() == old(store.State())
    ensures MissingOrBlank(title) || MissingOrBlank(description) ==> r == Fail(400, "Missing title or description")
    ensures !MissingOrBlank(title) && !MissingOrBlank(description) && !hasVideoFile ==> r == Fail(400, "Video file is required")
    ensures !MissingOrBlank(title) && !MissingOrBlank(description) && hasVideoFile && !hasThumbnail ==>
      r == Fail(400, "Thumbnail is required")
    ensures !MissingOrBlank(title) && !MissingOrBlank(description) && hasVideoFile && hasThumbnail && viewer.None? ==>
      r == Fail(401, "Unauthorized. User must be logged in to publish a video")
    ensures !MissingOrBlank(title) && !MissingOrBlank(description) && hasVideoFile && hasThumbnail && viewer.Some? ==>
      if UploadFailed(videoUpload) then r == Fail(500, "Error while uploading video file to Cloudinary")
      else if UploadFailed(thumbnailUpload) then r == Fail(500, "Error while uploading thumbnail to Cloudinary")
      else
        var v := Video(old(store.nextId), viewer.value, videoUpload.value.url, thumbnailUpload.value.url,
                       Trim(title.value), Trim(description.value), videoUpload.value.duration, 0, true, now);
        && r == Ok(200, v, "Video published successfully")
        && store.State() == old(store.State()).(videos := old(store.videos) + [v], nextId := old(store.nextId) + 1)
  {
    if MissingOrBlank(title) || MissingOrBlank(description) {
      return Fail(400, "Missing title or description");
    }
    if !hasVideoFile {
      return Fail(400, "Video file is required");
    }
    if !hasThumbnail {
      return Fail(400, "Thumbnail is required");
    }
    if viewer.None? {
      return Fail(401, "Unauthorized. User must be logged in to publish a video");
    }
    if UploadFailed(videoUpload) {
      return Fail(500, "Error while uploading video file to Cloudinary");
    }
    if UploadFailed(thumbnailUpload) {
      return Fail(500, "Error while uploading thumbnail to Cloudinary");
    }
    var v := Video(store.nextId, viewer.value, videoUpload.value.url, thumbnailUpload.value.url,
                   Trim(title.value), Trim(description.value), videoUpload.value.duration, 0, true, now);
    InsertVideo(store, v);
    r := Ok(200, v, "Video published successfully");
  }
}
