/** The dashboard controller: the requester's channel totals and the list of their own
    videos. Both only read. */
module DashboardController {
  import opened Common
  import opened Text
  import opened Query
  import opened Records
  import opened LikeModel
  import opened Db
  import opened LikeController

  /** `{ owner: channel }`. */
  function OwnedBy(channel: Id): Video -> bool {
    (v: Video) => v.owner == channel
  }

  function Views(v: Video): int {
    v.views
  }

  /** The `$size` of a video's looked-up likes. */
  function LikesOf(likes: seq<Like>): Video -> int {
    (v: Video) => LikesCount(likes, OnVideo(v.id))
  }

  datatype ChannelStats = ChannelStats(totalSubscribers: nat, totalVideos: nat, totalLikes: int, totalViews: int)

  /** The four totals: `countDocuments` of the subscriptions to the channel, then the
      `$group` over the channel's videos (count, `$sum` of views, `$sum` of like counts),
      each 0 when the channel has no videos. */
  function Stats(c: Collections, channel: Id): (s: ChannelStats)
    ensures s.totalSubscribers == Count(c.subscriptions, (x: Subscription) => x.channel == channel)
    ensures s.totalVideos == Count(c.videos, OwnedBy(channel))
    ensures s.totalViews == Sum(Filter(c.videos, OwnedBy(channel)), Views)
    ensures s.totalVideos == 0 ==> s.totalLikes == 0 && s.totalViews == 0
  {
    var own := Filter(c.videos, OwnedBy(channel));
    ChannelStats(
      Count(c.subscriptions, (x: Subscription) => x.channel == channel),
      |own|,
      Sum(own, LikesOf(c.likes)),
      Sum(own, Views))
  }

  /** A video's views when `channel` owns it, and 0 otherwise. */
  function ViewsIfOwnedBy(channel: Id): Video -> int {
    (v: Video) => if v.owner == channel then v.views else 0
  }

  /** `totalViews` adds up the views of exactly the channel's videos: the same total as
      summing over every video with the others counted as 0. */
  lemma TotalViewsOverAllVideos(c: Collections, channel: Id)
    ensures Stats(c, channel).totalViews == Sum(c.videos, ViewsIfOwnedBy(channel))
  {
    SumFilter(c.videos, OwnedBy(channel), Views, ViewsIfOwnedBy(channel));
  }

  /** `getChannelStats`: 401 without a user; otherwise 200 and the requester's totals. */
  function GetChannelStats(c: Collections, viewer: Option<Id>): (r: Reply<ChannelStats>)
    ensures viewer.None? <==> r == Fail(401, "Unauthorized request")
    ensures r.Ok? ==> r.status == 200 && r.data == Stats(c, viewer.value)
  {
    if viewer.None? then Fail(401, "Unauthorized request")
    else Ok(200, Stats(c, viewer.value), "Channel details fetched successfully")
  }

  /** The like is on one of the videos in `vs`. */
  predicate OnOneOf(l: Like, vs: seq<Video>) {
    exists k :: 0 <= k < |vs| && l.video == Some(vs[k].id)
  }

  function OnAnyOf(vs: seq<Video>): Like -> bool {
    (l: Like) => OnOneOf(l, vs)
  }

  /** Summing per-video like counts over videos with distinct ids counts each like on any of
      them exactly once. */
  lemma {:induction false} SumOfLikeCounts(likes: seq<Like>, vs: seq<Video>)
    requires forall i, j :: 0 <= i < j < |vs| ==> vs[i].id != vs[j].id
    ensures Sum(vs, LikesOf(likes)) == Count(likes, OnAnyOf(vs))
  {
    if vs == [] {
      CountCongruent(likes, OnAnyOf(vs), (l: Like) => false);
      assert Count(likes, (l: Like) => false) == 0;
    } else {
      var rest := vs[1..];
      SumOfLikeCounts(likes, rest);
      forall l: Like ensures OnAnyOf(vs)(l) == (OnTarget(OnVideo(vs[0].id))(l) || OnAnyOf(rest)(l)) {
        if OnOneOf(l, vs) {
          var k :| 0 <= k < |vs| && l.video == Some(vs[k].id);
          if k > 0 {
            assert rest[k - 1] == vs[k];
          }
        }
        if OnOneOf(l, rest) {
          var k :| 0 <= k < |rest| && l.video == Some(rest[k].id);
          assert vs[k + 1] == rest[k];
        }
      }
      forall l: Like ensures !(OnTarget(OnVideo(vs[0].id))(l) && OnAnyOf(rest)(l)) {
        if OnOneOf(l, rest) {
          var k :| 0 <= k < |rest| && l.video == Some(rest[k].id);
          assert vs[k + 1] == rest[k];
        }
      }
      CountDisjointUnion(likes, OnTarget(OnVideo(vs[0].id)), OnAnyOf(rest), OnAnyOf(vs));
    }
  }

  /** The like is on a video owned by `channel`. */
  predicate OnChannelVideo(l: Like, videos: seq<Video>, channel: Id) {
    exists k :: 0 <= k < |videos| && videos[k].owner == channel && l.video == Some(videos[k].id)
  }

  /** A like is on one of the channel's own videos exactly when it is on a video owned by
      the channel. */
  lemma OnOwnVideoIff(l: Like, videos: seq<Video>, channel: Id)
    ensures OnOneOf(l, Filter(videos, OwnedBy(channel))) <==> OnChannelVideo(l, videos, channel)
  {
    var own := Filter(videos, OwnedBy(channel));
    if OnOneOf(l, own) {
      var k :| 0 <= k < |own| && l.video == Some(own[k].id);
      assert own[k] in videos && OwnedBy(channel)(own[k]);
      var m :| 0 <= m < |videos| && videos[m] == own[k];
      assert videos[m].owner == channel && l.video == Some(videos[m].id);
    }
    if OnChannelVideo(l, videos, channel) {
      var m :| 0 <= m < |videos| && videos[m].owner == channel && l.video == Some(videos[m].id);
      assert OwnedBy(channel)(videos[m]);
      assert videos[m] in own;
      var k :| 0 <= k < |own| && own[k] == videos[m];
      assert l.video == Some(own[k].id);
    }
  }

  /** `totalLikes` is the number of likes on the channel's videos: with distinct video ids,
      each such like counts once and no other like counts. */
  lemma TotalLikesCountsChannelLikes(c: Collections, channel: Id)
    requires forall i, j :: 0 <= i < j < |c.videos| ==> c.videos[i].id != c.videos[j].id
    ensures Stats(c, channel).totalLikes == Count(c.likes, (l: Like) => OnChannelVideo(l, c.videos, channel))
  {
    var own := Filter(c.videos, OwnedBy(channel));
    FilterKeepsDistinct(c.videos, OwnedBy(channel), VideoId);
    forall i, j | 0 <= i < j < |own| ensures own[i].id != own[j].id {
      assert VideoId(own[i]) != VideoId(own[j]);
    }
    SumOfLikeCounts(c.likes, own);
    forall l: Like ensures OnAnyOf(own)(l) == OnChannelVideo(l, c.videos, channel) {
      OnOwnVideoIff(l, c.videos, channel);
    }
    CountCongruent(c.likes, OnAnyOf(own), (l: Like) => OnChannelVideo(l, c.videos, channel));
  }

  /** A row of `getChannelVideos`: `createdAt` has become a "%d-%m-%Y" string. */
  datatype ChannelVideo = ChannelVideo(
    id: Id, videoFile: string, thumbnail: string, title: string, description: string,
    createdAt: string, duration: int, views: nat, likesCount: nat, isPublished: bool)

  function ChannelVideoOf(likes: seq<Like>, v: Video): (row: ChannelVideo)
    ensures row.id == v.id && row.isPublished == v.isPublished && row.views == v.views
    ensures row.title == v.title && row.description == v.description && row.duration == v.duration
    ensures row.videoFile == v.videoFile && row.thumbnail == v.thumbnail
    ensures row.createdAt == DayMonthYear(v.createdAt)
    ensures row.likesCount == Count(likes, OnTarget(OnVideo(v.id)))
  {
    ChannelVideo(v.id, v.videoFile, v.thumbnail, v.title, v.description, DayMonthYear(v.createdAt),
                 v.duration, v.views, LikesCount(likes, OnVideo(v.id)), v.isPublished)
  }

  function ShapeChannelVideo(likes: seq<Like>): Video -> ChannelVideo {
    (v: Video) => ChannelVideoOf(likes, v)
  }

  /** `$sort: { createdAt: -1 }` after `createdAt` became a string. */
  function DateText(row: ChannelVideo): SortKey {
    Str(row.createdAt)
  }

  /** The pipeline of `getChannelVideos`, before pagination. */
  function ChannelVideos(videos: seq<Video>, likes: seq<Like>, channel: Id): seq<ChannelVideo> {
    SortOn(Project(Filter(videos, OwnedBy(channel)), ShapeChannelVideo(likes)), DateText, Descending)
  }

  /** `getChannelVideos`: 401 without a user; otherwise 200 and the requester's videos. */
  function GetChannelVideos(c: Collections, viewer: Option<Id>): (r: Reply<seq<ChannelVideo>>)
    ensures viewer.None? <==> r == Fail(401, "Unauthorized request")
    ensures r.Ok? ==> r.status == 200 && r.data == ChannelVideos(c.videos, c.likes, viewer.value)
  {
    if viewer.None? then Fail(401, "Unauthorized request")
    else Ok(200, ChannelVideos(c.videos, c.likes, viewer.value), "Videos fetched successfully")
  }

  /** Every row is one of the channel's videos. */
  lemma ChannelVideosSound(videos: seq<Video>, likes: seq<Like>, channel: Id, k: nat)
    requires k < |ChannelVideos(videos, likes, channel)|
    ensures exists i :: (0 <= i < |videos| && videos[i].owner == channel
      && ChannelVideos(videos, likes, channel)[k] == ChannelVideoOf(likes, videos[i]))
  {
    var own := Filter(videos, OwnedBy(channel));
    var rows := Project(own, ShapeChannelVideo(likes));
    var r := ChannelVideos(videos, likes, channel);
    SortOnMembers(rows, DateText, Descending, r[k]);
    var m :| 0 <= m < |rows| && rows[m] == r[k];
    assert OwnedBy(channel)(own[m]);
    var i :| 0 <= i < |videos| && videos[i] == own[m];
  }

  /** Every video of the channel is listed, published or not. */
  lemma ChannelVideosComplete(videos: seq<Video>, likes: seq<Like>, channel: Id, i: nat)
    requires i < |videos| && videos[i].owner == channel
    ensures ChannelVideoOf(likes, videos[i]) in ChannelVideos(videos, likes, channel)
  {
    var own := Filter(videos, OwnedBy(channel));
    var rows := Project(own, ShapeChannelVideo(likes));
    assert OwnedBy(channel)(videos[i]);
    var m :| 0 <= m < |own| && own[m] == videos[i];
    assert rows[m] == ChannelVideoOf(likes, videos[i]);
    SortOnMembers(rows, DateText, Descending, rows[m]);
  }

  /** The rows are in descending order of the date text, compared as strings. */
  lemma ChannelVideosByDateText(videos: seq<Video>, likes: seq<Like>, channel: Id)
    ensures var r := ChannelVideos(videos, likes, channel);
      forall a, b :: 0 <= a < b < |r| ==> LexLe(r[b].createdAt, r[a].createdAt)
  {
    var r := ChannelVideos(videos, likes, channel);
    SortOnSorted(Project(Filter(videos, OwnedBy(channel)), ShapeChannelVideo(likes)), DateText, Descending);
    forall a, b | 0 <= a < b < |r| ensures LexLe(r[b].createdAt, r[a].createdAt) {
      assert Precedes(r[a], r[b], DateText, Descending);
    }
  }

  lemma JanuaryThirtyFirstText(t: Instant)
    requires t == Instant(2024, 1, 31, 0)
    ensures DayMonthYear(t) == "31-01-2024"
  {
    DayMonthYearDigits(t);
    assert t.day / 10 == 3 && t.day % 10 == 1 && t.month / 10 == 0 && t.month % 10 == 1;
    assert t.year / 1000 == 2 && t.year / 100 % 10 == 0 && t.year / 10 % 10 == 2 && t.year % 10 == 4;
  }

  lemma FebruaryFirstText(t: Instant)
    requires t == Instant(2024, 2, 1, 0)
    ensures DayMonthYear(t) == "01-02-2024"
  {
    DayMonthYearDigits(t);
    assert t.day / 10 == 0 && t.day % 10 == 1 && t.month / 10 == 0 && t.month % 10 == 2;
    assert t.year / 1000 == 2 && t.year / 100 % 10 == 0 && t.year / 10 % 10 == 2 && t.year % 10 == 4;
  }

  /** The order is not chronological: a video of 31 January 2024 is listed before one of
      1 February 2024, because "31-01-2024" is greater than "01-02-2024" as text. */
  lemma ChannelVideosNotChronological(jan31: Video, feb1: Video, likes: seq<Like>)
    requires jan31.createdAt == Instant(2024, 1, 31, 0) && feb1.createdAt == Instant(2024, 2, 1, 0)
    requires jan31.owner == feb1.owner
    ensures NotAfter(jan31.createdAt, feb1.createdAt) && !NotAfter(feb1.createdAt, jan31.createdAt)
    ensures ChannelVideos([feb1, jan31], likes, jan31.owner) == [ChannelVideoOf(likes, jan31), ChannelVideoOf(likes, feb1)]
  {
    JanuaryThirtyFirstText(jan31.createdAt);
    FebruaryFirstText(feb1.createdAt);
    FilterKeepsAll([feb1, jan31], OwnedBy(jan31.owner));
    var a, b := ChannelVideoOf(likes, feb1), ChannelVideoOf(likes, jan31);
    assert Project([feb1, jan31], ShapeChannelVideo(likes)) == [a, b];
    DateTextSwapsTwo(a, b);
  }

  /** A row dated "31-01-2024" sorts before a row dated "01-02-2024". */
  lemma DateTextSwapsTwo(a: ChannelVideo, b: ChannelVideo)
    requires a.createdAt == "01-02-2024" && b.createdAt == "31-01-2024"
    ensures SortOn([a, b], DateText, Descending) == [b, a]
  {
    assert !LexLe(b.createdAt, a.createdAt);
    SortOnSwapsTwo(a, b, DateText, Descending);
  }
}
