/** The database: one in-memory sequence of documents per collection, in natural
    (insertion) order, and the source of fresh document identifiers. */
module Db {
  import opened Common
  import opened Records
  import opened LikeModel

  /** A snapshot of every collection, used to say what a request leaves unchanged. */
  datatype Collections = Collections(
    users: seq<User>, videos: seq<Video>, comments: seq<Comment>, posts: seq<Post>,
    likes: seq<Like>, subscriptions: seq<Subscription>, playlists: seq<Playlist>,
    nextId: Id)

  /** No two likes by the same user are on the same target. */
  ghost predicate UniqueLikeEdges(likes: seq<Like>) {
    forall i, j :: 0 <= i < j < |likes| && SingleTarget(likes[i]) && SingleTarget(likes[j]) ==>
      likes[i].likedBy != likes[j].likedBy || TargetOf(likes[i]) != TargetOf(likes[j])
  }

  /** No two subscriptions join the same subscriber to the same channel. */
  ghost predicate UniqueSubscriptions(subs: seq<Subscription>) {
    forall i, j :: 0 <= i < j < |subs| ==>
      subs[i].subscriber != subs[j].subscriber || subs[i].channel != subs[j].channel
  }

  /** Identifiers are unique and below `nextId`; every like has exactly one target;
      like and subscription edges are unique per pair. The last two hold because the
      toggles are the only writers and each request is atomic here. */
  ghost predicate Consistent(c: Collections) {
    && IdsFresh(c.users, UserId, c.nextId)
    && IdsFresh(c.videos, VideoId, c.nextId)
    && IdsFresh(c.comments, CommentId, c.nextId)
    && IdsFresh(c.posts, PostId, c.nextId)
    && IdsFresh(c.likes, LikeId, c.nextId)
    && IdsFresh(c.subscriptions, SubscriptionId, c.nextId)
    && IdsFresh(c.playlists, PlaylistId, c.nextId)
    && (forall i :: 0 <= i < |c.likes| ==> SingleTarget(c.likes[i]))
    && UniqueLikeEdges(c.likes)
    && UniqueSubscriptions(c.subscriptions)
  }

  lemma IdsFreshRaise<T>(s: seq<T>, idOf: T -> Id, bound: Id, bound': Id)
    requires IdsFresh(s, idOf, bound) && bound <= bound'
    ensures IdsFresh(s, idOf, bound')
  {
  }

  /** Handing out identifiers keeps the state consistent. */
  lemma ConsistentRaise(c: Collections, n: Id)
    requires Consistent(c) && c.nextId <= n
    ensures Consistent(c.(nextId := n))
  {
    IdsFreshRaise(c.users, UserId, c.nextId, n);
    IdsFreshRaise(c.videos, VideoId, c.nextId, n);
    IdsFreshRaise(c.comments, CommentId, c.nextId, n);
    IdsFreshRaise(c.posts, PostId, c.nextId, n);
    IdsFreshRaise(c.likes, LikeId, c.nextId, n);
    IdsFreshRaise(c.subscriptions, SubscriptionId, c.nextId, n);
    IdsFreshRaise(c.playlists, PlaylistId, c.nextId, n);
  }

  class Store {
    var users: seq<User>
    var videos: seq<Video>
    var comments: seq<Comment>
    var posts: seq<Post>
    var likes: seq<Like>
    var subscriptions: seq<Subscription>
    var playlists: seq<Playlist>
    /** Every identifier handed out so far is below `nextId`. */
    var nextId: Id

    function State(): Collections
      reads this
    {
      Collections(users, videos, comments, posts, likes, subscriptions, playlists, nextId)
    }

    ghost predicate Valid()
      reads this
    {
      Consistent(State())
    }

    constructor ()
      ensures Valid()
      ensures State() == Collections([], [], [], [], [], [], [], 0)
    {
      users, videos, comments, posts := [], [], [], [];
      likes, subscriptions, playlists := [], [], [];
      nextId := 0;
    }

    /** The identifier MongoDB assigns to a new document. */
    method FreshId() returns (id: Id)
      requires Valid()
      modifies this`nextId
      ensures id == old(nextId) && nextId == id + 1
      ensures Valid()
    {
      ConsistentRaise(State(), nextId + 1);
      id := nextId;
      nextId := nextId + 1;
    }
  }
}
