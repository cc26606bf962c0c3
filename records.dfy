/** The documents of the users, videos, comments, posts, subscriptions and playlists
    collections, as the controllers read and write them, and the `$lookup` of an owner. */
module Records {
  import opened Common
  import Query

  /** A user. `password` holds what the user model stores (its hashing is not part of this
      model); `refreshToken` is null when no session is active. */
  datatype User = User(
    id: Id, username: string, email: string, fullName: string,
    avatar: string, coverImage: string, password: string,
    refreshToken: Option<string>, createdAt: Instant)

  datatype Video = Video(
    id: Id, owner: Id, videoFile: string, thumbnail: string,
    title: string, description: string, duration: int, views: nat,
    isPublished: bool, createdAt: Instant)

  datatype Comment = Comment(id: Id, video: Id, owner: Id, content: string, createdAt: Instant)

  datatype Post = Post(id: Id, owner: Id, content: string, createdAt: Instant)

  /** An edge: `subscriber` follows `channel`. */
  datatype Subscription = Subscription(id: Id, subscriber: Id, channel: Id, createdAt: Instant)

  datatype Playlist = Playlist(
    id: Id, owner: Id, name: string, description: string,
    videos: seq<Id>, createdAt: Instant)

  function UserId(u: User): Id { u.id }
  function VideoId(v: Video): Id { v.id }
  function CommentId(c: Comment): Id { c.id }
  function PostId(p: Post): Id { p.id }
  function SubscriptionId(s: Subscription): Id { s.id }
  function PlaylistId(p: Playlist): Id { p.id }

  /** A user as the owner sub-pipelines project it: `{ username: 1, fullName: 1, avatar: 1 }`,
      which keeps `_id` as well. */
  datatype OwnerView = OwnerView(id: Id, username: string, fullName: string, avatar: string)

  function OwnerFields(u: User): OwnerView {
    OwnerView(u.id, u.username, u.fullName, u.avatar)
  }

  /** `User.findById(id)`: the first user whose `_id` is `id`. */
  function UserById(users: seq<User>, id: Id): (r: Option<User>)
    ensures r.Some? ==> r.value in users && r.value.id == id
    ensures r.None? <==> forall i :: 0 <= i < |users| ==> users[i].id != id
  {
    match Query.FirstIndex(users, (u: User) => u.id == id)
    case None => None
    case Some(i) => Some(users[i])
  }

  /** `$lookup` of the owner from users followed by `{ $first: "$owner" }`: the owner's
      projected fields, or no `owner` field at all when the user does not exist. */
  function OwnerOf(users: seq<User>, owner: Id): (o: Option<OwnerView>)
    ensures o.Some? ==> o.value.id == owner
    ensures o.Some? ==> exists i :: (0 <= i < |users| && users[i].id == owner
      && o.value.username == users[i].username && o.value.fullName == users[i].fullName
      && o.value.avatar == users[i].avatar)
    ensures o.None? <==> forall i :: 0 <= i < |users| ==> users[i].id != owner
  {
    match UserById(users, owner)
    case None => None
    case Some(u) => Some(OwnerFields(u))
  }

  predicate VideoExists(videos: seq<Video>, id: Id) {
    exists i :: 0 <= i < |videos| && videos[i].id == id
  }

  predicate UserExists(users: seq<User>, id: Id) {
    exists i :: 0 <= i < |users| && users[i].id == id
  }

  /** Every record has an identifier below `bound`, and no two records share one. */
  ghost predicate IdsFresh<T>(s: seq<T>, idOf: T -> Id, bound: Id) {
    (forall i :: 0 <= i < |s| ==> idOf(s[i]) < bound)
    && (forall i, j :: 0 <= i < j < |s| ==> idOf(s[i]) != idOf(s[j]))
  }

  lemma IdsFreshAppend<T>(s: seq<T>, idOf: T -> Id, bound: Id, x: T)
    requires IdsFresh(s, idOf, bound) && idOf(x) == bound
    ensures IdsFresh(s + [x], idOf, bound + 1)
  {
    var t := s + [x];
    forall i, j | 0 <= i < j < |t| ensures idOf(t[i]) != idOf(t[j]) {
      if j == |s| {
        assert t[i] == s[i];
      } else {
        assert t[i] == s[i] && t[j] == s[j];
      }
    }
  }

  lemma IdsFreshRemove<T>(s: seq<T>, idOf: T -> Id, bound: Id, i: nat)
    requires IdsFresh(s, idOf, bound) && i < |s|
    ensures IdsFresh(Query.RemoveAt(s, i), idOf, bound)
  {
    var t := Query.RemoveAt(s, i);
    forall a, b | 0 <= a < b < |t| ensures idOf(t[a]) != idOf(t[b]) {
      var a' := if a < i then a else a + 1;
      var b' := if b < i then b else b + 1;
      assert t[a] == s[a'] && t[b] == s[b'];
    }
  }

  lemma IdsFreshUpdate<T>(s: seq<T>, idOf: T -> Id, bound: Id, i: nat, x: T)
    requires IdsFresh(s, idOf, bound) && i < |s| && idOf(x) == idOf(s[i])
    ensures IdsFresh(s[i := x], idOf, bound)
  {
    var t := s[i := x];
    forall a, b | 0 <= a < b < |t| ensures idOf(t[a]) != idOf(t[b]) {
      assert idOf(t[a]) == idOf(s[a]) && idOf(t[b]) == idOf(s[b]);
    }
  }
}
