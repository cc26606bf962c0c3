/** The playlist controller: creating a playlist and the playlists view of a user. The
    remaining playlist handlers are empty stubs. */
module PlaylistController {
  import opened Common
  import opened Text
  import opened Query
  import opened Records
  import opened Db

  /** `Playlist.create`: the document is stored under the next identifier. */
  method InsertPlaylist(store: Store, p: Playlist)
    requires store.Valid() && p.id == store.nextId
    modifies store
    ensures store.Valid()
    ensures store.State() == old(store.State()).(playlists := old(store.playlists) + [p], nextId := old(store.nextId) + 1)
  {
    ghost var before := store.State();
    ConsistentRaise(before, before.nextId + 1);
    IdsFreshAppend(before.playlists, PlaylistId, before.nextId, p);
    var id := store.FreshId();
    store.playlists := store.playlists + [p];
    assert store.State() == before.(playlists := before.playlists + [p], nextId := before.nextId + 1);
  }

  /** `createPlaylist`: 401 without a user, then 400 when the name or the description is
      missing or blank (with the message about the name in both cases); otherwise an empty
      playlist owned by the requester, with name and description as sent, returned with 200. */
  method CreatePlaylist(store: Store, viewer: Option<Id>, name: Option<string>, description: Option<string>, now: Instant)
    returns (r: Reply<Playlist>)
    requires store.Valid()
    modifies store
    ensures store.Valid()
    ensures viewer.None? ==> r == Fail(401, "Unauthorized request") && store.State() == old(store.State())
    ensures viewer.Some? && (MissingOrBlank(name) || MissingOrBlank(description)) ==>
      r == Fail(400, "Name cannot be empty") && store.State() == old(store.State())
    ensures viewer.Some? && !MissingOrBlank(name) && !MissingOrBlank(description) ==>
      var p := Playlist(old(store.nextId), viewer.value, name.value, description.value, [], now);
      && r == Ok(200, p, "PlayList created successfully")
      && store.State() == old(store.State()).(playlists := old(store.playlists) + [p], nextId := old(store.nextId) + 1)
  {
    if viewer.None? {
      return Fail(401, "Unauthorized request");
    }
    if MissingOrBlank(name) || MissingOrBlank(description) {
      return Fail(400, "Name cannot be empty");
    }
    var p := Playlist(store.nextId, viewer.value, name.value, description.value, [], now);
    InsertPlaylist(store, p);
    r := Ok(200, p, "PlayList created successfully");
  }

  /** A playlist as `getUserPlaylists` returns it: the `$project` of `name`, `description`,
      `createdAt`, `owner` and `videos`, which keeps `_id`. */
  datatype PlaylistView = PlaylistView(
    id: Id, name: string, description: string, createdAt: Instant,
    owner: Option<OwnerView>, videos: seq<Id>)

  function PlaylistViewOf(users: seq<User>, p: Playlist): (v: PlaylistView)
    ensures v.id == p.id && v.name == p.name && v.description == p.description
    ensures v.createdAt == p.createdAt && v.videos == p.videos
    ensures v.owner == OwnerOf(users, p.owner)
    ensures v.owner.Some? <==> UserExists(users, p.owner)
  {
    PlaylistView(p.id, p.name, p.description, p.createdAt, OwnerOf(users, p.owner), p.videos)
  }

  function ShapePlaylist(users: seq<User>): Playlist -> PlaylistView {
    (p: Playlist) => PlaylistViewOf(users, p)
  }

  function OwnedBy(user: Id): Playlist -> bool {
    (p: Playlist) => p.owner == user
  }

  function PlaylistTime(v: PlaylistView): SortKey {
    Date(v.createdAt)
  }

  /** The pipeline of `getUserPlaylists`: `$match`, owner `$lookup`/`$first`, `$sort` newest
      first, `$project`. */
  function UserPlaylists(playlists: seq<Playlist>, users: seq<User>, user: Id): seq<PlaylistView> {
    SortOn(Project(Filter(playlists, OwnedBy(user)), ShapePlaylist(users)), PlaylistTime, Descending)
  }

  /** `getUserPlaylists`: 401 without a user, 400 for an invalid user id, 404 when no user
      has that id; otherwise 200 and the user's playlists. */
  function GetUserPlaylists(c: Collections, userId: RawId, viewer: Option<Id>): (r: Reply<seq<PlaylistView>>)
    ensures viewer.None? <==> r == Fail(401, "Unauthorized request")
    ensures viewer.Some? && userId.Malformed? <==> r == Fail(400, "Invalid or missing userId")
    ensures r == Fail(404, "User does not exits") <==> viewer.Some? && userId.WellFormed? && !UserExists(c.users, userId.id)
    ensures r.Ok? ==> r.status == 200 && r.data == UserPlaylists(c.playlists, c.users, userId.id)
  {
    if viewer.None? then Fail(401, "Unauthorized request")
    else if userId.Malformed? then Fail(400, "Invalid or missing userId")
    else if UserById(c.users, userId.id).None? then Fail(404, "User does not exits")
    else Ok(200, UserPlaylists(c.playlists, c.users, userId.id), "PlayLists fetched successfully")
  }

  /** Every listed playlist is one of the user's. */
  lemma UserPlaylistsSound(playlists: seq<Playlist>, users: seq<User>, user: Id, k: nat)
    requires k < |UserPlaylists(playlists, users, user)|
    ensures exists i :: (0 <= i < |playlists| && playlists[i].owner == user
      && UserPlaylists(playlists, users, user)[k] == PlaylistViewOf(users, playlists[i]))
  {
    var own := Filter(playlists, OwnedBy(user));
    var views := Project(own, ShapePlaylist(users));
    var r := UserPlaylists(playlists, users, user);
    SortOnMembers(views, PlaylistTime, Descending, r[k]);
    var m :| 0 <= m < |views| && views[m] == r[k];
    assert OwnedBy(user)(own[m]);
    var i :| 0 <= i < |playlists| && playlists[i] == own[m];
  }

  /** Every playlist of the user is listed. */
  lemma UserPlaylistsComplete(playlists: seq<Playlist>, users: seq<User>, user: Id, i: nat)
    requires i < |playlists| && playlists[i].owner == user
    ensures PlaylistViewOf(users, playlists[i]) in UserPlaylists(playlists, users, user)
  {
    var own := Filter(playlists, OwnedBy(user));
    var views := Project(own, ShapePlaylist(users));
    assert OwnedBy(user)(playlists[i]);
    var m :| 0 <= m < |own| && own[m] == playlists[i];
    assert views[m] == PlaylistViewOf(users, playlists[i]);
    SortOnMembers(views, PlaylistTime, Descending, views[m]);
  }

  /** The playlists are listed newest first. */
  lemma UserPlaylistsNewestFirst(playlists: seq<Playlist>, users: seq<User>, user: Id)
    ensures var r := UserPlaylists(playlists, users, user);
      forall a, b :: 0 <= a < b < |r| ==> NotAfter(r[b].createdAt, r[a].createdAt)
  {
    var r := UserPlaylists(playlists, users, user);
    SortOnSorted(Project(Filter(playlists, OwnedBy(user)), ShapePlaylist(users)), PlaylistTime, Descending);
    forall a, b | 0 <= a < b < |r| ensures NotAfter(r[b].createdAt, r[a].createdAt) {
      assert Precedes(r[a], r[b], PlaylistTime, Descending);
    }
  }
}
