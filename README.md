# videoTube backend core in Dafny

videoTube is an Express/Mongoose backend for a video-sharing site. This project models the decision logic of its controllers: the like, subscription, comment, post, video, dashboard, playlist and user handlers, and the Like record. The database calls are replaced by an in-memory store with one sequence of records per collection.

- **Records** (`records.dfy`, `like_model.dfy`) are datatypes. Ids are opaque `nat`s. A Like has three optional target references (`comment`, `video`, `post`), a `likedBy` user and timestamps. `Instant` is a calendar date plus milliseconds, and `NotAfter` is its chronological order.
- **The store** (`store.dfy`, module `Db`) is a class `Store` with one `seq` field per collection (users, videos, comments, posts, likes, subscriptions, playlists) and a counter for fresh ids. `Valid()` says that ids are fresh and unique, that every like names exactly one target, and that the like and subscription edges are unique.
- **Mutating handlers** (toggles, create, update, delete, register, login, logout, refresh, details update) are methods on the store. Each one runs the source's checks in the source's order and returns a `Reply`: `Ok(status, data, message)`, `Fail(status, message)` for an `ApiError`, or `Crash(reason)` for a JavaScript exception outside any `try`. Each `ensures` gives the whole new state of the store as a function of the old one. Every method also keeps `Valid()`.
- **Read handlers** (liked videos, subscriber lists, comments of a video, posts of a user, video search, dashboard, playlists, channel page) are pure functions over a snapshot of the store. They are built from the aggregation stages in `query.dfy`: `$match` is `Filter`, `$lookup` plus `$unwind` is `Unwind`, `$size` is `Count`, `$sort` is the insertion sort `SortOn`, `$project` is `Project`, and `$group` with `$sum` is `Sum`.
- **Request inputs** come in as parameters:
  - a route id is `RawId`, which is well-formed or malformed, as `isValidObjectId` decides;
  - the authenticated user is `Option<Id>`;
  - a body field is `Option<string>`, with `None` for an absent field;
  - the clock reading is an `Instant`;
  - upload results, JWT signing and verification, and password checks are functions or values supplied by the caller.
- **Catch blocks** re-wrap errors with `error.status || 500` or `error.statusCode || 500`. The `ApiError` class is not part of this model. `ApiErrorShape` says which of the two properties it sets and what its default message is, and `Common.Rethrow` computes the re-wrapped reply from that.
- **JavaScript string operations** are modelled in `text.dfy`: `trim` (with JavaScript's whitespace set), `toLowerCase` (ASCII letters), and the `%d-%m-%Y` date text.

Statuses in replies are HTTP statuses. `registerUser` answers HTTP 201 while its body object carries 200. The model records the 201.

## Model

| member | source | states |
|---|---|---|
| Common.CaughtStatus | src/controllers/comment.controller.js:157-162 | the re-wrapped status is the thrown code when the error object carries it in the property the catch reads, and 500 otherwise |
| Common.Rethrow | src/controllers/post.controller.js:143-148 | a caught ApiError becomes a failure with the re-wrapped status, and its message if non-empty, else the handler's fallback message |
| Text.Trim | src/controllers/comment.controller.js:107 | the result is a slice of the input with only JavaScript whitespace removed before and after it, and it starts and ends with a non-whitespace character or is empty |
| Text.TrimEmptyIffBlank | src/controllers/comment.controller.js:107 | `trim()` gives the empty string exactly when every character is JavaScript whitespace |
| Text.ToLower | src/controllers/user.controller.js:82 | lowercasing keeps the length and maps each character through the ASCII lowercase map |
| Text.ToLowerIdempotent | src/controllers/user.controller.js:110 | lowercasing a stored, already-lowercased username changes nothing |
| Text.DayMonthYear | src/controllers/dashboard.controller.js:89-95 | the `%d-%m-%Y` text has 10 characters with dashes at positions 2 and 5 |
| Text.DayMonthYearDigits | src/controllers/dashboard.controller.js:89-95 | the date text is two day digits, dash, two month digits, dash, four year digits, each zero-padded |
| Text.LexLeTotal | src/controllers/dashboard.controller.js:101-105 | string order, as used by `$sort` on the date text, is total |
| Text.LexLeTransitive | src/controllers/dashboard.controller.js:101-105 | string order is transitive, so sorting on text is well-defined |
| Records.OwnerOf | src/controllers/comment.controller.js:32-55 | the owner lookup with `$first` gives a view carrying the id, username, fullName and avatar of a user with that id, and nothing exactly when no user has that id |
| LikeModel.TargetOf | src/models/like.model.js:5-19 | a like with one reference set is about exactly that target |
| LikeModel.OnIffTarget | src/models/like.model.js:5-19 | a like is on target t if and only if t is its single target |
| LikeModel.NewLike | src/models/like.model.js:3-26 | a created like has exactly one target set, the other two references null, the liker in `likedBy`, and equal created and updated timestamps |
| LikeController.DeleteByIdRemovesOne | src/controllers/like.controller.js:22 | deleting by the found like's id removes exactly that one record when ids are unique |
| LikeController.ToggleIsDeleteOrInsert | src/controllers/like.controller.js:17-28 | when a like for the pair exists, the toggle removes the first one found; otherwise it appends one new like for the pair |
| LikeController.ToggleCount | src/controllers/like.controller.js:17-28 | after a toggle the pair has one like if it had none, and one fewer otherwise |
| LikeController.ToggleShiftsLikesOnTarget | src/controllers/like.controller.js:17-28 | the target's like count goes up by one when the liker had not liked it, and down by one when they had |
| LikeController.ToggleLeavesOthers | src/controllers/like.controller.js:17-27 | every like with another target or another liker is unchanged, in the same order |
| LikeController.ToggleFromUnlikedAppends | src/controllers/like.controller.js:23-28 | toggling an unliked pair appends exactly the new like |
| LikeController.ToggleTwiceFromUnliked | src/controllers/like.controller.js:17-28 | liking then unliking restores the original like collection exactly |
| LikeController.ToggleTwiceFromLiked | src/controllers/like.controller.js:17-28 | unliking then liking keeps all other likes and leaves one like for the pair, now the newest record |
| LikeController.LikesCount | src/controllers/comment.controller.js:56-66 | a target's like count is zero exactly when no like is on it |
| LikeController.ToggleFlipsLiked | src/controllers/like.controller.js:17-28 | with at most one like per pair, a toggle flips whether the liker likes the target and moves the target's count by one |
| LikeController.DeleteKeepsConsistent | src/controllers/like.controller.js:21-22 | removing a like keeps the store's invariants |
| LikeController.InsertKeepsConsistent | src/controllers/like.controller.js:23-28 | adding a like for an unliked pair keeps the store's invariants, including one like per pair |
| LikeController.ToggledLikes | src/controllers/like.controller.js:17-28 | the toggle adds no record but the new like, the found like is gone, and every like with another id stays |
| LikeController.ToggleLike | src/controllers/like.controller.js:16-28 | the find-then-delete-or-create step sets the like collection to `ToggledLikes` and changes nothing but it and the id counter |
| LikeController.ToggleVideoLike | src/controllers/like.controller.js:7-35 | 400 for a bad video id is checked before 401 for a missing user, and neither changes the store; otherwise the video like is toggled and the reply is 200 with empty data |
| LikeController.ToggleCommentLike | src/controllers/like.controller.js:37-65 | the same checks and toggle keyed on the comment reference |
| LikeController.TogglePostLike | src/controllers/like.controller.js:67-95 | the same checks and toggle keyed on the post reference |
| LikeController.GetLikedVideos | src/controllers/like.controller.js:97-182 | 401 exactly when there is no user; otherwise 200 |
| LikeController.LikedVideosSound | src/controllers/like.controller.js:102-152 | every returned item is the projected video of a like by the viewer whose video exists |
| LikeController.LikedVideosComplete | src/controllers/like.controller.js:102-152 | every like by the viewer on an existing video yields an item |
| LikeController.LikedVideosCount | src/controllers/like.controller.js:102-152 | with unique video ids and every liked video still stored, there is exactly one item per like of the viewer on a video |
| LikeController.LikedRowsByViewer | src/controllers/like.controller.js:103-108 | every row the match keeps was liked by the viewer |
| LikeController.LikedVideosNewestFirst | src/controllers/like.controller.js:153-167 | items are ordered newest first by the like record's own creation time |
| SubscriptionController.SubscriptionToggleCount | src/controllers/subscription.controller.js:17-29 | after a toggle the edge exists once if it did not, and once fewer if it did |
| SubscriptionController.ToggledSubscriptions | src/controllers/subscription.controller.js:17-29 | the subscriptions, as a multiset, lose the found edge or gain the new one |
| SubscriptionController.SubscriptionToggleShiftsChannelCount | src/controllers/subscription.controller.js:17-29 | the channel's subscription count moves by exactly one, up on subscribe and down on unsubscribe |
| SubscriptionController.SubscriptionToggleLeavesOthers | src/controllers/subscription.controller.js:17-29 | all other subscriptions are unchanged, in the same order |
| SubscriptionController.SubscribeThenUnsubscribe | src/controllers/subscription.controller.js:17-29 | subscribing then unsubscribing restores the original subscriptions |
| SubscriptionController.RemoveSubscriptionKeepsConsistent | src/controllers/subscription.controller.js:17-20 | deleting a subscription keeps the store's invariants |
| SubscriptionController.AddSubscriptionKeepsConsistent | src/controllers/subscription.controller.js:26-29 | creating a missing edge keeps the store's invariants, including one edge per pair |
| SubscriptionController.ToggleSubscription | src/controllers/subscription.controller.js:8-33 | 401 before 400; otherwise the edge is toggled, with 201 "Unsubscribed successfully" when it existed and 201 with the new record otherwise; channel existence and self-subscription are not checked |
| SubscriptionController.SubscriberEntriesSound | src/controllers/subscription.controller.js:48-73 | every listed subscriber is an existing user subscribed to the channel, projected |
| SubscriptionController.SubscriberEntriesComplete | src/controllers/subscription.controller.js:48-73 | every subscription to the channel whose subscriber exists is listed |
| SubscriptionController.SubscriberEntriesCount | src/controllers/subscription.controller.js:48-73 | with unique user ids and every subscriber stored, the list has exactly one entry per subscription to the channel |
| SubscriptionController.ChannelEntriesSound | src/controllers/subscription.controller.js:98-123 | every listed channel is an existing user the subscriber subscribes to, projected |
| SubscriptionController.ChannelEntriesComplete | src/controllers/subscription.controller.js:98-123 | every subscription of the subscriber whose channel exists is listed |
| SubscriptionController.ChannelEntriesCount | src/controllers/subscription.controller.js:98-123 | with unique user ids and every followed channel stored, the list has exactly one entry per subscription of the subscriber |
| SubscriptionController.ToggleFlipsSubscriberListing | src/controllers/subscription.controller.js:17-29 | after a toggle the user appears in the channel's subscriber list exactly when they were not subscribed before |
| SubscriptionController.GetUserChannelSubscribers | src/controllers/subscription.controller.js:36-83 | 400 for a bad id, then 401, then 404 for a missing channel user, each iff its condition; otherwise 200 with the subscriber list |
| SubscriptionController.GetSubscribedChannels | src/controllers/subscription.controller.js:86-133 | 400, then 401, then 404 for a missing subscriber user, each iff its condition; otherwise 200 with the channel list |
| CommentController.CommentViewOf | src/controllers/comment.controller.js:56-80 | a comment's owner is `OwnerOf` its author, likesCount counts likes on it, and isLiked holds iff the viewer is among their likers |
| CommentController.GetVideoComments | src/controllers/comment.controller.js:8-96 | 400 for a bad video id, 401 "Unathorized request", 404 for a missing video, each iff its condition; otherwise 200 with the comment views |
| CommentController.VideoCommentsSound | src/controllers/comment.controller.js:26-31 | every returned view is of a comment on that video |
| CommentController.VideoCommentsComplete | src/controllers/comment.controller.js:26-31 | every comment on that video is returned |
| CommentController.VideoCommentsNewestFirst | src/controllers/comment.controller.js:70-72 | views follow the comments' creation times, newest first |
| CommentController.OwnedAtMostOnce | src/controllers/comment.controller.js:137-141 | with unique ids, at most one comment matches an id and owner |
| CommentController.EditChangesOnlyOwnedContent | src/controllers/comment.controller.js:137-148 | an edit changes only the content of the comment with that id and owner; every other comment is unchanged |
| CommentController.DeleteRemovesOnlyOwned | src/controllers/comment.controller.js:174-177 | a delete leaves exactly the comments that do not match id and owner |
| CommentController.AddComment | src/controllers/comment.controller.js:98-122 | 400 bad id, 401, 400 blank content, 404 missing video in that order, none changing the store; otherwise one comment owned by the viewer is appended and returned with 200 |
| CommentController.UpdateComment | src/controllers/comment.controller.js:124-163 | the checks in order; the owned comment's content is replaced and returned; with no owned match the store is unchanged and the 403 is re-wrapped through `error.status` |
| CommentController.DeleteComment | src/controllers/comment.controller.js:165-190 | the checks in order; the owned comment is removed with 200; with no owned match the 403 is re-wrapped through `error.status` |
| PostController.PostViewOf | src/controllers/post.controller.js:74-100 | a post's view keeps id, content and createdAt, its owner is `OwnerOf` its author; likesCount counts likes on it and isLiked holds iff the viewer liked it |
| PostController.GetUserPosts | src/controllers/post.controller.js:36-111 | 401 before 400 "Invalid userId", each iff its condition; otherwise 200 with the user's post views |
| PostController.UserPostsSound | src/controllers/post.controller.js:47-51 | every returned view is of a post owned by that user |
| PostController.UserPostsComplete | src/controllers/post.controller.js:47-51 | every post owned by that user is returned |
| PostController.UserPostsNewestFirst | src/controllers/post.controller.js:89-91 | posts come newest first |
| PostController.OwnedAtMostOnce | src/controllers/post.controller.js:127-131 | with unique ids, at most one post matches an id and owner |
| PostController.EditChangesOnlyOwnedContent | src/controllers/post.controller.js:127-134 | an edit changes only the content of the post with that id and owner |
| PostController.DeleteRemovesOnlyOwned | src/controllers/post.controller.js:161-164 | a delete leaves exactly the posts that do not match id and owner |
| PostController.CreatePost | src/controllers/post.controller.js:8-34 | 401 before 400 for blank content, neither changing the store; otherwise one post owned by the viewer is appended and returned with 200 |
| PostController.UpdatePost | src/controllers/post.controller.js:113-149 | the checks in order; the owned post's content is replaced; with no owned match the 403 is re-wrapped through `error.statusCode` |
| PostController.DeletePost | src/controllers/post.controller.js:151-178 | the checks in order; only a post matching id and owner is removed; otherwise the re-wrapped 403 |
| VideoController.CardOf | src/controllers/video.controller.js:40-63 | a search card carries the video's fields, videoFile and thumbnail included, and its owner is `OwnerOf` the video's owner, present exactly when that user exists |
| VideoController.DirectionOf | src/controllers/video.controller.js:66 | the sort is ascending iff sortType is "asc" |
| VideoController.OrDefault | src/controllers/video.controller.js:10-16 | an absent query parameter takes its default |
| VideoController.GetAllVideos | src/controllers/video.controller.js:9-97 | 400 blank query, 400 bad sortBy (default "views"), 400 bad sortType (default "desc"), each iff its condition; an empty result becomes 500 "Internal server error"; otherwise 200 with the non-empty sorted matches |
| VideoController.SearchSound | src/controllers/video.controller.js:30-39 | every card is of a published video whose title or description contains the query, ignoring case |
| VideoController.SearchComplete | src/controllers/video.controller.js:30-39 | every such video appears |
| VideoController.SearchOrdered | src/controllers/video.controller.js:64-68 | cards are ordered on the sortBy key, ascending iff sortType is "asc" |
| VideoController.AddVideoKeepsConsistent | src/controllers/video.controller.js:143-152 | inserting a video with the next id keeps the store's invariants |
| VideoController.PublishAVideo | src/controllers/video.controller.js:99-165 | blank title or description, video file, thumbnail, user and the two uploads are checked in that order; a success appends a video with trimmed title and description, views 0, published, the viewer as owner and the upload's duration |
| DashboardController.Stats | src/controllers/dashboard.controller.js:14-52 | totalSubscribers counts subscriptions to the channel, totalVideos counts its videos, totalViews sums the views of its videos, and with no videos the likes and views totals are 0 |
| DashboardController.TotalViewsOverAllVideos | src/controllers/dashboard.controller.js:19-38 | totalViews equals the sum over all videos of the views, counting 0 for videos of other channels |
| DashboardController.GetChannelStats | src/controllers/dashboard.controller.js:9-66 | 401 iff there is no user; otherwise 200 with the viewer's stats |
| DashboardController.SumOfLikeCounts | src/controllers/dashboard.controller.js:23-36 | summing each video's like count equals counting the likes on any of those videos |
| DashboardController.OnOwnVideoIff | src/controllers/dashboard.controller.js:19-30 | a like is on one of the matched videos iff it is on a video owned by the channel |
| DashboardController.TotalLikesCountsChannelLikes | src/controllers/dashboard.controller.js:19-38 | totalLikes is the number of likes on the channel's videos |
| DashboardController.ChannelVideoOf | src/controllers/dashboard.controller.js:80-120 | a row keeps the video's id, title, description, duration, videoFile, thumbnail, views and isPublished, replaces createdAt by its `%d-%m-%Y` text and counts the likes on the video |
| DashboardController.GetChannelVideos | src/controllers/dashboard.controller.js:68-136 | 401 iff there is no user; otherwise 200 with the channel's rows |
| DashboardController.ChannelVideosSound | src/controllers/dashboard.controller.js:75-79 | every row is of a video owned by the viewer |
| DashboardController.ChannelVideosComplete | src/controllers/dashboard.controller.js:75-79 | every video of the viewer appears, published or not |
| DashboardController.ChannelVideosByDateText | src/controllers/dashboard.controller.js:88-105 | rows are in descending string order of the date text |
| DashboardController.JanuaryThirtyFirstText | src/controllers/dashboard.controller.js:89-95 | 31 January 2024 is written "31-01-2024" |
| DashboardController.FebruaryFirstText | src/controllers/dashboard.controller.js:89-95 | 1 February 2024 is written "01-02-2024" |
| DashboardController.DateTextSwapsTwo | src/controllers/dashboard.controller.js:101-105 | the descending sort puts "31-01-2024" before "01-02-2024" |
| DashboardController.ChannelVideosNotChronological | src/controllers/dashboard.controller.js:88-105 | a video from 31 January is listed before a later one from 1 February, so the order is not newest first |
| PlaylistController.CreatePlaylist | src/controllers/playlist.controller.js:8-35 | 401, then 400 "Name cannot be empty" when name or description is blank, neither changing the store; otherwise an empty playlist owned by the viewer is appended and returned |
| PlaylistController.PlaylistViewOf | src/controllers/playlist.controller.js:56-89 | a view keeps name, description, createdAt and videos, and its owner is `OwnerOf` the playlist's owner, present exactly when that user exists |
| PlaylistController.GetUserPlaylists | src/controllers/playlist.controller.js:37-100 | 401, then 400 bad user id, then 404 missing user, each iff its condition; otherwise 200 with the user's playlists |
| PlaylistController.UserPlaylistsSound | src/controllers/playlist.controller.js:51-55 | every view is of a playlist owned by that user |
| PlaylistController.UserPlaylistsComplete | src/controllers/playlist.controller.js:51-55 | every playlist of that user appears |
| PlaylistController.UserPlaylistsNewestFirst | src/controllers/playlist.controller.js:78-80 | playlists come newest first |
| UserController.UserIndex | src/controllers/user.controller.js:168 | the lookup by id finds a user with that id, or nothing exactly when none has it |
| UserController.TakenIffSameEmailOrUsername | src/controllers/user.controller.js:57-62 | registration finds a clash iff some user has the same email or the same username as sent, compared as sent |
| UserController.NewUser | src/controllers/user.controller.js:77-84 | the created user keeps the sent fields, stores the sent username lower-cased, has the uploaded avatar, the uploaded cover URL or an empty cover without an upload, and no refresh token |
| UserController.CaseVariantPassesDuplicateCheck | src/controllers/user.controller.js:57-84 | "Alice" passes the check against a stored "alice" yet is handed to `User.create` as "alice" again |
| UserController.CreateUser | src/controllers/user.controller.js:74-94 | with all inputs present a user is appended and its public fields returned with 201; otherwise the handler throws and nothing changes |
| UserController.RegisterUser | src/controllers/user.controller.js:34-95 | 400 when a sent field is blank (absent fields pass), then 409 on a clash, then 400 without an avatar, none changing the store; otherwise the user is created |
| UserController.IssueTokens | src/controllers/user.controller.js:16-32 | the signed pair is returned and only that user's refresh token is overwritten |
| UserController.LoginUser | src/controllers/user.controller.js:97-135 | 400 with neither username nor email, 401 with no match on the lowercased inputs, 401 on a wrong password; otherwise both tokens are returned and the refresh token is saved |
| UserController.LoginIgnoresCase | src/controllers/user.controller.js:108-113 | any case variant of a stored username matches at login |
| UserController.LogoutClearsOnlyThatUser | src/controllers/user.controller.js:141-149 | logout sets that user's refresh token to null and changes nothing else |
| UserController.LogoutUser | src/controllers/user.controller.js:137-155 | 401 without a user; otherwise 200 and the user's token is cleared |
| UserController.RefreshCheck | src/controllers/user.controller.js:163-174 | a token is accepted iff it verifies, names an existing user and equals that user's stored token; a verification failure keeps its message and a missing user gives "Invalid Refresh Token" |
| UserController.IncomingToken | src/controllers/user.controller.js:158-159 | the cookie token is used when non-empty, else the body token |
| UserController.RefreshAccessToken | src/controllers/user.controller.js:157-191 | 401 with no token; every rejection inside the try surfaces as 401 with its message or "Invalid request"; an accepted token rotates the stored token and the reply carries no tokens |
| UserController.IssuedTokenIsAccepted | src/controllers/user.controller.js:168-174 | the refresh token just saved for a user is accepted |
| UserController.LoggedOutTokenIsRejected | src/controllers/user.controller.js:172-174 | after logout no token is accepted for that user |
| UserController.RotatedTokenIsRejected | src/controllers/user.controller.js:172-174 | once the stored token is replaced, the previous one is rejected |
| UserController.DetailsUpdateChangesOnlyThatUser | src/controllers/user.controller.js:224-233 | the update sets email and fullName of that user only |
| UserController.UpdateUserDetails | src/controllers/user.controller.js:216-242 | 401 without a user, 401 (not 400) without email or fullName, 404 for an unknown id; otherwise the fields are set and the public user returned |
| UserController.ChannelDetailsOf | src/controllers/user.controller.js:335-379 | subscribersCount and subscribedToCount count subscriptions with that user as channel or subscriber, and isSubscribed holds iff the viewer subscribes to the channel |
| UserController.FirstNamedIndex | src/controllers/user.controller.js:329-334 | the position of the first user whose username is the given name, with no earlier user of that name, and none exactly when no user has it |
| UserController.GetUserChannelDetails | src/controllers/user.controller.js:324-389 | 400 iff the username is missing or blank, 404 iff no user has the lowercased name, otherwise 200 with the details of the first user with that name |
| UserController.ToggleFlipsChannelDetails | src/controllers/user.controller.js:351-366 | a subscription toggle flips isSubscribed and moves subscribersCount by one |

## Left out

- Pagination: `aggregatePaginate` and `parseInt` of `page` and `limit` are library code that is not part of this model. The read functions return the whole filtered, ordered sequence.
- `$regex` is modelled as a case-insensitive substring test. Regular-expression metacharacters and non-ASCII case folding are not modelled.
- `toLowerCase` and `trim` are modelled for ASCII letters and JavaScript's whitespace set. Unicode case mapping is not modelled.
- Database failures are not modelled. The `catch` branches they alone would reach are left out: 500 "Failed to fetch posts", "Failed to fetch playlists", the comment pipeline 500, the `!post`, `!playlist`, `!video` and `!createdUser` 500s after a successful create, and the 500 from `generateAccessandRefreshTokens`.
- Uploads to the media host, JWT signing and verification, and password comparison are parameters: an upload result, `sign`, `verify` and `passwordCorrect`.
- Cookies are not modelled. Only the response body and the stored refresh token are.
- `UserController.RefreshAccessToken`: the source reads `newAccessToken` and `newRefreshToken` from an object whose keys are `accessToken` and `refreshToken`. The reply therefore carries no tokens (`TokenBody(None, None)`). The cookie values, which are undefined for the same reason, are not modelled.
- Concurrency: each request is atomic. The race between the find and the write of a toggle is not modelled.
- Stub handlers that never respond are not modelled. These are `getVideoById`, `updateVideo`, `deleteVideo` and `togglePublishStatus`, and the playlist handlers other than `createPlaylist` and `getUserPlaylists`.
- `updateCurrentPassword` and `getCurrentUser` are not modelled. The first reduces to the opaque password check and a hashed save. The second echoes the request's user.
- `updateAvatarImage` and `updateCoverImage` are not modelled. They are upload and remote-delete plumbing around a single field write.
- `src/models/user.model.js` is not part of this model. Required fields, unique indexes, setters and password hashing are therefore not modelled. A field missing at creation is modelled as a thrown error.
- An absent body field in a `findOne` filter is taken to match no user. Mongoose's handling of `undefined` filter values is not modelled.
- `isValidObjectId` is the abstract `RawId` distinction. `mongoose.Types.ObjectId(...)` called without `new` is taken to succeed.
- `$sort` ties keep the input order. MongoDB leaves tie order unspecified.
- `$project` keeps `_id`, so views carry the record id. The subscriber and channel lists project a `name` field that users do not have, so it is not carried.
- Video duration is an integer.
- The like toggles do not check that the target video, comment or post exists, and neither does the model.
- `UserController.CreateUser`: when an input is missing, the contract states only that the handler throws (`Crash`) with the store unchanged, not which exception.
- `UserController.RegisterUser`: for missing inputs past the validation checks, the same weaker statement as `UserController.CreateUser` holds.
- `VideoController.GetAllVideos`: the 404-turned-500 check applies to the requested page. Without pagination, the model answers 500 only when nothing matches at all. A page past the last match is a 500 in the source but a 200 with every match in the model, so the two agree only on the first page.
