/** The Like schema: a reaction by `likedBy` to a video, a comment or a post, held in
    three nullable references that default to null, with creation and update times. */
module LikeModel {
  import opened Common

  datatype Like = Like(
    id: Id,
    comment: Option<Id>,
    video: Option<Id>,
    post: Option<Id>,
    likedBy: Id,
    createdAt: Instant,
    updatedAt: Instant)

  function LikeId(l: Like): Id { l.id }

  /** The thing a like is about: one of the three references. */
  datatype Target = OnVideo(id: Id) | OnComment(id: Id) | OnPost(id: Id)

  /** The filter `{ video: id }`, `{ comment: id }` or `{ post: id }`. */
  predicate On(l: Like, t: Target) {
    match t
    case OnVideo(v) => l.video == Some(v)
    case OnComment(c) => l.comment == Some(c)
    case OnPost(p) => l.post == Some(p)
  }

  /** `{ <target>: id }` as a filter. */
  function OnTarget(t: Target): Like -> bool {
    (l: Like) => On(l, t)
  }

  /** Exactly one of the three references is set. */
  predicate SingleTarget(l: Like) {
    (if l.video.Some? then 1 else 0) + (if l.comment.Some? then 1 else 0)
      + (if l.post.Some? then 1 else 0) == 1
  }

  /** The target of a like that has exactly one. */
  function TargetOf(l: Like): (t: Target)
    requires SingleTarget(l)
    ensures On(l, t)
  {
    if l.video.Some? then OnVideo(l.video.value)
    else if l.comment.Some? then OnComment(l.comment.value)
    else OnPost(l.post.value)
  }

  /** A like with a single target is on that target and on no other. */
  lemma OnIffTarget(l: Like, t: Target)
    requires SingleTarget(l)
    ensures On(l, t) <==> TargetOf(l) == t
  {
  }

  /** `Like.create({ <target>: id, likedBy: liker })` at time `now`: the two references that
      are not supplied take their default, null; `timestamps` sets both times. */
  function NewLike(id: Id, t: Target, liker: Id, now: Instant): (l: Like)
    ensures l.id == id && l.likedBy == liker
    ensures l.createdAt == now && l.updatedAt == now
    ensures SingleTarget(l) && TargetOf(l) == t
  {
    match t
    case OnVideo(v) => Like(id, None, Some(v), None, liker, now, now)
    case OnComment(c) => Like(id, Some(c), None, None, liker, now, now)
    case OnPost(p) => Like(id, None, None, Some(p), liker, now, now)
  }
}
