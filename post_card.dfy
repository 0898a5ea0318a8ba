/**
 * The like button of a feed card (components/PostCard.jsx): the local list
 * of likes, whether the current user has liked the post, the toggle that
 * rewrites the list, the "liked your post" notification, and the two counts
 * shown under the post.
 */
module PostCard {
  import opened Store
  import opened NotificationService

  /** One element of the card's `likes` list. */
  datatype Like = Like(userId: UserId, postId: RowId)

  /** One element of the post's `comments` aggregate. */
  datatype CommentTally = CommentTally(count: Option<nat>)

  /** The fields of the `item` prop the like button and the counts read. */
  datatype Post = Post(id: RowId, userId: UserId, postLikes: Option<seq<Like>>, comments: Option<seq<CommentTally>>)

  const LikedTitle: string := "liked your post"

  /**
   * `likes.filter(...)` keeping the likes whose author is `userId`
   * (`byUser`) or whose author is someone else (`!byUser`), in list order.
   */
  function FilterLikes(likes: seq<Like>, userId: UserId, byUser: bool): (r: seq<Like>)
    ensures forall x :: x in r <==> x in likes && (x.userId == userId) == byUser
    ensures |r| <= |likes|
  {
    if likes == [] then []
    else (if (likes[0].userId == userId) == byUser then [likes[0]] else []) + FilterLikes(likes[1..], userId, byUser)
  }

  /** `liked`: the first like by the current user exists. */
  function Liked(likes: seq<Like>, userId: UserId): (b: bool)
    ensures b <==> exists i :: 0 <= i < |likes| && likes[i].userId == userId
  {
    var mine := FilterLikes(likes, userId, true);
    assert forall i :: 0 <= i < |likes| && likes[i].userId == userId ==> likes[i] in mine;
    assert mine != [] ==> mine[0] in likes && mine[0].userId == userId;
    mine != []
  }

  /**
   * The list `onLike` installs: every like by the user removed when the post
   * is liked, otherwise one new like appended at the end.
   */
  function ToggleLike(likes: seq<Like>, userId: UserId, postId: RowId): (r: seq<Like>)
    ensures Liked(r, userId) == !Liked(likes, userId)
    ensures Liked(likes, userId) ==> forall x :: x in r <==> x in likes && x.userId != userId
    ensures !Liked(likes, userId) ==> |r| == |likes| + 1 && r[..|likes|] == likes && r[|likes|] == Like(userId, postId)
  {
    if Liked(likes, userId) then FilterLikes(likes, userId, false)
    else
      var r := likes + [Like(userId, postId)];
      assert r[|likes|].userId == userId;
      r
  }

  /** Filtering a concatenation filters each part in place: the order of the kept likes is the list's. */
  lemma {:induction false} FilterLikesAppend(a: seq<Like>, b: seq<Like>, userId: UserId, byUser: bool)
    ensures FilterLikes(a + b, userId, byUser) == FilterLikes(a, userId, byUser) + FilterLikes(b, userId, byUser)
  {
    if a == [] {
      assert a + b == b;
    } else {
      assert (a + b)[0] == a[0] && (a + b)[1..] == a[1..] + b;
      FilterLikesAppend(a[1..], b, userId, byUser);
    }
  }

  /** Removing the user's likes from a list that holds none changes nothing. */
  lemma {:induction false} FilterLikesNoneByUser(likes: seq<Like>, userId: UserId)
    requires !Liked(likes, userId)
    ensures FilterLikes(likes, userId, false) == likes
  {
    if likes != [] {
      assert !Liked(likes[1..], userId) by {
        forall i | 0 <= i < |likes[1..]|
          ensures likes[1..][i].userId != userId
        {
          assert likes[1..][i] == likes[i + 1];
        }
      }
      FilterLikesNoneByUser(likes[1..], userId);
    }
  }

  /** The two filters split the list. */
  lemma {:induction false} FilterLikesSplit(likes: seq<Like>, userId: UserId)
    ensures |FilterLikes(likes, userId, true)| + |FilterLikes(likes, userId, false)| == |likes|
  {
    if likes != [] {
      FilterLikesSplit(likes[1..], userId);
    }
  }

  /** Starting from not liked, a like and then an unlike give back the original list. */
  lemma {:induction false} LikeThenUnlikeRestores(likes: seq<Like>, userId: UserId, postId: RowId)
    requires !Liked(likes, userId)
    ensures ToggleLike(ToggleLike(likes, userId, postId), userId, postId) == likes
  {
    var liked := ToggleLike(likes, userId, postId);
    assert liked == likes + [Like(userId, postId)];
    FilterLikesAppend(likes, [Like(userId, postId)], userId, false);
    FilterLikesNoneByUser(likes, userId);
    assert FilterLikes([Like(userId, postId)], userId, false) == [];
  }

  /**
   * The shown like count, `likes.length`, goes up by one on a like and down
   * by the number of the user's likes on an unlike: by one when the list
   * holds at most one like per user.
   */
  lemma {:induction false} ToggleLikeCount(likes: seq<Like>, userId: UserId, postId: RowId)
    ensures !Liked(likes, userId) ==> |ToggleLike(likes, userId, postId)| == |likes| + 1
    ensures Liked(likes, userId) ==>
      |ToggleLike(likes, userId, postId)| == |likes| - |FilterLikes(likes, userId, true)|
    ensures Liked(likes, userId) && |FilterLikes(likes, userId, true)| <= 1 ==>
      |ToggleLike(likes, userId, postId)| == |likes| - 1
  {
    FilterLikesSplit(likes, userId);
    if Liked(likes, userId) {
      var i :| 0 <= i < |likes| && likes[i].userId == userId;
      assert likes[i] in FilterLikes(likes, userId, true);
    }
  }

  /** `item?.comments?.[0]?.count || 0`. */
  function CommentCount(item: Post): (n: nat)
    ensures item.comments.Some? && |item.comments.value| > 0 && item.comments.value[0].count.Some? ==>
      n == item.comments.value[0].count.value
    ensures n != 0 ==> item.comments.Some? && |item.comments.value| > 0 && item.comments.value[0].count == Some(n)
  {
    match item.comments
    case Some(tallies) =>
      if |tallies| > 0 && tallies[0].count.Some? then tallies[0].count.value else 0
    case None => 0
  }

  /** `item?.postLikes || []`. */
  function LikesOf(item: Post): seq<Like>
  {
    if item.postLikes.Some? then item.postLikes.value else []
  }

  /** The notification a like sends to the post's author. */
  function LikeNotice(likerId: UserId, item: Post, now: Time): Notification
  {
    Notification(likerId, item.userId, LikedTitle, Untyped, PostRef(item.id, None), false, now)
  }

  /** The card's local `likes` state. */
  class PostCardState {
    var likes: seq<Like>

    /** Mounting the card: the effect on `item.postLikes` has run once. */
    constructor (item: Post)
      ensures likes == LikesOf(item)
    {
      likes := LikesOf(item);
    }

    /** The effect that reruns when `item.postLikes` changes. */
    method SyncLikes(item: Post)
      modifies this
      ensures likes == LikesOf(item)
    {
      likes := LikesOf(item);
    }

    /**
     * onLike. The list is rewritten before the write and is not rolled back
     * when the write fails. A like that the store accepts notifies the post's
     * author, unless the liker is the author; an unlike notifies nobody.
     */
    method OnLike(currentUserId: UserId, item: Post, relay: NotificationStore, now: Time, likeWrite: Net, notify: Net)
      requires relay.Valid()
      modifies this, relay
      ensures relay.Valid()
      ensures likes == ToggleLike(old(likes), currentUserId, item.id)
      ensures relay.rows ==
        if !Liked(old(likes), currentUserId) && likeWrite.Up? && currentUserId != item.userId && notify.Up?
        then InsertNotification(old(relay.rows), old(relay.nextId), LikeNotice(currentUserId, item, now))
        else old(relay.rows)
    {
      if Liked(likes, currentUserId) {
        likes := FilterLikes(likes, currentUserId, false);
      } else {
        likes := likes + [Like(currentUserId, item.id)];
        if likeWrite.Up? && currentUserId != item.userId {
          var notifyResult := relay.CreateNotification(LikeNotice(currentUserId, item, now), notify);
        }
      }
    }
  }
}
