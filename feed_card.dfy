/** One card of the feed (components/feed-card.tsx): the like and follow
    toggles with their counters, the lookups that initialise them when the
    card mounts, and the display guards. The lookups are oracles keyed by
    what the query filters on; the like and follow writes are returned as
    requests, since the handlers never inspect what the store answers. */
module FeedCardState {
  import opened Common

  /** `.eq("answer_id", …).eq("user_id", …)` on the likes table. */
  datatype LikeKey = LikeKey(answerId: string, userId: string)

  /** `.eq("follower_id", …).eq("following_id", …)` on the follows table. */
  datatype FollowKey = FollowKey(followerId: string, followingId: string)

  /** What a like click writes. */
  datatype LikeRequest = DeleteLike(like: LikeKey) | InsertLike(like: LikeKey)

  /** What a follow click writes. */
  datatype FollowRequest = DeleteFollow(follow: FollowKey) | InsertFollow(follow: FollowKey)

  /** The heart button's state: filled or not, and the counter beside it. */
  datatype LikeState = LikeState(isLiked: bool, likeCount: int)

  /** The write `handleLike` issues: an unlike when the heart is filled, a
      like otherwise, always for this answer and this viewer. */
  function LikeRequestFor(isLiked: bool, answerId: string, userId: string): (req: LikeRequest)
    ensures req.like == LikeKey(answerId, userId)
    ensures req.DeleteLike? <==> isLiked
  {
    if isLiked then DeleteLike(LikeKey(answerId, userId)) else InsertLike(LikeKey(answerId, userId))
  }

  /** The write `handleFollow` issues, from the viewer to the author. */
  function FollowRequestFor(isFollowing: bool, userId: string, authorId: string): (req: FollowRequest)
    ensures req.follow == FollowKey(userId, authorId)
    ensures req.DeleteFollow? <==> isFollowing
  {
    if isFollowing then DeleteFollow(FollowKey(userId, authorId))
    else InsertFollow(FollowKey(userId, authorId))
  }

  /** The state change of a like click: the heart flips and the counter
      moves one step the same way. */
  function ToggleLike(s: LikeState): (t: LikeState)
    ensures t.isLiked == !s.isLiked
    ensures s.isLiked ==> t.likeCount == s.likeCount - 1
    ensures !s.isLiked ==> t.likeCount == s.likeCount + 1
  {
    if s.isLiked then LikeState(false, s.likeCount - 1) else LikeState(true, s.likeCount + 1)
  }

  /** `n` like clicks in a row. */
  function Clicks(s: LikeState, n: nat): LikeState {
    if n == 0 then s else ToggleLike(Clicks(s, n - 1))
  }

  /** Two clicks restore the heart and the counter, so an even number of
      clicks changes nothing and an odd number acts as one. */
  lemma {:induction false} ClicksByParity(s: LikeState, n: nat)
    ensures Clicks(s, n) == if n % 2 == 0 then s else ToggleLike(s)
  {
    if n >= 2 {
      ClicksByParity(s, n - 2);
      assert Clicks(s, n) == ToggleLike(ToggleLike(Clicks(s, n - 2)));
    }
  }

  /** The likes table for this answer, as the set of users who like it, after
      the store applies a like write. */
  function ApplyLike(likers: set<string>, req: LikeRequest): set<string> {
    match req
    case DeleteLike(k) => likers - {k.userId}
    case InsertLike(k) => likers + {k.userId}
  }

  /** When the card agrees with the store (the heart says whether the viewer
      is among the likers, the counter says how many there are) and the store
      applies the click's write, the card still agrees after the click. */
  lemma LikeClickTracksStore(s: LikeState, likers: set<string>, answerId: string, userId: string)
    requires s.isLiked == (userId in likers) && s.likeCount == |likers|
    ensures var after := ApplyLike(likers, LikeRequestFor(s.isLiked, answerId, userId));
            ToggleLike(s).isLiked == (userId in after) && ToggleLike(s).likeCount == |after|
  {
    if s.isLiked {
      assert likers == (likers - {userId}) + {userId};
    }
  }

  /** The follow button is rendered only on other users' answers. */
  predicate ShowsFollowButton(authorId: string, userId: string) {
    authorId != userId
  }

  /** `count > 0 && <span>{count}</span>`: the badge beside the heart and the
      comment icon, absent for a zero or negative count. */
  function CountBadge(count: int): (shown: Option<int>)
    ensures shown.Some? <==> count > 0
    ensures shown.Some? ==> shown.value == count
  {
    if count > 0 then Some(count) else None
  }

  class FeedCard {
    const answerId: string
    const authorId: string
    const userId: string
    var isLiked: bool
    var likeCount: int
    var isFollowing: bool
    var commentCount: int

    /** The heart button's state. */
    function Likes(): LikeState
      reads this
    {
      LikeState(isLiked, likeCount)
    }

    constructor (answerId: string, authorId: string, userId: string)
      ensures this.answerId == answerId && this.authorId == authorId && this.userId == userId
      ensures !isLiked && likeCount == 0 && !isFollowing && commentCount == 0
    {
      this.answerId := answerId;
      this.authorId := authorId;
      this.userId := userId;
      isLiked := false;
      likeCount := 0;
      isFollowing := false;
      commentCount := 0;
    }

    /** `checkLikeStatus`: the heart fills only when the lookup finds a row
        without error. */
    method CheckLikeStatus(lookup: LikeKey -> Result<bool>)
      modifies this`isLiked
      ensures isLiked == (old(isLiked) || lookup(LikeKey(answerId, userId)) == Ok(true))
    {
      if lookup(LikeKey(answerId, userId)) == Ok(true) {
        isLiked := true;
      }
    }

    /** `getLikeCount`: a count answered without error replaces the counter. */
    method GetLikeCount(count: string -> Result<Option<nat>>)
      modifies this`likeCount
      ensures count(answerId).Ok? && count(answerId).value.Some? ==>
                likeCount == count(answerId).value.value
      ensures !(count(answerId).Ok? && count(answerId).value.Some?) ==> likeCount == old(likeCount)
    {
      match count(answerId) {
        case Ok(Some(n)) => likeCount := n;
        case _ =>
      }
    }

    /** `getCommentCount`: the same for the comments of the answer. */
    method GetCommentCount(count: string -> Result<Option<nat>>)
      modifies this`commentCount
      ensures count(answerId).Ok? && count(answerId).value.Some? ==>
                commentCount == count(answerId).value.value
      ensures !(count(answerId).Ok? && count(answerId).value.Some?) ==> commentCount == old(commentCount)
    {
      match count(answerId) {
        case Ok(Some(n)) => commentCount := n;
        case _ =>
      }
    }

    /** `checkFollowStatus`: on the viewer's own answer nothing is asked and
        nothing changes; otherwise the follow flag is set only when the
        lookup finds a row without error. */
    method CheckFollowStatus(lookup: FollowKey -> Result<bool>) returns (queried: Option<FollowKey>)
      modifies this`isFollowing
      ensures queried.None? <==> authorId == userId
      ensures queried.Some? ==> queried.value == FollowKey(userId, authorId)
      ensures isFollowing == (old(isFollowing) || (queried.Some? && lookup(queried.value) == Ok(true)))
    {
      if authorId == userId {
        return None;
      }
      queried := Some(FollowKey(userId, authorId));
      if lookup(queried.value) == Ok(true) {
        isFollowing := true;
      }
    }

    /** `handleLike`: the write follows the heart's state, and the heart and
        counter flip once the write is awaited, whatever the store answered. */
    method HandleLike() returns (request: LikeRequest)
      modifies this`isLiked, this`likeCount
      ensures request == LikeRequestFor(old(isLiked), answerId, userId)
      ensures Likes() == ToggleLike(old(Likes()))
    {
      request := LikeRequestFor(isLiked, answerId, userId);
      if isLiked {
        isLiked := false;
        likeCount := likeCount - 1;
      } else {
        isLiked := true;
        likeCount := likeCount + 1;
      }
    }

    /** `handleFollow`: the write follows the flag, and the flag flips once
        the write is awaited, whatever the store answered. */
    method HandleFollow() returns (request: FollowRequest)
      modifies this`isFollowing
      ensures request == FollowRequestFor(old(isFollowing), userId, authorId)
      ensures isFollowing == !old(isFollowing)
    {
      request := FollowRequestFor(isFollowing, userId, authorId);
      isFollowing := !isFollowing;
    }
  }

  /** On the viewer's own answer the follow flag starts false, is never
      asked for, and has no button to flip it: it stays false. */
  method OwnAnswerNeverFollowed(userId: string, answerId: string, lookup: FollowKey -> Result<bool>)
    returns (card: FeedCard)
    ensures !ShowsFollowButton(card.authorId, card.userId) && !card.isFollowing
  {
    card := new FeedCard(answerId, userId, userId);
    var queried := card.CheckFollowStatus(lookup);
  }
}
