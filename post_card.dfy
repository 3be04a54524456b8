/** The like button of components/post-card.tsx. */
module PostCard {

  class PostCardState {
    const likes: int
    var liked: bool
    var likeCount: int

    constructor (likes: int)
      ensures this.likes == likes && !liked && likeCount == likes
      ensures Valid()
    {
      this.likes := likes;
      liked := false;
      likeCount := likes;
    }

    /** The count shown is the card's likes plus the visitor's own like. */
    ghost predicate Valid()
      reads this
    {
      likeCount == likes + (if liked then 1 else 0)
    }

    /** `handleLike`: flips `liked` and moves the count with it. */
    method HandleLike()
      modifies this
      ensures liked == !old(liked)
      ensures likeCount == if old(liked) then old(likeCount) - 1 else old(likeCount) + 1
      ensures old(Valid()) ==> Valid()
    {
      if liked {
        likeCount := likeCount - 1;
      } else {
        likeCount := likeCount + 1;
      }
      liked := !liked;
    }
  }

  /** Two clicks in a row leave the card as it was. */
  method LikeTwice(card: PostCardState)
    modifies card
    ensures card.liked == old(card.liked) && card.likeCount == old(card.likeCount)
  {
    card.HandleLike();
    card.HandleLike();
  }
}
