/** The vote buttons of components/twitter-embed.tsx: an optimistic
    toggle/switch/clear of the visitor's vote, reverted to the post's own
    counts when the server call fails. */
module TwitterEmbed {
  import opened Wrappers
  import opened Types

  /** The vote state the component renders. */
  datatype Tally = Tally(upvotes: int, downvotes: int, userVote: Option<VoteType>)

  /** 1 when the active vote is of type `t`, else 0. */
  function Mark(v: Option<VoteType>, t: VoteType): nat {
    if v == Some(t) then 1 else 0
  }

  /** `Math.max(0, n)`. */
  function AtLeastZero(n: int): (r: int)
    ensures r >= 0 && r >= n
    ensures n >= 0 ==> r == n
  {
    if n < 0 then 0 else n
  }

  /** The optimistic update of `handleVote`: the same type again removes the
      vote, a first vote adds it, the other type moves it. Decrements stop at 0. */
  function Optimistic(s: Tally, t: VoteType): (r: Tally)
    ensures r.userVote == if s.userVote == Some(t) then None else Some(t)
    ensures s.upvotes >= 0 && s.downvotes >= 0 ==> r.upvotes >= 0 && r.downvotes >= 0
    ensures s.userVote.None? ==> (r.upvotes, r.downvotes) == AddVote(s.upvotes, s.downvotes, t)
    ensures s.userVote == Some(Upvote) && t == Upvote ==>
      r.upvotes == AtLeastZero(s.upvotes - 1) && r.downvotes == s.downvotes
    ensures s.userVote == Some(Downvote) && t == Downvote ==>
      r.downvotes == AtLeastZero(s.downvotes - 1) && r.upvotes == s.upvotes
    ensures s.userVote == Some(Downvote) && t == Upvote ==>
      r.upvotes == s.upvotes + 1 && r.downvotes == AtLeastZero(s.downvotes - 1)
    ensures s.userVote == Some(Upvote) && t == Downvote ==>
      r.downvotes == s.downvotes + 1 && r.upvotes == AtLeastZero(s.upvotes - 1)
  {
    if s.userVote == Some(t) then
      if t == Upvote then Tally(AtLeastZero(s.upvotes - 1), s.downvotes, None)
      else Tally(s.upvotes, AtLeastZero(s.downvotes - 1), None)
    else if s.userVote.None? then
      var c := AddVote(s.upvotes, s.downvotes, t);
      Tally(c.0, c.1, Some(t))
    else if t == Upvote then Tally(s.upvotes + 1, AtLeastZero(s.downvotes - 1), Some(t))
    else Tally(AtLeastZero(s.upvotes - 1), s.downvotes + 1, Some(t))
  }

  /** The displayed counts are the post's counts plus the visitor's own vote. */
  predicate Tracks(s: Tally, baseUp: int, baseDown: int) {
    s.upvotes == baseUp + Mark(s.userVote, Upvote) && s.downvotes == baseDown + Mark(s.userVote, Downvote)
  }

  /** Every optimistic step keeps the displayed counts equal to the post's
      counts plus the active vote, so the clamp at 0 never takes effect while
      the post's counts are non-negative. */
  lemma OptimisticTracks(s: Tally, t: VoteType, baseUp: int, baseDown: int)
    requires baseUp >= 0 && baseDown >= 0
    requires Tracks(s, baseUp, baseDown)
    ensures Tracks(Optimistic(s, t), baseUp, baseDown)
  {
    var r := Optimistic(s, t);
    match s.userVote
    case None =>
      assert s.upvotes == baseUp && s.downvotes == baseDown;
    case Some(v) =>
      if v == t {
        assert r.userVote.None?;
        if t == Upvote {
          assert s.upvotes - 1 == baseUp >= 0;
        } else {
          assert s.downvotes - 1 == baseDown >= 0;
        }
      } else if t == Upvote {
        assert s.downvotes - 1 == baseDown >= 0 && s.upvotes == baseUp;
      } else {
        assert s.upvotes - 1 == baseUp >= 0 && s.downvotes == baseDown;
      }
  }

  /** Voting the same type twice, starting without a vote, gives back the
      original counts and no vote. */
  lemma VoteTwiceRestores(s: Tally, t: VoteType)
    requires s.userVote.None? && s.upvotes >= 0 && s.downvotes >= 0
    ensures Optimistic(Optimistic(s, t), t) == s
  {
  }

  /** Upvoting then downvoting from no vote leaves upvotes as they were and
      adds one downvote. */
  lemma SwitchMovesVote(s: Tally)
    requires s.userVote.None? && s.upvotes >= 0 && s.downvotes >= 0
    ensures Optimistic(Optimistic(s, Upvote), Downvote) == Tally(s.upvotes, s.downvotes + 1, Some(Downvote))
  {
  }

  /** The `userId` prop defaults to "anonymous" when it is not given. */
  function UserIdProp(userId: Option<string>): (r: string)
    ensures userId.None? ==> r == "anonymous"
    ensures userId.Some? ==> r == userId.value
  {
    userId.GetOr("anonymous")
  }

  class TwitterVoteState {
    const post: Post
    const userId: string
    var localUpvotes: int
    var localDownvotes: int
    var userVote: Option<VoteType>
    var isVoting: bool

    /** The component's initial state: the post's counts and no vote. */
    constructor (post: Post, userId: string)
      ensures this.post == post && this.userId == userId
      ensures Current() == Tally(post.upvotes, post.downvotes, None) && !isVoting
      ensures post.upvotes >= 0 && post.downvotes >= 0 ==> Valid()
    {
      this.post := post;
      this.userId := userId;
      localUpvotes := post.upvotes;
      localDownvotes := post.downvotes;
      userVote := None;
      isVoting := false;
    }

    function Current(): Tally
      reads this
    {
      Tally(localUpvotes, localDownvotes, userVote)
    }

    ghost predicate Valid()
      reads this
    {
      post.upvotes >= 0 && post.downvotes >= 0 && Tracks(Current(), post.upvotes, post.downvotes)
    }

    /** `handleVote`. `reply` is what awaiting `voteOnPost` gives; `called`
        says whether the server was asked at all (an empty user id is refused
        before anything changes). */
    method HandleVote(voteType: VoteType, reply: VoteReply) returns (called: bool)
      modifies this
      ensures called <==> userId != ""
      ensures !called ==> Current() == old(Current()) && isVoting == old(isVoting)
      ensures called ==> !isVoting
      ensures called && Failed(reply) ==> Current() == Tally(post.upvotes, post.downvotes, None)
      ensures called && !Failed(reply) ==> Current() == Optimistic(old(Current()), voteType)
      ensures old(Valid()) ==> Valid()
    {
      if userId == "" {
        return false;
      }
      called := true;
      ghost var before := Current();
      isVoting := true;
      if userVote == Some(voteType) {
        if voteType == Upvote {
          localUpvotes := AtLeastZero(localUpvotes - 1);
        } else {
          localDownvotes := AtLeastZero(localDownvotes - 1);
        }
        userVote := None;
      } else if userVote.None? {
        if voteType == Upvote {
          localUpvotes := localUpvotes + 1;
        } else {
          localDownvotes := localDownvotes + 1;
        }
        userVote := Some(voteType);
      } else {
        if voteType == Upvote {
          localUpvotes := localUpvotes + 1;
          localDownvotes := AtLeastZero(localDownvotes - 1);
        } else {
          localDownvotes := localDownvotes + 1;
          localUpvotes := AtLeastZero(localUpvotes - 1);
        }
        userVote := Some(voteType);
      }
      assert Current() == Optimistic(before, voteType);
      if old(Valid()) {
        OptimisticTracks(before, voteType, post.upvotes, post.downvotes);
      }
      if Failed(reply) {
        localUpvotes := post.upvotes;
        localDownvotes := post.downvotes;
        userVote := None;
      }
      isVoting := false;
    }
  }
}
