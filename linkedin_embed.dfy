/** The vote buttons of components/linkedin-embed.tsx: every click adds one
    to the chosen counter at once, then the server's answer either reverts
    both counters to the post's own or replaces them with the stored ones. */
module LinkedInEmbed {
  import opened Wrappers
  import opened Types
  import Store

  /** The counters after the server's answer, given the optimistic ones. */
  function Reconciled(optimistic: (int, int), post: Post, reply: VoteReply): (r: (int, int))
    ensures Failed(reply) ==> r == (post.upvotes, post.downvotes)
    ensures !Failed(reply) && reply.upvotes.Some? && reply.downvotes.Some? ==>
      r == (reply.upvotes.value, reply.downvotes.value)
    ensures !Failed(reply) && (reply.upvotes.None? || reply.downvotes.None?) ==> r == optimistic
  {
    if Failed(reply) then (post.upvotes, post.downvotes)
    else if reply.upvotes.Some? && reply.downvotes.Some? then (reply.upvotes.value, reply.downvotes.value)
    else optimistic
  }

  class LinkedInVoteState {
    const post: Post
    var localUpvotes: int
    var localDownvotes: int
    var isVoting: bool

    constructor (post: Post)
      ensures this.post == post
      ensures localUpvotes == post.upvotes && localDownvotes == post.downvotes && !isVoting
    {
      this.post := post;
      localUpvotes := post.upvotes;
      localDownvotes := post.downvotes;
      isVoting := false;
    }

    /** `handleReport` only shows a notice. */
    method HandleReport()
      ensures localUpvotes == old(localUpvotes) && localDownvotes == old(localDownvotes)
      ensures isVoting == old(isVoting)
    {
    }

    /** `handleVote`. `reply` is what awaiting `voteOnPost` gives. The vote is
        never toggled: each call adds one to the chosen counter first. */
    method HandleVote(voteType: VoteType, reply: VoteReply)
      modifies this
      ensures !isVoting
      ensures (localUpvotes, localDownvotes) ==
        Reconciled(AddVote(old(localUpvotes), old(localDownvotes), voteType), post, reply)
    {
      isVoting := true;
      if voteType == Upvote {
        localUpvotes := localUpvotes + 1;
      } else {
        localDownvotes := localDownvotes + 1;
      }
      if Failed(reply) {
        localUpvotes := post.upvotes;
        localDownvotes := post.downvotes;
      } else if reply.upvotes.Some? && reply.downvotes.Some? {
        localUpvotes := reply.upvotes.value;
        localDownvotes := reply.downvotes.value;
      }
      isVoting := false;
    }
  }

  /** One click against the store: `voteOnPost` runs on `table` and the
      widget reconciles with its answer. When the row exists and the store
      does not fail, the widget ends up showing exactly the stored row's
      counters; if it showed them before the click, the store's new counters
      are the widget's optimistic ones. */
  method VoteAgainstStore(table: Store.PostTable, widget: LinkedInVoteState, voteType: VoteType)
    requires table.Valid()
    requires Store.IndexOfId(table.rows, widget.post.id).Some?
    modifies table, widget
    ensures table.Valid()
    ensures var i := old(Store.IndexOfId(table.rows, widget.post.id)).value;
      && i < |table.rows|
      && (widget.localUpvotes, widget.localDownvotes) == (table.rows[i].upvotes, table.rows[i].downvotes)
      && (old((table.rows[i].upvotes, table.rows[i].downvotes)) == old((widget.localUpvotes, widget.localDownvotes)) ==>
            (table.rows[i].upvotes, table.rows[i].downvotes) ==
              AddVote(old(widget.localUpvotes), old(widget.localDownvotes), voteType))
  {
    var r := table.VoteOnPost(widget.post.id, voteType, Store.NoFault);
    widget.HandleVote(voteType, ReplyOf(r));
  }
}
