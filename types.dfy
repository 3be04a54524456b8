/** The records of lib/types.ts, the result of the vote action as the client
    receives it, and the one counter update that server and client share. */
module Types {
  import opened Wrappers

  datatype SortOption = Trending | Recent | Top

  datatype PostType = Twitter | LinkedIn

  datatype VoteType = Upvote | Downvote

  /** A category; `createdAt` is a timestamp. */
  datatype Category = Category(
    id: int,
    name: string,
    slug: string,
    description: Option<string>,
    createdAt: int)

  /** An archived post; `createdAt` is a timestamp. */
  datatype Post = Post(
    id: int,
    postType: PostType,
    postId: string,
    categoryId: int,
    title: Option<string>,
    description: Option<string>,
    status: string,
    upvotes: int,
    downvotes: int,
    submittedBy: Option<string>,
    createdAt: int)

  const PUBLISHED: string := "published"

  /** The value `voteOnPost` returns: the new counters, or an error message. */
  datatype VoteResult = VoteOk(upvotes: int, downvotes: int) | VoteErr(error: string)

  /** What a client component sees after awaiting `voteOnPost`: the call threw,
      or it returned an object whose `upvotes`/`downvotes` may be absent. */
  datatype VoteReply =
    | Threw
    | Returned(success: bool, error: Option<string>, upvotes: Option<int>, downvotes: Option<int>)

  /** The object the server action returns, as seen by the client. */
  function ReplyOf(r: VoteResult): (reply: VoteReply)
    ensures reply.Returned?
    ensures reply.success <==> r.VoteOk?
    ensures r.VoteOk? ==> reply.upvotes == Some(r.upvotes) && reply.downvotes == Some(r.downvotes)
    ensures r.VoteErr? ==> reply.error == Some(r.error)
  {
    match r
    case VoteOk(u, d) => Returned(true, None, Some(u), Some(d))
    case VoteErr(e) => Returned(false, Some(e), None, None)
  }

  /** The attempt failed: the call threw or returned `success: false`. */
  predicate Failed(reply: VoteReply) {
    reply.Threw? || !reply.success
  }

  /** The counter pair after one more vote of type `t`. */
  function AddVote(up: int, down: int, t: VoteType): (r: (int, int))
    ensures r.0 + r.1 == up + down + 1
    ensures t == Upvote ==> r.1 == down
    ensures t == Downvote ==> r.0 == up
  {
    if t == Upvote then (up + 1, down) else (up, down + 1)
  }

  /** The number of votes of type `t` in `votes`. */
  function CountOf(votes: seq<VoteType>, t: VoteType): (n: nat)
    ensures n <= |votes|
  {
    if |votes| == 0 then 0 else (if votes[0] == t then 1 else 0) + CountOf(votes[1..], t)
  }

  /** The counter pair after a sequence of votes, applied one at a time. */
  function AddVotes(up: int, down: int, votes: seq<VoteType>): (r: (int, int))
    decreases |votes|
  {
    if |votes| == 0 then (up, down)
    else
      var next := AddVote(up, down, votes[0]);
      AddVotes(next.0, next.1, votes[1..])
  }

  /** Votes only ever add: after any sequence of votes each counter has grown
      by exactly the number of votes of its type, nothing is toggled off. */
  lemma {:induction false} AddVotesCounts(up: int, down: int, votes: seq<VoteType>)
    ensures AddVotes(up, down, votes) == (up + CountOf(votes, Upvote), down + CountOf(votes, Downvote))
    decreases |votes|
  {
    if |votes| > 0 {
      var next := AddVote(up, down, votes[0]);
      AddVotesCounts(next.0, next.1, votes[1..]);
    }
  }
}
