/** The write side of app/actions.ts: `voteOnPost` and `submitPost` as methods
    of an in-memory posts table, with the URL classification and identifier
    extraction that `submitPost` performs before it writes. */
module Store {
  import opened Wrappers
  import opened Strings
  import opened Types
  import Queries

  const ERR_FETCH: string := "Failed to fetch post"
  const ERR_UPDATE: string := "Failed to update vote counts"
  const ERR_PROCESS: string := "Failed to process vote"
  const ERR_INVALID_URL: string := "Invalid URL provided"
  const ERR_UNIDENTIFIED: string :=
    "Could not identify the post from the URL. Please provide a valid Twitter or LinkedIn post URL."
  const ERR_BAD_ID: string := "Invalid post ID format"
  const ERR_DUPLICATE: string := "This post has already been submitted"
  const ERR_INSERT: string := "Failed to submit post"

  const ANONYMOUS: string := "anonymous"
  const LINKEDIN_SHARE: string := "urn:li:share:"
  const LINKEDIN_ACTIVITY: string := "activity:"

  // ---------------------------------------------------------------- URL intake

  /** The parts of `new URL(postUrl)` that `submitPost` reads. */
  datatype ParsedUrl = ParsedUrl(hostname: string, pathname: string)

  /** The arguments of `submitPost`; `parsed` is what `new URL(postUrl)`
      yields, None when it throws. */
  datatype SubmitRequest = SubmitRequest(
    postUrl: string,
    parsed: Option<ParsedUrl>,
    title: string,
    description: string,
    categoryId: int)

  datatype Identification = BadUrl | Unidentified | Identified(postType: PostType, postId: string)

  predicate IsTwitterHost(hostname: string) {
    Contains(hostname, "twitter.com") || Contains(hostname, "x.com")
  }

  predicate IsLinkedInHost(hostname: string) {
    Contains(hostname, "linkedin.com")
  }

  /** The LinkedIn identifier: the digits after the first `urn:li:share:`
      followed by a digit, else those after the first such `activity:`. */
  function LinkedInId(postUrl: string): (r: Option<string>)
    ensures r.Some? ==> AllDigits(r.value)
    ensures r.None? <==> MatchDigitsAfter(postUrl, LINKEDIN_SHARE).None? && MatchDigitsAfter(postUrl, LINKEDIN_ACTIVITY).None?
    ensures MatchDigitsAfter(postUrl, LINKEDIN_SHARE).Some? ==> r == MatchDigitsAfter(postUrl, LINKEDIN_SHARE)
    ensures MatchDigitsAfter(postUrl, LINKEDIN_SHARE).None? ==> r == MatchDigitsAfter(postUrl, LINKEDIN_ACTIVITY)
  {
    var share := MatchDigitsAfter(postUrl, LINKEDIN_SHARE);
    if share.Some? then share else MatchDigitsAfter(postUrl, LINKEDIN_ACTIVITY)
  }

  /** Lines 171-199 of `submitPost`: platform by hostname, identifier by path
      (Twitter) or by pattern over the whole URL string (LinkedIn). */
  function Identify(postUrl: string, parsed: Option<ParsedUrl>): (r: Identification)
    ensures r == BadUrl <==> parsed.None?
    ensures r.Identified? ==> r.postId != ""
    ensures r.Identified? && r.postType == Twitter ==>
      && IsTwitterHost(parsed.value.hostname)
      && r.postId == LastSegment(parsed.value.pathname, '/')
    ensures r.Identified? && r.postType == LinkedIn ==>
      && !IsTwitterHost(parsed.value.hostname)
      && IsLinkedInHost(parsed.value.hostname)
      && AllDigits(r.postId)
      && Some(r.postId) == LinkedInId(postUrl)
    ensures r == Unidentified <==> (parsed.Some? &&
      var host := parsed.value.hostname;
      || (!IsTwitterHost(host) && !IsLinkedInHost(host))
      || (IsTwitterHost(host) && LastSegment(parsed.value.pathname, '/') == "")
      || (!IsTwitterHost(host) && IsLinkedInHost(host) && LinkedInId(postUrl).None?))
  {
    match parsed
    case None => BadUrl
    case Some(url) =>
      if IsTwitterHost(url.hostname) then
        var id := LastSegment(url.pathname, '/');
        if id == "" then Unidentified else Identified(Twitter, id)
      else if IsLinkedInHost(url.hostname) then
        match LinkedInId(postUrl)
        case None => Unidentified
        case Some(id) => Identified(LinkedIn, id)
      else Unidentified
  }

  /** The dedup lookup `.eq("post_type", t).eq("post_id", id).single()`; with
      at most one row per pair (PairsDistinct) it finds a row exactly when one
      exists. */
  predicate AlreadySubmitted(rows: seq<Post>, t: PostType, id: string) {
    exists i :: 0 <= i < |rows| && rows[i].postType == t && rows[i].postId == id
  }

  /** The row `submitPost` inserts. */
  function NewRow(t: PostType, postId: string, req: SubmitRequest, rowId: int, now: int): (p: Post)
    ensures p.status == PUBLISHED && p.upvotes == 0 && p.downvotes == 0
    ensures p.submittedBy == Some(ANONYMOUS)
    ensures p.postType == t && p.postId == postId && p.id == rowId && p.createdAt == now
    ensures p.categoryId == req.categoryId && p.title == Some(req.title) && p.description == Some(req.description)
  {
    Post(rowId, t, postId, req.categoryId, Some(req.title), Some(req.description),
         PUBLISHED, 0, 0, Some(ANONYMOUS), now)
  }

  datatype SubmitResult = SubmitOk | SubmitErr(error: string)

  /** The answer of `submitPost` on a table holding `rows`; the checks are
      made in the order of the source. */
  function SubmitOutcome(rows: seq<Post>, req: SubmitRequest, insertFails: bool): SubmitResult {
    match Identify(req.postUrl, req.parsed)
    case BadUrl => SubmitErr(ERR_INVALID_URL)
    case Unidentified => SubmitErr(ERR_UNIDENTIFIED)
    case Identified(t, id) =>
      if !AllDigits(id) then SubmitErr(ERR_BAD_ID)
      else if AlreadySubmitted(rows, t, id) then SubmitErr(ERR_DUPLICATE)
      else if insertFails then SubmitErr(ERR_INSERT)
      else SubmitOk
  }

  /** A submission is accepted exactly when the URL identifies a post, the id
      is all digits, the pair is not yet in the table and the insert succeeds. */
  lemma SubmitAccepted(rows: seq<Post>, req: SubmitRequest, insertFails: bool)
    ensures SubmitOutcome(rows, req, insertFails) == SubmitOk <==>
      var ident := Identify(req.postUrl, req.parsed);
      && ident.Identified?
      && AllDigits(ident.postId)
      && !AlreadySubmitted(rows, ident.postType, ident.postId)
      && !insertFails
  {
  }

  /** Submitting the same URL again after a successful submission is refused
      as a duplicate, whatever the store would do with the insert. */
  lemma {:induction false} ResubmitIsDuplicate(rows: seq<Post>, req: SubmitRequest, rowId: int, now: int, insertFails: bool)
    requires SubmitOutcome(rows, req, false) == SubmitOk
    ensures var ident := Identify(req.postUrl, req.parsed);
      SubmitOutcome(rows + [NewRow(ident.postType, ident.postId, req, rowId, now)], req, insertFails)
        == SubmitErr(ERR_DUPLICATE)
  {
    var ident := Identify(req.postUrl, req.parsed);
    var rows' := rows + [NewRow(ident.postType, ident.postId, req, rowId, now)];
    assert rows'[|rows|].postType == ident.postType && rows'[|rows|].postId == ident.postId;
  }

  /** `https://x.com/user/status/42` identifies tweet 42. */
  lemma TwitterExample()
    ensures Identify("https://x.com/user/status/42", Some(ParsedUrl("x.com", "/user/status/42")))
      == Identified(Twitter, "42")
  {
    assert OccursAt("x.com", "x.com", 0);
    LastSegmentIs("/user/status/42", '/', "42");
  }

  lemma LinkedInHostExample()
    ensures !IsTwitterHost("www.linkedin.com") && IsLinkedInHost("www.linkedin.com")
  {
    var h := "www.linkedin.com";
    forall i | 0 <= i ensures !OccursAt(h, "x.com", i) {
      if 0 <= i <= |h| - 5 {
        assert h[i..i+5][0] == h[i];
      }
    }
    forall i | 0 <= i ensures !OccursAt(h, "twitter.com", i) {
      if 0 <= i <= |h| - 11 {
        assert h[i..i+11][0] == h[i];
      }
    }
    assert h == "www." + "linkedin.com";
    assert h[4..16] == "linkedin.com";
    assert OccursAt(h, "linkedin.com", 4);
  }

  lemma LinkedInHeadHasNoUrnStart()
    ensures var head := "https://www.linkedin.com/feed/update/";
      forall j :: 0 <= j < |head| - 1 ==> !(head[j] == 'u' && head[j + 1] == 'r')
  {
  }

  lemma LinkedInIdExample()
    ensures LinkedInId("https://www.linkedin.com/feed/update/urn:li:share:99/") == Some("99")
  {
    var u := "https://www.linkedin.com/feed/update/urn:li:share:99/";
    var head := "https://www.linkedin.com/feed/update/";
    assert u == head + LINKEDIN_SHARE + "99/";
    assert u[37..50] == LINKEDIN_SHARE;
    assert u[50..] == "99/";
    assert DigitsMatchAt(u, LINKEDIN_SHARE, 37);
    LinkedInHeadHasNoUrnStart();
    forall j | 0 <= j < 37 ensures !DigitsMatchAt(u, LINKEDIN_SHARE, j) {
      if j < 36 {
        assert u[j] == head[j] && u[j + 1] == head[j + 1];
      } else {
        assert u[j] == head[36];
      }
      assert u[j..j + 13][0] == u[j] && u[j..j + 13][1] == u[j + 1];
    }
    assert "99/"[1..] == "9/" && "9/"[1..] == "/";
    assert DigitRun("99/") == "99";
  }

  /** `https://www.linkedin.com/feed/update/urn:li:share:99/` identifies
      LinkedIn post 99. */
  lemma LinkedInExample()
    ensures Identify("https://www.linkedin.com/feed/update/urn:li:share:99/",
      Some(ParsedUrl("www.linkedin.com", "/feed/update/urn:li:share:99/"))) == Identified(LinkedIn, "99")
  {
    LinkedInHostExample();
    LinkedInIdExample();
  }

  // ---------------------------------------------------------------- the table

  /** No two rows archive the same external post. */
  predicate PairsDistinct(rows: seq<Post>) {
    forall i, j :: 0 <= i < j < |rows| ==>
      !(rows[i].postType == rows[j].postType && rows[i].postId == rows[j].postId)
  }

  predicate CountersNonNegative(rows: seq<Post>) {
    forall i :: 0 <= i < |rows| ==> rows[i].upvotes >= 0 && rows[i].downvotes >= 0
  }

  /** The position of the row with primary key `id`, if any. */
  function IndexOfId(rows: seq<Post>, id: int): (k: Option<nat>)
    ensures k.Some? ==> k.value < |rows| && rows[k.value].id == id
    ensures k.None? <==> forall i :: 0 <= i < |rows| ==> rows[i].id != id
  {
    if |rows| == 0 then None
    else if rows[0].id == id then Some(0)
    else match IndexOfId(rows[1..], id)
      case None => None
      case Some(k) => Some(k + 1)
  }

  /** Where `voteOnPost` fails: the read reports an error, the update reports
      an error, or an exception escapes to the `catch` before anything is
      written. */
  datatype VoteFault = NoFault | FetchFails | UpdateFails | Throws

  /** The `posts` table. `nextId` is the value the table's identity column
      hands out next. */
  class PostTable {
    var rows: seq<Post>
    var nextId: int

    ghost predicate Valid()
      reads this
    {
      && Queries.IdsDistinct(rows)
      && PairsDistinct(rows)
      && CountersNonNegative(rows)
      && forall i :: 0 <= i < |rows| ==> rows[i].id < nextId
    }

    constructor ()
      ensures Valid() && rows == [] && nextId == 1
    {
      rows := [];
      nextId := 1;
    }

    /** `voteOnPost`: reads the two counters of the post, adds one to the
        named counter and writes both back. No per-user record is kept. */
    method VoteOnPost(postId: int, voteType: VoteType, fault: VoteFault) returns (r: VoteResult)
      requires Valid()
      modifies this
      ensures Valid() && nextId == old(nextId)
      ensures fault == Throws ==> r == VoteErr(ERR_PROCESS)
      ensures fault == FetchFails ==> r == VoteErr(ERR_FETCH)
      ensures fault != Throws && IndexOfId(old(rows), postId).None? ==> r == VoteErr(ERR_FETCH)
      ensures fault == UpdateFails && IndexOfId(old(rows), postId).Some? ==> r == VoteErr(ERR_UPDATE)
      ensures r.VoteErr? ==> rows == old(rows)
      ensures r.VoteOk? <==> fault == NoFault && IndexOfId(old(rows), postId).Some?
      ensures r.VoteOk? ==>
        var i := IndexOfId(old(rows), postId).value;
        var p := old(rows)[i];
        && (r.upvotes, r.downvotes) == AddVote(p.upvotes, p.downvotes, voteType)
        && rows == old(rows)[i := p.(upvotes := r.upvotes, downvotes := r.downvotes)]
    {
      if fault == Throws {
        return VoteErr(ERR_PROCESS);
      }
      var found := IndexOfId(rows, postId);
      if fault == FetchFails || found.None? {
        return VoteErr(ERR_FETCH);
      }
      var i := found.value;
      var post := rows[i];
      var newUpvotes := if voteType == Upvote then post.upvotes + 1 else post.upvotes;
      var newDownvotes := if voteType == Downvote then post.downvotes + 1 else post.downvotes;
      if fault == UpdateFails {
        return VoteErr(ERR_UPDATE);
      }
      rows := rows[i := post.(upvotes := newUpvotes, downvotes := newDownvotes)];
      r := VoteOk(newUpvotes, newDownvotes);
    }

    /** `submitPost`: classify the URL, extract the identifier, validate it,
        refuse a duplicate, then insert exactly one published row. `now` is
        the store's clock for `created_at`. */
    method SubmitPost(req: SubmitRequest, now: int, insertFails: bool) returns (r: SubmitResult)
      requires Valid()
      modifies this
      ensures Valid()
      ensures r == SubmitOutcome(old(rows), req, insertFails)
      ensures r.SubmitErr? ==> rows == old(rows) && nextId == old(nextId)
      ensures r.SubmitOk? ==>
        var ident := Identify(req.postUrl, req.parsed);
        && rows == old(rows) + [NewRow(ident.postType, ident.postId, req, old(nextId), now)]
        && nextId == old(nextId) + 1
    {
      var postType: Option<PostType> := None;
      var postId: Option<string> := None;

      if req.parsed.None? {
        return SubmitErr(ERR_INVALID_URL);
      }
      var url := req.parsed.value;
      if IsTwitterHost(url.hostname) {
        postType := Some(Twitter);
        var pathParts := Split(url.pathname, '/');
        postId := Some(pathParts[|pathParts| - 1]);
      } else if IsLinkedInHost(url.hostname) {
        postType := Some(LinkedIn);
        var share := MatchDigitsAfter(req.postUrl, LINKEDIN_SHARE);
        if share.Some? {
          postId := share;
        } else {
          var activity := MatchDigitsAfter(req.postUrl, LINKEDIN_ACTIVITY);
          if activity.Some? {
            postId := activity;
          }
        }
      }

      if postType.None? || postId.None? || postId.value == "" {
        return SubmitErr(ERR_UNIDENTIFIED);
      }
      if !AllDigits(postId.value) {
        return SubmitErr(ERR_BAD_ID);
      }
      if AlreadySubmitted(rows, postType.value, postId.value) {
        return SubmitErr(ERR_DUPLICATE);
      }
      if insertFails {
        return SubmitErr(ERR_INSERT);
      }
      var row := NewRow(postType.value, postId.value, req, nextId, now);
      assert forall i :: 0 <= i < |rows| ==> rows[i].id != row.id;
      assert forall i :: 0 <= i < |rows| ==> !(rows[i].postType == row.postType && rows[i].postId == row.postId);
      rows := rows + [row];
      nextId := nextId + 1;
      r := SubmitOk;
    }
  }
}
