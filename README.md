# STNH post listing, voting and submission — a Dafny model

This project models the logic of the "Shit That Never Happened" social
aggregator that sits between its pages and its hosted database. It covers:

- **Post query** (`getPosts`). Published posts are narrowed by an optional
  case-insensitive search and an optional category slug. They are then sorted
  by one of three orders and cut to the window `[offset, offset + limit)`.
  `getCategories` returns the categories ordered by name. `getPostById`
  returns one post or null.
- **Vote counter** (`voteOnPost`). It reads a post's two counters, adds one
  to the named counter and writes both back. It keeps no per-user record.
- **Submission intake** (`submitPost`). It classifies the URL's host as
  Twitter/X or LinkedIn and extracts the post's identifier. It then checks
  that the id is all digits, refuses a duplicate `(post_type, post_id)`, and
  inserts one published row with zero counters.
- **Client state machines**:
  - the optimistic toggle/switch/clear vote of the Twitter embed;
  - the increment-then-reconcile vote of the LinkedIn embed;
  - the like toggle of the post card;
  - the "Load More" pagination of the post list;
  - the schema rules and `onSubmit` of the submit form.

There is one module per source file: `Queries` and `Store` for
`app/actions.ts`, `TwitterEmbed`, `LinkedInEmbed`, `PostCard`, `PostList`
and `SubmitForm`. `Types` holds the types of `lib/types.ts`. `Strings`,
`Sorting` and `Wrappers` hold helpers.

The database is replaced by values:
- For reads, a `Snapshot` of the `posts` and `categories` tables.
- For writes, the class `Store.PostTable`, whose field `rows` the methods
  reassign.

Every store call that can fail takes a fault flag as a parameter. So do
`new URL(...)` (an optional parsed URL), the clock (`now`) and every server
call a client component awaits (a reply parameter).

Decisions worth knowing:
- **Ties in ORDER BY.** The store's order for equal sort keys is fixed by a
  stable sort: rows with equal keys keep their snapshot order.
- **The `sort` value.** `sort` is taken as any optional string, because
  `app/page.tsx:17` casts the URL parameter unchecked. "recent" and "top"
  have their own orders. Anything else, including "trending" and an absent
  value, gets the default order: upvotes descending, then `created_at`
  descending. Nothing is time-decayed, whatever the comment at
  `app/actions.ts:71` says.
- **`.single()`.** It yields a row only when exactly one row matches. So a
  slug matching no category, or several, drops the category filter. A
  failed slug lookup also drops it, because its error is ignored.
- **LinkedIn id extraction.** `postUrl.match(/urn:li:share:(\d+)/)` is
  modelled with regex semantics: the leftmost position where the prefix is
  followed by a digit, then the whole digit run there.
- **Hosts are matched by substring** (`includes`). For example, any host
  containing `x.com` counts as Twitter. The model keeps this as written.

## Model

| member | source | states |
|---|---|---|
| `Queries.GetPosts` | app/actions.ts:21-87 | every returned post is a published post of the snapshot; at most `limit` posts (default 10); a failing query returns no posts |
| `Queries.ListingMembers` | app/actions.ts:37-59 | a post is in the listing iff it is published, matches the search (title or description contains the query ignoring case) when a non-empty query is given, and has the looked-up category id when the slug resolves |
| `Queries.GetPostsOrder` | app/actions.ts:61-74 | `recent`: created_at non-increasing; `top`: upvotes non-increasing; trending and any other value: upvotes non-increasing, created_at non-increasing among equal upvotes |
| `Queries.GetPostsIsWindow` | app/actions.ts:76-79 | without a store error the page is exactly the positions offset .. offset+limit-1 of the listing that exist |
| `Queries.SortMode` | app/actions.ts:62-74 | Recent exactly for "recent", Top exactly for "top", the default branch for every other value |
| `Queries.EmptyQueryIgnored` | app/actions.ts:46-49 | an empty search string filters nothing |
| `Queries.UnknownSlugIgnored` | app/actions.ts:52-59 | a slug naming no category gives the same listing as no slug |
| `Queries.CategoryIdBySlug` | app/actions.ts:54-58 | a found id belongs to a category with that slug; with unique slugs an id is found iff such a category exists |
| `Queries.EffectiveCategory` | app/actions.ts:52-59 | no category filter for an absent or empty slug or a failed lookup; otherwise the lookup's answer |
| `Queries.Window` | app/actions.ts:77 | the inclusive range `offset..offset+limit-1`: at most `limit` elements, each the element at `offset + i`, clipped at the end |
| `Queries.PageFollows` | app/actions.ts:77 | the page at offset k continues the prefix of length k with no overlap and no gap |
| `Queries.PagesArePrefix` | app/actions.ts:77 | the first n fixed-size pages concatenated are the listing's first n*size posts |
| `Queries.GetCategories` | app/actions.ts:8-18 | categories ordered by name (as a permutation of the table), or none on a store error |
| `Queries.GetPostById` | app/actions.ts:90-107 | a store error or a missing row gives null; a returned post has the id; with unique ids a post is returned iff one has that id |
| `Queries.NameLeIsTotalPreorder` | app/actions.ts:10 | ordering by name is total and transitive |
| `Sorting.SortBySorted` | app/actions.ts:62-74 | sorting by a total preorder yields an ordered list |
| `Sorting.SortBy` | app/actions.ts:62-74 | sorting keeps exactly the same posts (multiset) |
| `Sorting.Filter` | app/actions.ts:43 | keeps exactly the elements satisfying the condition, each one satisfying it |
| `Sorting.FilterSingle` | app/actions.ts:54 | with at most one candidate, `.single()` finds a row iff one exists |
| `Strings.Contains` | app/actions.ts:176 | `includes` holds iff the substring occurs at some position |
| `Strings.Lower` | app/actions.ts:47-48 | ASCII case folding used for ILIKE: same length, each letter lowered |
| `Strings.MatchDigitsAfter` | app/actions.ts:182-189 | the leftmost match of `prefix(\d+)`: None iff no position matches; otherwise a non-empty digit string that is the maximal digit run after the first matching position |
| `Strings.Split` | app/actions.ts:178 | `split("/")`: non-empty list of separator-free pieces that join back to the input |
| `Strings.LastSegment` | app/actions.ts:178-179 | everything after the last `/`: separator-free suffix preceded by `/` unless it is the whole string |
| `Store.Identify` | app/actions.ts:171-199 | unparsable URL iff "Invalid URL"; Twitter/X host gives the last path segment; LinkedIn host gives the share id, else the activity id; other hosts, an empty id or no LinkedIn match are unidentified |
| `Store.LinkedInId` | app/actions.ts:180-191 | the `urn:li:share:` digits when present, else the `activity:` digits; always all digits |
| `Store.SubmitAccepted` | app/actions.ts:197-254 | a submission succeeds iff the URL identifies a post, the id is all digits, the pair is new and the insert succeeds |
| `Store.ResubmitIsDuplicate` | app/actions.ts:222-246 | after a successful submission the same URL is refused as "already submitted" |
| `Store.NewRow` | app/actions.ts:236-246 | the inserted row is published, with zero counters and `submitted_by = "anonymous"` |
| `Store.TwitterExample` | app/actions.ts:176-179 | `https://x.com/user/status/42` gives (twitter, "42") |
| `Store.LinkedInExample` | app/actions.ts:180-189 | `https://www.linkedin.com/feed/update/urn:li:share:99/` gives (linkedin, "99") |
| `Store.IndexOfId` | app/actions.ts:121-125 | finds a row with the id, or None iff there is none |
| `Store.PostTable.constructor` | app/actions.ts:236 | an empty table satisfying the invariant |
| `Store.PostTable.VoteOnPost` | app/actions.ts:110-155 | each failure has its own message and writes nothing; on success only that row changes, the named counter grows by 1, the other stays, the new pair is returned; ids, pair uniqueness and non-negative counters are kept |
| `Store.PostTable.SubmitPost` | app/actions.ts:158-255 | the answer is `SubmitOutcome`; a refusal writes nothing; success appends exactly one new row; the ids and `(post_type, post_id)` stay unique |
| `Types.AddVote` | app/actions.ts:133-134 | one vote adds one in total, to the named counter only |
| `Types.AddVotesCounts` | components/linkedin-embed.tsx:40-45 | votes never toggle: after any sequence each counter has grown by the number of votes of its type |
| `Types.ReplyOf` | app/actions.ts:129-150 | the client sees `success` iff the vote succeeded, with both counters on success and the message on failure |
| `TwitterEmbed.Optimistic` | components/twitter-embed.tsx:217-244 | a first vote adds one; the same type removes it (clamped at 0); the other type moves it; the vote toggles/switches; non-negative counts stay non-negative |
| `TwitterEmbed.OptimisticTracks` | components/twitter-embed.tsx:217-244 | displayed counts stay equal to the post's counts plus the visitor's active vote |
| `TwitterEmbed.VoteTwiceRestores` | components/twitter-embed.tsx:218-233 | the same vote twice from no vote restores counts and clears the vote |
| `TwitterEmbed.SwitchMovesVote` | components/twitter-embed.tsx:226-244 | upvote then downvote: upvotes unchanged, downvotes +1, vote is downvote |
| `TwitterEmbed.AtLeastZero` | components/twitter-embed.tsx:221 | `Math.max(0, n)` is non-negative, at least n, and n itself when n >= 0 |
| `TwitterEmbed.UserIdProp` | components/twitter-embed.tsx:25 | the user id defaults to "anonymous" |
| `TwitterEmbed.TwitterVoteState.constructor` | components/twitter-embed.tsx:27-30 | starts at the post's counts with no vote and not voting |
| `TwitterEmbed.TwitterVoteState.HandleVote` | components/twitter-embed.tsx:205-279 | empty user id: nothing changes and no server call; failure or exception: counts revert to the post's, vote cleared; success: the optimistic state; `isVoting` false afterwards; the tracking invariant is kept |
| `LinkedInEmbed.Reconciled` | components/linkedin-embed.tsx:53-68 | failure reverts to the post's counts; success with both numbers takes the server's; otherwise the optimistic counts stay |
| `LinkedInEmbed.VoteAgainstStore` | components/linkedin-embed.tsx:37-83 | a click whose `voteOnPost` runs on the table without a fault leaves the widget showing exactly the stored row's counters; when the widget showed the stored counters before, the new stored counters are its optimistic ones |
| `LinkedInEmbed.LinkedInVoteState.constructor` | components/linkedin-embed.tsx:24-26 | starts at the post's counts, not voting |
| `LinkedInEmbed.LinkedInVoteState.HandleReport` | components/linkedin-embed.tsx:29-35 | changes no vote state |
| `LinkedInEmbed.LinkedInVoteState.HandleVote` | components/linkedin-embed.tsx:37-83 | adds one to the chosen counter, then reconciles with the reply; `isVoting` false afterwards |
| `PostList.PostListState.constructor` | components/post-list.tsx:17-21 | posts are the initial ones, offset is their number, `hasMore` iff there are 10 |
| `PostList.PostListState.NextRequest` | components/post-list.tsx:25-31 | requests limit 10 at the current offset with the list's category, sort and query |
| `PostList.PostListState.LoadMore` | components/post-list.tsx:23-41 | a non-empty page is appended and the offset grows by its length, `hasMore` iff it has 10; an empty page only clears `hasMore`; `isLoading` false afterwards; when the awaited call rejects nothing changes and `isLoading` stays true; on a fixed snapshot the posts stay a prefix of the listing and are all of it once `hasMore` is false |
| `PostList.AppendPage` | components/post-list.tsx:33-39 | appending the page fetched at the end of a prefix gives a longer prefix; a short page means the listing is complete |
| `PostList.FirstPageIsPrefix` | app/actions.ts:76-86 | the page at offset 0 is the start of the listing |
| `PostList.ListingIgnoresRange` | app/actions.ts:37-74 | the listing does not depend on limit and offset |
| `PostList.GetPostsIsWindowOrEmpty` | app/actions.ts:76-86 | a page is empty or the window of the listing |
| `PostCard.PostCardState.constructor` | components/post-card.tsx:29-30 | starts unliked at `likes`, with the invariant |
| `PostCard.PostCardState.HandleLike` | components/post-card.tsx:32-39 | flips `liked`; adds 1 when not liked, subtracts 1 when liked; keeps `likeCount == likes + (liked ? 1 : 0)` |
| `PostCard.LikeTwice` | components/post-card.tsx:32-39 | two clicks restore `liked` and `likeCount` |
| `SubmitForm.SchemaErrors` | app/submit/submit-form.tsx:18-27 | no errors iff the URL text contains "twitter.com" or "x.com" and the category id is non-empty; each message appears iff its rule fails |
| `SubmitForm.TweetId` | app/submit/submit-form.tsx:52-54 | the last `/`-separated piece of the path |
| `SubmitForm.TrailingSlashNoId` | app/submit/submit-form.tsx:52-56 | a trailing slash gives an empty id |
| `SubmitForm.FailureText` | app/submit/submit-form.tsx:80 | an absent or empty error falls back to "Something went wrong" |
| `SubmitForm.SubmitFormState.constructor` | app/submit/submit-form.tsx:34 | not submitting |
| `SubmitForm.SubmitFormState.OnSubmit` | app/submit/submit-form.tsx:47-93 | unparsable URL or empty id: an error toast and no server call; otherwise the request carries the id, the parsed category id and notes defaulting to ""; success navigates to "/"; failure shows the error or the fallback; `isSubmitting` false afterwards |
| `Strings.ParseLeadingInt` | app/submit/submit-form.tsx:67 | NaN (None) exactly when the text does not start with a digit |
| `Strings.ParseDecimalRoundTrip` | app/submit/submit-form.tsx:127 | parsing the `toString()` of a category id gives the id back |

## Left out

- The hosted database client, `revalidatePath` and the logging calls. They
  are replaced by an in-memory snapshot or table plus one fault flag per
  store call.
- The embedded `category:categories(id, name, slug)` record in query
  results. Callers only display its name.
- `new URL(...)` parsing (the WHATWG URL Standard). Its outcome is an input:
  a hostname and pathname, or a parse failure. The form's zod `.url()`
  check is left out too.
- PostgreSQL `ILIKE` wildcards (`%`, `_` inside the query) and the
  `.or(...)` filter-string syntax. Search is a plain substring test with
  ASCII case folding.
- The database collation for `order("name")`. Names are compared
  lexicographically by code point.
- A negative `limit` or `offset`. Both are naturals; a zero limit is
  modelled and gives an empty page.
- Post counters that are null in the store. `lib/types.ts` declares them as
  numbers, so the `|| 0` at `app/actions.ts:133-134` is not needed.
- A failing duplicate check in `submitPost` (`app/actions.ts:223-232`). Its
  error is ignored, so the insert would go ahead. Whether that creates a
  duplicate depends on store constraints not in the shown code. The model
  assumes the check answers.
- An exception in `voteOnPost` after the update was written. `Throws` is
  modelled as escaping before anything is written.
- Concurrency. The read-modify-write in `voteOnPost` can lose updates under
  concurrent requests; only sequential calls are modelled.
- A per-user vote ledger or server-side toggle. The `Vote` and `Submission`
  types in `lib/types.ts` are not used by the modelled code, and the
  `userId` the Twitter embed sends is ignored by `voteOnPost`.
- The `submitTweet` server action used by the submit form. It is not
  defined in `app/actions.ts`, so its reply is an input.
- The states in the middle of an async handler. Each handler is modelled
  as one step from before the click to after the answer. The optimistic
  values shown while waiting are given by `TwitterEmbed.Optimistic` and
  `Types.AddVote`.
- Toast texts other than the submit form's, Twitter widget script loading,
  iframes, `router.push` (given as the returned route), `window.open` and
  `window.location`.
- The presentational pages and components: app/page.tsx, the about,
  privacy, terms, categories and submit pages, app/opengraph-image.tsx,
  components/sort-tabs.tsx and components/category-select.tsx.
- `Strings.ParseLeadingInt`: does not model the leading white space, sign,
  radix prefixes or unbounded-precision rounding of `Number.parseInt`.
- `toLocaleDateString` date formatting. `created_at` is an integer
  timestamp.
