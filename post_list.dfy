/** The "Load More" list of components/post-list.tsx: pages fetched with
    `getPosts` at the current offset are appended to the posts shown. */
module PostList {
  import opened Wrappers
  import opened Types
  import opened Queries

  const PAGE_SIZE: nat := 10

  /** On a fixed snapshot the first page is the start of the listing. */
  lemma FirstPageIsPrefix(db: Snapshot, f: PostFilter, faults: StoreFaults)
    requires Offset(f) == 0
    ensures var r, l := GetPosts(db, f, faults), Listing(db, f, faults.categoryLookupFails);
      |r| <= |l| && r == l[..|r|]
  {
    GetPostsIsWindowOrEmpty(db, f, faults);
  }

  lemma GetPostsIsWindowOrEmpty(db: Snapshot, f: PostFilter, faults: StoreFaults)
    ensures var r, l := GetPosts(db, f, faults), Listing(db, f, faults.categoryLookupFails);
      r == [] || r == Window(l, Offset(f), Limit(f))
  {
  }

  /** The listing depends on the category, the sort and the query, not on
      the page requested. */
  lemma ListingIgnoresRange(db: Snapshot, f: PostFilter, g: PostFilter, lookupFails: bool)
    requires f.categorySlug == g.categorySlug && f.sort == g.sort && f.query == g.query
    ensures Listing(db, f, lookupFails) == Listing(db, g, lookupFails)
  {
  }

  /** Appending the page fetched at the end of a prefix of the listing gives
      a longer prefix; a short page or an empty answer from a working store
      means the whole listing has been shown. */
  lemma {:induction false} AppendPage(l: seq<Post>, shown: seq<Post>, page: seq<Post>, queryFails: bool)
    requires |shown| <= |l| && shown == l[..|shown|]
    requires queryFails ==> page == []
    requires !queryFails ==> page == Window(l, |shown|, PAGE_SIZE)
    ensures |shown + page| <= |l| && shown + page == l[..|shown + page|]
    ensures !queryFails && |page| < PAGE_SIZE ==> shown + page == l
  {
    PageFollows(l, |shown|, PAGE_SIZE);
  }

  class PostListState {
    const categorySlug: Option<string>
    const sort: Option<string>
    const query: Option<string>
    var posts: seq<Post>
    var offset: nat
    var isLoading: bool
    var hasMore: bool

    constructor (initialPosts: seq<Post>, categorySlug: Option<string>, sort: Option<string>, query: Option<string>)
      ensures this.categorySlug == categorySlug && this.sort == sort && this.query == query
      ensures posts == initialPosts && offset == |initialPosts|
      ensures hasMore == (|initialPosts| == PAGE_SIZE) && !isLoading
    {
      this.categorySlug := categorySlug;
      this.sort := sort;
      this.query := query;
      posts := initialPosts;
      offset := |initialPosts|;
      isLoading := false;
      hasMore := |initialPosts| == PAGE_SIZE;
    }

    /** The arguments `loadMorePosts` passes to `getPosts`. */
    function NextRequest(): (f: PostFilter)
      reads this
      ensures Limit(f) == PAGE_SIZE && Offset(f) == offset
      ensures f.categorySlug == categorySlug && f.sort == sort && f.query == query
    {
      PostFilter(categorySlug, sort, Some(PAGE_SIZE), Some(offset), query)
    }

    /** The posts shown are exactly the start of the full listing, and the
        offset is their number. */
    ghost predicate InSync(db: Snapshot, lookupFails: bool)
      reads this
    {
      var l := Listing(db, NextRequest(), lookupFails);
      offset == |posts| && |posts| <= |l| && posts == l[..|posts|]
    }

    /** `loadMorePosts`. `db` is the store's content at the time of the call
        and `faults` the store's failures; `page` is what `getPosts` returned.
        When the awaited call rejects (`threw`), nothing after the `await`
        runs: no page arrives and `isLoading` stays set. */
    method LoadMore(db: Snapshot, faults: StoreFaults, threw: bool) returns (page: seq<Post>)
      modifies this
      ensures threw ==>
        page == [] && posts == old(posts) && offset == old(offset) && hasMore == old(hasMore) && isLoading
      ensures !threw ==> page == GetPosts(db, old(NextRequest()), faults)
      ensures !threw && |page| > 0 ==>
        && posts == old(posts) + page
        && offset == old(offset) + |page|
        && hasMore == (|page| == PAGE_SIZE)
      ensures !threw && |page| == 0 ==> posts == old(posts) && offset == old(offset) && !hasMore
      ensures !threw ==> !isLoading
      ensures old(InSync(db, faults.categoryLookupFails)) ==> InSync(db, faults.categoryLookupFails)
      ensures !threw && old(InSync(db, faults.categoryLookupFails)) && !faults.postsQueryFails && !hasMore ==>
        posts == Listing(db, NextRequest(), faults.categoryLookupFails)
    {
      isLoading := true;
      if threw {
        return [];
      }
      var request := NextRequest();
      ghost var l := Listing(db, request, faults.categoryLookupFails);
      ghost var synced := InSync(db, faults.categoryLookupFails);
      page := GetPosts(db, request, faults);
      GetPostsIsWindowOrEmpty(db, request, faults);
      if synced {
        assert !faults.postsQueryFails ==> page == Window(l, |posts|, PAGE_SIZE);
        AppendPage(l, posts, page, faults.postsQueryFails);
      }
      if |page| > 0 {
        posts := posts + page;
        offset := offset + |page|;
        hasMore := |page| == PAGE_SIZE;
      } else {
        hasMore := false;
      }
      ListingIgnoresRange(db, request, NextRequest(), faults.categoryLookupFails);
      isLoading := false;
    }
  }
}
