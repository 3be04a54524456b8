/** The read side of app/actions.ts: `getCategories`, `getPosts` and
    `getPostById`, each a pure function of a snapshot of the store's tables
    and of which store calls fail. */
module Queries {
  import opened Wrappers
  import opened Strings
  import opened Sorting
  import opened Types

  const DEFAULT_LIMIT: nat := 10
  const DEFAULT_OFFSET: nat := 0

  /** The rows of the two tables at the moment of the read. */
  datatype Snapshot = Snapshot(posts: seq<Post>, categories: seq<Category>)

  /** The arguments of `getPosts`; an argument the caller leaves out is None. */
  datatype PostFilter = PostFilter(
    categorySlug: Option<string>,
    sort: Option<string>,
    limit: Option<nat>,
    offset: Option<nat>,
    query: Option<string>)

  /** Which of `getPosts`' two store calls report an error. */
  datatype StoreFaults = StoreFaults(categoryLookupFails: bool, postsQueryFails: bool)

  /** JavaScript truthiness of an optional string. */
  predicate Present(s: Option<string>) {
    s.Some? && s.value != ""
  }

  // ---------------------------------------------------------------- getCategories

  function NameLe(): (Category, Category) -> bool {
    (a: Category, b: Category) => LexLe(a.name, b.name)
  }

  lemma NameLeIsTotalPreorder()
    ensures TotalPreorder(NameLe())
  {
    forall a: Category, b: Category ensures NameLe()(a, b) || NameLe()(b, a) {
      LexLeTotal(a.name, b.name);
    }
    forall a: Category, b: Category, c: Category | NameLe()(a, b) && NameLe()(b, c)
      ensures NameLe()(a, c)
    {
      LexLeTransitive(a.name, b.name, c.name);
    }
  }

  /** `getCategories`: all categories ordered by name, or none when the store
      reports an error. */
  function GetCategories(categories: seq<Category>, fails: bool): (r: seq<Category>)
    ensures fails ==> r == []
    ensures !fails ==> multiset(r) == multiset(categories)
    ensures forall i, j :: 0 <= i < j < |r| ==> LexLe(r[i].name, r[j].name)
  {
    if fails then []
    else
      NameLeIsTotalPreorder();
      SortBySorted(categories, NameLe());
      SortBy(categories, NameLe())
  }

  // ---------------------------------------------------------------- getPostById

  function IdIs(id: int): Post -> bool {
    (p: Post) => p.id == id
  }

  /** Post ids are the table's primary key. */
  predicate IdsDistinct(posts: seq<Post>) {
    forall i, j :: 0 <= i < j < |posts| ==> posts[i].id != posts[j].id
  }

  /** `getPostById`: `.single()` yields the row when exactly one row has the
      id; no row, several rows or a store error all yield null. */
  function GetPostById(posts: seq<Post>, id: int, fails: bool): (r: Option<Post>)
    ensures fails ==> r.None?
    ensures r.Some? ==> r.value in posts && r.value.id == id
    ensures !fails && IdsDistinct(posts) ==> (r.Some? <==> exists p :: p in posts && p.id == id)
  {
    var rows := Filter(posts, IdIs(id));
    FilterSingle(posts, IdIs(id));
    if fails || |rows| != 1 then None else Some(rows[0])
  }

  // ---------------------------------------------------------------- getPosts

  /** The `switch (sort)`: "recent" and "top" have their own order; "trending",
      an absent sort and any other value take the default branch. */
  function SortMode(sort: Option<string>): (m: SortOption)
    ensures m == Recent <==> sort == Some("recent")
    ensures m == Top <==> sort == Some("top")
  {
    if sort == Some("recent") then Recent
    else if sort == Some("top") then Top
    else Trending
  }

  /** `Before(m)(a, b)`: `a` may be listed before `b` under sort mode `m`.
      Every key is descending; Trending is upvotes, then created_at. */
  function Before(m: SortOption): (Post, Post) -> bool {
    match m
    case Recent => (a: Post, b: Post) => a.createdAt >= b.createdAt
    case Top => (a: Post, b: Post) => a.upvotes >= b.upvotes
    case Trending =>
      (a: Post, b: Post) => a.upvotes > b.upvotes || (a.upvotes == b.upvotes && a.createdAt >= b.createdAt)
  }

  lemma BeforeIsTotalPreorder(m: SortOption)
    ensures TotalPreorder(Before(m))
  {
  }

  function IsPublished(): Post -> bool {
    (p: Post) => p.status == PUBLISHED
  }

  /** `title ILIKE %q% OR description ILIKE %q%`; a null column never matches. */
  predicate MatchesSearch(p: Post, q: string) {
    (p.title.Some? && ContainsIgnoringCase(p.title.value, q)) ||
    (p.description.Some? && ContainsIgnoringCase(p.description.value, q))
  }

  function MatchesQuery(q: string): Post -> bool {
    (p: Post) => MatchesSearch(p, q)
  }

  function SlugIs(slug: string): Category -> bool {
    (c: Category) => c.slug == slug
  }

  function InCategory(id: int): Post -> bool {
    (p: Post) => p.categoryId == id
  }

  /** Category slugs are unique in the categories table. */
  predicate SlugsDistinct(categories: seq<Category>) {
    forall i, j :: 0 <= i < j < |categories| ==> categories[i].slug != categories[j].slug
  }

  /** The lookup `categories.select("id").eq("slug", slug).single()`. */
  function CategoryIdBySlug(categories: seq<Category>, slug: string): (r: Option<int>)
    ensures r.Some? ==> exists c :: c in categories && c.slug == slug && c.id == r.value
    ensures SlugsDistinct(categories) ==> (r.Some? <==> exists c :: c in categories && c.slug == slug)
  {
    var rows := Filter(categories, SlugIs(slug));
    FilterSingle(categories, SlugIs(slug));
    if |rows| == 1 then assert rows[0] in rows; Some(rows[0].id) else None
  }

  /** The category id `getPosts` filters on, if any: only a non-empty slug
      that the lookup resolves; otherwise the category filter is dropped. */
  function EffectiveCategory(categories: seq<Category>, slug: Option<string>, lookupFails: bool): (r: Option<int>)
    ensures !Present(slug) || lookupFails ==> r.None?
    ensures Present(slug) && !lookupFails ==> r == CategoryIdBySlug(categories, slug.value)
  {
    if Present(slug) && !lookupFails then CategoryIdBySlug(categories, slug.value) else None
  }

  /** The full result of the query before the range is applied: published
      posts, narrowed by the search text and the category, then sorted. */
  function Listing(db: Snapshot, f: PostFilter, lookupFails: bool): seq<Post> {
    var published := Filter(db.posts, IsPublished());
    var searched := if Present(f.query) then Filter(published, MatchesQuery(f.query.value)) else published;
    var category := EffectiveCategory(db.categories, f.categorySlug, lookupFails);
    var narrowed := if category.Some? then Filter(searched, InCategory(category.value)) else searched;
    SortBy(narrowed, Before(SortMode(f.sort)))
  }

  /** `.range(offset, offset + limit - 1)`: both bounds inclusive, so the rows
      at positions offset .. offset + limit - 1 that exist. */
  function Window<T>(s: seq<T>, offset: nat, limit: nat): (r: seq<T>)
    ensures |r| <= limit
    ensures |r| == if offset >= |s| then 0 else if offset + limit <= |s| then limit else |s| - offset
    ensures forall i :: 0 <= i < |r| ==> r[i] == s[offset + i]
  {
    if offset >= |s| then [] else s[offset..if offset + limit <= |s| then offset + limit else |s|]
  }

  function Limit(f: PostFilter): nat {
    f.limit.GetOr(DEFAULT_LIMIT)
  }

  function Offset(f: PostFilter): nat {
    f.offset.GetOr(DEFAULT_OFFSET)
  }

  /** `getPosts`: one page of the listing, or no posts when the store reports
      an error for the main query. */
  function GetPosts(db: Snapshot, f: PostFilter, faults: StoreFaults): (r: seq<Post>)
    ensures |r| <= Limit(f)
    ensures forall p :: p in r ==> p in db.posts && p.status == PUBLISHED
    ensures faults.postsQueryFails ==> r == []
  {
    if faults.postsQueryFails then []
    else
      var r := Window(Listing(db, f, faults.categoryLookupFails), Offset(f), Limit(f));
      ListingMembers(db, f, faults.categoryLookupFails);
      assert forall p :: p in r ==> p in Listing(db, f, faults.categoryLookupFails);
      r
  }

  /** A post is in the listing exactly when it is a published post of the
      snapshot that passes the search filter (when a query is given) and the
      category filter (when the slug resolves). */
  lemma ListingMembers(db: Snapshot, f: PostFilter, lookupFails: bool)
    ensures forall p :: p in Listing(db, f, lookupFails) <==>
      && p in db.posts
      && p.status == PUBLISHED
      && (Present(f.query) ==> MatchesSearch(p, f.query.value))
      && (EffectiveCategory(db.categories, f.categorySlug, lookupFails).Some? ==>
            p.categoryId == EffectiveCategory(db.categories, f.categorySlug, lookupFails).value)
  {
    var published := Filter(db.posts, IsPublished());
    var searched := if Present(f.query) then Filter(published, MatchesQuery(f.query.value)) else published;
    var category := EffectiveCategory(db.categories, f.categorySlug, lookupFails);
    var narrowed := if category.Some? then Filter(searched, InCategory(category.value)) else searched;
    var sorted := SortBy(narrowed, Before(SortMode(f.sort)));
    assert sorted == Listing(db, f, lookupFails);
    assert forall p :: p in published <==> p in db.posts && p.status == PUBLISHED;
    assert forall p :: p in searched <==> p in published && (Present(f.query) ==> MatchesSearch(p, f.query.value));
    assert forall p :: p in narrowed <==> p in searched && (category.Some? ==> p.categoryId == category.value);
    forall p ensures p in sorted <==> p in narrowed {
      assert p in sorted <==> p in multiset(sorted);
      assert p in narrowed <==> p in multiset(narrowed);
    }
  }

  /** Each page is ordered as its sort value demands: Recent by created_at
      descending, Top by upvotes descending, and Trending (the default for any
      other value) by upvotes descending, then created_at descending. */
  lemma GetPostsOrder(db: Snapshot, f: PostFilter, faults: StoreFaults)
    ensures var r := GetPosts(db, f, faults);
      forall i, j :: 0 <= i < j < |r| ==>
        && (SortMode(f.sort) == Recent ==> r[i].createdAt >= r[j].createdAt)
        && (SortMode(f.sort) != Recent ==> r[i].upvotes >= r[j].upvotes)
        && (SortMode(f.sort) == Trending && r[i].upvotes == r[j].upvotes ==> r[i].createdAt >= r[j].createdAt)
  {
    var m := SortMode(f.sort);
    var l := Listing(db, f, faults.categoryLookupFails);
    BeforeIsTotalPreorder(m);
    ListingSorted(db, f, faults.categoryLookupFails);
    var r := GetPosts(db, f, faults);
    forall i, j | 0 <= i < j < |r| ensures Before(m)(r[i], r[j]) {
      assert r[i] == l[Offset(f) + i] && r[j] == l[Offset(f) + j];
    }
  }

  lemma ListingSorted(db: Snapshot, f: PostFilter, lookupFails: bool)
    ensures SortedBy(Listing(db, f, lookupFails), Before(SortMode(f.sort)))
  {
    var published := Filter(db.posts, IsPublished());
    var searched := if Present(f.query) then Filter(published, MatchesQuery(f.query.value)) else published;
    var category := EffectiveCategory(db.categories, f.categorySlug, lookupFails);
    var narrowed := if category.Some? then Filter(searched, InCategory(category.value)) else searched;
    BeforeIsTotalPreorder(SortMode(f.sort));
    SortBySorted(narrowed, Before(SortMode(f.sort)));
  }

  /** Without a store error a page is exactly the part of the listing that
      starts at the offset and holds at most `limit` posts. */
  lemma GetPostsIsWindow(db: Snapshot, f: PostFilter, faults: StoreFaults)
    requires !faults.postsQueryFails
    ensures var l, r := Listing(db, f, faults.categoryLookupFails), GetPosts(db, f, faults);
      && |r| == (if Offset(f) >= |l| then 0 else if Offset(f) + Limit(f) <= |l| then Limit(f) else |l| - Offset(f))
      && forall i :: 0 <= i < |r| ==> r[i] == l[Offset(f) + i]
  {
  }

  /** An empty query, or none, applies no search filter. */
  lemma EmptyQueryIgnored(db: Snapshot, f: PostFilter, lookupFails: bool)
    requires f.query == Some("")
    ensures Listing(db, f, lookupFails) == Listing(db, f.(query := None), lookupFails)
  {
  }

  /** A slug that names no category leaves the listing unfiltered by category,
      exactly as if no slug were given. */
  lemma UnknownSlugIgnored(db: Snapshot, f: PostFilter, lookupFails: bool)
    requires f.categorySlug.Some?
    requires forall c :: c in db.categories ==> c.slug != f.categorySlug.value
    ensures Listing(db, f, lookupFails) == Listing(db, f.(categorySlug := None), lookupFails)
  {
  }

  // ---------------------------------------------------------------- pagination

  /** The page at `offset` continues the prefix of that length, without
      overlap and without a gap. */
  lemma PageFollows<T>(s: seq<T>, offset: nat, limit: nat)
    requires offset <= |s|
    ensures s[..offset] + Window(s, offset, limit) == s[..offset + |Window(s, offset, limit)|]
  {
  }

  /** The first `n` pages of a fixed size, fetched at offsets 0, size, 2 * size, ... */
  function Pages<T>(s: seq<T>, size: nat, n: nat): seq<T> {
    if n == 0 then [] else Pages(s, size, n - 1) + Window(s, (n - 1) * size, size)
  }

  /** Concatenating the first `n` pages gives a prefix of the listing: no
      post appears twice and none is skipped. */
  lemma {:induction false} PagesArePrefix<T>(s: seq<T>, size: nat, n: nat)
    ensures Pages(s, size, n) == s[..if n * size <= |s| then n * size else |s|]
  {
    if n > 0 {
      PagesArePrefix(s, size, n - 1);
      var off := (n - 1) * size;
      assert n * size == off + size;
      if off <= |s| {
        PageFollows(s, off, size);
      }
    }
  }
}
