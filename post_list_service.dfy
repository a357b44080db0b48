/** services/post_list_service.py: `build_post_list`, the listing pipeline shared by
    the public and the administrator list pages. It narrows the post list step by
    step (public view, keyword search, id filters), sorts it by creation time,
    cuts out one page and attaches display names to the posts of that page. */
module PostListService {
  import opened Wrappers
  import opened Records
  import opened Text
  import opened Entries
  import opened Seqs
  import opened Sorting
  import opened DataLoader

  /** What `build_post_list` returns. */
  datatype PostListing = PostListing(
    posts: seq<NamedPost>,
    totalPages: int,
    searched: bool,
    searchQuery: Option<string>,
    total: int,
    filtered: bool)

  /** The search query in effect: the trimmed `q`, unless `q` is absent or only whitespace. */
  function SearchQuery(q: Option<string>): (r: Option<string>)
    ensures r.None? <==> q.None? || forall i :: 0 <= i < |q.value| ==> IsSpace(q.value[i])
    ensures r.Some? ==> r.value == Strip(q.value)
  {
    if q.None? then None
    else
      StripEmpty(q.value);
      if Strip(q.value) == "" then None else Some(Strip(q.value))
  }

  /** `ql in p["title"].lower() or ql in p["content"].lower()` */
  predicate MatchesQuery(ql: string, p: Post) {
    Contains(Lower(p.title), ql) || Contains(Lower(p.content), ql)
  }

  function QueryKeep(ql: string): Post -> bool {
    (p: Post) => MatchesQuery(ql, p)
  }

  /** The condition of the search step for a query, or none when there is no query. */
  function SearchKeep(q: Option<string>): Post -> bool {
    (p: Post) => SearchQuery(q).None? || MatchesQuery(Lower(SearchQuery(q).value), p)
  }

  function PublicKeep(public: bool): Post -> bool {
    (p: Post) => !public || IsPublic(p)
  }

  function CategoryKeep(categoryId: Option<int>): Post -> bool {
    (p: Post) => categoryId.None? || p.categoryId == categoryId
  }

  function TopicKeep(topicId: Option<int>): Post -> bool {
    (p: Post) => topicId.None? || p.topicId == topicId
  }

  function GroupKeep(groupId: Option<int>): Post -> bool {
    (p: Post) => groupId.None? || p.groupId == groupId
  }

  /** Step 1: all posts, or only the public ones. */
  function PublicStage(posts: seq<Post>, public: bool): seq<Post> {
    if public then PublicOnly(posts) else posts
  }

  /** Step 3: the keyword search. */
  function SearchStage(posts: seq<Post>, q: Option<string>): seq<Post> {
    match SearchQuery(q)
    case None => posts
    case Some(query) => Filter(posts, QueryKeep(Lower(query)))
  }

  /** Step 4: the category, topic and group filters, one after the other. */
  function IdStage(posts: seq<Post>, categoryId: Option<int>, topicId: Option<int>, groupId: Option<int>): seq<Post> {
    var byCategory := if categoryId.None? then posts else Filter(posts, CategoryKeep(categoryId));
    var byTopic := if topicId.None? then byCategory else Filter(byCategory, TopicKeep(topicId));
    if groupId.None? then byTopic else Filter(byTopic, GroupKeep(groupId))
  }

  /** The posts the listing is made of, before sorting. */
  function Selected(posts: seq<Post>, public: bool, q: Option<string>,
                    categoryId: Option<int>, topicId: Option<int>, groupId: Option<int>): seq<Post> {
    IdStage(SearchStage(PublicStage(posts, public), q), categoryId, topicId, groupId)
  }

  /** Whether a post survives all the narrowing steps. */
  predicate Wanted(public: bool, q: Option<string>, categoryId: Option<int>, topicId: Option<int>,
                   groupId: Option<int>, p: Post) {
    PublicKeep(public)(p) && SearchKeep(q)(p) &&
    CategoryKeep(categoryId)(p) && TopicKeep(topicId)(p) && GroupKeep(groupId)(p)
  }

  function WantedKeep(public: bool, q: Option<string>, categoryId: Option<int>, topicId: Option<int>,
                      groupId: Option<int>): Post -> bool {
    (p: Post) => Wanted(public, q, categoryId, topicId, groupId, p)
  }

  /** All three id filters at once. */
  function IdsKeep(categoryId: Option<int>, topicId: Option<int>, groupId: Option<int>): Post -> bool {
    (p: Post) => CategoryKeep(categoryId)(p) && TopicKeep(topicId)(p) && GroupKeep(groupId)(p)
  }

  /** A condition that is left out keeps everything; one that is given is a filter. */
  lemma OptionalFilter(s: seq<Post>, given: bool, keep: Post -> bool)
    requires !given ==> forall x :: keep(x)
    ensures (if given then Filter(s, keep) else s) == Filter(s, keep)
  {
    if !given {
      FilterKeepsAll(s, keep);
    }
  }

  lemma PublicStageIsFilter(posts: seq<Post>, public: bool)
    ensures PublicStage(posts, public) == Filter(posts, PublicKeep(public))
  {
    if public {
      FilterSameKeep(posts, IsPublic, PublicKeep(public));
    } else {
      FilterKeepsAll(posts, PublicKeep(public));
    }
  }

  lemma SearchStageIsFilter(posts: seq<Post>, q: Option<string>)
    ensures SearchStage(posts, q) == Filter(posts, SearchKeep(q))
  {
    match SearchQuery(q)
    case None =>
      FilterKeepsAll(posts, SearchKeep(q));
    case Some(query) =>
      FilterSameKeep(posts, QueryKeep(Lower(query)), SearchKeep(q));
  }

  /** The three id filters combine with AND: applying them in turn is filtering once
      by their conjunction. */
  lemma IdStageIsFilter(posts: seq<Post>, categoryId: Option<int>, topicId: Option<int>, groupId: Option<int>)
    ensures IdStage(posts, categoryId, topicId, groupId) == Filter(posts, IdsKeep(categoryId, topicId, groupId))
  {
    var c, t, g := CategoryKeep(categoryId), TopicKeep(topicId), GroupKeep(groupId);
    var ct := (p: Post) => c(p) && t(p);
    var ctg := IdsKeep(categoryId, topicId, groupId);
    OptionalFilter(posts, categoryId.Some?, c);
    var byCategory := Filter(posts, c);
    OptionalFilter(byCategory, topicId.Some?, t);
    FilterTwice(posts, c, t, ct);
    var byTopic := Filter(posts, ct);
    OptionalFilter(byTopic, groupId.Some?, g);
    FilterTwice(posts, ct, g, ctg);
  }

  /** The narrowing steps together keep exactly the wanted posts, in their input order. */
  lemma SelectedIsFilter(posts: seq<Post>, public: bool, q: Option<string>,
                         categoryId: Option<int>, topicId: Option<int>, groupId: Option<int>)
    ensures Selected(posts, public, q, categoryId, topicId, groupId) ==
      Filter(posts, WantedKeep(public, q, categoryId, topicId, groupId))
  {
    var pk, sk := PublicKeep(public), SearchKeep(q);
    var ids := IdsKeep(categoryId, topicId, groupId);
    var ps := (p: Post) => pk(p) && sk(p);
    PublicStageIsFilter(posts, public);
    SearchStageIsFilter(Filter(posts, pk), q);
    FilterTwice(posts, pk, sk, ps);
    IdStageIsFilter(Filter(posts, ps), categoryId, topicId, groupId);
    FilterTwice(posts, ps, ids, WantedKeep(public, q, categoryId, topicId, groupId));
  }

  /** A post is listed (before paging) iff it is in the store, is public when only
      public posts are shown, matches the search query when there is one, and has
      every id that is asked for; it is listed as often as the store holds it. */
  lemma SelectedMeaning(posts: seq<Post>, public: bool, q: Option<string>,
                        categoryId: Option<int>, topicId: Option<int>, groupId: Option<int>, x: Post)
    ensures x in Selected(posts, public, q, categoryId, topicId, groupId) <==>
      x in posts && (public ==> x.status == Public) &&
      (SearchQuery(q).Some? ==> MatchesQuery(Lower(SearchQuery(q).value), x)) &&
      (categoryId.Some? ==> x.categoryId == categoryId) &&
      (topicId.Some? ==> x.topicId == topicId) &&
      (groupId.Some? ==> x.groupId == groupId)
    ensures multiset(Selected(posts, public, q, categoryId, topicId, groupId))[x] ==
      if Wanted(public, q, categoryId, topicId, groupId, x) then multiset(posts)[x] else 0
  {
    SelectedIsFilter(posts, public, q, categoryId, topicId, groupId);
    FilterMembers(posts, WantedKeep(public, q, categoryId, topicId, groupId));
    FilterCount(posts, WantedKeep(public, q, categoryId, topicId, groupId), x);
  }

  /** `ceil(total / limit) if total > 0 else 1`, in integers. */
  function TotalPages(total: nat, limit: int): (pages: int)
    requires limit >= 1
    ensures pages >= 1
    ensures total == 0 ==> pages == 1
    ensures total > 0 ==> (pages - 1) * limit < total <= pages * limit
  {
    if total > 0 then
      var n := total + limit - 1;
      var pages := n / limit;
      assert n == pages * limit + n % limit;
      assert (pages - 1) * limit == pages * limit - limit;
      pages
    else 1
  }

  /** `posts[start:start + limit]` with `start = (page - 1) * limit`. */
  function PageOf(s: seq<Post>, page: int, limit: int): seq<Post>
    requires page >= 1 && limit >= 1
  {
    Slice(s, (page - 1) * limit, (page - 1) * limit + limit)
  }

  /** The page is the contiguous run of at most `limit` posts that starts at
      `(page - 1) * limit`; it is empty when that start is at or beyond the end, and
      full when the list reaches the end of the page. */
  lemma PageOfMeaning(s: seq<Post>, page: int, limit: int)
    requires page >= 1 && limit >= 1
    ensures |PageOf(s, page, limit)| <= limit
    ensures (page - 1) * limit >= |s| ==> PageOf(s, page, limit) == []
    ensures (page - 1) * limit + limit <= |s| ==> |PageOf(s, page, limit)| == limit
    ensures forall k :: 0 <= k < |PageOf(s, page, limit)| ==>
      (page - 1) * limit + k < |s| && PageOf(s, page, limit)[k] == s[(page - 1) * limit + k]
  {
    assert (page - 1) * limit >= 0;
  }

  /** Every post with `created_at` lands on exactly one page: the list is covered by
      pages 1 to `TotalPages`. */
  lemma PagesCover(s: seq<Post>, limit: int, i: int)
    requires limit >= 1 && 0 <= i < |s|
    ensures var page := i / limit + 1;
      1 <= page <= TotalPages(|s|, limit) && (page - 1) * limit <= i < (page - 1) * limit + limit
  {
    var page := i / limit + 1;
    var tp := TotalPages(|s|, limit);
    assert i == (i / limit) * limit + i % limit;
    if tp < page {
      MulMonotone(tp, page - 1, limit);
    }
  }

  lemma MulMonotone(a: int, b: int, c: int)
    requires a <= b && c >= 0
    ensures a * c <= b * c
  {
  }

  /** The names attached to a listed post: looked up by id, `""` when absent. */
  function ListName(m: map<int, string>, ref: Ref): string {
    NameOr(m, ref, "")
  }

  function Label(p: Post, t: Taxonomy): NamedPost {
    NamedPost(p,
      ListName(NameMap(CategoryEntries(t.categories)), p.categoryId),
      ListName(NameMap(TopicEntries(t.topics)), p.topicId),
      ListName(NameMap(GroupEntries(t.groups)), p.groupId))
  }

  /** With unique ids in every list, a listed post shows the name of the category,
      topic and group it refers to, and `""` for a reference no entity has. */
  lemma LabelMeaning(p: Post, t: Taxonomy)
    ensures Label(p, t).post == p
    ensures UniqueIds(CategoryEntries(t.categories)) ==> forall i :: 0 <= i < |t.categories| && p.categoryId == Some(t.categories[i].id) ==>
      Label(p, t).categoryName == t.categories[i].name
    ensures UniqueIds(TopicEntries(t.topics)) ==> forall i :: 0 <= i < |t.topics| && p.topicId == Some(t.topics[i].id) ==>
      Label(p, t).topicName == t.topics[i].name
    ensures UniqueIds(GroupEntries(t.groups)) ==> forall i :: 0 <= i < |t.groups| && p.groupId == Some(t.groups[i].id) ==>
      Label(p, t).groupName == t.groups[i].name
    ensures (forall i :: 0 <= i < |t.categories| ==> p.categoryId != Some(t.categories[i].id)) ==> Label(p, t).categoryName == ""
    ensures (forall i :: 0 <= i < |t.topics| ==> p.topicId != Some(t.topics[i].id)) ==> Label(p, t).topicName == ""
    ensures (forall i :: 0 <= i < |t.groups| ==> p.groupId != Some(t.groups[i].id)) ==> Label(p, t).groupName == ""
  {
    NameOrMeaning(CategoryEntries(t.categories), p.categoryId, "");
    NameOrMeaning(TopicEntries(t.topics), p.topicId, "");
    NameOrMeaning(GroupEntries(t.groups), p.groupId, "");
  }

  /** The page's posts, each with its names. */
  function Labelled(ps: seq<Post>, t: Taxonomy): (r: seq<NamedPost>)
    ensures |r| == |ps| && forall k :: 0 <= k < |ps| ==> r[k] == Label(ps[k], t)
  {
    seq(|ps|, k requires 0 <= k < |ps| => Label(ps[k], t))
  }

  /** The selected posts in the order the listing shows them. */
  function SortedSelection(posts: seq<Post>, sort: string, q: Option<string>, categoryId: Option<int>,
                           topicId: Option<int>, groupId: Option<int>, public: bool): seq<Post> {
    StableSort(Selected(posts, public, q, categoryId, topicId, groupId), sort == "created_asc")
  }

  /** The whole listing as the pipeline defines it. */
  function Listing(posts: seq<Post>, t: Taxonomy, page: int, limit: int, sort: string, q: Option<string>,
                   categoryId: Option<int>, topicId: Option<int>, groupId: Option<int>, public: bool): PostListing
    requires page >= 1 && limit >= 1
  {
    var total := |Selected(posts, public, q, categoryId, topicId, groupId)|;
    PostListing(
      Labelled(PageOf(SortedSelection(posts, sort, q, categoryId, topicId, groupId, public), page, limit), t),
      TotalPages(total, limit),
      SearchQuery(q).Some?,
      SearchQuery(q),
      total,
      categoryId.Some? || topicId.Some? || groupId.Some?)
  }

  /** The sorted selection is a permutation of the selection, sorted ascending iff
      `sort == "created_asc"` and descending otherwise, and holds only wanted posts. */
  lemma SortedSelectionMeaning(posts: seq<Post>, sort: string, q: Option<string>, categoryId: Option<int>,
                               topicId: Option<int>, groupId: Option<int>, public: bool)
    ensures multiset(SortedSelection(posts, sort, q, categoryId, topicId, groupId, public)) ==
      multiset(Selected(posts, public, q, categoryId, topicId, groupId))
    ensures Sorted(SortedSelection(posts, sort, q, categoryId, topicId, groupId, public), sort == "created_asc")
    ensures forall x :: x in SortedSelection(posts, sort, q, categoryId, topicId, groupId, public) ==>
      x in posts && Wanted(public, q, categoryId, topicId, groupId, x)
  {
    var selected := Selected(posts, public, q, categoryId, topicId, groupId);
    var sorted := StableSort(selected, sort == "created_asc");
    StableSortCorrect(selected, sort == "created_asc");
    StablySortedIsPermutation(sorted, selected, sort == "created_asc");
    SelectedIsFilter(posts, public, q, categoryId, topicId, groupId);
    FilterMembers(posts, WantedKeep(public, q, categoryId, topicId, groupId));
    forall x | x in sorted ensures x in posts && Wanted(public, q, categoryId, topicId, groupId, x) {
      assert x in multiset(selected);
    }
  }

  /** A labelled page of a sorted list is in sorted order and shows only posts of the list. */
  lemma LabelledPageMeaning(sorted: seq<Post>, t: Taxonomy, page: int, limit: int, ascending: bool)
    requires page >= 1 && limit >= 1 && Sorted(sorted, ascending)
    ensures forall i, j :: 0 <= i < j < |Labelled(PageOf(sorted, page, limit), t)| ==>
      Ordered(Labelled(PageOf(sorted, page, limit), t)[i].post, Labelled(PageOf(sorted, page, limit), t)[j].post, ascending)
    ensures forall k :: 0 <= k < |Labelled(PageOf(sorted, page, limit), t)| ==>
      Labelled(PageOf(sorted, page, limit), t)[k].post in sorted
  {
    PageOfMeaning(sorted, page, limit);
    var pg := PageOf(sorted, page, limit);
    var start := (page - 1) * limit;
    forall i, j | 0 <= i < j < |pg| ensures Ordered(pg[i], pg[j], ascending) {
      assert pg[i] == sorted[start + i] && pg[j] == sorted[start + j];
    }
    forall k | 0 <= k < |pg| ensures pg[k] in sorted {
      assert pg[k] == sorted[start + k];
    }
  }

  /** The listing shows at most `limit` posts, none when the page starts at or beyond
      the end; its total counts the selected posts and its page count is computed from
      that total (see `TotalPages` for its bounds). */
  lemma ListingBounds(posts: seq<Post>, t: Taxonomy, page: int, limit: int, sort: string, q: Option<string>,
                      categoryId: Option<int>, topicId: Option<int>, groupId: Option<int>, public: bool)
    requires page >= 1 && limit >= 1
    ensures var l := Listing(posts, t, page, limit, sort, q, categoryId, topicId, groupId, public);
      |l.posts| <= limit && l.total == |Selected(posts, public, q, categoryId, topicId, groupId)| &&
      l.totalPages == TotalPages(l.total, limit) &&
      ((page - 1) * limit >= l.total ==> l.posts == [])
  {
    var sorted := SortedSelection(posts, sort, q, categoryId, topicId, groupId, public);
    PageOfMeaning(sorted, page, limit);
  }

  /** The listed posts are in order: ascending by `created_at` iff `sort == "created_asc"`. */
  lemma ListingSorted(posts: seq<Post>, t: Taxonomy, page: int, limit: int, sort: string, q: Option<string>,
                      categoryId: Option<int>, topicId: Option<int>, groupId: Option<int>, public: bool)
    requires page >= 1 && limit >= 1
    ensures var l := Listing(posts, t, page, limit, sort, q, categoryId, topicId, groupId, public);
      forall i, j :: 0 <= i < j < |l.posts| ==> Ordered(l.posts[i].post, l.posts[j].post, sort == "created_asc")
  {
    var sorted := SortedSelection(posts, sort, q, categoryId, topicId, groupId, public);
    SortedSelectionMeaning(posts, sort, q, categoryId, topicId, groupId, public);
    LabelledPageMeaning(sorted, t, page, limit, sort == "created_asc");
  }

  /** Every listed post is a post of the store that survives all the narrowing steps. */
  lemma ListingWanted(posts: seq<Post>, t: Taxonomy, page: int, limit: int, sort: string, q: Option<string>,
                      categoryId: Option<int>, topicId: Option<int>, groupId: Option<int>, public: bool)
    requires page >= 1 && limit >= 1
    ensures var l := Listing(posts, t, page, limit, sort, q, categoryId, topicId, groupId, public);
      forall k :: 0 <= k < |l.posts| ==> l.posts[k].post in posts && Wanted(public, q, categoryId, topicId, groupId, l.posts[k].post)
  {
    var sorted := SortedSelection(posts, sort, q, categoryId, topicId, groupId, public);
    SortedSelectionMeaning(posts, sort, q, categoryId, topicId, groupId, public);
    LabelledPageMeaning(sorted, t, page, limit, sort == "created_asc");
  }

  /** `posts.sort(key=lambda x: x["created_at"], reverse=not ascending)` on the list
      built so far. */
  method SortPosts(posts: seq<Post>, ascending: bool) returns (sorted: seq<Post>)
    ensures sorted == StableSort(posts, ascending)
  {
    var a := new Post[|posts|](k requires 0 <= k < |posts| => posts[k]);
    assert a[..] == posts;
    SortByCreatedAt(a, ascending);
    sorted := a[..];
    StablySortedIsStableSort(sorted, posts, ascending);
  }

  /** The loop that writes `category_name`, `topic_name` and `group_name` into each
      post of the page, from the three id-to-name maps. */
  method AddNames(pagePosts: seq<Post>, categoryMap: map<int, string>, topicMap: map<int, string>,
                  groupMap: map<int, string>) returns (named: seq<NamedPost>)
    ensures |named| == |pagePosts|
    ensures forall i :: 0 <= i < |pagePosts| ==> named[i] == NamedPost(pagePosts[i],
      ListName(categoryMap, pagePosts[i].categoryId), ListName(topicMap, pagePosts[i].topicId),
      ListName(groupMap, pagePosts[i].groupId))
  {
    named := [];
    for k := 0 to |pagePosts|
      invariant |named| == k
      invariant forall i :: 0 <= i < k ==> named[i] == NamedPost(pagePosts[i],
        ListName(categoryMap, pagePosts[i].categoryId), ListName(topicMap, pagePosts[i].topicId),
        ListName(groupMap, pagePosts[i].groupId))
    {
      var p := pagePosts[k];
      named := named + [NamedPost(p, ListName(categoryMap, p.categoryId),
                                  ListName(topicMap, p.topicId), ListName(groupMap, p.groupId))];
    }
  }

  /** The keyword search step of `build_post_list`, with its two flags. */
  method Search(posts: seq<Post>, q: Option<string>) returns (found: seq<Post>, searched: bool, searchQuery: Option<string>)
    ensures found == SearchStage(posts, q)
    ensures searchQuery == SearchQuery(q) && searched == searchQuery.Some?
  {
    found, searched, searchQuery := posts, false, None;
    if q.Some? {
      var query := Strip(q.value);
      if query != "" {
        searched := true;
        searchQuery := Some(query);
        var ql := Lower(query);
        found := Filter(found, QueryKeep(ql));
      }
    }
  }

  /** The id filter step of `build_post_list`: the three filters, with the flag that any was given. */
  method FilterByIds(posts: seq<Post>, categoryId: Option<int>, topicId: Option<int>, groupId: Option<int>)
    returns (selected: seq<Post>, filtered: bool)
    ensures selected == IdStage(posts, categoryId, topicId, groupId)
    ensures filtered <==> categoryId.Some? || topicId.Some? || groupId.Some?
  {
    selected, filtered := posts, false;
    if categoryId.Some? {
      filtered := true;
      selected := Filter(selected, CategoryKeep(categoryId));
    }
    if topicId.Some? {
      filtered := true;
      selected := Filter(selected, TopicKeep(topicId));
    }
    if groupId.Some? {
      filtered := true;
      selected := Filter(selected, GroupKeep(groupId));
    }
  }

  /** The pagination step of `build_post_list`: the count, the page count and the page. */
  method Paginate(posts: seq<Post>, page: int, limit: int) returns (total: int, totalPages: int, pagePosts: seq<Post>)
    requires page >= 1 && limit >= 1
    ensures total == |posts| && totalPages == TotalPages(|posts|, limit)
    ensures pagePosts == PageOf(posts, page, limit)
  {
    total := |posts|;
    totalPages := TotalPages(total, limit);
    MulMonotone(0, page - 1, limit);
    var start := (page - 1) * limit;
    var end := start + limit;
    pagePosts := Slice(posts, start, end);
  }

  /** `build_post_list`; the store's post list stands for what `load_posts` returns
      and its taxonomy for `load_categories()`. */
  method BuildPostList(store: Store, page: int, limit: int, sort: string, q: Option<string>,
                       categoryId: Option<int>, topicId: Option<int>, groupId: Option<int>, public: bool)
    returns (listing: PostListing)
    requires page >= 1 && limit >= 1
    ensures listing == Listing(store.posts, store.taxonomy, page, limit, sort, q, categoryId, topicId, groupId, public)
  {
    var posts := if public then PublicOnly(store.posts) else store.posts;
    var cats := store.taxonomy;
    var categoryMap := NameMap(CategoryEntries(cats.categories));
    var topicMap := NameMap(TopicEntries(cats.topics));
    var groupMap := NameMap(GroupEntries(cats.groups));

    var searched, searchQuery, filtered;
    posts, searched, searchQuery := Search(posts, q);
    posts, filtered := FilterByIds(posts, categoryId, topicId, groupId);
    ghost var selected := posts;

    if sort == "created_asc" {
      posts := SortPosts(posts, true);
    } else {
      posts := SortPosts(posts, false);
    }
    ghost var sorted := posts;

    var total, totalPages, pagePosts := Paginate(posts, page, limit);

    var named := AddNames(pagePosts, categoryMap, topicMap, groupMap);
    assert named == Labelled(pagePosts, cats);
    listing := PostListing(named, totalPages, searched, searchQuery, total, filtered);
  }

  /** A query padded with blanks is searched for without them. */
  lemma PaddedQuery()
    ensures SearchQuery(Some("  Rust ")) == Some("Rust")
  {
    assert "  Rust "[1..] == " Rust " && " Rust "[1..] == "Rust ";
    assert !IsSpace('R');
    assert StripStart("Rust ") == "Rust ";
    assert StripStart(" Rust ") == "Rust ";
    assert StripStart("  Rust ") == "Rust ";
    assert "Rust "[..4] == "Rust";
    assert StripEnd("Rust ") == "Rust";
  }

  /** Lower-casing folds both spellings of the query word to one. */
  lemma LowerRust()
    ensures Lower("Rust") == "rust" && Lower("RUST") == "rust"
  {
    var l, m := Lower("Rust"), Lower("RUST");
    assert l[0] == 'r' && l[1] == 'u' && l[2] == 's' && l[3] == 't';
    assert m[0] == 'r' && m[1] == 'u' && m[2] == 's' && m[3] == 't';
  }

  /** The search ignores case: the query "  Rust " finds a public post titled
      "RUST". */
  lemma SearchIgnoresCase(p: Post)
    requires p.title == "RUST" && p.status == Public
    ensures Wanted(true, Some("  Rust "), None, None, None, p)
  {
    PaddedQuery();
    LowerRust();
    assert Contains("rust", "rust") by {
      assert "rust" <= "rust"[0..];
    }
    assert MatchesQuery(Lower("Rust"), p);
  }
}
