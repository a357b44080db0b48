/** util/dataLoader.py: the two stores, their soft-failing loads, the detail
    lookups with display names, and the children-by-parent lists. */
module DataLoader {
  import opened Wrappers
  import opened Records
  import opened Entries
  import opened Seqs

  /** The two JSON documents as the handlers see them after loading: the post
      list and the taxonomy. A handler changes the fields and thereby saves. */
  class Store {
    var posts: seq<Post>
    var taxonomy: Taxonomy

    constructor (posts: seq<Post>, taxonomy: Taxonomy)
      ensures this.posts == posts && this.taxonomy == taxonomy
    {
      this.posts := posts;
      this.taxonomy := taxonomy;
    }
  }

  /** What reading posts.json can give: a post list, or a failure of any kind
      (missing file, broken JSON). */
  datatype PostsFile = UnreadablePosts | PostsDocument(posts: seq<Post>)

  /** What reading categories.json can give: no file, a file that is not JSON,
      or a document in which each of the three keys may be absent. */
  datatype TaxonomyFile =
    | NoTaxonomyFile
    | BrokenTaxonomyFile
    | TaxonomyDocument(categories: Option<seq<Category>>, topics: Option<seq<Topic>>, groups: Option<seq<Group>>)

  predicate IsPublic(p: Post) {
    p.status == Public
  }

  /** `[p for p in posts if p.get("status") == STATUS_PUBLIC]` */
  function PublicOnly(posts: seq<Post>): seq<Post> {
    Filter(posts, IsPublic)
  }

  /** The public view holds every public post exactly as often as the list does,
      no other post, and keeps the list's order: the view of a concatenation is
      the concatenation of the views. */
  lemma PublicOnlyMeaning(posts: seq<Post>, more: seq<Post>, p: Post)
    ensures p in PublicOnly(posts) <==> p in posts && p.status == Public
    ensures multiset(PublicOnly(posts))[p] == if p.status == Public then multiset(posts)[p] else 0
    ensures PublicOnly(posts + more) == PublicOnly(posts) + PublicOnly(more)
  {
    FilterMembers(posts, IsPublic);
    FilterCount(posts, IsPublic, p);
    FilterConcat(posts, more, IsPublic);
  }

  /** `load_posts(public_only=...)`: any failure to read gives the empty list. */
  function LoadPosts(file: PostsFile, publicOnly: bool): (r: seq<Post>)
    ensures file.UnreadablePosts? ==> r == []
    ensures file.PostsDocument? && !publicOnly ==> r == file.posts
    ensures file.PostsDocument? && publicOnly ==> r == PublicOnly(file.posts)
  {
    match file
    case UnreadablePosts => []
    case PostsDocument(posts) => if publicOnly then PublicOnly(posts) else posts
  }

  function SavePosts(posts: seq<Post>): PostsFile {
    PostsDocument(posts)
  }

  /** Saving and then loading gives back the saved list, or its public part. */
  lemma SaveLoadPosts(posts: seq<Post>)
    ensures LoadPosts(SavePosts(posts), false) == posts
    ensures LoadPosts(SavePosts(posts), true) == PublicOnly(posts)
  {
  }

  /** `load_categories()`: a missing file is the empty taxonomy, a missing key an
      empty list; a file that cannot be parsed is an error the caller sees. */
  function LoadTaxonomy(file: TaxonomyFile): (r: Result<Taxonomy, Error>)
    ensures file.NoTaxonomyFile? ==> r == Success(EmptyTaxonomy)
    ensures file.BrokenTaxonomyFile? <==> r.Failure?
    ensures r.Failure? ==> r.error == Unreadable
    ensures file.TaxonomyDocument? && file.categories.None? ==> r.Success? && r.value.categories == []
    ensures file.TaxonomyDocument? && file.topics.None? ==> r.Success? && r.value.topics == []
    ensures file.TaxonomyDocument? && file.groups.None? ==> r.Success? && r.value.groups == []
    ensures file.TaxonomyDocument? && file.categories.Some? ==> r.Success? && r.value.categories == file.categories.value
    ensures file.TaxonomyDocument? && file.topics.Some? ==> r.Success? && r.value.topics == file.topics.value
    ensures file.TaxonomyDocument? && file.groups.Some? ==> r.Success? && r.value.groups == file.groups.value
  {
    match file
    case NoTaxonomyFile => Success(EmptyTaxonomy)
    case BrokenTaxonomyFile => Failure(Unreadable)
    case TaxonomyDocument(cs, ts, gs) => Success(Taxonomy(cs.GetOr([]), ts.GetOr([]), gs.GetOr([])))
  }

  function SaveTaxonomy(t: Taxonomy): TaxonomyFile {
    TaxonomyDocument(Some(t.categories), Some(t.topics), Some(t.groups))
  }

  lemma SaveLoadTaxonomy(t: Taxonomy)
    ensures LoadTaxonomy(SaveTaxonomy(t)) == Success(t)
  {
  }

  /** The position of the first post with the id. */
  function PostIndex(posts: seq<Post>, id: int): (r: Option<nat>)
    ensures r.Some? ==> r.value < |posts| && posts[r.value].id == id
    ensures r.Some? ==> forall j :: 0 <= j < r.value ==> posts[j].id != id
    ensures r.None? <==> forall j :: 0 <= j < |posts| ==> posts[j].id != id
  {
    if posts == [] then None
    else if posts[0].id == id then Some(0)
    else match PostIndex(posts[1..], id)
      case None => None
      case Some(k) => Some(k + 1)
  }

  /** The ids of the post list increase along the list, as appending `last id + 1`
      keeps them. */
  ghost predicate AscendingIds(posts: seq<Post>) {
    forall i, j :: 0 <= i < j < |posts| ==> posts[i].id < posts[j].id
  }

  /** Replacing a post by one with the same id keeps the ids ascending. */
  lemma ReplaceKeepsAscending(posts: seq<Post>, i: nat, q: Post)
    requires i < |posts| && q.id == posts[i].id && AscendingIds(posts)
    ensures AscendingIds(posts[i := q])
  {
  }

  /** `next((p for p in posts if p["id"] == post_id), None)`: the first post with the id. */
  function FindPost(posts: seq<Post>, id: int): (r: Option<Post>)
    ensures r.Some? ==> r.value.id == id
    ensures r.Some? ==> exists i :: 0 <= i < |posts| && posts[i] == r.value && (forall j :: 0 <= j < i ==> posts[j].id != id)
    ensures r.None? <==> forall j :: 0 <= j < |posts| ==> posts[j].id != id
  {
    match PostIndex(posts, id)
    case None => None
    case Some(i) => Some(posts[i])
  }

  /** The first post with `id` is found: the lookup agrees with the position of the
      first match in the list. */
  lemma FindPostFirst(posts: seq<Post>, id: int, i: int)
    requires 0 <= i < |posts| && posts[i].id == id
    requires forall j :: 0 <= j < i ==> posts[j].id != id
    ensures FindPost(posts, id) == Some(posts[i])
  {
    var r := FindPost(posts, id);
    var k :| 0 <= k < |posts| && posts[k] == r.value && (forall j :: 0 <= j < k ==> posts[j].id != id);
    assert !(k < i) && !(i < k);
  }

  /** `_decorate_post`, name part: the post itself stays as it is (the source works on
      a copy), and each name comes from the id-to-name map of its list with the
      defaults "未分類" (uncategorised) and "-". */
  function Decorate(post: Post, t: Taxonomy): (r: NamedPost)
    ensures r.post == post
    ensures post.categoryId.None? ==> r.categoryName == "未分類"
    ensures post.topicId.None? ==> r.topicName == "-"
    ensures post.groupId.None? ==> r.groupName == "-"
  {
    NamedPost(
      post,
      NameOr(NameMap(CategoryEntries(t.categories)), post.categoryId, "未分類"),
      NameOr(NameMap(TopicEntries(t.topics)), post.topicId, "-"),
      NameOr(NameMap(GroupEntries(t.groups)), post.groupId, "-"))
  }

  /** With unique category ids, the category name shown is the name of the category the
      post refers to; a reference that no category has shows the default. */
  lemma DecorateCategoryName(post: Post, t: Taxonomy)
    ensures UniqueIds(CategoryEntries(t.categories)) ==> forall i :: 0 <= i < |t.categories| && post.categoryId == Some(t.categories[i].id) ==>
      Decorate(post, t).categoryName == t.categories[i].name
    ensures (forall i :: 0 <= i < |t.categories| ==> post.categoryId != Some(t.categories[i].id)) ==>
      Decorate(post, t).categoryName == "未分類"
  {
    var es := CategoryEntries(t.categories);
    NameOrMeaning(es, post.categoryId, "未分類");
  }

  lemma DecorateTopicName(post: Post, t: Taxonomy)
    ensures UniqueIds(TopicEntries(t.topics)) ==> forall i :: 0 <= i < |t.topics| && post.topicId == Some(t.topics[i].id) ==>
      Decorate(post, t).topicName == t.topics[i].name
    ensures (forall i :: 0 <= i < |t.topics| ==> post.topicId != Some(t.topics[i].id)) ==>
      Decorate(post, t).topicName == "-"
  {
    NameOrMeaning(TopicEntries(t.topics), post.topicId, "-");
  }

  lemma DecorateGroupName(post: Post, t: Taxonomy)
    ensures UniqueIds(GroupEntries(t.groups)) ==> forall i :: 0 <= i < |t.groups| && post.groupId == Some(t.groups[i].id) ==>
      Decorate(post, t).groupName == t.groups[i].name
    ensures (forall i :: 0 <= i < |t.groups| ==> post.groupId != Some(t.groups[i].id)) ==>
      Decorate(post, t).groupName == "-"
  {
    NameOrMeaning(GroupEntries(t.groups), post.groupId, "-");
  }

  /** `get_post_detail_public`: the first post with the id, decorated, when it is
      public; not found (HTTP 404) when there is none or it is not public. */
  function PostDetailPublic(posts: seq<Post>, t: Taxonomy, id: int): (r: Result<NamedPost, Error>)
    ensures r.Failure? ==> r.error == NotFound
    ensures r.Failure? <==> FindPost(posts, id).None? || FindPost(posts, id).value.status != Public
    ensures r.Success? ==> r.value == Decorate(FindPost(posts, id).value, t) && r.value.post.status == Public
  {
    match FindPost(posts, id)
    case None => Failure(NotFound)
    case Some(p) => if p.status != Public then Failure(NotFound) else Success(Decorate(p, t))
  }

  /** `get_post_detail_admin`: the first post with the id, decorated, whatever its
      status; None only when no post has the id. */
  function PostDetailAdmin(posts: seq<Post>, t: Taxonomy, id: int): (r: Option<NamedPost>)
    ensures r.None? <==> forall j :: 0 <= j < |posts| ==> posts[j].id != id
    ensures r.Some? ==> r.value.post in posts && r.value.post.id == id
    ensures r.Some? ==> r.value == Decorate(FindPost(posts, id).value, t)
  {
    match FindPost(posts, id)
    case None => None
    case Some(p) => Some(Decorate(p, t))
  }

  /** The public lookup is the admin lookup restricted to public posts. */
  lemma PublicDetailIsAdminDetail(posts: seq<Post>, t: Taxonomy, id: int)
    ensures PostDetailPublic(posts, t, id).Success? <==>
      PostDetailAdmin(posts, t, id).Some? && PostDetailAdmin(posts, t, id).value.post.status == Public
    ensures PostDetailPublic(posts, t, id).Success? ==>
      PostDetailPublic(posts, t, id).value == PostDetailAdmin(posts, t, id).value
  {
  }

  function ChildOfCategory(categoryId: int): Topic -> bool {
    (t: Topic) => t.categoryId == Some(categoryId)
  }

  function ChildOfTopic(topicId: int): Group -> bool {
    (g: Group) => g.topicId == Some(topicId)
  }

  /** `load_topics_by_category`: `[t for t in topics if t["category_id"] == category_id]` */
  function TopicsByCategory(t: Taxonomy, categoryId: int): seq<Topic> {
    Filter(t.topics, ChildOfCategory(categoryId))
  }

  /** `load_groups_by_topic`: `[g for g in groups if g["topic_id"] == topic_id]` */
  function GroupsByTopic(t: Taxonomy, topicId: int): seq<Group> {
    Filter(t.groups, ChildOfTopic(topicId))
  }

  /** Exactly the topics of the category, each as often as the list has it, in the
      list's order. */
  lemma TopicsByCategoryMeaning(t: Taxonomy, categoryId: int, x: Topic, more: seq<Topic>)
    ensures x in TopicsByCategory(t, categoryId) <==> x in t.topics && x.categoryId == Some(categoryId)
    ensures multiset(TopicsByCategory(t, categoryId))[x] ==
      if x.categoryId == Some(categoryId) then multiset(t.topics)[x] else 0
    ensures TopicsByCategory(Taxonomy(t.categories, t.topics + more, t.groups), categoryId) ==
      TopicsByCategory(t, categoryId) + Filter(more, ChildOfCategory(categoryId))
  {
    FilterMembers(t.topics, ChildOfCategory(categoryId));
    FilterCount(t.topics, ChildOfCategory(categoryId), x);
    FilterConcat(t.topics, more, ChildOfCategory(categoryId));
  }

  lemma GroupsByTopicMeaning(t: Taxonomy, topicId: int, x: Group, more: seq<Group>)
    ensures x in GroupsByTopic(t, topicId) <==> x in t.groups && x.topicId == Some(topicId)
    ensures multiset(GroupsByTopic(t, topicId))[x] ==
      if x.topicId == Some(topicId) then multiset(t.groups)[x] else 0
    ensures GroupsByTopic(Taxonomy(t.categories, t.topics, t.groups + more), topicId) ==
      GroupsByTopic(t, topicId) + Filter(more, ChildOfTopic(topicId))
  {
    FilterMembers(t.groups, ChildOfTopic(topicId));
    FilterCount(t.groups, ChildOfTopic(topicId), x);
    FilterConcat(t.groups, more, ChildOfTopic(topicId));
  }
}
