/** services/post_service.py: switching a post between public and private, and
    the related posts shown beside a public post. */
module PostService {
  import opened Wrappers
  import opened Records
  import opened Seqs
  import opened Sorting
  import opened DataLoader

  // ---------------------------------------------------------------- toggle_status

  /** The status a requested state names; only "public" and "private" are accepted. */
  function TargetStatus(status: string): (r: Option<Status>)
    ensures r == Some(Public) <==> status == "public"
    ensures r == Some(Private) <==> status == "private"
    ensures r.None? <==> status != "public" && status != "private"
  {
    if status == "public" then Some(Public)
    else if status == "private" then Some(Private)
    else None
  }

  /** The reported success and the post list after a toggle. */
  datatype Toggled = Toggled(ok: bool, posts: seq<Post>)

  /** `toggle_status`: the first post with the id is set to the requested state,
      unless the request is not "public"/"private", no post has the id, or the post
      is a draft. A post already in that state counts as success without a write. */
  function Toggle(posts: seq<Post>, postId: int, status: string): (r: Toggled)
    ensures TargetStatus(status).None? ==> r == Toggled(false, posts)
    ensures PostIndex(posts, postId).None? ==> r == Toggled(false, posts)
  {
    match TargetStatus(status)
    case None => Toggled(false, posts)
    case Some(target) =>
      match PostIndex(posts, postId)
      case None => Toggled(false, posts)
      case Some(i) =>
        if posts[i].status == Draft then Toggled(false, posts)
        else if posts[i].status == target then Toggled(true, posts)
        else Toggled(true, posts[i := posts[i].(status := target)])
  }

  /** A toggle succeeds exactly when the request is valid and the first post with the
      id exists and is not a draft; then that post, and only it, has the requested
      state; otherwise nothing changes. */
  lemma ToggleMeaning(posts: seq<Post>, postId: int, status: string)
    ensures var r := Toggle(posts, postId, status);
      r.ok <==> (TargetStatus(status).Some? && PostIndex(posts, postId).Some? &&
        posts[PostIndex(posts, postId).value].status != Draft)
    ensures var r := Toggle(posts, postId, status);
      r.ok ==> var i := PostIndex(posts, postId).value;
        r.posts == posts[i := posts[i].(status := TargetStatus(status).value)]
    ensures !Toggle(posts, postId, status).ok ==> Toggle(posts, postId, status).posts == posts
  {
    var r := Toggle(posts, postId, status);
    if r.ok {
      var i := PostIndex(posts, postId).value;
      if posts[i].status == TargetStatus(status).value {
        assert posts[i].(status := TargetStatus(status).value) == posts[i];
      }
    }
  }

  /** Changing a post in place without changing its id keeps the position of the first
      post with any id. */
  lemma ReplaceKeepsIndex(posts: seq<Post>, i: nat, q: Post, id: int)
    requires i < |posts| && q.id == posts[i].id
    ensures PostIndex(posts[i := q], id) == PostIndex(posts, id)
  {
    var t := posts[i := q];
    assert forall k :: 0 <= k < |posts| ==> t[k].id == posts[k].id;
    var a, b := PostIndex(posts, id), PostIndex(t, id);
    if a.Some? && b.Some? {
      assert !(a.value < b.value) && !(b.value < a.value);
    }
  }

  /** Toggling twice with the same request reports the same as toggling once and
      leaves the list as the first toggle left it. */
  lemma ToggleIdempotent(posts: seq<Post>, postId: int, status: string)
    ensures var once := Toggle(posts, postId, status);
      Toggle(once.posts, postId, status) == once
  {
    var once := Toggle(posts, postId, status);
    if once.ok {
      var i := PostIndex(posts, postId).value;
      ToggleMeaning(posts, postId, status);
      ReplaceKeepsIndex(posts, i, posts[i].(status := TargetStatus(status).value), postId);
    }
  }

  /** A draft is never toggled: the call fails and the list is unchanged. */
  lemma ToggleSkipsDrafts(posts: seq<Post>, postId: int, status: string)
    requires PostIndex(posts, postId).Some? && posts[PostIndex(posts, postId).value].status == Draft
    ensures Toggle(posts, postId, status) == Toggled(false, posts)
  {
  }

  /** A post already in the requested state is left as it is and the call succeeds. */
  lemma ToggleAlreadyThere(posts: seq<Post>, postId: int, status: string)
    requires TargetStatus(status).Some? && PostIndex(posts, postId).Some?
    requires posts[PostIndex(posts, postId).value].status == TargetStatus(status).value
    ensures Toggle(posts, postId, status) == Toggled(true, posts)
  {
  }

  /** Toggling keeps post ids ascending. */
  lemma ToggleKeepsAscending(posts: seq<Post>, postId: int, status: string)
    requires AscendingIds(posts)
    ensures AscendingIds(Toggle(posts, postId, status).posts)
  {
    ToggleMeaning(posts, postId, status);
    if Toggle(posts, postId, status).ok {
      var i := PostIndex(posts, postId).value;
      ReplaceKeepsAscending(posts, i, posts[i].(status := TargetStatus(status).value));
    }
  }

  /** `toggle_status` against the post store: a loop that stops at the first post with
      the id. */
  method ToggleStatus(store: Store, postId: int, status: string) returns (ok: bool)
    modifies store
    ensures Toggled(ok, store.posts) == Toggle(old(store.posts), postId, status)
    ensures store.taxonomy == old(store.taxonomy)
  {
    if status != "public" && status != "private" {
      return false;
    }
    var posts := store.posts;
    var i := 0;
    while i < |posts|
      invariant 0 <= i <= |posts|
      invariant forall j :: 0 <= j < i ==> posts[j].id != postId
    {
      if posts[i].id == postId {
        if posts[i].status == Draft {
          return false;
        }
        if status == "public" && posts[i].status == Public {
          return true;
        }
        if status == "private" && posts[i].status == Private {
          return true;
        }
        var target := if status == "public" then Public else Private;
        posts := posts[i := posts[i].(status := target)];
        store.posts := posts;
        return true;
      }
      i := i + 1;
    }
    return false;
  }

  // ---------------------------------------------------------------- get_related_posts

  /** Another post of the same category (both may have none). */
  function SameCategoryOther(post: Post): Post -> bool {
    (p: Post) => p.id != post.id && p.categoryId == post.categoryId
  }

  /** The public posts of the post's category other than the post, in list order. */
  function RelatedCandidates(posts: seq<Post>, post: Post): seq<Post> {
    Filter(PublicOnly(posts), SameCategoryOther(post))
  }

  /** `get_related_posts`: the candidates, newest first (a stable sort on `created_at`
      in reverse), cut to `limit` as `related[:limit]` does. The source's default limit
      is 3, which the post detail page relies on; here the caller passes it. */
  function RelatedPosts(posts: seq<Post>, post: Post, limit: int): seq<Post> {
    Take(StableSort(RelatedCandidates(posts, post), false), limit)
  }

  /** The candidates are exactly the public posts of the post's category with another
      id, as often as the list has them. */
  lemma RelatedCandidatesMeaning(posts: seq<Post>, post: Post, p: Post)
    ensures p in RelatedCandidates(posts, post) <==>
      p in posts && p.status == Public && p.id != post.id && p.categoryId == post.categoryId
    ensures multiset(RelatedCandidates(posts, post))[p] ==
      if p.status == Public && p.id != post.id && p.categoryId == post.categoryId then multiset(posts)[p] else 0
  {
    PublicOnlyMeaning(posts, [], p);
    FilterMembers(PublicOnly(posts), SameCategoryOther(post));
    FilterCount(PublicOnly(posts), SameCategoryOther(post), p);
  }

  /** Related posts are newest first, are all candidates, and are the first `limit` of
      the candidates in that order: all of them when `limit` is at least their number. */
  lemma RelatedPostsMeaning(posts: seq<Post>, post: Post, limit: int)
    ensures var r := RelatedPosts(posts, post, limit);
      Sorted(r, false) && r <= StableSort(RelatedCandidates(posts, post), false)
    ensures forall p :: p in RelatedPosts(posts, post, limit) ==> p in RelatedCandidates(posts, post)
    ensures 0 <= limit ==>
      |RelatedPosts(posts, post, limit)| == if limit <= |RelatedCandidates(posts, post)| then limit else |RelatedCandidates(posts, post)|
    ensures limit >= |RelatedCandidates(posts, post)| ==>
      multiset(RelatedPosts(posts, post, limit)) == multiset(RelatedCandidates(posts, post))
  {
    var c := RelatedCandidates(posts, post);
    var sorted := StableSort(c, false);
    StableSortCorrect(c, false);
    AdjacentSortedIsSorted(sorted, false);
    StablySortedIsPermutation(sorted, c, false);
    var r := RelatedPosts(posts, post, limit);
    forall p | p in r ensures p in c {
      var k :| 0 <= k < |r| && r[k] == p;
      assert sorted[k] == p;
      assert p in multiset(sorted);
    }
  }
}
