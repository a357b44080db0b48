/** control/postControlAdmin.py: `PostAdminControl.create_post`, `delete_post` and
    `update_post`, the administrator's changes to the post list. */
module PostControlAdmin {
  import opened Wrappers
  import opened Records
  import opened Text
  import opened Entries
  import opened Seqs
  import opened DataLoader
  import opened CategoryControl

  // ---------------------------------------------------------------- create

  /** The fields of the creation form; ids and new names may be left out (null). */
  datatype CreateForm = CreateForm(
    title: string,
    content: string,
    action: string,
    categoryMode: string, categoryId: Ref, newCategoryName: Option<string>,
    topicMode: string, topicId: Ref, newTopicName: Option<string>,
    groupMode: string, groupId: Ref, newGroupName: Option<string>)

  /** The outcome of a change together with the two stores after it. */
  datatype Saved = Saved(outcome: Outcome, posts: seq<Post>, taxonomy: Taxonomy)

  /** The status a save action stands for: "draft" saves privately, "public" publishes. */
  function ActionStatus(action: string): (r: Option<Status>)
    ensures r == Some(Private) <==> action == "draft"
    ensures r == Some(Public) <==> action == "public"
    ensures r.None? <==> action != "draft" && action != "public"
  {
    if action == "draft" then Some(Private)
    else if action == "public" then Some(Public)
    else None
  }

  /** `posts[-1]["id"] + 1 if posts else 1`: it follows the last post, not the largest id. */
  function NextPostId(posts: seq<Post>): (n: int)
    ensures posts == [] ==> n == 1
    ensures AscendingIds(posts) ==> forall i :: 0 <= i < |posts| ==> posts[i].id < n
  {
    if posts != [] then posts[|posts| - 1].id + 1 else 1
  }

  /** With ids out of order, `last id + 1` can be an id already in use. */
  lemma NextPostIdNeedsOrder(p: Post, q: Post)
    requires p.id == 2 && q.id == 1
    ensures NextPostId([p, q]) == p.id
  {
  }

  /** `create_post`. Resolution runs category, topic, group; each resolved id is the
      parent of the next step, and a new category forces a new topic. Each resolver
      saves its own change, so a later failure keeps the earlier taxonomy writes. */
  function Create(posts: seq<Post>, t: Taxonomy, f: CreateForm, now: string): (r: Saved)
    ensures r.outcome.Fail? ==> r.posts == posts
    ensures ActionStatus(f.action).None? ==> r == Saved(Fail(InvalidAction), posts, t)
    ensures r.outcome.Pass? ==> |r.posts| == |posts| + 1 && r.posts[..|posts|] == posts
  {
    match ActionStatus(f.action)
    case None => Saved(Fail(InvalidAction), posts, t)
    case Some(status) =>
      match ResolveCategory(t, f.categoryMode, f.categoryId, f.newCategoryName)
      case Failure(e) => Saved(Fail(e), posts, t)
      case Success(c) =>
        var topicMode := if f.categoryMode == "new" then "new" else f.topicMode;
        match ResolveTopic(c.taxonomy, topicMode, f.topicId, f.newTopicName, c.id)
        case Failure(e) => Saved(Fail(e), posts, c.taxonomy)
        case Success(tp) =>
          match ResolveGroup(tp.taxonomy, f.groupMode, f.groupId, f.newGroupName, tp.id)
          case Failure(e) => Saved(Fail(e), posts, tp.taxonomy)
          case Success(g) =>
            var post := Post(NextPostId(posts), f.title, f.content, c.id, tp.id, g.id, status, now);
            Saved(Pass, posts + [post], g.taxonomy)
  }

  /** A created post carries the form's title and content, the action's status, the
      timestamp and the next id; with `existing` modes it carries the form's ids. */
  lemma CreatedPost(posts: seq<Post>, t: Taxonomy, f: CreateForm, now: string)
    requires Create(posts, t, f, now).outcome.Pass?
    ensures var r := Create(posts, t, f, now);
      var p := r.posts[|posts|];
      r.posts == posts + [p] &&
      p.id == NextPostId(posts) && p.title == f.title && p.content == f.content &&
      Some(p.status) == ActionStatus(f.action) && p.createdAt == now
    ensures var p := Create(posts, t, f, now).posts[|posts|];
      (f.categoryMode == "existing" ==> p.categoryId == f.categoryId) &&
      (f.categoryMode != "new" && f.topicMode == "existing" ==> p.topicId == f.topicId) &&
      (f.groupMode == "existing" ==> p.groupId == f.groupId)
  {
  }

  /** The created entities are chained: a new category is the post's category, with a
      fresh id; a new topic belongs to the post's category and a new group to the post's
      topic. */
  lemma CreateChainsParents(posts: seq<Post>, t: Taxonomy, f: CreateForm, now: string)
    requires Create(posts, t, f, now).outcome.Pass?
    ensures var r := Create(posts, t, f, now);
      var p := r.posts[|posts|];
      f.categoryMode != "existing" ==>
        p.categoryId.Some? && (forall c :: c in t.categories ==> c.id < p.categoryId.value) &&
        r.taxonomy.categories == t.categories + [Category(p.categoryId.value, f.newCategoryName.value)]
    ensures var r := Create(posts, t, f, now);
      var p := r.posts[|posts|];
      (f.categoryMode == "new" || f.topicMode != "existing") ==>
        |r.taxonomy.topics| == |t.topics| + 1 &&
        r.taxonomy.topics[|t.topics|] == Topic(p.topicId.value, f.newTopicName.value, p.categoryId)
    ensures var r := Create(posts, t, f, now);
      var p := r.posts[|posts|];
      f.groupMode != "existing" ==>
        |r.taxonomy.groups| == |t.groups| + 1 &&
        r.taxonomy.groups[|t.groups|] == Group(p.groupId.value, f.newGroupName.value, p.topicId)
  {
    var c := ResolveCategory(t, f.categoryMode, f.categoryId, f.newCategoryName).value;
    if f.categoryMode != "existing" {
      ResolveCategoryCreates(t, f.categoryMode, f.categoryId, f.newCategoryName);
    }
    var topicMode := if f.categoryMode == "new" then "new" else f.topicMode;
    var tp := ResolveTopic(c.taxonomy, topicMode, f.topicId, f.newTopicName, c.id).value;
    if topicMode != "existing" {
      ResolveTopicCreates(c.taxonomy, topicMode, f.topicId, f.newTopicName, c.id);
    }
    if f.groupMode != "existing" {
      ResolveGroupCreates(tp.taxonomy, f.groupMode, f.groupId, f.newGroupName, tp.id);
    }
  }

  /** Creating keeps the taxonomy well-formed and the post ids ascending, so the new
      post's id is not used by any earlier post. */
  lemma CreateKeepsInvariants(posts: seq<Post>, t: Taxonomy, f: CreateForm, now: string)
    requires WellFormed(t) && AscendingIds(posts)
    ensures WellFormed(Create(posts, t, f, now).taxonomy)
    ensures AscendingIds(Create(posts, t, f, now).posts)
  {
    if ActionStatus(f.action).Some? {
      var rc := ResolveCategory(t, f.categoryMode, f.categoryId, f.newCategoryName);
      if rc.Success? {
        var c := rc.value;
        ResolveCategoryKeepsWellFormed(t, f.categoryMode, f.categoryId, f.newCategoryName);
        var topicMode := if f.categoryMode == "new" then "new" else f.topicMode;
        var rt := ResolveTopic(c.taxonomy, topicMode, f.topicId, f.newTopicName, c.id);
        if rt.Success? {
          ResolveTopicKeepsWellFormed(c.taxonomy, topicMode, f.topicId, f.newTopicName, c.id);
          var rg := ResolveGroup(rt.value.taxonomy, f.groupMode, f.groupId, f.newGroupName, rt.value.id);
          if rg.Success? {
            ResolveGroupKeepsWellFormed(rt.value.taxonomy, f.groupMode, f.groupId, f.newGroupName, rt.value.id);
          }
        }
      }
    }
  }

  /** The form of the walk-through: publish "Hi" under a new category, topic and group. */
  function FirstForm(): CreateForm {
    CreateForm("Hi", "x", "public", "new", None, Some("Tech"), "new", None, Some("Rust"), "new", None, Some("Core"))
  }

  /** The second form: the existing category 1 with a new topic "Rust" again. */
  function SecondForm(): CreateForm {
    CreateForm("Hi", "x", "public", "existing", Some(1), None, "new", None, Some("Rust"), "new", None, Some("Core"))
  }

  /** From empty stores, the first form creates category 1, topic 1 under it, group 1
      under that, and public post 1; the second form then fails on the duplicate topic
      name and changes nothing. */
  lemma CreateWalkThrough(now: string)
    ensures var r := Create([], EmptyTaxonomy, FirstForm(), now);
      r.outcome == Pass &&
      r.taxonomy == Taxonomy([Category(1, "Tech")], [Topic(1, "Rust", Some(1))], [Group(1, "Core", Some(1))]) &&
      r.posts == [Post(1, "Hi", "x", Some(1), Some(1), Some(1), Public, now)]
    ensures var r := Create([], EmptyTaxonomy, FirstForm(), now);
      Create(r.posts, r.taxonomy, SecondForm(), now) == Saved(Fail(DuplicateName), r.posts, r.taxonomy)
  {
    var t1 := Taxonomy([Category(1, "Tech")], [], []);
    var t2 := Taxonomy([Category(1, "Tech")], [Topic(1, "Rust", Some(1))], []);
    var t3 := Taxonomy([Category(1, "Tech")], [Topic(1, "Rust", Some(1))], [Group(1, "Core", Some(1))]);
    assert CategoryEntries([]) == [] && TopicEntries([]) == [] && GroupEntries([]) == [];
    assert !NameTaken(CategoryEntries([]), "Tech");
    assert [] + [Category(1, "Tech")] == t1.categories;
    assert ResolveCategory(EmptyTaxonomy, "new", None, Some("Tech")) == Success(Resolution(Some(1), t1));
    assert !NameTaken(TopicEntries(t1.topics), "Rust");
    assert [] + [Topic(1, "Rust", Some(1))] == t2.topics;
    assert ResolveTopic(t1, "new", None, Some("Rust"), Some(1)) == Success(Resolution(Some(1), t2));
    assert !NameTaken(GroupEntries(t2.groups), "Core");
    assert [] + [Group(1, "Core", Some(1))] == t3.groups;
    assert ResolveGroup(t2, "new", None, Some("Core"), Some(1)) == Success(Resolution(Some(1), t3));
    assert TopicEntries(t3.topics)[0].1 == "Rust";
    assert ResolveTopic(t3, "new", None, Some("Rust"), Some(1)) == Failure(DuplicateName);
  }

  /** The flow is not atomic: a new category stays saved when the topic step then fails. */
  lemma CreateKeepsEarlierWrites(posts: seq<Post>, t: Taxonomy, f: CreateForm, now: string)
    requires ActionStatus(f.action).Some? && f.categoryMode == "new"
    requires ResolveCategory(t, f.categoryMode, f.categoryId, f.newCategoryName).Success?
    requires f.newTopicName.Some? && NameTaken(TopicEntries(t.topics), f.newTopicName.value)
    ensures var r := Create(posts, t, f, now);
      r.outcome == Fail(DuplicateName) && r.posts == posts &&
      r.taxonomy == t.(categories := t.categories + [Category(NextId(CategoryEntries(t.categories)), f.newCategoryName.value)])
  {
  }

  /** `create_post` against the stores; `now` is the formatted creation time. */
  method CreatePost(store: Store, f: CreateForm, now: string) returns (outcome: Outcome)
    modifies store
    ensures Saved(outcome, store.posts, store.taxonomy) == Create(old(store.posts), old(store.taxonomy), f, now)
  {
    var status := ActionStatus(f.action);
    if status.None? {
      return Fail(InvalidAction);
    }
    var categoryId := AddOrGetCategory(store, f.categoryMode, f.categoryId, f.newCategoryName);
    if categoryId.Failure? {
      return Fail(categoryId.error);
    }
    var topicMode := f.topicMode;
    if f.categoryMode == "new" {
      topicMode := "new";
    }
    var topicId := AddOrGetTopic(store, topicMode, f.topicId, f.newTopicName, categoryId.value);
    if topicId.Failure? {
      return Fail(topicId.error);
    }
    var groupId := AddOrGetGroup(store, f.groupMode, f.groupId, f.newGroupName, topicId.value);
    if groupId.Failure? {
      return Fail(groupId.error);
    }
    var posts := store.posts;
    var newId := if posts != [] then posts[|posts| - 1].id + 1 else 1;
    var newPost := Post(newId, f.title, f.content, categoryId.value, topicId.value, groupId.value, status.value, now);
    posts := posts + [newPost];
    store.posts := posts;
    return Pass;
  }

  // ---------------------------------------------------------------- delete

  function OtherThan(postId: int): Post -> bool {
    (p: Post) => p.id != postId
  }

  /** `[p for p in posts if p["id"] != post_id]` */
  function Delete(posts: seq<Post>, postId: int): seq<Post> {
    Filter(posts, OtherThan(postId))
  }

  /** Delete keeps exactly the posts with another id, as often as the list has them,
      in their order. */
  lemma DeleteMeaning(posts: seq<Post>, more: seq<Post>, postId: int, p: Post)
    ensures p in Delete(posts, postId) <==> p in posts && p.id != postId
    ensures multiset(Delete(posts, postId))[p] == if p.id != postId then multiset(posts)[p] else 0
    ensures Delete(posts + more, postId) == Delete(posts, postId) + Delete(more, postId)
  {
    FilterMembers(posts, OtherThan(postId));
    FilterCount(posts, OtherThan(postId), p);
    FilterConcat(posts, more, OtherThan(postId));
  }

  /** Deleting an id no post has changes nothing. */
  lemma DeleteAbsent(posts: seq<Post>, postId: int)
    requires forall i :: 0 <= i < |posts| ==> posts[i].id != postId
    ensures Delete(posts, postId) == posts
  {
    FilterKeepsAll(posts, OtherThan(postId));
  }

  predicate IdBefore(x: Post, y: Post) {
    x.id < y.id
  }

  /** Deleting keeps post ids ascending. */
  lemma DeleteKeepsAscending(posts: seq<Post>, postId: int)
    requires AscendingIds(posts)
    ensures AscendingIds(Delete(posts, postId))
  {
    FilterKeepsOrder(posts, OtherThan(postId), IdBefore);
  }

  /** `delete_post` */
  method DeletePost(store: Store, postId: int)
    modifies store
    ensures store.posts == Delete(old(store.posts), postId)
    ensures store.taxonomy == old(store.taxonomy)
  {
    var posts := store.posts;
    posts := Filter(posts, OtherThan(postId));
    store.posts := posts;
  }

  // ---------------------------------------------------------------- update

  /** The fields of the edit form as `form.get` sees them: any may be missing. */
  datatype EditForm = EditForm(
    title: Option<string>,
    content: Option<string>,
    categoryMode: Option<string>, categoryId: Option<string>, newCategoryName: Option<string>,
    topicMode: Option<string>, topicId: Option<string>, newTopicName: Option<string>,
    groupMode: Option<string>, groupId: Option<string>, newGroupName: Option<string>)

  /** The id an edit section settles on: one typed in, or one minted for a new entry. */
  datatype Choice = Given(id: int) | Minted(id: int, name: string)

  /** One section of `update_post`. Mode "new" takes the trimmed `name`: empty or
      already used (ignoring case) is an error, otherwise the next id of the list is
      minted. Any other mode parses the id field, which must be an integer. */
  function Choose(mode: Option<string>, idField: Option<string>, name: string, es: seq<Entry>): Result<Choice, Error>
  {
    if mode == Some("new") then
      if name == "" then Failure(EmptyName)
      else if NameTaken(es, name) then Failure(DuplicateName)
      else Success(Minted(NextId(es), name))
    else if idField.None? then Failure(InvalidId)
    else match ParseInt(idField.value)
      case None => Failure(InvalidId)
      case Some(n) => Success(Given(n))
  }

  /** A "new" section succeeds exactly when the trimmed name is non-empty and unused,
      and then mints the next id of the list; any other section succeeds exactly when
      the id field holds an integer, and then takes it. */
  lemma ChooseMeaning(mode: Option<string>, idField: Option<string>, name: string, es: seq<Entry>)
    ensures var r := Choose(mode, idField, name, es);
      (mode == Some("new") ==> (r.Success? <==> name != "" && !NameTaken(es, name))) &&
      (mode == Some("new") && r.Failure? ==> r.error == (if name == "" then EmptyName else DuplicateName)) &&
      (mode == Some("new") && r.Success? ==> r.value == Minted(NextId(es), name)) &&
      (mode != Some("new") ==> (r.Success? <==> idField.Some? && ParseInt(idField.value).Some?)) &&
      (mode != Some("new") && r.Failure? ==> r.error == InvalidId) &&
      (mode != Some("new") && r.Success? ==> r.value == Given(ParseInt(idField.value).value))
  {
  }

  /** The three names the edit form offers for new entries, trimmed. */
  function CategoryName(f: EditForm): string { Strip(f.newCategoryName.GetOr("")) }
  function TopicName(f: EditForm): string { Strip(f.newTopicName.GetOr("")) }
  function GroupName(f: EditForm): string { Strip(f.newGroupName.GetOr("")) }

  /** What the three sections of an edit settled on. */
  datatype Settled = Settled(category: Choice, topic: Choice, group: Choice)

  /** The category, topic and group sections in order; the first failure stops the edit. */
  function Settle(t: Taxonomy, f: EditForm): (r: Result<Settled, Error>)
    ensures r.Success? <==>
      Choose(f.categoryMode, f.categoryId, CategoryName(f), CategoryEntries(t.categories)).Success? &&
      Choose(f.topicMode, f.topicId, TopicName(f), TopicEntries(t.topics)).Success? &&
      Choose(f.groupMode, f.groupId, GroupName(f), GroupEntries(t.groups)).Success?
  {
    match Choose(f.categoryMode, f.categoryId, CategoryName(f), CategoryEntries(t.categories))
    case Failure(e) => Failure(e)
    case Success(c) =>
      match Choose(f.topicMode, f.topicId, TopicName(f), TopicEntries(t.topics))
      case Failure(e) => Failure(e)
      case Success(tp) =>
        match Choose(f.groupMode, f.groupId, GroupName(f), GroupEntries(t.groups))
        case Failure(e) => Failure(e)
        case Success(g) => Success(Settled(c, tp, g))
  }

  /** The taxonomy with the minted entries appended: a new topic under the settled
      category, a new group under the settled topic. */
  function Grow(t: Taxonomy, s: Settled): Taxonomy
  {
    Taxonomy(
      if s.category.Minted? then t.categories + [Category(s.category.id, s.category.name)] else t.categories,
      if s.topic.Minted? then t.topics + [Topic(s.topic.id, s.topic.name, Some(s.category.id))] else t.topics,
      if s.group.Minted? then t.groups + [Group(s.group.id, s.group.name, Some(s.topic.id))] else t.groups)
  }

  /** The edited post: trimmed title, untrimmed content, the settled ids, back to draft. */
  function Edited(p: Post, f: EditForm, s: Settled): (r: Post)
    ensures r.id == p.id && r.createdAt == p.createdAt && r.status == Draft
    ensures r.title == Strip(f.title.GetOr("")) && r.content == f.content.GetOr("")
    ensures r.categoryId == Some(s.category.id) && r.topicId == Some(s.topic.id) && r.groupId == Some(s.group.id)
  {
    p.(title := Strip(f.title.GetOr("")), content := f.content.GetOr(""),
      categoryId := Some(s.category.id), topicId := Some(s.topic.id), groupId := Some(s.group.id), status := Draft)
  }

  /** `update_post`: the first post with the id is edited and the minted entries are
      appended. Nothing is saved on any failure. */
  function Update(posts: seq<Post>, t: Taxonomy, postId: int, f: EditForm): (r: Saved)
    ensures r.outcome.Fail? ==> r.posts == posts && r.taxonomy == t
    ensures r.outcome == Fail(NotFound) <== PostIndex(posts, postId).None?
    ensures r.outcome.Pass? <==> PostIndex(posts, postId).Some? && Settle(t, f).Success?
  {
    match PostIndex(posts, postId)
    case None => Saved(Fail(NotFound), posts, t)
    case Some(i) =>
      match Settle(t, f)
      case Failure(e) => Saved(Fail(e), posts, t)
      case Success(s) => Saved(Pass, posts[i := Edited(posts[i], f, s)], Grow(t, s))
  }

  /** A successful update replaces the first post with the id by its edited form
      (which keeps the id and creation time, see `Edited`) and leaves every other post
      as it was; the taxonomy gains the minted entries. */
  lemma UpdatedPost(posts: seq<Post>, t: Taxonomy, postId: int, f: EditForm)
    requires Update(posts, t, postId, f).outcome.Pass?
    ensures PostIndex(posts, postId).Some? && Settle(t, f).Success?
    ensures var i := PostIndex(posts, postId).value;
      Update(posts, t, postId, f).posts == posts[i := Edited(posts[i], f, Settle(t, f).value)]
    ensures Update(posts, t, postId, f).taxonomy == Grow(t, Settle(t, f).value)
  {
  }

  /** Updating keeps post ids ascending. */
  lemma UpdateKeepsAscending(posts: seq<Post>, t: Taxonomy, postId: int, f: EditForm)
    requires AscendingIds(posts)
    ensures AscendingIds(Update(posts, t, postId, f).posts)
  {
    if Update(posts, t, postId, f).outcome.Pass? {
      UpdatedPost(posts, t, postId, f);
      var i := PostIndex(posts, postId).value;
      ReplaceKeepsAscending(posts, i, Edited(posts[i], f, Settle(t, f).value));
    }
  }

  /** The settled sections are the three choices, each made against the list as loaded. */
  lemma SettleSections(t: Taxonomy, f: EditForm)
    requires Settle(t, f).Success?
    ensures Settle(t, f).value.category == Choose(f.categoryMode, f.categoryId, CategoryName(f), CategoryEntries(t.categories)).value
    ensures Settle(t, f).value.topic == Choose(f.topicMode, f.topicId, TopicName(f), TopicEntries(t.topics)).value
    ensures Settle(t, f).value.group == Choose(f.groupMode, f.groupId, GroupName(f), GroupEntries(t.groups)).value
  {
  }

  /** Only a "new" section mints, and what it mints is the next id of the list with a
      non-empty name the list does not use. */
  lemma ChooseMints(mode: Option<string>, idField: Option<string>, name: string, es: seq<Entry>)
    requires Choose(mode, idField, name, es).Success?
    ensures Choose(mode, idField, name, es).value.Minted? <==> mode == Some("new")
    ensures Choose(mode, idField, name, es).value.Minted? ==>
      Choose(mode, idField, name, es).value == Minted(NextId(es), name) && name != "" && !NameTaken(es, name)
  {
  }

  /** Appending the minted entries keeps each list's ids and names unique. */
  lemma GrowKeepsCategoriesUnique(t: Taxonomy, s: Settled)
    requires WellFormed(t)
    requires s.category.Minted? ==>
      s.category.id == NextId(CategoryEntries(t.categories)) && !NameTaken(CategoryEntries(t.categories), s.category.name)
    ensures UniqueIds(CategoryEntries(Grow(t, s).categories)) && UniqueNames(CategoryEntries(Grow(t, s).categories))
  {
    var cs := CategoryEntries(t.categories);
    if s.category.Minted? {
      AppendNextKeepsUnique(cs, s.category.name);
      assert CategoryEntries(Grow(t, s).categories) == cs + [(NextId(cs), s.category.name)];
    }
  }

  lemma GrowKeepsTopicsUnique(t: Taxonomy, s: Settled)
    requires WellFormed(t)
    requires s.topic.Minted? ==>
      s.topic.id == NextId(TopicEntries(t.topics)) && !NameTaken(TopicEntries(t.topics), s.topic.name)
    ensures UniqueIds(TopicEntries(Grow(t, s).topics)) && UniqueNames(TopicEntries(Grow(t, s).topics))
  {
    var ts := TopicEntries(t.topics);
    if s.topic.Minted? {
      AppendNextKeepsUnique(ts, s.topic.name);
      assert TopicEntries(Grow(t, s).topics) == ts + [(NextId(ts), s.topic.name)];
    }
  }

  lemma GrowKeepsGroupsUnique(t: Taxonomy, s: Settled)
    requires WellFormed(t)
    requires s.group.Minted? ==>
      s.group.id == NextId(GroupEntries(t.groups)) && !NameTaken(GroupEntries(t.groups), s.group.name)
    ensures UniqueIds(GroupEntries(Grow(t, s).groups)) && UniqueNames(GroupEntries(Grow(t, s).groups))
  {
    var gs := GroupEntries(t.groups);
    if s.group.Minted? {
      AppendNextKeepsUnique(gs, s.group.name);
      assert GroupEntries(Grow(t, s).groups) == gs + [(NextId(gs), s.group.name)];
    }
  }

  /** Updating keeps the taxonomy well-formed: minted entries have fresh ids and
      unused names. */
  lemma UpdateKeepsWellFormed(posts: seq<Post>, t: Taxonomy, postId: int, f: EditForm)
    requires WellFormed(t)
    ensures WellFormed(Update(posts, t, postId, f).taxonomy)
  {
    if Update(posts, t, postId, f).outcome.Pass? {
      UpdatedPost(posts, t, postId, f);
      SettleSections(t, f);
      ChooseMints(f.categoryMode, f.categoryId, CategoryName(f), CategoryEntries(t.categories));
      ChooseMints(f.topicMode, f.topicId, TopicName(f), TopicEntries(t.topics));
      ChooseMints(f.groupMode, f.groupId, GroupName(f), GroupEntries(t.groups));
      var s := Settle(t, f).value;
      GrowKeepsCategoriesUnique(t, s);
      GrowKeepsTopicsUnique(t, s);
      GrowKeepsGroupsUnique(t, s);
    }
  }

  /** `update_post` against the stores: each section runs against the lists held in
      memory, and both stores are written only once all three have settled. */
  method UpdatePost(store: Store, postId: int, f: EditForm) returns (outcome: Outcome)
    modifies store
    ensures Saved(outcome, store.posts, store.taxonomy) == Update(old(store.posts), old(store.taxonomy), postId, f)
  {
    var posts := store.posts;
    var cats := store.taxonomy;
    var found := PostIndex(posts, postId);
    if found.None? {
      return Fail(NotFound);
    }
    var category := Choose(f.categoryMode, f.categoryId, CategoryName(f), CategoryEntries(cats.categories));
    if category.Failure? {
      return Fail(category.error);
    }
    if category.value.Minted? {
      cats := cats.(categories := cats.categories + [Category(category.value.id, category.value.name)]);
    }
    var topic := Choose(f.topicMode, f.topicId, TopicName(f), TopicEntries(cats.topics));
    if topic.Failure? {
      return Fail(topic.error);
    }
    if topic.value.Minted? {
      cats := cats.(topics := cats.topics + [Topic(topic.value.id, topic.value.name, Some(category.value.id))]);
    }
    var group := Choose(f.groupMode, f.groupId, GroupName(f), GroupEntries(cats.groups));
    if group.Failure? {
      return Fail(group.error);
    }
    if group.value.Minted? {
      cats := cats.(groups := cats.groups + [Group(group.value.id, group.value.name, Some(topic.value.id))]);
    }
    var i := found.value;
    var post := posts[i];
    post := post.(title := Strip(f.title.GetOr("")), content := f.content.GetOr(""));
    post := post.(categoryId := Some(category.value.id), topicId := Some(topic.value.id), groupId := Some(group.value.id));
    post := post.(status := Draft);
    posts := posts[i := post];
    store.posts := posts;
    store.taxonomy := cats;
    return Pass;
  }
}
