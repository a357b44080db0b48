/** main.py: the id normalisation of the listing routes, the taxonomy API handlers
    (create, rename and delete of categories, topics and groups) and the post status
    endpoint. Each handler loads the taxonomy, changes it in memory and saves it. */
module Handlers {
  import opened Wrappers
  import opened Records
  import opened Text
  import opened Entries
  import opened Seqs
  import opened DataLoader
  import opened PostService
  import opened CategoryControl

  // ---------------------------------------------------------------- normalize_id

  /** `int(v) if v not in (None, "") else None`: a query parameter left out or empty is
      no filter; anything else must be an integer. */
  function NormalizeId(v: Option<string>): (r: Result<Ref, Error>)
    ensures v.None? || v == Some("") ==> r == Success(None)
    ensures v.Some? && v.value != "" ==> (r.Success? <==> ParseInt(v.value).Some?)
    ensures v.Some? && v.value != "" && r.Success? ==> r.value == ParseInt(v.value)
    ensures r.Failure? ==> r.error == InvalidId
  {
    if v.None? || v == Some("") then Success(None)
    else match ParseInt(v.value)
      case None => Failure(InvalidId)
      case Some(n) => Success(Some(n))
  }

  /** A parameter holding the decimal form of an id normalises back to that id. */
  lemma NormalizeShownId(n: int)
    ensures NormalizeId(Some(ShowInt(n))) == Success(Some(n))
  {
    ParseShowInt(n);
  }

  // ---------------------------------------------------------------- create

  /** `api_create_category`: a category with the next id; a topic under it when a
      topic name is given; a group under that topic when a group name is given and
      the topic id is truthy. No name is checked against the existing ones. */
  function CreateCategory(t: Taxonomy, categoryName: string, topicName: string, groupName: string): Taxonomy {
    var categoryId := NextId(CategoryEntries(t.categories));
    var topicId: Option<int> := if topicName != "" then Some(NextId(TopicEntries(t.topics))) else None;
    var topics := if topicName != "" then t.topics + [Topic(topicId.value, topicName, Some(categoryId))] else t.topics;
    var groups :=
      if groupName != "" && topicId.Some? && topicId.value != 0
      then t.groups + [Group(NextId(GroupEntries(t.groups)), groupName, topicId)]
      else t.groups;
    Taxonomy(t.categories + [Category(categoryId, categoryName)], topics, groups)
  }

  /** A category is always added; a topic exactly when a topic name is given, linked to
      the new category; a group exactly when both names are given and the new topic id
      is not 0, linked to the new topic. Every new id is fresh in its list. */
  lemma CreateCategoryMeaning(t: Taxonomy, categoryName: string, topicName: string, groupName: string)
    ensures var r := CreateCategory(t, categoryName, topicName, groupName);
      var c := NextId(CategoryEntries(t.categories));
      r.categories == t.categories + [Category(c, categoryName)] &&
      (forall i :: 0 <= i < |t.categories| ==> t.categories[i].id < c)
    ensures var r := CreateCategory(t, categoryName, topicName, groupName);
      var c := NextId(CategoryEntries(t.categories));
      var tp := NextId(TopicEntries(t.topics));
      (topicName == "" ==> r.topics == t.topics) &&
      (topicName != "" ==> r.topics == t.topics + [Topic(tp, topicName, Some(c))])
    ensures var r := CreateCategory(t, categoryName, topicName, groupName);
      var tp := NextId(TopicEntries(t.topics));
      var g := NextId(GroupEntries(t.groups));
      (topicName == "" || groupName == "" || tp == 0 ==> r.groups == t.groups) &&
      (topicName != "" && groupName != "" && tp != 0 ==> r.groups == t.groups + [Group(g, groupName, Some(tp))])
  {
    assert forall i :: 0 <= i < |t.categories| ==> CategoryEntries(t.categories)[i].0 == t.categories[i].id;
  }

  /** The category handler does not check names: an existing name is added again. */
  lemma CreateCategoryRepeatsName(t: Taxonomy, name: string)
    requires exists i :: 0 <= i < |t.categories| && t.categories[i].name == name
    ensures var r := CreateCategory(t, name, "", "");
      |r.categories| == |t.categories| + 1 && r.categories[|t.categories|].name == name
  {
  }

  /** `api_create_topic`: the given category id is stored as it is. */
  function CreateTopic(t: Taxonomy, categoryId: int, name: string): Taxonomy {
    t.(topics := t.topics + [Topic(NextId(TopicEntries(t.topics)), name, Some(categoryId))])
  }

  /** `api_create_group`: the given topic id is stored as it is. */
  function CreateGroup(t: Taxonomy, topicId: int, name: string): Taxonomy {
    t.(groups := t.groups + [Group(NextId(GroupEntries(t.groups)), name, Some(topicId))])
  }

  /** The create handlers keep ids unique in every list. */
  lemma CreateCategoryKeepsIdsUnique(t: Taxonomy, name: string, topicName: string, groupName: string)
    requires UniqueIds(CategoryEntries(t.categories)) && UniqueIds(TopicEntries(t.topics)) && UniqueIds(GroupEntries(t.groups))
    ensures var r := CreateCategory(t, name, topicName, groupName);
      UniqueIds(CategoryEntries(r.categories)) && UniqueIds(TopicEntries(r.topics)) && UniqueIds(GroupEntries(r.groups))
  {
    var cs, ts, gs := CategoryEntries(t.categories), TopicEntries(t.topics), GroupEntries(t.groups);
    var r := CreateCategory(t, name, topicName, groupName);
    AppendNextKeepsUnique(cs, name);
    assert CategoryEntries(r.categories) == cs + [(NextId(cs), name)];
    if topicName != "" {
      AppendNextKeepsUnique(ts, topicName);
      assert TopicEntries(r.topics) == ts + [(NextId(ts), topicName)];
    }
    if r.groups != t.groups {
      AppendNextKeepsUnique(gs, groupName);
      assert GroupEntries(r.groups) == gs + [(NextId(gs), groupName)];
    }
  }

  lemma CreateTopicKeepsIdsUnique(t: Taxonomy, categoryId: int, name: string)
    requires UniqueIds(TopicEntries(t.topics))
    ensures UniqueIds(TopicEntries(CreateTopic(t, categoryId, name).topics))
  {
    var ts := TopicEntries(t.topics);
    AppendNextKeepsUnique(ts, name);
    assert TopicEntries(CreateTopic(t, categoryId, name).topics) == ts + [(NextId(ts), name)];
  }

  lemma CreateGroupKeepsIdsUnique(t: Taxonomy, topicId: int, name: string)
    requires UniqueIds(GroupEntries(t.groups))
    ensures UniqueIds(GroupEntries(CreateGroup(t, topicId, name).groups))
  {
    var gs := GroupEntries(t.groups);
    AppendNextKeepsUnique(gs, name);
    assert GroupEntries(CreateGroup(t, topicId, name).groups) == gs + [(NextId(gs), name)];
  }

  /** `api_create_category` against the store. */
  method ApiCreateCategory(store: Store, categoryName: string, topicName: string, groupName: string)
    modifies store
    ensures store.taxonomy == CreateCategory(old(store.taxonomy), categoryName, topicName, groupName)
    ensures store.posts == old(store.posts)
  {
    var cats := store.taxonomy;
    var newCategoryId := NextId(CategoryEntries(cats.categories));
    cats := cats.(categories := cats.categories + [Category(newCategoryId, categoryName)]);
    var newTopicId: Option<int> := None;
    if topicName != "" {
      newTopicId := Some(NextId(TopicEntries(cats.topics)));
      cats := cats.(topics := cats.topics + [Topic(newTopicId.value, topicName, Some(newCategoryId))]);
    }
    if groupName != "" && newTopicId.Some? && newTopicId.value != 0 {
      var newGroupId := NextId(GroupEntries(cats.groups));
      cats := cats.(groups := cats.groups + [Group(newGroupId, groupName, newTopicId)]);
    }
    store.taxonomy := cats;
  }

  /** `api_create_topic` against the store. */
  method ApiCreateTopic(store: Store, categoryId: int, name: string)
    modifies store
    ensures store.taxonomy == CreateTopic(old(store.taxonomy), categoryId, name)
    ensures store.posts == old(store.posts)
  {
    var cats := store.taxonomy;
    var newTopicId := NextId(TopicEntries(cats.topics));
    cats := cats.(topics := cats.topics + [Topic(newTopicId, name, Some(categoryId))]);
    store.taxonomy := cats;
  }

  /** `api_create_group` against the store. */
  method ApiCreateGroup(store: Store, topicId: int, name: string)
    modifies store
    ensures store.taxonomy == CreateGroup(old(store.taxonomy), topicId, name)
    ensures store.posts == old(store.posts)
  {
    var cats := store.taxonomy;
    var newGroupId := NextId(GroupEntries(cats.groups));
    cats := cats.(groups := cats.groups + [Group(newGroupId, name, Some(topicId))]);
    store.taxonomy := cats;
  }

  // ---------------------------------------------------------------- rename

  /** The name of the first category with the id becomes `name`. */
  function RenameCategory(cs: seq<Category>, id: int, name: string): seq<Category> {
    match IndexOf(CategoryEntries(cs), id)
    case None => cs
    case Some(i) => cs[i := cs[i].(name := name)]
  }

  function RenameTopic(ts: seq<Topic>, id: int, name: string): seq<Topic> {
    match IndexOf(TopicEntries(ts), id)
    case None => ts
    case Some(i) => ts[i := ts[i].(name := name)]
  }

  function RenameGroup(gs: seq<Group>, id: int, name: string): seq<Group> {
    match IndexOf(GroupEntries(gs), id)
    case None => gs
    case Some(i) => gs[i := gs[i].(name := name)]
  }

  /** Renaming keeps every id in its place (so ids stay unique) and every other field;
      only the first category with the id takes the new name, and an absent id
      changes nothing. */
  lemma RenameCategoryMeaning(cs: seq<Category>, id: int, name: string)
    ensures var r := RenameCategory(cs, id, name);
      |r| == |cs| && forall k :: 0 <= k < |cs| ==> r[k].id == cs[k].id
    ensures var r := RenameCategory(cs, id, name);
      forall k :: 0 <= k < |cs| ==>
        r[k].name == if cs[k].id == id && (forall j :: 0 <= j < k ==> cs[j].id != id) then name else cs[k].name
    ensures UniqueIds(CategoryEntries(cs)) ==> UniqueIds(CategoryEntries(RenameCategory(cs, id, name)))
  {
    var es := CategoryEntries(cs);
    match IndexOf(es, id)
    case None =>
    case Some(i) =>
      forall k | 0 <= k < |cs| && cs[k].id == id && (forall j :: 0 <= j < k ==> cs[j].id != id) ensures k == i {
        assert es[i].0 == id && es[k].0 == id;
      }
  }

  lemma RenameTopicMeaning(ts: seq<Topic>, id: int, name: string)
    ensures var r := RenameTopic(ts, id, name);
      |r| == |ts| && forall k :: 0 <= k < |ts| ==> r[k].id == ts[k].id && r[k].categoryId == ts[k].categoryId
    ensures var r := RenameTopic(ts, id, name);
      forall k :: 0 <= k < |ts| ==>
        r[k].name == if ts[k].id == id && (forall j :: 0 <= j < k ==> ts[j].id != id) then name else ts[k].name
    ensures UniqueIds(TopicEntries(ts)) ==> UniqueIds(TopicEntries(RenameTopic(ts, id, name)))
  {
    var es := TopicEntries(ts);
    match IndexOf(es, id)
    case None =>
    case Some(i) =>
      forall k | 0 <= k < |ts| && ts[k].id == id && (forall j :: 0 <= j < k ==> ts[j].id != id) ensures k == i {
        assert es[i].0 == id && es[k].0 == id;
      }
  }

  lemma RenameGroupMeaning(gs: seq<Group>, id: int, name: string)
    ensures var r := RenameGroup(gs, id, name);
      |r| == |gs| && forall k :: 0 <= k < |gs| ==> r[k].id == gs[k].id && r[k].topicId == gs[k].topicId
    ensures var r := RenameGroup(gs, id, name);
      forall k :: 0 <= k < |gs| ==>
        r[k].name == if gs[k].id == id && (forall j :: 0 <= j < k ==> gs[j].id != id) then name else gs[k].name
    ensures UniqueIds(GroupEntries(gs)) ==> UniqueIds(GroupEntries(RenameGroup(gs, id, name)))
  {
    var es := GroupEntries(gs);
    match IndexOf(es, id)
    case None =>
    case Some(i) =>
      forall k | 0 <= k < |gs| && gs[k].id == id && (forall j :: 0 <= j < k ==> gs[j].id != id) ensures k == i {
        assert es[i].0 == id && es[k].0 == id;
      }
  }

  /** Renames are not checked against the other names: a list can end up with two
      equal names. */
  lemma RenameMayRepeatName()
    ensures var cs := [Category(1, "News"), Category(2, "Notes")];
      UniqueNames(CategoryEntries(cs)) && !UniqueNames(CategoryEntries(RenameCategory(cs, 2, "news")))
  {
    var cs := [Category(1, "News"), Category(2, "Notes")];
    var es := CategoryEntries(cs);
    assert Lower("News") == "news" && Lower("Notes") == "notes";
    assert Lower(es[0].1) != Lower(es[1].1);
    assert IndexOf(es, 2) == Some(1);
    var r := CategoryEntries(RenameCategory(cs, 2, "news"));
    assert Lower(r[0].1) == Lower(r[1].1);
  }

  /** `api_update_category`: a loop that renames the first match and breaks. */
  method ApiRenameCategory(store: Store, categoryId: int, name: string)
    modifies store
    ensures store.taxonomy == old(store.taxonomy).(categories := RenameCategory(old(store.taxonomy.categories), categoryId, name))
    ensures store.posts == old(store.posts)
  {
    var cats := store.taxonomy;
    var categories := cats.categories;
    var i := 0;
    while i < |categories|
      invariant 0 <= i <= |categories| && categories == cats.categories
      invariant forall j :: 0 <= j < i ==> categories[j].id != categoryId
    {
      if categories[i].id == categoryId {
        assert IndexOf(CategoryEntries(cats.categories), categoryId) == Some(i);
        categories := categories[i := categories[i].(name := name)];
        break;
      }
      i := i + 1;
    }
    store.taxonomy := cats.(categories := categories);
  }

  /** `api_update_topic` */
  method ApiRenameTopic(store: Store, topicId: int, name: string)
    modifies store
    ensures store.taxonomy == old(store.taxonomy).(topics := RenameTopic(old(store.taxonomy.topics), topicId, name))
    ensures store.posts == old(store.posts)
  {
    var cats := store.taxonomy;
    var topics := cats.topics;
    var i := 0;
    while i < |topics|
      invariant 0 <= i <= |topics| && topics == cats.topics
      invariant forall j :: 0 <= j < i ==> topics[j].id != topicId
    {
      if topics[i].id == topicId {
        assert IndexOf(TopicEntries(cats.topics), topicId) == Some(i);
        topics := topics[i := topics[i].(name := name)];
        break;
      }
      i := i + 1;
    }
    store.taxonomy := cats.(topics := topics);
  }

  /** `api_update_group` */
  method ApiRenameGroup(store: Store, groupId: int, name: string)
    modifies store
    ensures store.taxonomy == old(store.taxonomy).(groups := RenameGroup(old(store.taxonomy.groups), groupId, name))
    ensures store.posts == old(store.posts)
  {
    var cats := store.taxonomy;
    var groups := cats.groups;
    var i := 0;
    while i < |groups|
      invariant 0 <= i <= |groups| && groups == cats.groups
      invariant forall j :: 0 <= j < i ==> groups[j].id != groupId
    {
      if groups[i].id == groupId {
        assert IndexOf(GroupEntries(cats.groups), groupId) == Some(i);
        groups := groups[i := groups[i].(name := name)];
        break;
      }
      i := i + 1;
    }
    store.taxonomy := cats.(groups := groups);
  }

  // ---------------------------------------------------------------- delete

  /** `any(p.get(key) == id for p in posts)` for the three keys. */
  predicate CategoryUsed(posts: seq<Post>, id: int) {
    exists i :: 0 <= i < |posts| && posts[i].categoryId == Some(id)
  }

  predicate TopicUsed(posts: seq<Post>, id: int) {
    exists i :: 0 <= i < |posts| && posts[i].topicId == Some(id)
  }

  predicate GroupUsed(posts: seq<Post>, id: int) {
    exists i :: 0 <= i < |posts| && posts[i].groupId == Some(id)
  }

  function CategoryOtherThan(id: int): Category -> bool {
    (c: Category) => c.id != id
  }

  function TopicOtherThan(id: int): Topic -> bool {
    (x: Topic) => x.id != id
  }

  function GroupOtherThan(id: int): Group -> bool {
    (g: Group) => g.id != id
  }

  /** `t["category_id"] != category_id`: a topic with no category is kept. */
  function TopicOutside(categoryId: int): Topic -> bool {
    (x: Topic) => x.categoryId != Some(categoryId)
  }

  /** `g["topic_id"] != topic_id` */
  function GroupOutside(topicId: int): Group -> bool {
    (g: Group) => g.topicId != Some(topicId)
  }

  /** `g["topic_id"] not in deleted_topics`: a group with no topic is kept. */
  function GroupNotUnder(deleted: seq<int>): Group -> bool {
    (g: Group) => !(g.topicId.Some? && g.topicId.value in deleted)
  }

  /** `[t["id"] for t in topics if t["category_id"] == category_id]` */
  function TopicIdsIn(ts: seq<Topic>, categoryId: int): (r: seq<int>)
    ensures forall n :: n in r <==> exists i :: 0 <= i < |ts| && ts[i].id == n && ts[i].categoryId == Some(categoryId)
  {
    if ts == [] then []
    else (if ts[0].categoryId == Some(categoryId) then [ts[0].id] else []) + TopicIdsIn(ts[1..], categoryId)
  }

  /** The category delete: the category, its topics, and the groups of those topics go. */
  function DeleteCategory(t: Taxonomy, id: int): Taxonomy {
    var deleted := TopicIdsIn(t.topics, id);
    Taxonomy(
      Filter(t.categories, CategoryOtherThan(id)),
      Filter(t.topics, TopicOutside(id)),
      Filter(t.groups, GroupNotUnder(deleted)))
  }

  /** The topic delete: the topic and its groups go. */
  function DeleteTopic(t: Taxonomy, id: int): Taxonomy {
    t.(topics := Filter(t.topics, TopicOtherThan(id)), groups := Filter(t.groups, GroupOutside(id)))
  }

  /** The group delete: only that group goes. */
  function DeleteGroup(t: Taxonomy, id: int): Taxonomy {
    t.(groups := Filter(t.groups, GroupOtherThan(id)))
  }

  /** Deleting a category removes exactly the categories with its id, exactly its
      topics, and exactly the groups of those topics; all else stays, in order. */
  lemma DeleteCategoryExact(t: Taxonomy, id: int, c: Category, x: Topic, g: Group)
    ensures c in DeleteCategory(t, id).categories <==> c in t.categories && c.id != id
    ensures x in DeleteCategory(t, id).topics <==> x in t.topics && x.categoryId != Some(id)
    ensures g in DeleteCategory(t, id).groups <==> (g in t.groups &&
      !(exists i :: 0 <= i < |t.topics| && t.topics[i].categoryId == Some(id) && g.topicId == Some(t.topics[i].id)))
  {
    FilterMembers(t.categories, CategoryOtherThan(id));
    FilterMembers(t.topics, TopicOutside(id));
    FilterMembers(t.groups, GroupNotUnder(TopicIdsIn(t.topics, id)));
  }

  /** Deleting a topic removes exactly the topics with its id and exactly its groups. */
  lemma DeleteTopicExact(t: Taxonomy, id: int, x: Topic, g: Group)
    ensures DeleteTopic(t, id).categories == t.categories
    ensures x in DeleteTopic(t, id).topics <==> x in t.topics && x.id != id
    ensures g in DeleteTopic(t, id).groups <==> g in t.groups && g.topicId != Some(id)
  {
    FilterMembers(t.topics, TopicOtherThan(id));
    FilterMembers(t.groups, GroupOutside(id));
  }

  /** Deleting a group removes exactly the groups with its id. */
  lemma DeleteGroupExact(t: Taxonomy, id: int, g: Group)
    ensures DeleteGroup(t, id).categories == t.categories && DeleteGroup(t, id).topics == t.topics
    ensures g in DeleteGroup(t, id).groups <==> g in t.groups && g.id != id
  {
    FilterMembers(t.groups, GroupOtherThan(id));
  }

  /** Two records of a list whose ids differ and whose names differ ignoring case. */
  function CategoriesApart(): (Category, Category) -> bool {
    (a: Category, b: Category) => a.id != b.id && Lower(a.name) != Lower(b.name)
  }

  function TopicsApart(): (Topic, Topic) -> bool {
    (a: Topic, b: Topic) => a.id != b.id && Lower(a.name) != Lower(b.name)
  }

  function GroupsApart(): (Group, Group) -> bool {
    (a: Group, b: Group) => a.id != b.id && Lower(a.name) != Lower(b.name)
  }

  /** Dropping records from a list keeps its ids and names unique. */
  lemma FilterCategoriesKeepsUnique(cs: seq<Category>, keep: Category -> bool)
    requires UniqueIds(CategoryEntries(cs)) && UniqueNames(CategoryEntries(cs))
    ensures UniqueIds(CategoryEntries(Filter(cs, keep))) && UniqueNames(CategoryEntries(Filter(cs, keep)))
  {
    var es := CategoryEntries(cs);
    assert forall i, j :: 0 <= i < j < |cs| ==> CategoriesApart()(cs[i], cs[j]) by {
      assert forall i :: 0 <= i < |cs| ==> es[i] == (cs[i].id, cs[i].name);
    }
    FilterKeepsOrder(cs, keep, CategoriesApart());
  }

  lemma FilterTopicsKeepsUnique(ts: seq<Topic>, keep: Topic -> bool)
    requires UniqueIds(TopicEntries(ts)) && UniqueNames(TopicEntries(ts))
    ensures UniqueIds(TopicEntries(Filter(ts, keep))) && UniqueNames(TopicEntries(Filter(ts, keep)))
  {
    var es := TopicEntries(ts);
    assert forall i, j :: 0 <= i < j < |ts| ==> TopicsApart()(ts[i], ts[j]) by {
      assert forall i :: 0 <= i < |ts| ==> es[i] == (ts[i].id, ts[i].name);
    }
    FilterKeepsOrder(ts, keep, TopicsApart());
  }

  lemma FilterGroupsKeepsUnique(gs: seq<Group>, keep: Group -> bool)
    requires UniqueIds(GroupEntries(gs)) && UniqueNames(GroupEntries(gs))
    ensures UniqueIds(GroupEntries(Filter(gs, keep))) && UniqueNames(GroupEntries(Filter(gs, keep)))
  {
    var es := GroupEntries(gs);
    assert forall i, j :: 0 <= i < j < |gs| ==> GroupsApart()(gs[i], gs[j]) by {
      assert forall i :: 0 <= i < |gs| ==> es[i] == (gs[i].id, gs[i].name);
    }
    FilterKeepsOrder(gs, keep, GroupsApart());
  }

  /** The three deletes keep a well-formed taxonomy well-formed. */
  lemma DeletesKeepWellFormed(t: Taxonomy, id: int)
    requires WellFormed(t)
    ensures WellFormed(DeleteCategory(t, id))
    ensures WellFormed(DeleteTopic(t, id))
    ensures WellFormed(DeleteGroup(t, id))
  {
    FilterCategoriesKeepsUnique(t.categories, CategoryOtherThan(id));
    FilterTopicsKeepsUnique(t.topics, TopicOutside(id));
    FilterGroupsKeepsUnique(t.groups, GroupNotUnder(TopicIdsIn(t.topics, id)));
    FilterTopicsKeepsUnique(t.topics, TopicOtherThan(id));
    FilterGroupsKeepsUnique(t.groups, GroupOutside(id));
    FilterGroupsKeepsUnique(t.groups, GroupOtherThan(id));
  }

  /** After a category delete no topic refers to the category and no group to one of
      its topics. */
  lemma DeleteCategoryLeavesNoOrphans(t: Taxonomy, id: int)
    ensures forall x :: x in DeleteCategory(t, id).topics ==> x.categoryId != Some(id)
    ensures forall g, i :: g in DeleteCategory(t, id).groups && 0 <= i < |t.topics| && t.topics[i].categoryId == Some(id) ==>
      g.topicId != Some(t.topics[i].id)
  {
    FilterMembers(t.topics, TopicOutside(id));
    FilterMembers(t.groups, GroupNotUnder(TopicIdsIn(t.topics, id)));
  }

  /** `api_delete_category`: refused, with nothing saved, while a post refers to the
      category; posts are never changed, so they may keep ids of deleted topics and
      groups. */
  method ApiDeleteCategory(store: Store, categoryId: int) returns (r: Outcome)
    modifies store
    ensures r == Fail(InUse) <==> CategoryUsed(old(store.posts), categoryId)
    ensures r == (if CategoryUsed(old(store.posts), categoryId) then Fail(InUse) else Pass)
    ensures r.Fail? ==> store.taxonomy == old(store.taxonomy)
    ensures r.Pass? ==> store.taxonomy == DeleteCategory(old(store.taxonomy), categoryId)
    ensures store.posts == old(store.posts)
  {
    var cats := store.taxonomy;
    var posts := store.posts;
    if CategoryUsed(posts, categoryId) {
      return Fail(InUse);
    }
    cats := cats.(categories := Filter(cats.categories, CategoryOtherThan(categoryId)));
    var deletedTopics := TopicIdsIn(cats.topics, categoryId);
    cats := cats.(topics := Filter(cats.topics, TopicOutside(categoryId)));
    cats := cats.(groups := Filter(cats.groups, GroupNotUnder(deletedTopics)));
    store.taxonomy := cats;
    return Pass;
  }

  /** `api_delete_topic` */
  method ApiDeleteTopic(store: Store, topicId: int) returns (r: Outcome)
    modifies store
    ensures r == Fail(InUse) <==> TopicUsed(old(store.posts), topicId)
    ensures r == (if TopicUsed(old(store.posts), topicId) then Fail(InUse) else Pass)
    ensures r.Fail? ==> store.taxonomy == old(store.taxonomy)
    ensures r.Pass? ==> store.taxonomy == DeleteTopic(old(store.taxonomy), topicId)
    ensures store.posts == old(store.posts)
  {
    var cats := store.taxonomy;
    var posts := store.posts;
    if TopicUsed(posts, topicId) {
      return Fail(InUse);
    }
    cats := cats.(topics := Filter(cats.topics, TopicOtherThan(topicId)));
    cats := cats.(groups := Filter(cats.groups, GroupOutside(topicId)));
    store.taxonomy := cats;
    return Pass;
  }

  /** `api_delete_group` */
  method ApiDeleteGroup(store: Store, groupId: int) returns (r: Outcome)
    modifies store
    ensures r == Fail(InUse) <==> GroupUsed(old(store.posts), groupId)
    ensures r == (if GroupUsed(old(store.posts), groupId) then Fail(InUse) else Pass)
    ensures r.Fail? ==> store.taxonomy == old(store.taxonomy)
    ensures r.Pass? ==> store.taxonomy == DeleteGroup(old(store.taxonomy), groupId)
    ensures store.posts == old(store.posts)
  {
    var cats := store.taxonomy;
    var posts := store.posts;
    if GroupUsed(posts, groupId) {
      return Fail(InUse);
    }
    cats := cats.(groups := Filter(cats.groups, GroupOtherThan(groupId)));
    store.taxonomy := cats;
    return Pass;
  }

  // ---------------------------------------------------------------- status endpoint

  /** `api_update_post_status`: a missing status or one other than "public"/"private"
      is rejected with nothing changed; otherwise the toggle runs and the endpoint
      reports success whatever the toggle reported. */
  method ApiUpdatePostStatus(store: Store, postId: int, status: Option<string>) returns (r: Outcome)
    modifies store
    ensures r == Fail(InvalidStatus) <==> status.None? || TargetStatus(status.value).None?
    ensures r == (if status.None? || TargetStatus(status.value).None? then Fail(InvalidStatus) else Pass)
    ensures r.Fail? ==> store.posts == old(store.posts)
    ensures r.Pass? ==> r == Pass && store.posts == Toggle(old(store.posts), postId, status.value).posts
    ensures store.taxonomy == old(store.taxonomy)
  {
    if status.None? || (status.value != "public" && status.value != "private") {
      return Fail(InvalidStatus);
    }
    var _ := ToggleStatus(store, postId, status.value);
    return Pass;
  }
}
