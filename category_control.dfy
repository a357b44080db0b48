/** control/categoryControl.py: `CategoryControl.add_or_get_category`, `add_or_get_topic`
    and `add_or_get_group`. Each either passes an existing id through or creates
    a new entity (case-insensitively unique name, id = largest id + 1) and saves
    the taxonomy. */
module CategoryControl {
  import opened Wrappers
  import opened Records
  import opened Text
  import opened Entries
  import opened DataLoader

  /** The id a resolution hands on, and the taxonomy after it. */
  datatype Resolution = Resolution(id: Ref, taxonomy: Taxonomy)

  /** The category step: `existing` hands the id on; any other mode creates a category
      named `newName`, unless the name is missing or taken. */
  function ResolveCategory(t: Taxonomy, mode: string, categoryId: Ref, newName: Option<string>): (r: Result<Resolution, Error>)
    ensures mode == "existing" ==> r == Success(Resolution(categoryId, t))
    ensures mode != "existing" ==> (r.Failure? <==> newName.None? || NameTaken(CategoryEntries(t.categories), newName.value))
    ensures r.Failure? ==> r.error == (if newName.None? then MissingName else DuplicateName)
    ensures r.Success? ==> r.value.taxonomy.topics == t.topics && r.value.taxonomy.groups == t.groups
  {
    if mode == "existing" then Success(Resolution(categoryId, t))
    else if newName.None? then Failure(MissingName)
    else if NameTaken(CategoryEntries(t.categories), newName.value) then Failure(DuplicateName)
    else
      var newId := NextId(CategoryEntries(t.categories));
      Success(Resolution(Some(newId), t.(categories := t.categories + [Category(newId, newName.value)])))
  }

  /** The topic step; a new topic is linked to `categoryId` as given. */
  function ResolveTopic(t: Taxonomy, mode: string, topicId: Ref, newName: Option<string>, categoryId: Ref): (r: Result<Resolution, Error>)
    ensures mode == "existing" ==> r == Success(Resolution(topicId, t))
    ensures mode != "existing" ==> (r.Failure? <==> newName.None? || NameTaken(TopicEntries(t.topics), newName.value))
    ensures r.Failure? ==> r.error == (if newName.None? then MissingName else DuplicateName)
    ensures r.Success? ==> r.value.taxonomy.categories == t.categories && r.value.taxonomy.groups == t.groups
  {
    if mode == "existing" then Success(Resolution(topicId, t))
    else if newName.None? then Failure(MissingName)
    else if NameTaken(TopicEntries(t.topics), newName.value) then Failure(DuplicateName)
    else
      var newId := NextId(TopicEntries(t.topics));
      Success(Resolution(Some(newId), t.(topics := t.topics + [Topic(newId, newName.value, categoryId)])))
  }

  /** The group step; a new group is linked to `topicId` as given. */
  function ResolveGroup(t: Taxonomy, mode: string, groupId: Ref, newName: Option<string>, topicId: Ref): (r: Result<Resolution, Error>)
    ensures mode == "existing" ==> r == Success(Resolution(groupId, t))
    ensures mode != "existing" ==> (r.Failure? <==> newName.None? || NameTaken(GroupEntries(t.groups), newName.value))
    ensures r.Failure? ==> r.error == (if newName.None? then MissingName else DuplicateName)
    ensures r.Success? ==> r.value.taxonomy.categories == t.categories && r.value.taxonomy.topics == t.topics
  {
    if mode == "existing" then Success(Resolution(groupId, t))
    else if newName.None? then Failure(MissingName)
    else if NameTaken(GroupEntries(t.groups), newName.value) then Failure(DuplicateName)
    else
      var newId := NextId(GroupEntries(t.groups));
      Success(Resolution(Some(newId), t.(groups := t.groups + [Group(newId, newName.value, topicId)])))
  }

  /** A created category has an id no category had (1 in an empty list) and the name
      exactly as given; exactly one category is appended. */
  lemma ResolveCategoryCreates(t: Taxonomy, mode: string, categoryId: Ref, newName: Option<string>)
    requires mode != "existing"
    requires ResolveCategory(t, mode, categoryId, newName).Success?
    ensures var r := ResolveCategory(t, mode, categoryId, newName).value;
      r.id.Some? && (forall c :: c in t.categories ==> c.id < r.id.value) &&
      (t.categories == [] ==> r.id == Some(1)) &&
      r.taxonomy.categories == t.categories + [Category(r.id.value, newName.value)]
  {
    var es := CategoryEntries(t.categories);
    forall c | c in t.categories ensures c.id < NextId(es) {
      var i :| 0 <= i < |t.categories| && t.categories[i] == c;
      assert es[i].0 == c.id;
    }
  }

  lemma ResolveTopicCreates(t: Taxonomy, mode: string, topicId: Ref, newName: Option<string>, categoryId: Ref)
    requires mode != "existing"
    requires ResolveTopic(t, mode, topicId, newName, categoryId).Success?
    ensures var r := ResolveTopic(t, mode, topicId, newName, categoryId).value;
      r.id.Some? && (forall x :: x in t.topics ==> x.id < r.id.value) &&
      (t.topics == [] ==> r.id == Some(1)) &&
      r.taxonomy.topics == t.topics + [Topic(r.id.value, newName.value, categoryId)]
  {
    var es := TopicEntries(t.topics);
    forall x | x in t.topics ensures x.id < NextId(es) {
      var i :| 0 <= i < |t.topics| && t.topics[i] == x;
      assert es[i].0 == x.id;
    }
  }

  lemma ResolveGroupCreates(t: Taxonomy, mode: string, groupId: Ref, newName: Option<string>, topicId: Ref)
    requires mode != "existing"
    requires ResolveGroup(t, mode, groupId, newName, topicId).Success?
    ensures var r := ResolveGroup(t, mode, groupId, newName, topicId).value;
      r.id.Some? && (forall x :: x in t.groups ==> x.id < r.id.value) &&
      (t.groups == [] ==> r.id == Some(1)) &&
      r.taxonomy.groups == t.groups + [Group(r.id.value, newName.value, topicId)]
  {
    var es := GroupEntries(t.groups);
    forall x | x in t.groups ensures x.id < NextId(es) {
      var i :| 0 <= i < |t.groups| && t.groups[i] == x;
      assert es[i].0 == x.id;
    }
  }

  /** Every list of the taxonomy has unique ids and names that are unique ignoring case. */
  ghost predicate WellFormed(t: Taxonomy) {
    UniqueIds(CategoryEntries(t.categories)) && UniqueNames(CategoryEntries(t.categories)) &&
    UniqueIds(TopicEntries(t.topics)) && UniqueNames(TopicEntries(t.topics)) &&
    UniqueIds(GroupEntries(t.groups)) && UniqueNames(GroupEntries(t.groups))
  }

  /** Each resolver keeps a well-formed taxonomy well-formed. */
  lemma ResolveCategoryKeepsWellFormed(t: Taxonomy, mode: string, id: Ref, newName: Option<string>)
    requires WellFormed(t)
    requires ResolveCategory(t, mode, id, newName).Success?
    ensures WellFormed(ResolveCategory(t, mode, id, newName).value.taxonomy)
  {
    if mode != "existing" {
      var cs := CategoryEntries(t.categories);
      AppendNextKeepsUnique(cs, newName.value);
      assert CategoryEntries(t.categories + [Category(NextId(cs), newName.value)]) == cs + [(NextId(cs), newName.value)];
    }
  }

  lemma ResolveTopicKeepsWellFormed(t: Taxonomy, mode: string, id: Ref, newName: Option<string>, categoryId: Ref)
    requires WellFormed(t)
    requires ResolveTopic(t, mode, id, newName, categoryId).Success?
    ensures WellFormed(ResolveTopic(t, mode, id, newName, categoryId).value.taxonomy)
  {
    if mode != "existing" {
      var ts := TopicEntries(t.topics);
      AppendNextKeepsUnique(ts, newName.value);
      assert TopicEntries(t.topics + [Topic(NextId(ts), newName.value, categoryId)]) == ts + [(NextId(ts), newName.value)];
    }
  }

  lemma ResolveGroupKeepsWellFormed(t: Taxonomy, mode: string, id: Ref, newName: Option<string>, topicId: Ref)
    requires WellFormed(t)
    requires ResolveGroup(t, mode, id, newName, topicId).Success?
    ensures WellFormed(ResolveGroup(t, mode, id, newName, topicId).value.taxonomy)
  {
    if mode != "existing" {
      var gs := GroupEntries(t.groups);
      AppendNextKeepsUnique(gs, newName.value);
      assert GroupEntries(t.groups + [Group(NextId(gs), newName.value, topicId)]) == gs + [(NextId(gs), newName.value)];
    }
  }

  /** Topic names are unique across all topics, not per category: a name used under
      one category cannot be used under another. */
  lemma TopicNamesAreGlobal(t: Taxonomy, name: string, categoryId: Ref)
    requires exists i :: 0 <= i < |t.topics| && t.topics[i].name == name && t.topics[i].categoryId != categoryId
    ensures ResolveTopic(t, "new", None, Some(name), categoryId) == Failure(DuplicateName)
  {
    var i :| 0 <= i < |t.topics| && t.topics[i].name == name && t.topics[i].categoryId != categoryId;
    assert TopicEntries(t.topics)[i].1 == name;
  }

  /** `add_or_get_category`: the store's taxonomy changes only when a category is created. */
  method AddOrGetCategory(store: Store, mode: string, categoryId: Ref, newName: Option<string>) returns (r: Result<Ref, Error>)
    modifies store
    ensures var spec := ResolveCategory(old(store.taxonomy), mode, categoryId, newName);
      if spec.Success? then r == Success(spec.value.id) && store.taxonomy == spec.value.taxonomy
      else r == Failure(spec.error) && store.taxonomy == old(store.taxonomy)
    ensures store.posts == old(store.posts)
  {
    var cats := store.taxonomy;
    if mode == "existing" {
      return Success(categoryId);
    }
    if newName.None? {
      return Failure(MissingName);
    }
    var name := newName.value;
    if NameTaken(CategoryEntries(cats.categories), name) {
      return Failure(DuplicateName);
    }
    var newId := NextId(CategoryEntries(cats.categories));
    cats := cats.(categories := cats.categories + [Category(newId, name)]);
    store.taxonomy := cats;
    return Success(Some(newId));
  }

  /** `add_or_get_topic` */
  method AddOrGetTopic(store: Store, mode: string, topicId: Ref, newName: Option<string>, categoryId: Ref) returns (r: Result<Ref, Error>)
    modifies store
    ensures var spec := ResolveTopic(old(store.taxonomy), mode, topicId, newName, categoryId);
      if spec.Success? then r == Success(spec.value.id) && store.taxonomy == spec.value.taxonomy
      else r == Failure(spec.error) && store.taxonomy == old(store.taxonomy)
    ensures store.posts == old(store.posts)
  {
    var cats := store.taxonomy;
    if mode == "existing" {
      return Success(topicId);
    }
    if newName.None? {
      return Failure(MissingName);
    }
    var name := newName.value;
    if NameTaken(TopicEntries(cats.topics), name) {
      return Failure(DuplicateName);
    }
    var newId := NextId(TopicEntries(cats.topics));
    cats := cats.(topics := cats.topics + [Topic(newId, name, categoryId)]);
    store.taxonomy := cats;
    return Success(Some(newId));
  }

  /** `add_or_get_group` */
  method AddOrGetGroup(store: Store, mode: string, groupId: Ref, newName: Option<string>, topicId: Ref) returns (r: Result<Ref, Error>)
    modifies store
    ensures var spec := ResolveGroup(old(store.taxonomy), mode, groupId, newName, topicId);
      if spec.Success? then r == Success(spec.value.id) && store.taxonomy == spec.value.taxonomy
      else r == Failure(spec.error) && store.taxonomy == old(store.taxonomy)
    ensures store.posts == old(store.posts)
  {
    var cats := store.taxonomy;
    if mode == "existing" {
      return Success(groupId);
    }
    if newName.None? {
      return Failure(MissingName);
    }
    var name := newName.value;
    if NameTaken(GroupEntries(cats.groups), name) {
      return Failure(DuplicateName);
    }
    var newId := NextId(GroupEntries(cats.groups));
    cats := cats.(groups := cats.groups + [Group(newId, name, topicId)]);
    store.taxonomy := cats;
    return Success(Some(newId));
  }
}
