/** The records of the two JSON documents: posts, and the taxonomy of
    categories, topics and groups; the post statuses of util/post_status.py;
    and the errors the operations report. */
module Records {
  import opened Wrappers

  /** The post states: public, private (visible to the administrator only) and draft. */
  datatype Status = Public | Private | Draft

  /** The number the JSON document stores for a status. */
  function StatusCode(s: Status): (c: int)
    ensures 0 <= c <= 2
  {
    match s
    case Public => 0
    case Private => 1
    case Draft => 2
  }

  /** The status a stored number stands for, if any. */
  function StatusOfCode(c: int): (r: Option<Status>)
    ensures r.Some? <==> 0 <= c <= 2
  {
    if c == 0 then Some(Public) else if c == 1 then Some(Private) else if c == 2 then Some(Draft) else None
  }

  /** The stored numbers 0, 1 and 2 and the three statuses are in one-to-one correspondence. */
  lemma StatusCodeRoundTrip(s: Status, c: int)
    ensures StatusOfCode(StatusCode(s)) == Some(s)
    ensures StatusOfCode(c).Some? ==> StatusCode(StatusOfCode(c).value) == c
  {
  }

  /** A foreign key as stored: an integer id, or JSON null. */
  type Ref = Option<int>

  datatype Category = Category(id: int, name: string)

  datatype Topic = Topic(id: int, name: string, categoryId: Ref)

  datatype Group = Group(id: int, name: string, topicId: Ref)

  /** A post; `createdAt` is the "YYYY-MM-DD HH:MM" string it was stamped with. */
  datatype Post = Post(
    id: int,
    title: string,
    content: string,
    categoryId: Ref,
    topicId: Ref,
    groupId: Ref,
    status: Status,
    createdAt: string)

  /** The taxonomy document: its three lists. */
  datatype Taxonomy = Taxonomy(categories: seq<Category>, topics: seq<Topic>, groups: seq<Group>)

  const EmptyTaxonomy := Taxonomy([], [], [])

  /** A post together with the names of its category, topic and group, for display. */
  datatype NamedPost = NamedPost(post: Post, categoryName: string, topicName: string, groupName: string)

  datatype Error =
    | DuplicateName   // a new name equals an existing one of its kind, ignoring case
    | EmptyName       // a new name is empty after trimming (edit form)
    | MissingName     // a new name was not supplied at all (`None.lower()`)
    | NotFound        // no post with the requested id (or, publicly, not a public one)
    | InUse           // a delete refused because a post refers to the entity
    | InvalidAction   // a post-save action other than "draft" or "public"
    | InvalidId       // `int(...)` on a value that is not an integer
    | InvalidStatus   // a status other than "public" or "private"
    | Unreadable      // a taxonomy document that exists but cannot be parsed

  /** The outcome of a handler that returns no value. */
  datatype Outcome = Pass | Fail(error: Error)
}
