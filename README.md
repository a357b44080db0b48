# bb_blankboard core in Dafny

This project models the data logic of bb_blankboard, a small blog backed by two JSON documents:

- a list of posts;
- a taxonomy of categories, topics (each under a category) and groups (each under a topic).

Every request handler loads the two documents, changes them in memory and saves them. In the model, the documents after loading are the two fields of a `Store` object (`DataLoader.Store`). Handlers that change state are methods that modify the store. Each method is proved equal to a specification function on the old state, and the lemmas state what the source promises about those functions.

Modules, following the source files:

- `Records`: posts, categories, topics, groups and the three post statuses of `util/post_status.py` (public 0, private 1, draft 2).
- `Text`: Python's `str.strip`, ASCII `lower`, substring `in`, string ordering, `int(...)` and `str(n)`.
- `Entries`: what the taxonomy lists share:
  - a new id is `max(ids, default=0) + 1`;
  - names are compared case-insensitively;
  - `{id: name}` maps are built;
  - the first record with an id can be looked up.
- `Seqs`: list comprehensions with a condition, and slices.
- `Sorting`: `list.sort(key=created_at)`, as an in-place array insertion sort proved stable against a reference sort, and any stable sort is shown equal to that reference.
- `DataLoader` (`util/dataLoader.py`): the store and the loaders with their soft-fail defaults, the detail lookups with display names, and topics by category and groups by topic.
- `PostListService` (`services/post_list_service.py`): `build_post_list`.
- `CategoryControl` (`control/categoryControl.py`): the three `add_or_get_*` resolvers.
- `PostControlAdmin` (`control/postControlAdmin.py`): `create_post`, `delete_post` and `update_post`.
- `PostService` (`services/post_service.py`): `toggle_status` and `get_related_posts`.
- `Handlers` (`main.py`):
  - `normalize_id`;
  - create, rename and delete for categories, topics and groups;
  - the post status endpoint.

JSON null in a foreign key is `None` of `Ref = Option<int>`. A failure the source signals as a raised exception or as an error response is a `Failure(...)` or `Fail(...)` value. In each such case the model states which store keeps its old contents.

The model follows the code in three places where a reader might expect otherwise:

- The taxonomy handlers in `main.py` check no names against the existing ones. `Handlers.CreateCategoryRepeatsName` and `Handlers.RenameMayRepeatName` show that duplicate names arise.
- A new post id is the last post's id plus one, not the largest id plus one. It is fresh only while ids ascend along the list. Create, update, delete and toggle keep the ids ascending (`CreateKeepsInvariants`, `UpdateKeepsAscending`, `DeleteKeepsAscending`, `ToggleKeepsAscending`). `NextPostIdNeedsOrder` shows the id clash when they do not ascend.
- Only a missing taxonomy file is treated as empty. A taxonomy file that cannot be parsed is an error that reaches the caller (`LoadTaxonomy`). Any failure to read the posts gives the empty list (`LoadPosts`).

## Model

| member | source | states |
|---|---|---|
| Records.StatusCodeRoundTrip | util/post_status.py:4-6 | the stored numbers 0, 1, 2 and the three statuses correspond one to one |
| Text.ParseShowInt | main.py:89-90 | `int(str(n)) == n` for every integer, so an id written in decimal is read back |
| Text.StripEmpty | services/post_list_service.py:51-52 | a stripped string is empty exactly when the input is all whitespace |
| Text.StripMeaning | services/post_list_service.py:51 | the strip is a contiguous part of the input with only whitespace before and after it |
| Text.StripIdempotent | control/postControlAdmin.py:219 | stripping twice is stripping once |
| Entries.NextId | control/categoryControl.py:36 | a new id is 1 for an empty list and larger than every id of the list |
| Entries.AppendNextKeepsUnique | control/categoryControl.py:32-42 | appending with the next id keeps ids unique, and appending an unused name keeps names unique ignoring case |
| Entries.NameMap | services/post_list_service.py:38-40 | the id-to-name map has exactly the ids of the list as keys |
| Entries.NameMapLatest | util/dataLoader.py:152-154 | for an id, the map holds the name of the last entry with that id |
| Entries.NameOrMeaning | util/dataLoader.py:160-162 | a lookup gives the entry's name when ids are unique, and the default for a null or unknown id |
| Entries.IndexOf | main.py:472-478 | the position of the first entry with the id, or none when no entry has it |
| Seqs.FilterMembers | control/postControlAdmin.py:203 | a comprehension keeps exactly the elements that meet its condition |
| Seqs.FilterKeepsOrder | services/post_list_service.py:57-61 | a comprehension keeps any relation between earlier and later elements, so it keeps their order |
| Seqs.Take | services/post_service.py:84 | `s[:n]` is a prefix of `s` of length `min(n, len)`, or `len + n` clipped at 0 for negative `n` |
| Sorting.StableSortCorrect | services/post_list_service.py:87-90 | the reference sort is sorted by `created_at` and keeps the input order of posts with equal keys |
| Sorting.StablySortedIsPermutation | services/post_list_service.py:87-90 | a stable sort is a permutation of its input |
| Sorting.StablySortedIsStableSort | services/post_list_service.py:87-90 | any stable sort returns exactly the reference sort |
| Sorting.SortByCreatedAt | services/post_list_service.py:87-90 | the in-place array sort leaves the array stably sorted, ascending or descending, as a permutation of its old contents |
| DataLoader.PublicOnlyMeaning | util/dataLoader.py:36-40 | the public view holds each public post as often as the list does, no other post, and keeps the list order |
| DataLoader.LoadPosts | util/dataLoader.py:23-46 | a read failure gives `[]`; otherwise the list, or its public part when asked |
| DataLoader.SaveLoadPosts | util/dataLoader.py:49-57 | loading what was saved gives the saved list, or its public part |
| DataLoader.LoadTaxonomy | util/dataLoader.py:63-80 | a missing file is the empty taxonomy, a missing key an empty list, an unparsable file an error |
| DataLoader.SaveLoadTaxonomy | util/dataLoader.py:83-91 | loading what was saved gives the saved taxonomy |
| DataLoader.PostIndex | util/dataLoader.py:109 | the position of the first post with the id; none exactly when no post has it |
| DataLoader.FindPostFirst | util/dataLoader.py:132 | the lookup returns the first post with the id |
| DataLoader.Decorate | util/dataLoader.py:157-162 | the post is returned unchanged, and a null reference shows "未分類" for the category and "-" for topic and group |
| DataLoader.DecorateCategoryName | util/dataLoader.py:160 | with unique ids, the category the post refers to is named; an unknown id shows "未分類" |
| DataLoader.DecorateTopicName | util/dataLoader.py:161 | with unique ids, the post's topic is named; an unknown id shows "-" |
| DataLoader.DecorateGroupName | util/dataLoader.py:162 | with unique ids, the post's group is named; an unknown id shows "-" |
| DataLoader.PostDetailPublic | util/dataLoader.py:96-115 | not found exactly when no post has the id or the first such post is not public; otherwise that post decorated |
| DataLoader.PostDetailAdmin | util/dataLoader.py:121-138 | none exactly when no post has the id, whatever the status; otherwise the first post with the id, decorated |
| DataLoader.PublicDetailIsAdminDetail | util/dataLoader.py:109-112 | the public lookup succeeds exactly when the admin lookup finds a public post, and then returns the same |
| DataLoader.TopicsByCategoryMeaning | util/dataLoader.py:176-185 | exactly the topics of the category, each as often as the list has it, in list order |
| DataLoader.GroupsByTopicMeaning | util/dataLoader.py:191-200 | exactly the groups of the topic, each as often as the list has it, in list order |
| PostListService.SearchQuery | services/post_list_service.py:50-55 | no search exactly when `q` is absent or all whitespace; otherwise the trimmed `q` |
| PostListService.Search | services/post_list_service.py:43-61 | the search step's list, with `searched` true exactly when a search query is in effect |
| PostListService.SearchStageIsFilter | services/post_list_service.py:57-61 | the search is a filter on lower-cased title or content containing the lower-cased query |
| PostListService.FilterByIds | services/post_list_service.py:66-81 | the id filters' list, with `filtered` true exactly when an id was given |
| PostListService.IdStageIsFilter | services/post_list_service.py:69-81 | the three id filters in turn equal one filter on the conjunction |
| PostListService.SelectedIsFilter | services/post_list_service.py:26-81 | all narrowing steps equal one filter on the conjunction of their conditions |
| PostListService.SelectedMeaning | services/post_list_service.py:26-81 | a post is selected iff it is in the store and meets every condition, as often as the store has it |
| PostListService.SortedSelectionMeaning | services/post_list_service.py:87-90 | the sorted list permutes the selection, and is ascending iff `sort == "created_asc"` |
| PostListService.TotalPages | services/post_list_service.py:95-96 | at least 1; 1 for no posts; otherwise `(pages-1)*limit < total <= pages*limit` |
| PostListService.PageOfMeaning | services/post_list_service.py:99-101 | the page is the run of at most `limit` posts from `(page-1)*limit`, empty past the end, full when enough posts follow |
| PostListService.PagesCover | services/post_list_service.py:99-101 | every post of the list is on the page `i / limit + 1` |
| PostListService.Paginate | services/post_list_service.py:95-101 | `total` is the list length, with the page count and the page as above |
| PostListService.LabelMeaning | services/post_list_service.py:107-110 | a listed post carries the names of its category, topic and group, or `""` for an unknown id |
| PostListService.AddNames | services/post_list_service.py:107-110 | the naming loop gives each page post its three names from the maps, the post itself unchanged |
| PostListService.SortPosts | services/post_list_service.py:87-90 | sorting through the array gives the reference stable sort |
| PostListService.BuildPostList | services/post_list_service.py:5-123 | the method's result is the listing specified stage by stage |
| PostListService.ListingBounds | services/post_list_service.py:95-101 | at most `limit` posts, none when the page starts past the total, and `total`/`total_pages` as above |
| PostListService.ListingSorted | services/post_list_service.py:87-90 | the listed posts are ascending by `created_at` iff `sort == "created_asc"`, descending otherwise |
| PostListService.ListingWanted | services/post_list_service.py:26-81 | every listed post is a store post that meets every condition |
| PostListService.SearchIgnoresCase | services/post_list_service.py:51-61 | the query "  Rust " finds a public post titled "RUST" |
| CategoryControl.ResolveCategory | control/categoryControl.py:12-47 | "existing" passes the id through unchanged; otherwise fails exactly for a missing or case-insensitively taken name, and leaves the other lists alone |
| CategoryControl.ResolveTopic | control/categoryControl.py:50-87 | as for categories |
| CategoryControl.ResolveGroup | control/categoryControl.py:90-127 | as for categories |
| CategoryControl.ResolveCategoryCreates | control/categoryControl.py:36-47 | a created category gets a fresh id, 1 for an empty list, and is the only record appended, with its name as given |
| CategoryControl.ResolveTopicCreates | control/categoryControl.py:75-87 | a created topic gets a fresh id and stores the caller's category id as given |
| CategoryControl.ResolveGroupCreates | control/categoryControl.py:115-127 | a created group gets a fresh id and stores the caller's topic id as given |
| CategoryControl.ResolveCategoryKeepsWellFormed | control/categoryControl.py:32-42 | resolving keeps ids and names unique in every list |
| CategoryControl.ResolveTopicKeepsWellFormed | control/categoryControl.py:71-81 | as for categories |
| CategoryControl.ResolveGroupKeepsWellFormed | control/categoryControl.py:111-121 | as for categories |
| CategoryControl.TopicNamesAreGlobal | control/categoryControl.py:71 | a topic name used under one category is refused under another |
| CategoryControl.AddOrGetCategory | control/categoryControl.py:12-47 | the method returns the resolver's id and saves its taxonomy; a failure saves nothing |
| CategoryControl.AddOrGetTopic | control/categoryControl.py:50-87 | as for categories |
| CategoryControl.AddOrGetGroup | control/categoryControl.py:90-127 | as for categories |
| PostControlAdmin.ActionStatus | control/postControlAdmin.py:139-144 | "draft" is private, "public" is public, anything else is rejected |
| PostControlAdmin.NextPostId | control/postControlAdmin.py:171 | 1 for no posts; larger than every id when ids ascend |
| PostControlAdmin.NextPostIdNeedsOrder | control/postControlAdmin.py:171 | with ids 2 then 1, the new id is 2, already used |
| PostControlAdmin.Create | control/postControlAdmin.py:126-193 | a bad action changes nothing; a failure keeps the posts; success appends one post after the unchanged old ones |
| PostControlAdmin.CreatedPost | control/postControlAdmin.py:168-190 | the new post has the next id, the form's title and content, the action's status and the timestamp, and the form's ids in `existing` modes |
| PostControlAdmin.CreateChainsParents | control/postControlAdmin.py:149-165 | a new category gets a fresh id, becomes the post's category and forces a new topic under it; a new group is put under the post's topic |
| PostControlAdmin.CreateKeepsInvariants | control/postControlAdmin.py:149-190 | creating keeps the taxonomy well-formed and the post ids ascending |
| PostControlAdmin.CreateWalkThrough | control/postControlAdmin.py:126-190 | from empty stores a create builds category, topic and group 1 and post 1; a second create with the same topic name fails |
| PostControlAdmin.CreateKeepsEarlierWrites | control/postControlAdmin.py:149-160 | a new category stays saved when the topic step then fails |
| PostControlAdmin.CreatePost | control/postControlAdmin.py:126-193 | the method's outcome and stores are those of the specification |
| PostControlAdmin.DeleteMeaning | control/postControlAdmin.py:202-204 | delete keeps exactly the posts with another id, as often as before, in order |
| PostControlAdmin.DeleteAbsent | control/postControlAdmin.py:203 | deleting an unused id changes nothing |
| PostControlAdmin.DeleteKeepsAscending | control/postControlAdmin.py:203 | deleting keeps post ids ascending |
| PostControlAdmin.DeletePost | control/postControlAdmin.py:198-206 | the store holds the filtered list and an unchanged taxonomy |
| PostControlAdmin.ChooseMeaning | control/postControlAdmin.py:250-298 | a "new" section fails on an empty or taken trimmed name and otherwise mints the next id; another mode parses the id field |
| PostControlAdmin.Settle | control/postControlAdmin.py:250-298 | the sections succeed exactly when each of the three choices does |
| PostControlAdmin.SettleSections | control/postControlAdmin.py:250-298 | each settled section is its choice against the list as loaded |
| PostControlAdmin.ChooseMints | control/postControlAdmin.py:256-296 | only "new" mints, with the next id and the trimmed name |
| PostControlAdmin.Edited | control/postControlAdmin.py:219-220 | the edited post keeps its id and creation time, is a draft, has the trimmed title, the untrimmed content and the settled ids |
| PostControlAdmin.Update | control/postControlAdmin.py:211-314 | failure changes neither store; a missing post is not found; success exactly when the post exists and all sections settle |
| PostControlAdmin.UpdatedPost | control/postControlAdmin.py:301-312 | success replaces only the first post with the id by its edited form and saves the grown taxonomy |
| PostControlAdmin.UpdateKeepsAscending | control/postControlAdmin.py:301-311 | updating keeps post ids ascending |
| PostControlAdmin.GrowKeepsCategoriesUnique | control/postControlAdmin.py:256-257 | appending a minted category keeps category ids and names unique |
| PostControlAdmin.GrowKeepsTopicsUnique | control/postControlAdmin.py:271-276 | the same for a minted topic |
| PostControlAdmin.GrowKeepsGroupsUnique | control/postControlAdmin.py:290-295 | the same for a minted group |
| PostControlAdmin.UpdateKeepsWellFormed | control/postControlAdmin.py:250-312 | updating keeps the taxonomy well-formed |
| PostControlAdmin.UpdatePost | control/postControlAdmin.py:211-314 | the method's outcome and stores are those of the specification |
| PostService.TargetStatus | services/post_service.py:21-22 | only "public" and "private" name a target state |
| PostService.Toggle | services/post_service.py:11-53 | an invalid request or an unknown id fails with the list unchanged |
| PostService.ToggleMeaning | services/post_service.py:27-50 | success exactly when the request is valid and the first post with the id is not a draft; then only that post takes the state |
| PostService.ToggleSkipsDrafts | services/post_service.py:33-34 | a draft fails and keeps its status |
| PostService.ToggleAlreadyThere | services/post_service.py:37-40 | a post already in the state succeeds with nothing written |
| PostService.ToggleIdempotent | services/post_service.py:37-50 | toggling twice reports and leaves what toggling once does |
| PostService.ToggleKeepsAscending | services/post_service.py:43-49 | toggling keeps post ids ascending |
| PostService.ToggleStatus | services/post_service.py:11-53 | the loop's result and the stored list are those of the specification |
| PostService.RelatedCandidatesMeaning | services/post_service.py:68-75 | the candidates are exactly the public posts of the category with another id, as often as stored |
| PostService.RelatedPostsMeaning | services/post_service.py:78-84 | related posts are newest first, a prefix of the sorted candidates, `min(limit, count)` of them, all candidates when the limit allows; the limit is a parameter, whose source default of 3 the detail page uses |
| Handlers.NormalizeId | main.py:89-90 | absent or `""` is no id; anything else is its parse, and an unparsable value is an invalid-id error |
| Handlers.NormalizeShownId | main.py:283-284 | the decimal form of an id normalises to that id |
| Handlers.CreateCategoryMeaning | main.py:430-451 | a category with a fresh id; a topic under it iff a topic name is given; a group under that topic iff both names are given and the topic id is non-zero |
| Handlers.CreateCategoryRepeatsName | main.py:430-432 | an existing category name is added again |
| Handlers.CreateCategoryKeepsIdsUnique | main.py:430-451 | the category create keeps ids unique in all three lists |
| Handlers.CreateTopicKeepsIdsUnique | main.py:543-551 | the topic create keeps topic ids unique |
| Handlers.CreateGroupKeepsIdsUnique | main.py:636-644 | the group create keeps group ids unique |
| Handlers.ApiCreateCategory | main.py:414-454 | the store's taxonomy becomes the category create's, posts unchanged |
| Handlers.ApiCreateTopic | main.py:529-553 | the store's taxonomy gains the topic with the next id and the given category id |
| Handlers.ApiCreateGroup | main.py:622-646 | the store's taxonomy gains the group with the next id and the given topic id |
| Handlers.RenameCategoryMeaning | main.py:472-478 | ids keep their places, so stay unique; only the first category with the id is renamed; an absent id changes nothing |
| Handlers.RenameTopicMeaning | main.py:572-578 | as for categories, parents kept |
| Handlers.RenameGroupMeaning | main.py:665-671 | as for categories, parents kept |
| Handlers.RenameMayRepeatName | main.py:472-478 | a rename can give two categories the same name ignoring case |
| Handlers.ApiRenameCategory | main.py:460-483 | the loop with `break` renames as specified, posts unchanged |
| Handlers.ApiRenameTopic | main.py:560-583 | as for categories |
| Handlers.ApiRenameGroup | main.py:653-673 | as for categories |
| Handlers.TopicIdsIn | main.py:512 | exactly the ids of the category's topics |
| Handlers.DeleteCategoryExact | main.py:509-521 | exactly the category, exactly its topics and exactly their groups go |
| Handlers.DeleteTopicExact | main.py:607-613 | exactly the topic and its groups go; categories unchanged |
| Handlers.DeleteGroupExact | main.py:699-702 | exactly the group goes; categories and topics unchanged |
| Handlers.DeletesKeepWellFormed | main.py:509-521 | the three deletes keep ids and names unique in every list |
| Handlers.DeleteCategoryLeavesNoOrphans | main.py:512-521 | after a category delete no topic refers to it and no group to one of its topics |
| Handlers.ApiDeleteCategory | main.py:487-521 | refused with `InUse`, with nothing saved, exactly when a post uses the category; otherwise the cascade and `Pass`; posts never change |
| Handlers.ApiDeleteTopic | main.py:587-613 | refused with `InUse` exactly when a post uses the topic; otherwise the topic and its groups go and the call passes |
| Handlers.ApiDeleteGroup | main.py:680-702 | refused with `InUse` exactly when a post uses the group; otherwise the group goes and the call passes |
| Handlers.ApiUpdatePostStatus | main.py:775-798 | an invalid status fails with `InvalidStatus` and nothing changed; otherwise the toggle runs, the posts are its result, and the call passes whatever it reported |

## Left out

- HTTP routing, FastAPI dependencies, cookies, redirects, template rendering and the JSON response bodies. Outcomes are `Outcome` and `Result` values.
- The admin login and its per-IP failure counter. They depend on environment credentials and the client address.
- Reading and writing the JSON files. The stores are the fields of `DataLoader.Store`. The file contents a load can meet are a datatype, and saves are proved to load back.
- Markdown-to-HTML conversion in `_decorate_post`. It calls a foreign library, so only the name part is modelled.
- `datetime.now()`. The formatted creation time is a parameter of create.
- `ceil(total / limit)` is computed on floats in the source and modelled as integer ceiling division.
- Text.Lower: folds ASCII letters only, because Unicode case mapping is not modelled.
- Text.ParseInt: accepts optional surrounding whitespace, one sign and ASCII digits. It does not accept the underscores between digits or the non-ASCII digits that Python's `int` also takes.
- BuildPostList: requires `page >= 1` and `limit >= 1`. The public listing route enforces both; the admin route does not, and negative slicing and division by zero there are not modelled.
- `control/postControlPublic.py` is not part of this model. It renders a template around the public listing and a 404 check.
- Concurrent requests racing between load and save. All operations are sequential.
- The debug `print` in `create_post`.
- A post missing a key (`p.get(...)` giving `None`). Every post record carries all fields, so `get_related_posts`'s default `""` for a missing `created_at` never applies.
- Values of the wrong JSON type. For example, a non-string `status` in the endpoint body is `None` in the model, which is rejected as the source rejects it.
- Choose: `int(None)` on a missing id field raises `TypeError` in the source rather than the `ValueError` of bad text. Both are one invalid-id error in the model.
