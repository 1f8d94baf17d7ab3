# Personal task manager: the task/tag store

This project models the core of a small personal task manager. The core is a
store of tasks and tags, a many-to-many link between them, and the rules its
operations follow. These operations are the listing query with optional
filters and a fixed order, creating and deleting tags, creating tasks, the
partial update of a task, and the cascading deletes.

The model has five modules:

- `Wrappers` (wrappers.dfy) holds `Option` and `Result`.
- `Models` (models.dfy) covers the schema in `app/models.py`. It has the `Tag`
  and `Task` rows, the `task_tags` association as a set of (task id, tag id)
  pairs, and the schema's constraints as the predicate `Schema`: rows keyed by
  their id, unique tag names, and association rows that reference existing
  rows. It also has the cascading deletes and tag assignment on association
  rows, with lemmas saying what each does to every task's tag set.
- `Listing` (listing.dfy) covers `get_tasks` and `get_tags`. The filters are
  three guards, written with the source's own tests: `is not None` for
  `completed`, truthiness for `priority` and `tag_id`. The ordering
  `due_date ASC NULLS LAST, id DESC` is a strict total order `Precedes`.
  `SortTasks` builds the ordered result. `SortedIsUnique` shows that an
  ascending sequence is fixed by its elements, so the query result is the only
  correct answer.
- `Service` (service.dfy) covers the request payloads and the `Store` class.
  The class holds the two tables as maps, the association rows as a set, and
  one id counter per table. Its methods are `CreateTag`, `DeleteTag`,
  `CreateTask`, `UpdateTask` and `DeleteTask`. Each method keeps `Valid()` and
  states its whole new state. The update payload gives each field the type
  `Option<Option<T>>`: `None` means the field was not sent, `Some(None)` means
  it was sent as null. `UpdateTask` runs the handler's `setattr` loop over the
  sent fields. `SetAllSentIsPatched` proves that this loop gives the
  field-by-field patch `Patched`.
- `Scenarios` (scenarios.dfy) is a set of clients that use only the method
  contracts. They derive end-to-end behaviour, such as a deleted tag
  disappearing from a task's tags, an unknown tag id being dropped, and
  `tag_ids: []` clearing the tags.

Some behaviours follow the code closely:

- `priority` is stored as given. It is never checked against low/medium/high.
- `priority` and `completed` are nullable columns. An update that sends them
  as null stores NULL. Such a task then matches no `completed` or `priority`
  filter.
- A null `title` breaks the NOT NULL constraint at commit. A null `tag_ids`
  makes `Tag.id.in_(None)` raise. In both cases nothing is written.
- A duplicate tag name is not caught by the handler. The commit fails and
  nothing is written. The model returns `Err(DuplicateTagName)`. The handler
  itself lets the database error escape, so no dedicated conflict response
  exists.
- Title length and emptiness are not checked by the code. The model does not
  check them either.

Dates are day numbers (`int`). Only their order is used.

## Model

| member | source | states |
|---|---|---|
| `Listing.Query` | app/main.py:105-112 | the result holds every stored task that passes all three guards and no other row; no task appears twice; it is ascending under `due_date ASC NULLS LAST, id DESC`. The filter is `Matches`, the conjunction of `CompletedGuard` (`completed is not None`), `PriorityGuard` and `TagGuard` (both truthiness tests). `Service.Store.ListTasks` is this query on the store's tables |
| `Listing.SortTasks` | app/main.py:112 | the ordered result has exactly the given rows, each once, each before every later one |
| `Listing.SortedIsUnique` | app/main.py:112 | two ascending sequences with the same rows are equal, so the order leaves no freedom |
| `Listing.QueryIsOrderBy` | app/main.py:105-112 | any sequence holding exactly the matching tasks in ascending order is the query result |
| `Listing.PrecedesIsStrict` | app/main.py:112 | `Precedes`, the `ORDER BY` clause as a comparison, is irreflexive, asymmetric and transitive |
| `Listing.PrecedesIsTotal` | app/main.py:112 | any two tasks with different ids are ordered one way or the other |
| `Listing.ListingOrder` | app/main.py:112 | in the listing, a dated task precedes every undated one, earlier dates come first, and equal or missing dates put the higher id first |
| `Listing.FiltersIntersect` | app/main.py:105-111 | a task is listed under a filter iff each of its three parts alone would list it (intersection) |
| `Listing.FalsyGuardsAreIgnored` | app/main.py:108-111 | `priority=""` lists the same as no priority, and `tag_id=0` the same as no tag id |
| `Listing.CompletedFalseFilters` | app/main.py:106-107 | `completed=False` is a real filter: a task is listed iff its flag is false, so completed tasks and NULL flags drop out |
| `Listing.TagGuardIsLink` | app/main.py:110-111 | the existential test "some tag of the task has this id" holds iff that tag exists and the task-tag row exists |
| `Listing.NoFilterListsAll` | app/main.py:105-112 | with no filter every stored task is listed, and every listed row is a stored task |
| `Listing.AllTags` | app/main.py:77-79 | every stored tag is listed once and nothing else is; `Service.Store.ListTags` is this listing on the store's tag table |
| `Models.TaskCascade` | app/models.py:10 | deleting a task (`WithoutTask`, the `task_tags` rows of that task dropped) keeps `Schema` (rows keyed by id, unique tag names, association rows that reference existing rows), leaves the task with no tags, and leaves every other task's `TagsOf` (its tags through `task_tags`) unchanged |
| `Models.TagCascade` | app/models.py:11 | deleting a tag (`WithoutTag`, its `task_tags` rows dropped by `ON DELETE CASCADE`) keeps `Schema` and removes exactly that tag from every task's `TagsOf` |
| `Models.AttachSetsTags` | app/models.py:32 | `Attach`, the assignment `task.tags = [...]`, makes the task's tag set exactly the given existing tags and leaves other tasks' tags alone |
| `Service.ResolveDropsUnknown` | app/main.py:116 | `Resolve`, the query `Tag.id.in_(ids)`, yields only existing tags; an unknown id adds nothing and alone resolves to no tag |
| `Service.ResolveIgnoresOrderAndRepeats` | app/main.py:116 | resolution depends only on which ids are named, so duplicates collapse |
| `Service.AttachResolved` | app/main.py:116-122 | after assignment, a task's tags are exactly the existing tags whose id was sent; other tasks keep theirs |
| `Service.SetAttrLoop` | app/main.py:134-138 | the loop's result is `SetAll` (one `SetAttr`, i.e. one `setattr`, per field in order) of the fields, and it reports a null title exactly when `title: null` is among them |
| `Service.SetAllAppend` | app/main.py:137-138 | running the `setattr` loop over two lists equals running it over the first and then the second |
| `Service.SetAllSentIsPatched` | app/main.py:134-138 | the `setattr` loop over `Sent(u)` (the `model_dump(exclude_unset=True)` items, in declaration order) gives exactly the field-by-field patch `Patched` |
| `Service.NullTitleIsSent` | app/main.py:134-139 | the loop meets a null title exactly when the payload sends `title: null` |
| `Service.PatchedFields` | app/main.py:134-138 | an unsent field keeps its value, a sent field takes the sent value, an explicit null clears `description` and `due_date`, and the id never changes |
| `Service.CompletedOnly` | app/main.py:134-138 | sending only `completed: true` sets that flag and changes nothing else |
| `Service.Store.constructor` | app/models.py:15-32 | a new store has empty tables and satisfies `Valid()`: `Schema`, and every id below its table's counter; both id counters start at 1 |
| `Service.Store.CreateTag` | app/main.py:82-87 | a name in use (`NameTaken`, the UNIQUE constraint on `tags.name`) fails and writes nothing; otherwise exactly one tag is added with the next id (the counter advances by one), the given or default color `#6366f1`, names stay unique, and `get_tags` lists it |
| `Service.Store.DeleteTag` | app/main.py:90-95 | a missing id is NotFound and writes nothing; otherwise the tag and its association rows go, every task loses exactly that tag, and `get_tags` no longer lists it |
| `Service.Store.CreateTask` | app/main.py:115-127 | exactly one task is added with the next id (the counter advances by one), the sent fields, priority stored as given, `completed` false, and tags equal to the existing tags among `tag_ids`; other rows are unchanged and the task is listed. `TitleOnly` is a payload with the `TaskCreate` defaults (no description or due date, priority `"medium"`, no tag ids), so a task created from it has priority medium |
| `Service.Store.UpdateTask` | app/main.py:130-141 | a missing id is NotFound; `tag_ids: null` and `title: null` fail and write nothing (`Rejection`, checked in that order); otherwise the task becomes the field-by-field patch, a sent `tag_ids` (even empty) makes the task's tags exactly the existing tags among them, every other task keeps its tags, and nothing else changes |
| `Service.Store.DeleteTask` | app/main.py:144-149 | a missing id is NotFound and writes nothing; otherwise the task and its association rows go and other tasks' tags are unchanged |

## Left out

- HTTP routing, status codes, the static mount, the root page and the health endpoint are web plumbing (app/main.py:16, 72-74, 151-153).
- The per-request session and table creation at startup are resource lifecycle (app/main.py:13, 62-67). `database.py` is not part of this model.
- Request validation and JSON serialisation are left out. This includes the response validation that fails after an update stores a NULL `priority` or `completed`. The write itself is modelled.
- String length limits (`String(50)`, `String(200)`, ...) are not modelled, because SQLite does not enforce them.
- Deleting a tag is modelled with the declared `ON DELETE CASCADE` enforced. `Tag` has no relationship back to `Task`, so `db.delete(tag)` leaves the `task_tags` rows to the database, and only an engine that enforces foreign keys removes them; `database.py` is not part of this model. Without enforcement the observable tag sets agree with the model only while the deleted tag's id is not reused: if SQLite hands that id to a new tag, the stale rows attach the new tag to the old tasks. The model does not capture this.
- Ids come from a per-table counter, so an id is never reused. SQLite can reuse the largest id after that row is deleted; the model does not capture this.
- Listing.AllTags: the source gives `get_tags` no order. The model lists tags by ascending id, which is the usual scan order.
- Concurrent requests and last-writer-wins behaviour are not modelled. Each operation is one atomic step.
- The order of the tags inside one task is not modelled. A task's tags are a set.
