/**
 * The two tables of the task store, `tags` and `tasks`, and the `task_tags`
 * association table that links them (app/models.py).
 *
 * A table is a map from primary key to row. The association table is a set of
 * (task id, tag id) pairs. The functions here are the relational reads and the
 * cascading deletes the schema declares; the lemmas say that they keep the
 * schema's constraints and what they do to a task's tag set.
 */
module Models {
  import opened Wrappers

  /** A calendar date as a day number: only its order is ever used. */
  type Date = int

  /** One row of `task_tags`: (task id, tag id). */
  type Link = (int, int)

  /** Column default of `tags.color`. */
  const DefaultColor: string := "#6366f1"

  /** Column default of `tasks.priority`. */
  const DefaultPriority: string := "medium"

  /** A row of `tags`. `name` and `color` are never NULL. */
  datatype Tag = Tag(id: int, name: string, color: string)

  /**
   * A row of `tasks`. `title` is NOT NULL. `description` and `due_date` are
   * nullable. `priority` and `completed` are nullable columns with defaults:
   * a new row gets the default, but an update can still write NULL into them.
   */
  datatype Task = Task(
    id: int,
    title: string,
    description: Option<string>,
    dueDate: Option<Date>,
    priority: Option<string>,
    completed: Option<bool>)

  /** Every task row is stored under its own primary key. */
  predicate TasksKeyed(tasks: map<int, Task>) {
    forall k :: k in tasks ==> tasks[k].id == k
  }

  /** Every tag row is stored under its own primary key. */
  predicate TagsKeyed(tags: map<int, Tag>) {
    forall k :: k in tags ==> tags[k].id == k
  }

  /** The UNIQUE constraint on `tags.name`. */
  predicate UniqueNames(tags: map<int, Tag>) {
    forall a, b :: a in tags && b in tags && tags[a].name == tags[b].name ==> a == b
  }

  /** Both foreign keys of `task_tags`: every row references an existing task and tag. */
  predicate LinksResolve(tasks: map<int, Task>, tags: map<int, Tag>, links: set<Link>) {
    forall p :: p in links ==> p.0 in tasks && p.1 in tags
  }

  /** All constraints the schema declares. */
  predicate Schema(tasks: map<int, Task>, tags: map<int, Tag>, links: set<Link>) {
    && TasksKeyed(tasks)
    && TagsKeyed(tags)
    && UniqueNames(tags)
    && LinksResolve(tasks, tags, links)
  }

  /** `Task.tags`: the tags reached from the task through its association rows. */
  function TagsOf(tags: map<int, Tag>, links: set<Link>, taskId: int): set<Tag> {
    set k | k in tags && (taskId, k) in links :: tags[k]
  }

  /** The association rows left after `ON DELETE CASCADE` from a deleted task. */
  function WithoutTask(links: set<Link>, taskId: int): set<Link> {
    set p | p in links && p.0 != taskId
  }

  /** The association rows left after `ON DELETE CASCADE` from a deleted tag. */
  function WithoutTag(links: set<Link>, tagId: int): set<Link> {
    set p | p in links && p.1 != tagId
  }

  /** The association rows after assigning the tag set `tagIds` to a task (`task.tags = ...`). */
  function Attach(links: set<Link>, taskId: int, tagIds: set<int>): set<Link> {
    WithoutTask(links, taskId) + set g | g in tagIds :: (taskId, g)
  }

  /** Deleting a task keeps the schema, leaves it with no tags, and leaves every other task's tags alone. */
  lemma TaskCascade(tasks: map<int, Task>, tags: map<int, Tag>, links: set<Link>, taskId: int)
    requires Schema(tasks, tags, links)
    ensures Schema(tasks - {taskId}, tags, WithoutTask(links, taskId))
    ensures TagsOf(tags, WithoutTask(links, taskId), taskId) == {}
    ensures forall k :: k != taskId ==> TagsOf(tags, WithoutTask(links, taskId), k) == TagsOf(tags, links, k)
  {
  }

  /**
   * Deleting a tag keeps the schema and removes exactly that tag from every
   * task's tag set.
   */
  lemma TagCascade(tasks: map<int, Task>, tags: map<int, Tag>, links: set<Link>, tagId: int)
    requires Schema(tasks, tags, links)
    requires tagId in tags
    ensures Schema(tasks, tags - {tagId}, WithoutTag(links, tagId))
    ensures forall k :: TagsOf(tags - {tagId}, WithoutTag(links, tagId), k) == TagsOf(tags, links, k) - {tags[tagId]}
  {
    var tags', links' := tags - {tagId}, WithoutTag(links, tagId);
    forall k ensures TagsOf(tags', links', k) == TagsOf(tags, links, k) - {tags[tagId]} {
      forall g | g in TagsOf(tags, links, k) - {tags[tagId]} ensures g in TagsOf(tags', links', k) {
        var j :| j in tags && (k, j) in links && tags[j] == g;
        assert j != tagId;
        assert (k, j) in links';
      }
    }
  }

  /**
   * Assigning the set of existing tag ids `tagIds` to a task makes its tag set
   * exactly those tags, and no other task's tag set changes.
   */
  lemma AttachSetsTags(tags: map<int, Tag>, links: set<Link>, taskId: int, tagIds: set<int>)
    requires tagIds <= tags.Keys
    ensures TagsOf(tags, Attach(links, taskId, tagIds), taskId) == set g | g in tagIds :: tags[g]
    ensures forall k :: k != taskId ==> TagsOf(tags, Attach(links, taskId, tagIds), k) == TagsOf(tags, links, k)
  {
    var links' := Attach(links, taskId, tagIds);
    assert forall g :: g in tagIds ==> (taskId, g) in links';
  }
}
