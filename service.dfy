/**
 * The mutating endpoints of the task manager (app/main.py): the request
 * payloads, tag-id resolution, the partial update, and the `Store` class whose
 * methods create, update and delete tasks and tags.
 *
 * Each method runs as one transaction: on an error nothing is written.
 */
module Service {
  import opened Wrappers
  import opened Models
  import opened Listing

  /** Why an operation failed. */
  datatype Error =
    | NotFound           // no row with the requested id (HTTP 404)
    | DuplicateTagName   // the UNIQUE constraint on `tags.name` rejects the commit
    | NullTitle          // the NOT NULL constraint on `tasks.title` rejects the commit
    | NullTagIds         // `tag_ids` sent as null: `Tag.id.in_(None)` raises

  /** The body of `POST /api/tasks` after its defaults are filled in. */
  datatype TaskCreate = TaskCreate(
    title: string,
    description: Option<string>,
    dueDate: Option<Date>,
    priority: string,
    tagIds: seq<int>)

  /** A create payload that sends only `title`: every other field takes its declared default. */
  function TitleOnly(title: string): TaskCreate {
    TaskCreate(title, None, None, DefaultPriority, [])
  }

  /**
   * The body of `PATCH /api/tasks/{id}`. For each field, None means "not
   * sent", Some(None) means "sent as null", Some(Some(v)) means "sent as v".
   */
  datatype TaskUpdate = TaskUpdate(
    title: Option<Option<string>>,
    description: Option<Option<string>>,
    dueDate: Option<Option<Date>>,
    priority: Option<Option<string>>,
    completed: Option<Option<bool>>,
    tagIds: Option<Option<seq<int>>>)

  /** An update that sends no field. */
  const NothingSent: TaskUpdate := TaskUpdate(None, None, None, None, None, None)

  /**
   * `Tag.id.in_(ids)`: the ids of the existing tags named in `ids`. Unknown
   * ids drop out and repeated ids count once.
   */
  function Resolve(tags: map<int, Tag>, ids: seq<int>): set<int> {
    set g | g in tags && g in ids
  }

  /**
   * Only existing tags are resolved, and an id that names no tag is dropped
   * without an error: it adds nothing, and alone it resolves to no tag.
   */
  lemma ResolveDropsUnknown(tags: map<int, Tag>, ids: seq<int>, unknown: int)
    requires unknown !in tags
    ensures Resolve(tags, ids) <= tags.Keys
    ensures Resolve(tags, ids + [unknown]) == Resolve(tags, ids)
    ensures Resolve(tags, [unknown]) == {}
  {
    forall g ensures g in Resolve(tags, ids + [unknown]) <==> g in Resolve(tags, ids) {
      assert g in ids + [unknown] <==> g in ids || g == unknown;
    }
    forall g ensures g !in Resolve(tags, [unknown]) {
      assert g in [unknown] <==> g == unknown;
    }
  }

  /** Only which ids are named matters, not their order or repetition. */
  lemma ResolveIgnoresOrderAndRepeats(tags: map<int, Tag>, a: seq<int>, b: seq<int>)
    requires forall i :: i in a <==> i in b
    ensures Resolve(tags, a) == Resolve(tags, b)
  {
    forall g ensures g in Resolve(tags, a) <==> g in Resolve(tags, b) {
    }
  }

  /**
   * Assigning the resolved ids to a task gives it exactly the existing tags
   * whose id was named, and leaves every other task's tags as they were.
   */
  lemma AttachResolved(tags: map<int, Tag>, links: set<Link>, taskId: int, ids: seq<int>)
    requires TagsKeyed(tags)
    ensures forall g :: g in TagsOf(tags, Attach(links, taskId, Resolve(tags, ids)), taskId)
                    <==> g.id in tags && tags[g.id] == g && g.id in ids
    ensures forall k :: k != taskId ==>
              TagsOf(tags, Attach(links, taskId, Resolve(tags, ids)), k) == TagsOf(tags, links, k)
  {
    var gs := Resolve(tags, ids);
    AttachSetsTags(tags, links, taskId, gs);
    forall g: Tag | g.id in tags && tags[g.id] == g && g.id in ids
      ensures g in TagsOf(tags, Attach(links, taskId, gs), taskId)
    {
      assert g.id in gs;
    }
  }

  /** One entry of the dict `updates.model_dump(exclude_unset=True)`, without `tag_ids`. */
  datatype Field =
    | Title(Option<string>)
    | Description(Option<string>)
    | DueDate(Option<Date>)
    | Priority(Option<string>)
    | Completed(Option<bool>)

  /** The entries that were sent, in the payload's declaration order; `tag_ids` is popped before the loop. */
  function Sent(u: TaskUpdate): seq<Field> {
    (if u.title.Some? then [Title(u.title.value)] else [])
    + (if u.description.Some? then [Description(u.description.value)] else [])
    + (if u.dueDate.Some? then [DueDate(u.dueDate.value)] else [])
    + (if u.priority.Some? then [Priority(u.priority.value)] else [])
    + (if u.completed.Some? then [Completed(u.completed.value)] else [])
  }

  /**
   * `setattr(task, k, v)` for one entry. A null title cannot be held by the
   * row; it is recorded by the caller and makes the commit fail.
   */
  function SetAttr(t: Task, f: Field): Task {
    match f
    case Title(v) => if v.Some? then t.(title := v.value) else t
    case Description(v) => t.(description := v)
    case DueDate(v) => t.(dueDate := v)
    case Priority(v) => t.(priority := v)
    case Completed(v) => t.(completed := v)
  }

  /** The row after the `setattr` loop has run over `fs` in order. */
  function SetAll(t: Task, fs: seq<Field>): Task {
    if fs == [] then t else SetAttr(SetAll(t, fs[..|fs| - 1]), fs[|fs| - 1])
  }

  /**
   * The handler's `for k, v in data.items(): setattr(task, k, v)` loop. It
   * returns the row after the loop and whether a null title was set, which the
   * NOT NULL constraint rejects at commit.
   */
  method SetAttrLoop(t0: Task, fields: seq<Field>) returns (t: Task, nullTitle: bool)
    ensures t == SetAll(t0, fields)
    ensures nullTitle <==> Title(None) in fields
  {
    t, nullTitle := t0, false;
    var i := 0;
    while i < |fields|
      invariant 0 <= i <= |fields|
      invariant t == SetAll(t0, fields[..i])
      invariant nullTitle <==> Title(None) in fields[..i]
    {
      if fields[i] == Title(None) {
        nullTitle := true;
      }
      assert fields[..i + 1] == fields[..i] + [fields[i]];
      t := SetAttr(t, fields[i]);
      i := i + 1;
    }
    assert fields[..i] == fields;
  }

  /** A field keeps its value when it was not sent and takes the sent value otherwise. */
  function Pick<T>(current: T, sent: Option<T>): T {
    if sent.Some? then sent.value else current
  }

  /** The intended result of a partial update, field by field. */
  function Patched(t: Task, u: TaskUpdate): Task {
    Task(
      t.id,
      if u.title.Some? && u.title.value.Some? then u.title.value.value else t.title,
      Pick(t.description, u.description),
      Pick(t.dueDate, u.dueDate),
      Pick(t.priority, u.priority),
      Pick(t.completed, u.completed))
  }

  /** Running the loop over two lists is running it over the first, then the second. */
  lemma {:induction false} SetAllAppend(t: Task, a: seq<Field>, b: seq<Field>)
    ensures SetAll(t, a + b) == SetAll(SetAll(t, a), b)
    decreases |b|
  {
    if b == [] {
      assert a + b == a;
    } else {
      var b' := b[..|b| - 1];
      assert (a + b)[..|a + b| - 1] == a + b';
      SetAllAppend(t, a, b');
    }
  }

  /** The loop over at most one entry is at most one `setattr`. */
  lemma SetAllAtMostOne(t: Task, fs: seq<Field>)
    requires |fs| <= 1
    ensures SetAll(t, fs) == if fs == [] then t else SetAttr(t, fs[0])
  {
    if fs != [] {
      assert fs[..0] == [];
    }
  }

  /** The generic `setattr` loop over the sent entries yields exactly the field-by-field patch. */
  lemma SetAllSentIsPatched(t: Task, u: TaskUpdate)
    requires u.title != Some(None)
    ensures SetAll(t, Sent(u)) == Patched(t, u)
  {
    var s1 := if u.title.Some? then [Title(u.title.value)] else [];
    var s2 := if u.description.Some? then [Description(u.description.value)] else [];
    var s3 := if u.dueDate.Some? then [DueDate(u.dueDate.value)] else [];
    var s4 := if u.priority.Some? then [Priority(u.priority.value)] else [];
    var s5 := if u.completed.Some? then [Completed(u.completed.value)] else [];
    var p := Patched(t, u);
    var t1 := SetAll(t, s1);
    assert t1 == t.(title := p.title) by { SetAllAtMostOne(t, s1); }
    var t2 := SetAll(t1, s2);
    assert t2 == t1.(description := p.description) by { SetAllAtMostOne(t1, s2); }
    var t3 := SetAll(t2, s3);
    assert t3 == t2.(dueDate := p.dueDate) by { SetAllAtMostOne(t2, s3); }
    var t4 := SetAll(t3, s4);
    assert t4 == t3.(priority := p.priority) by { SetAllAtMostOne(t3, s4); }
    var t5 := SetAll(t4, s5);
    assert t5 == t4.(completed := p.completed) by { SetAllAtMostOne(t4, s5); }
    assert SetAll(t, Sent(u)) == t5 by {
      assert Sent(u) == s1 + s2 + s3 + s4 + s5;
      SetAllAppend(t, s1, s2);
      SetAllAppend(t, s1 + s2, s3);
      SetAllAppend(t, s1 + s2 + s3, s4);
      SetAllAppend(t, s1 + s2 + s3 + s4, s5);
    }
  }

  /** The loop meets a null title exactly when the payload sends `title: null`. */
  lemma NullTitleIsSent(u: TaskUpdate)
    ensures Title(None) in Sent(u) <==> u.title == Some(None)
  {
    if u.title == Some(None) {
      assert Sent(u)[0] == Title(None);
    }
  }

  /**
   * Partial-update semantics: a field not sent keeps its value, a field sent
   * takes the sent value, and an explicit null clears `description`,
   * `due_date`, `priority` and `completed`. The id never changes.
   */
  lemma PatchedFields(t: Task, u: TaskUpdate)
    requires u.title != Some(None)
    ensures Patched(t, u).id == t.id
    ensures Patched(t, u).title == if u.title.Some? then u.title.value.value else t.title
    ensures Patched(t, u).description == if u.description.Some? then u.description.value else t.description
    ensures Patched(t, u).dueDate == if u.dueDate.Some? then u.dueDate.value else t.dueDate
    ensures Patched(t, u).priority == if u.priority.Some? then u.priority.value else t.priority
    ensures Patched(t, u).completed == if u.completed.Some? then u.completed.value else t.completed
    ensures u.description == Some(None) ==> Patched(t, u).description.None?
    ensures u.dueDate == Some(None) ==> Patched(t, u).dueDate.None?
  {
  }

  /** An update that sends only `completed: true` changes that flag and nothing else. */
  lemma CompletedOnly(t: Task)
    ensures Patched(t, NothingSent.(completed := Some(Some(true)))) == t.(completed := Some(true))
  {
  }

  /** The error an existing task's update ends in, checked in the order the handler meets them. */
  function Rejection(u: TaskUpdate): Option<Error> {
    if u.tagIds == Some(None) then Some(NullTagIds)
    else if u.title == Some(None) then Some(NullTitle)
    else None
  }

  /** Whether some stored tag already has this name. */
  predicate NameTaken(tags: map<int, Tag>, name: string) {
    exists k :: k in tags && tags[k].name == name
  }

  /**
   * The database: the `tasks` and `tags` tables keyed by id, the `task_tags`
   * rows, and the next primary key of each table.
   */
  class Store {
    var tasks: map<int, Task>
    var tags: map<int, Tag>
    var links: set<Link>
    var nextTaskId: int
    var nextTagId: int

    /** The schema's constraints hold and every stored id is below its table's counter. */
    ghost predicate Valid()
      reads this
    {
      && Schema(tasks, tags, links)
      && 1 <= nextTaskId && 1 <= nextTagId
      && (forall k :: k in tasks ==> 1 <= k < nextTaskId)
      && (forall k :: k in tags ==> 1 <= k < nextTagId)
    }

    /** An empty database. */
    constructor ()
      ensures Valid()
      ensures tasks == map[] && tags == map[] && links == {}
      ensures nextTaskId == 1 && nextTagId == 1
    {
      tasks, tags, links := map[], map[], {};
      nextTaskId, nextTagId := 1, 1;
    }

    /** `get_tasks`. */
    function ListTasks(f: Filter): seq<Task>
      reads this
      requires Valid()
    {
      Query(tasks, tags, links, f)
    }

    /** `get_tags`. */
    function ListTags(): seq<Tag>
      reads this
      requires Valid()
    {
      AllTags(tags)
    }

    /**
     * `create_tag`: a name already in use fails the commit and writes
     * nothing; otherwise one tag with a fresh id and the given or default
     * color is added, and `get_tags` then lists it.
     */
    method CreateTag(name: string, color: Option<string>) returns (r: Result<Tag, Error>)
      requires Valid()
      modifies this
      ensures Valid()
      ensures NameTaken(old(tags), name) ==> r == Err(DuplicateTagName) && unchanged(this)
      ensures !NameTaken(old(tags), name) ==>
        && r.Ok?
        && r.value == Tag(old(nextTagId), name, Pick(DefaultColor, color))
        && r.value.id !in old(tags)
        && tags == old(tags)[r.value.id := r.value]
        && nextTagId == old(nextTagId) + 1
        && tasks == old(tasks) && links == old(links) && nextTaskId == old(nextTaskId)
        && r.value in ListTags()
    {
      if NameTaken(tags, name) {
        return Err(DuplicateTagName);
      }
      var tag := Tag(nextTagId, name, Pick(DefaultColor, color));
      tags := tags[tag.id := tag];
      nextTagId := nextTagId + 1;
      assert tags[tag.id] == tag;
      assert ListTags() == AllTags(tags);
      r := Ok(tag);
    }

    /**
     * `delete_tag`: a missing id is NotFound and writes nothing; otherwise the
     * tag and all of its association rows go, every task loses exactly that
     * tag, and `get_tags` no longer lists it.
     */
    method DeleteTag(id: int) returns (r: Result<(), Error>)
      requires Valid()
      modifies this
      ensures Valid()
      ensures id !in old(tags) ==> r == Err(NotFound) && unchanged(this)
      ensures id in old(tags) ==>
        && r == Ok(())
        && tags == old(tags) - {id}
        && links == WithoutTag(old(links), id)
        && tasks == old(tasks) && nextTaskId == old(nextTaskId) && nextTagId == old(nextTagId)
        && (forall k :: TagsOf(tags, links, k) == TagsOf(old(tags), old(links), k) - {old(tags)[id]})
        && old(tags)[id] !in ListTags()
    {
      if id !in tags {
        return Err(NotFound);
      }
      TagCascade(tasks, tags, links, id);
      tags := tags - {id};
      links := WithoutTag(links, id);
      r := Ok(());
    }

    /**
     * `create_task`: always succeeds. The new task has a fresh id, the sent
     * fields, `completed` false, and as tags exactly the existing tags whose
     * id was sent; no other row changes.
     */
    method CreateTask(p: TaskCreate) returns (t: Task)
      requires Valid()
      modifies this
      ensures Valid()
      ensures t.id == old(nextTaskId) && t.id !in old(tasks)
      ensures t == Task(t.id, p.title, p.description, p.dueDate, Some(p.priority), Some(false))
      ensures tasks == old(tasks)[t.id := t] && nextTaskId == old(nextTaskId) + 1
      ensures links == Attach(old(links), t.id, Resolve(old(tags), p.tagIds))
      ensures tags == old(tags) && nextTagId == old(nextTagId)
      ensures forall g :: g in TagsOf(tags, links, t.id) <==> g.id in tags && tags[g.id] == g && g.id in p.tagIds
      ensures forall k :: k in old(tasks) ==> TagsOf(tags, links, k) == TagsOf(old(tags), old(links), k)
      ensures t in ListTasks(NoFilter)
    {
      var gs := Resolve(tags, p.tagIds);
      t := Task(nextTaskId, p.title, p.description, p.dueDate, Some(p.priority), Some(false));
      AttachResolved(tags, links, t.id, p.tagIds);
      tasks := tasks[t.id := t];
      links := Attach(links, t.id, gs);
      nextTaskId := nextTaskId + 1;
      assert tasks[t.id] == t && Matches(tags, links, t, NoFilter);
      assert ListTasks(NoFilter) == Query(tasks, tags, links, NoFilter);
    }

    /**
     * `update_task`: a missing id is NotFound; `tag_ids: null` and
     * `title: null` fail and write nothing. Otherwise the sent fields are
     * applied by the `setattr` loop, which gives the field-by-field patch, and
     * a sent `tag_ids` (even empty) replaces the task's whole tag set.
     */
    method UpdateTask(id: int, u: TaskUpdate) returns (r: Result<Task, Error>)
      requires Valid()
      modifies this
      ensures Valid()
      ensures id !in old(tasks) ==> r == Err(NotFound) && unchanged(this)
      ensures id in old(tasks) && Rejection(u).Some? ==> r == Err(Rejection(u).value) && unchanged(this)
      ensures id in old(tasks) && Rejection(u).None? ==>
        && r == Ok(Patched(old(tasks)[id], u))
        && tasks == old(tasks)[id := r.value]
        && links == (if u.tagIds.Some? then Attach(old(links), id, Resolve(old(tags), u.tagIds.value.value))
                     else old(links))
        && tags == old(tags) && nextTaskId == old(nextTaskId) && nextTagId == old(nextTagId)
      ensures id in old(tasks) && Rejection(u).None? && u.tagIds.Some? ==>
        forall g :: g in TagsOf(tags, links, id) <==> g.id in tags && tags[g.id] == g && g.id in u.tagIds.value.value
      ensures id in old(tasks) && Rejection(u).None? ==>
        forall k :: k != id || u.tagIds.None? ==> TagsOf(tags, links, k) == TagsOf(old(tags), old(links), k)
    {
      if id !in tasks {
        return Err(NotFound);
      }
      var newTags: Option<set<int>> := None;
      if u.tagIds.Some? {
        if u.tagIds.value.None? {
          return Err(NullTagIds);
        }
        newTags := Some(Resolve(tags, u.tagIds.value.value));
        AttachResolved(tags, links, id, u.tagIds.value.value);
      }
      var t, nullTitle := SetAttrLoop(tasks[id], Sent(u));
      NullTitleIsSent(u);
      if nullTitle {
        return Err(NullTitle);
      }
      SetAllSentIsPatched(tasks[id], u);
      tasks := tasks[id := t];
      if newTags.Some? {
        links := Attach(links, id, newTags.value);
      }
      r := Ok(t);
    }

    /**
     * `delete_task`: a missing id is NotFound and writes nothing; otherwise the
     * task and its association rows go, and no other task or tag changes.
     */
    method DeleteTask(id: int) returns (r: Result<(), Error>)
      requires Valid()
      modifies this
      ensures Valid()
      ensures id !in old(tasks) ==> r == Err(NotFound) && unchanged(this)
      ensures id in old(tasks) ==>
        && r == Ok(())
        && tasks == old(tasks) - {id}
        && links == WithoutTask(old(links), id)
        && tags == old(tags) && nextTaskId == old(nextTaskId) && nextTagId == old(nextTagId)
        && (forall k :: k != id ==> TagsOf(tags, links, k) == TagsOf(old(tags), old(links), k))
    {
      if id !in tasks {
        return Err(NotFound);
      }
      TaskCascade(tasks, tags, links, id);
      tasks := tasks - {id};
      links := WithoutTask(links, id);
      r := Ok(());
    }
  }
}
