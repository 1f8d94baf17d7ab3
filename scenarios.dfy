/**
 * Clients of the Store that rely on its contracts alone: each assertion is an
 * end-to-end behaviour of the API, proved from the method specifications.
 */
module Scenarios {
  import opened Wrappers
  import opened Models
  import opened Listing
  import opened Service

  /**
   * A tag is created, attached to a new task together with an unknown id,
   * then deleted; the task keeps its other fields throughout.
   */
  method TagLifecycle() {
    var store := new Store();
    var created := store.CreateTag("urgent", Some("#ff0000"));
    assert created == Ok(Tag(1, "urgent", "#ff0000"));
    assert created.value in store.ListTags();

    var again := store.CreateTag("urgent", None);
    assert again == Err(DuplicateTagName);

    var t := store.CreateTask(TitleOnly("X").(tagIds := [1, 999, 1]));
    assert t.priority == Some("medium") && t.completed == Some(false);
    assert t.description.None? && t.dueDate.None?;
    assert created.value in TagsOf(store.tags, store.links, t.id);
    assert forall g :: g in TagsOf(store.tags, store.links, t.id) ==> g == created.value;

    var deleted := store.DeleteTag(1);
    assert deleted == Ok(());
    assert TagsOf(store.tags, store.links, t.id) == {};
    assert store.tasks[t.id] == t;
  }

  /** An unknown tag id alone gives a task with no tags, and no error. */
  method UnknownTagIdIsDropped() {
    var store := new Store();
    var t := store.CreateTask(TitleOnly("X").(tagIds := [999]));
    assert forall g :: g !in TagsOf(store.tags, store.links, t.id);
  }

  /** An update that sends only `completed` sets it and leaves every other field and the tags alone. */
  method CompleteOnly() {
    var store := new Store();
    var t := store.CreateTask(TaskCreate("Pay rent", Some("by transfer"), Some(20000), "high", []));
    ghost var tagsBefore := TagsOf(store.tags, store.links, t.id);
    var done := store.UpdateTask(t.id, NothingSent.(completed := Some(Some(true))));
    assert done == Ok(t.(completed := Some(true)));
    assert TagsOf(store.tags, store.links, t.id) == tagsBefore;
  }

  /** `tag_ids: []` clears the tags and `description: null` clears the description. */
  method ClearTagsAndDescription() {
    var u := TaskUpdate(None, Some(None), None, None, None, Some(Some([])));
    assert Rejection(u) == None;
    var store := new Store();
    var tag := store.CreateTag("home", None);
    var t := store.CreateTask(TaskCreate("Pay rent", Some("by transfer"), None, "high", [1]));
    var cleared := store.UpdateTask(t.id, u);
    assert cleared == Ok(t.(description := None));
    assert forall g :: g !in TagsOf(store.tags, store.links, t.id);
  }

  /** Updating or deleting an id that was never created fails with NotFound. */
  method MissingIds() {
    var store := new Store();
    var t := store.CreateTask(TitleOnly("X"));
    var missing := store.UpdateTask(t.id + 1, NothingSent);
    assert missing == Err(NotFound);
    var gone := store.DeleteTask(t.id + 1);
    assert gone == Err(NotFound);
    assert store.ListTasks(NoFilter) == [t];
  }

  /** Ids are handed out in order: the first two tasks get ids 1 and 2. */
  method IdsInOrder() {
    var store := new Store();
    var t1 := store.CreateTask(TitleOnly("first"));
    var t2 := store.CreateTask(TitleOnly("second"));
    assert t1.id == 1 && t2.id == 2;
  }
}
