/**
 * The two listing queries of the API (app/main.py): `get_tasks`, a
 * conjunction of optional filters followed by
 * `ORDER BY due_date ASC NULLS LAST, id DESC`, and `get_tags`.
 *
 * The ordering is the strict order Precedes. A query result is the unique
 * sequence that holds exactly the matching rows and is ascending under it
 * (SortedIsUnique), and SortTasks computes it by repeatedly taking the first
 * remaining row.
 */
module Listing {
  import opened Wrappers
  import opened Models

  /** The three optional query parameters of `get_tasks`. */
  datatype Filter = Filter(completed: Option<bool>, priority: Option<string>, tagId: Option<int>)

  /** No query parameter given. */
  const NoFilter: Filter := Filter(None, None, None)

  /**
   * `completed` is guarded by `is not None`, so False is a real filter. A row
   * whose `completed` is NULL matches neither True nor False.
   */
  predicate CompletedGuard(t: Task, completed: Option<bool>) {
    completed.Some? ==> t.completed == completed
  }

  /** `priority` is guarded by truthiness: both None and "" impose nothing. */
  predicate PriorityGuard(t: Task, priority: Option<string>) {
    priority.Some? && priority.value != "" ==> t.priority == priority
  }

  /**
   * `tag_id` is guarded by truthiness (None and 0 impose nothing); otherwise
   * the task must have some tag with that id (`Task.tags.any(Tag.id == tag_id)`).
   */
  predicate TagGuard(tags: map<int, Tag>, links: set<Link>, t: Task, tagId: Option<int>) {
    tagId.Some? && tagId.value != 0 ==> exists g :: g in TagsOf(tags, links, t.id) && g.id == tagId.value
  }

  /** A row survives the query when it passes every guard. */
  predicate Matches(tags: map<int, Tag>, links: set<Link>, t: Task, f: Filter) {
    && CompletedGuard(t, f.completed)
    && PriorityGuard(t, f.priority)
    && TagGuard(tags, links, t, f.tagId)
  }

  /**
   * `a` comes before `b` under `ORDER BY due_date ASC NULLS LAST, id DESC`:
   * a dated row before an undated one, earlier dates first, and among equal
   * or missing dates the higher id first.
   */
  predicate Precedes(a: Task, b: Task) {
    match (a.dueDate, b.dueDate)
    case (Some(x), Some(y)) => x < y || (x == y && a.id > b.id)
    case (Some(_), None) => true
    case (None, Some(_)) => false
    case (None, None) => a.id > b.id
  }

  /** Precedes is a strict order ... */
  lemma PrecedesIsStrict(a: Task, b: Task, c: Task)
    ensures !Precedes(a, a)
    ensures Precedes(a, b) ==> !Precedes(b, a)
    ensures Precedes(a, b) && Precedes(b, c) ==> Precedes(a, c)
  {
  }

  /** ... and total on rows with different ids. */
  lemma PrecedesIsTotal(a: Task, b: Task)
    requires a.id != b.id
    ensures Precedes(a, b) || Precedes(b, a)
  {
  }

  /** Each row comes before every later one. */
  predicate Ascending(s: seq<Task>) {
    forall i, j :: 0 <= i < j < |s| ==> Precedes(s[i], s[j])
  }

  /** No two rows share a primary key. */
  predicate DistinctIds(s: set<Task>) {
    forall a, b :: a in s && b in s && a.id == b.id ==> a == b
  }

  /** `t` is the row of `s` that the ordering puts first. */
  predicate IsFirst(t: Task, s: set<Task>) {
    t in s && forall u :: u in s && u != t ==> Precedes(t, u)
  }

  /** Every nonempty set of rows with distinct ids has a first row. */
  lemma {:induction false} FirstExists(s: set<Task>)
    requires s != {} && DistinctIds(s)
    ensures exists t :: IsFirst(t, s)
    decreases |s|
  {
    var x :| x in s;
    var rest := s - {x};
    if rest == {} {
      assert s == {x};
      assert IsFirst(x, s);
    } else {
      FirstExists(rest);
      var y :| IsFirst(y, rest);
      if Precedes(x, y) {
        forall u | u in s && u != x ensures Precedes(x, u) {
          if u != y {
            PrecedesIsStrict(x, y, u);
          }
        }
        assert IsFirst(x, s);
      } else {
        PrecedesIsTotal(x, y);
        assert IsFirst(y, s);
      }
    }
  }

  /** The first row of a set is unique. */
  lemma FirstIsUnique(s: set<Task>)
    ensures forall t, t' :: IsFirst(t, s) && IsFirst(t', s) ==> t == t'
  {
    forall t, t' | IsFirst(t, s) && IsFirst(t', s) ensures t == t' {
      if t != t' {
        PrecedesIsStrict(t, t', t);
      }
    }
  }

  /** A row before every row of an ascending sequence can go in front of it. */
  lemma AscendingCons(t: Task, rest: seq<Task>)
    requires Ascending(rest)
    requires forall u :: u in rest ==> Precedes(t, u)
    ensures Ascending([t] + rest)
  {
    var r := [t] + rest;
    forall i, j | 0 <= i < j < |r| ensures Precedes(r[i], r[j]) {
      assert r[j] == rest[j - 1];
      if i > 0 {
        assert r[i] == rest[i - 1];
      } else {
        assert rest[j - 1] in rest;
      }
    }
  }

  /**
   * The rows of `s` in query order: each row of `s` exactly once, each before
   * all that follow it.
   */
  function SortTasks(s: set<Task>): (r: seq<Task>)
    requires DistinctIds(s)
    ensures |r| == |s|
    ensures forall t :: t in r <==> t in s
    ensures Ascending(r)
    decreases |s|
  {
    if s == {} then []
    else
      FirstExists(s);
      FirstIsUnique(s);
      var t :| IsFirst(t, s);
      var rest := SortTasks(s - {t});
      AscendingCons(t, rest);
      [t] + rest
  }

  /** A nonempty sequence holds its first element. */
  lemma HeadIsMember(s: seq<Task>)
    ensures |s| > 0 ==> s[0] in s
  {
  }

  /**
   * Two ascending sequences with the same rows are equal: the ordering leaves
   * no freedom, so the query result is fully determined.
   */
  lemma {:induction false} SortedIsUnique(a: seq<Task>, b: seq<Task>)
    requires Ascending(a) && Ascending(b)
    requires forall t :: t in a <==> t in b
    ensures a == b
    decreases |a|
  {
    if a == [] {
      HeadIsMember(b);
    } else {
      assert a[0] in b && b[0] in a;
      var i :| 0 <= i < |b| && b[i] == a[0];
      var j :| 0 <= j < |a| && a[j] == b[0];
      PrecedesIsStrict(a[0], b[0], a[0]);
      assert a[0] == b[0];
      forall t ensures t in a[1..] <==> t in b[1..] {
        if t in a[1..] {
          var k :| 1 <= k < |a| && a[k] == t;
          PrecedesIsStrict(a[0], t, t);
          assert t in a && t in b;
          var m :| 0 <= m < |b| && b[m] == t;
          assert m != 0 && b[1..][m - 1] == t;
        }
        if t in b[1..] {
          var k :| 1 <= k < |b| && b[k] == t;
          PrecedesIsStrict(b[0], t, t);
          assert t in b && t in a;
          var m :| 0 <= m < |a| && a[m] == t;
          assert m != 0 && a[1..][m - 1] == t;
        }
      }
      SortedIsUnique(a[1..], b[1..]);
      assert a == [a[0]] + a[1..] && b == [b[0]] + b[1..];
    }
  }

  /**
   * `get_tasks`: every stored task that passes all supplied filters, each
   * once, in `ORDER BY due_date ASC NULLS LAST, id DESC` order.
   */
  function Query(tasks: map<int, Task>, tags: map<int, Tag>, links: set<Link>, f: Filter): (r: seq<Task>)
    requires TasksKeyed(tasks)
    ensures forall k :: k in tasks ==> (tasks[k] in r <==> Matches(tags, links, tasks[k], f))
    ensures forall t :: t in r ==> t.id in tasks && tasks[t.id] == t
    ensures forall i, j :: 0 <= i < j < |r| ==> r[i].id != r[j].id
    ensures Ascending(r)
  {
    var s := set k | k in tasks && Matches(tags, links, tasks[k], f) :: tasks[k];
    SortTasks(s)
  }

  /**
   * Any sequence holding exactly the matching tasks in ascending order is the
   * query result.
   */
  lemma QueryIsOrderBy(tasks: map<int, Task>, tags: map<int, Tag>, links: set<Link>, f: Filter, r: seq<Task>)
    requires TasksKeyed(tasks)
    requires forall k :: k in tasks ==> (tasks[k] in r <==> Matches(tags, links, tasks[k], f))
    requires forall t :: t in r ==> t.id in tasks && tasks[t.id] == t
    requires Ascending(r)
    ensures r == Query(tasks, tags, links, f)
  {
    SortedIsUnique(r, Query(tasks, tags, links, f));
  }

  /** With the schema's keys, the tag test is a lookup of one association row. */
  lemma TagGuardIsLink(tags: map<int, Tag>, links: set<Link>, t: Task, tagId: int)
    requires TagsKeyed(tags)
    requires tagId != 0
    ensures TagGuard(tags, links, t, Some(tagId)) <==> tagId in tags && (t.id, tagId) in links
  {
    if tagId in tags && (t.id, tagId) in links {
      assert tags[tagId] in TagsOf(tags, links, t.id);
    }
  }

  /** The filters combine by intersection: a task is listed iff each filter alone would list it. */
  lemma FiltersIntersect(tasks: map<int, Task>, tags: map<int, Tag>, links: set<Link>, f: Filter, t: Task)
    requires TasksKeyed(tasks)
    ensures t in Query(tasks, tags, links, f) <==>
      && t in Query(tasks, tags, links, Filter(f.completed, None, None))
      && t in Query(tasks, tags, links, Filter(None, f.priority, None))
      && t in Query(tasks, tags, links, Filter(None, None, f.tagId))
  {
  }

  /** An empty `priority` and a zero `tag_id` are the same as leaving them out. */
  lemma FalsyGuardsAreIgnored(tasks: map<int, Task>, tags: map<int, Tag>, links: set<Link>, f: Filter)
    requires TasksKeyed(tasks)
    ensures Query(tasks, tags, links, f.(priority := Some(""))) == Query(tasks, tags, links, f.(priority := None))
    ensures Query(tasks, tags, links, f.(tagId := Some(0))) == Query(tasks, tags, links, f.(tagId := None))
  {
    QueryIsOrderBy(tasks, tags, links, f.(priority := Some("")), Query(tasks, tags, links, f.(priority := None)));
    QueryIsOrderBy(tasks, tags, links, f.(tagId := Some(0)), Query(tasks, tags, links, f.(tagId := None)));
  }

  /**
   * `completed=False` is a real filter: it drops the completed tasks and the
   * tasks whose flag is NULL, and keeps the rest.
   */
  lemma CompletedFalseFilters(tasks: map<int, Task>, tags: map<int, Tag>, links: set<Link>, k: int)
    requires TasksKeyed(tasks)
    requires k in tasks
    ensures tasks[k] in Query(tasks, tags, links, Filter(Some(false), None, None)) <==> tasks[k].completed == Some(false)
  {
  }

  /** With no filter every stored task is listed, and no task twice. */
  lemma NoFilterListsAll(tasks: map<int, Task>, tags: map<int, Tag>, links: set<Link>)
    requires TasksKeyed(tasks)
    ensures forall k :: k in tasks ==> tasks[k] in Query(tasks, tags, links, NoFilter)
    ensures forall t :: t in Query(tasks, tags, links, NoFilter) ==> t.id in tasks && tasks[t.id] == t
  {
  }

  /** The order of the listing, stated on any two listed tasks. */
  lemma ListingOrder(tasks: map<int, Task>, tags: map<int, Tag>, links: set<Link>, f: Filter, i: int, j: int)
    requires TasksKeyed(tasks)
    requires 0 <= i < j < |Query(tasks, tags, links, f)|
    ensures var a, b := Query(tasks, tags, links, f)[i], Query(tasks, tags, links, f)[j];
      && (a.dueDate.None? ==> b.dueDate.None?)
      && (a.dueDate.Some? && b.dueDate.Some? ==> a.dueDate.value <= b.dueDate.value)
      && (a.dueDate == b.dueDate ==> a.id > b.id)
  {
  }

  /** No two tags share a primary key. */
  predicate DistinctTagIds(s: set<Tag>) {
    forall a, b :: a in s && b in s && a.id == b.id ==> a == b
  }

  /** `g` is the tag of `s` with the lowest id. */
  predicate IsLowest(g: Tag, s: set<Tag>) {
    g in s && forall h :: h in s ==> g.id <= h.id
  }

  /** Every nonempty set of tags has one with the lowest id. */
  lemma {:induction false} LowestIdExists(s: set<Tag>)
    requires s != {}
    ensures exists g :: IsLowest(g, s)
    decreases |s|
  {
    var x :| x in s;
    if s - {x} != {} {
      LowestIdExists(s - {x});
      var y :| IsLowest(y, s - {x});
      if x.id < y.id {
        assert IsLowest(x, s);
      } else {
        assert IsLowest(y, s);
      }
    } else {
      assert s == {x};
      assert IsLowest(x, s);
    }
  }

  /** Distinct ids leave only one tag with the lowest id. */
  lemma LowestIsUnique(s: set<Tag>)
    requires DistinctTagIds(s)
    ensures forall g, g' :: IsLowest(g, s) && IsLowest(g', s) ==> g == g'
  {
  }

  /** Tag ids strictly increase along the sequence. */
  predicate IdsIncreasing(r: seq<Tag>) {
    forall i, j :: 0 <= i < j < |r| ==> r[i].id < r[j].id
  }

  /** A tag below every tag of an increasing sequence can go in front of it. */
  lemma IncreasingCons(g: Tag, rest: seq<Tag>)
    requires IdsIncreasing(rest)
    requires forall h :: h in rest ==> g.id < h.id
    ensures IdsIncreasing([g] + rest)
  {
    var r := [g] + rest;
    forall i, j | 0 <= i < j < |r| ensures r[i].id < r[j].id {
      assert r[j] == rest[j - 1];
      if i > 0 {
        assert r[i] == rest[i - 1];
      } else {
        assert rest[j - 1] in rest;
      }
    }
  }

  /** Tags in primary-key order: each tag of `s` once, ids strictly increasing. */
  function SortTags(s: set<Tag>): (r: seq<Tag>)
    requires DistinctTagIds(s)
    ensures |r| == |s|
    ensures forall g :: g in r <==> g in s
    ensures IdsIncreasing(r)
    decreases |s|
  {
    if s == {} then []
    else
      LowestIdExists(s);
      LowestIsUnique(s);
      var g :| IsLowest(g, s);
      var rest := SortTags(s - {g});
      IncreasingCons(g, rest);
      [g] + rest
  }

  /** `get_tags`: every tag once, in primary-key order. */
  function AllTags(tags: map<int, Tag>): (r: seq<Tag>)
    requires TagsKeyed(tags)
    ensures forall k :: k in tags ==> tags[k] in r
    ensures forall g :: g in r ==> g.id in tags && tags[g.id] == g
    ensures IdsIncreasing(r)
  {
    SortTags(set k | k in tags :: tags[k])
  }
}
