/**
 * The manager's home screen: the four orders it sorts the task list in,
 * and the split of that list into active tasks and the archive.
 *
 * Timestamps are compared through `parse`, which stands for
 * `new Date(...)` followed by its numeric value; the current moment is the
 * parameter `today`.
 */
module ManagerHome {
  import opened Records
  import opened Seqs
  import opened TaskSort
  import opened Search

  /**
   * `priorityOrder` (`High: 1, Medium: 2, Low: 3`). Any other string ranks
   * after `Low`.
   */
  function PriorityRank(p: string): (rank: int)
    ensures 1 <= rank <= 4
    ensures rank == 1 <==> p == "High"
    ensures rank == 2 <==> p == "Medium"
    ensures rank == 3 <==> p == "Low"
  {
    if p == "High" then 1 else if p == "Medium" then 2 else if p == "Low" then 3 else 4
  }

  /** The due date's timestamp: the key of `'dueSoon'`. */
  function DueKey(parse: string -> int): Task -> int {
    (t: Task) => parse(t.dueDate)
  }

  /**
   * The key each sort option compares by: the comparator of
   * `sortTasks` is always `key(a) - key(b)` for one of these; `'newest'`
   * compares `createdAt` the other way round, so its key is negated.
   */
  function SortKey(option: string, parse: string -> int): (key: Option<Task -> int>)
    ensures key.Some? <==> option in {"dueSoon", "newest", "oldest", "priority"}
  {
    if option == "dueSoon" then Some(DueKey(parse))
    else if option == "newest" then Some((t: Task) => -parse(t.createdAt))
    else if option == "oldest" then Some((t: Task) => parse(t.createdAt))
    else if option == "priority" then Some((t: Task) => PriorityRank(t.priority))
    else None
  }

  /** `sortTasks(tasks, option)`: the tasks in the chosen order; an unknown option sorts nothing. */
  function SortTasks(tasks: seq<Task>, option: string, parse: string -> int): (r: seq<Task>)
    ensures multiset(r) == multiset(tasks)
    ensures SortKey(option, parse).None? ==> r == tasks
  {
    match SortKey(option, parse)
    case None => tasks
    case Some(key) =>
      SortByPermutes(tasks, key);
      SortBy(tasks, key)
  }

  /** `sortTasks` sorts the array it is given in place. */
  method SortTasksInPlace(a: array<Task>, option: string, parse: string -> int)
    modifies a
    ensures a[..] == SortTasks(old(a[..]), option, parse)
  {
    var key := SortKey(option, parse);
    if key.Some? {
      SortInPlace(a, key.value);
    }
  }

  /** `'dueSoon'`: due dates never decrease along the result. */
  lemma DueSoonOrder(tasks: seq<Task>, parse: string -> int)
    ensures var r := SortTasks(tasks, "dueSoon", parse);
      forall i, j :: 0 <= i < j < |r| ==> parse(r[i].dueDate) <= parse(r[j].dueDate)
  {
    SortBySorted(tasks, DueKey(parse));
  }

  /** `'newest'`: creation times never increase along the result. */
  lemma NewestOrder(tasks: seq<Task>, parse: string -> int)
    ensures var r := SortTasks(tasks, "newest", parse);
      forall i, j :: 0 <= i < j < |r| ==> parse(r[i].createdAt) >= parse(r[j].createdAt)
  {
    SortBySorted(tasks, SortKey("newest", parse).value);
  }

  /** `'oldest'`: creation times never decrease along the result. */
  lemma OldestOrder(tasks: seq<Task>, parse: string -> int)
    ensures var r := SortTasks(tasks, "oldest", parse);
      forall i, j :: 0 <= i < j < |r| ==> parse(r[i].createdAt) <= parse(r[j].createdAt)
  {
    SortBySorted(tasks, SortKey("oldest", parse).value);
  }

  /** `'priority'`: every High task comes before every Medium task, and every Medium before every Low. */
  lemma PriorityOrder(tasks: seq<Task>, parse: string -> int)
    ensures var r := SortTasks(tasks, "priority", parse);
      forall i, j :: 0 <= i < j < |r| ==>
        && (r[j].priority == "High" ==> r[i].priority == "High")
        && (r[j].priority == "Medium" ==> r[i].priority in {"High", "Medium"})
        && (r[i].priority == "Low" ==> r[j].priority != "High" && r[j].priority != "Medium")
  {
    var key := SortKey("priority", parse).value;
    SortBySorted(tasks, key);
    var r := SortTasks(tasks, "priority", parse);
    forall i, j | 0 <= i < j < |r|
      ensures PriorityRank(r[i].priority) <= PriorityRank(r[j].priority)
    {
      assert key(r[i]) <= key(r[j]);
    }
  }

  /**
   * Every sort is stable: the tasks with equal keys keep their relative
   * order from the input.
   */
  lemma SortTasksStable(tasks: seq<Task>, option: string, parse: string -> int, k: int)
    requires SortKey(option, parse).Some?
    ensures var key := SortKey(option, parse).value;
      Filter(SortTasks(tasks, option, parse), KeyIs(key, k)) == Filter(tasks, KeyIs(key, k))
  {
    SortByStable(tasks, SortKey(option, parse).value, k);
  }

  /** Not done, not yet due, and the title matches the search. */
  predicate IsActive(t: Task, today: int, query: string, parse: string -> int) {
    t.status != Done && parse(t.dueDate) >= today && TitleMatches(t, query)
  }

  /**
   * Done, or overdue with a title that matches the search: `&&` binds
   * tighter than `||`, so a done task is archived whatever the search.
   */
  predicate IsArchived(t: Task, today: int, query: string, parse: string -> int) {
    t.status == Done || (parse(t.dueDate) < today && TitleMatches(t, query))
  }

  /** `activeTasks` */
  function ActiveTasks(tasks: seq<Task>, today: int, query: string, parse: string -> int): (r: seq<Task>)
    ensures forall t :: t in r <==> t in tasks && IsActive(t, today, query, parse)
  {
    Filter(tasks, t => IsActive(t, today, query, parse))
  }

  /** `archiveTasks` */
  function ArchiveTasks(tasks: seq<Task>, today: int, query: string, parse: string -> int): (r: seq<Task>)
    ensures forall t :: t in r <==> t in tasks && IsArchived(t, today, query, parse)
  {
    Filter(tasks, t => IsArchived(t, today, query, parse))
  }

  /** No task is both active and archived, and both lists keep the order of the task list. */
  lemma ActiveArchiveDisjoint(tasks: seq<Task>, today: int, query: string, parse: string -> int)
    ensures forall t :: !(t in ActiveTasks(tasks, today, query, parse) && t in ArchiveTasks(tasks, today, query, parse))
    ensures Subsequence(ActiveTasks(tasks, today, query, parse), tasks)
    ensures Subsequence(ArchiveTasks(tasks, today, query, parse), tasks)
  {
    FilterIsSubsequence(tasks, t => IsActive(t, today, query, parse));
    FilterIsSubsequence(tasks, t => IsArchived(t, today, query, parse));
  }

  /**
   * The done tasks of the archive are all the done tasks of the list, in
   * their order, whatever the search query; none of them is active.
   */
  lemma DoneAlwaysArchived(tasks: seq<Task>, today: int, query: string, parse: string -> int)
    ensures Filter(ArchiveTasks(tasks, today, query, parse), IsDone) == Filter(tasks, IsDone)
    ensures forall t :: t in ActiveTasks(tasks, today, query, parse) ==> !IsDone(t)
  {
    var archived := t => IsArchived(t, today, query, parse);
    var both := t => archived(t) && IsDone(t);
    FilterFilter(tasks, archived, IsDone, both);
    FilterSame(tasks, both, IsDone);
  }

  predicate IsDone(t: Task) {
    t.status == Done
  }

  /** With an empty search, every task is in exactly one of the two lists. */
  lemma EmptyQueryPartitions(tasks: seq<Task>, today: int, parse: string -> int)
    ensures forall t :: t in tasks ==>
      (t in ActiveTasks(tasks, today, "", parse) <==> t !in ArchiveTasks(tasks, today, "", parse))
    ensures |ActiveTasks(tasks, today, "", parse)| + |ArchiveTasks(tasks, today, "", parse)| == |tasks|
  {
    forall t: Task
      ensures IsArchived(t, today, "", parse) == !IsActive(t, today, "", parse)
    {
      EmptyQueryMatches(t.title);
    }
    FilterPartition(tasks, t => IsActive(t, today, "", parse), t => IsArchived(t, today, "", parse));
  }
}
