/** The operations of `QuestManager` on its task collection. Each takes the collection as it is
    before the call and returns either the collection after it (for the mutations), the listing
    (for the queries), or the error the call raises, in which case the collection is unchanged.
    `add_task` and `complete_task` check before they modify anything; `remove_task` reassigns
    its list before the check, but on the error path that list equals the old one
    (`Quests.WithoutAbsentName`). */
module QuestManager {
  import opened Wrappers
  import opened Text
  import opened Sequences
  import opened Quests
  import opened PrioritySort

  /** Appending a task under a fresh name keeps the earlier tasks and the names unique. */
  lemma AppendFresh(tasks: seq<Task>, t: Task)
    requires !HasName(tasks, t.name)
    ensures (tasks + [t])[..|tasks|] == tasks
    ensures UniqueNames(tasks) ==> UniqueNames(tasks + [t])
  {
    assert (tasks + [t])[..|tasks|] == tasks;
  }

  /** `add_task`: blank name, then duplicate name, then unknown priority; otherwise append
      a new pending task. */
  function AddTask(tasks: seq<Task>, name: string, description: string,
                   priority: string := DefaultPriority)
    : (r: Result<seq<Task>, Error>)
    ensures AllSpace(name) ==> r == Failure(EmptyName)
    ensures !AllSpace(name) && HasName(tasks, name) ==> r == Failure(DuplicateName(name))
    ensures !AllSpace(name) && !HasName(tasks, name) && (forall p: Priority :: PriorityName(p) != priority)
            ==> r == Failure(InvalidPriority(priority))
    ensures !AllSpace(name) && !HasName(tasks, name) && (exists p: Priority :: PriorityName(p) == priority)
            ==> r.Success?
    ensures r.Success? ==>
              && |r.value| == |tasks| + 1
              && r.value[..|tasks|] == tasks
              && var t := r.value[|tasks|];
                 t.name == name && t.description == description
                 && PriorityName(t.priority) == priority && !t.done
    ensures r.Success? && UniqueNames(tasks) ==> UniqueNames(r.value)
  {
    BlankIffAllSpace(name);
    if IsBlank(name) then Failure(EmptyName)
    else if HasName(tasks, name) then Failure(DuplicateName(name))
    else
      match ParsePriority(priority)
      case None => Failure(InvalidPriority(priority))
      case Some(p) =>
        AppendFresh(tasks, Task(name, description, p, false));
        Success(tasks + [Task(name, description, p, false)])
  }

  /** `list_tasks`: the collection itself, in insertion order. */
  function ListTasks(tasks: seq<Task>): seq<Task> {
    tasks
  }

  /** Sorting facts gathered for every level at once. */
  lemma SortByPriorityFacts(tasks: seq<Task>)
    ensures SortedByPriority(SortByPriority(tasks))
    ensures multiset(SortByPriority(tasks)) == multiset(tasks)
    ensures forall p: Priority :: WithPriority(SortByPriority(tasks), p) == WithPriority(tasks, p)
  {
    SortSorted(tasks);
    SortPermutes(tasks);
    forall p: Priority
      ensures WithPriority(SortByPriority(tasks), p) == WithPriority(tasks, p)
    {
      SortStable(tasks, p);
    }
  }

  /** `list_tasks_by_priority`: a copy of the collection, alta before média before baixa,
      tasks of one level in their stored order. */
  function ListTasksByPriority(tasks: seq<Task>): (r: seq<Task>)
    ensures SortedByPriority(r)
    ensures multiset(r) == multiset(tasks)
    ensures forall p: Priority :: WithPriority(r, p) == WithPriority(tasks, p)
  {
    SortByPriorityFacts(tasks);
    SortByPriority(tasks)
  }

  /** `complete_task`: mark the first task called `name` as done. */
  function CompleteTask(tasks: seq<Task>, name: string): (r: Result<seq<Task>, Error>)
    ensures r.Failure? <==> !HasName(tasks, name)
    ensures r.Failure? ==> r.error == NotFound(name)
    ensures r.Success? ==>
              && |r.value| == |tasks|
              && forall j | 0 <= j < |tasks| ::
                   r.value[j] == if tasks[j].name == name && !HasName(tasks[..j], name)
                                 then tasks[j].(done := true) else tasks[j]
    ensures r.Success? && UniqueNames(tasks) ==> UniqueNames(r.value)
  {
    match IndexOf(tasks, name)
    case None => Failure(NotFound(name))
    case Some(i) =>
      assert forall j | i < j < |tasks| :: tasks[..j][i] == tasks[i];
      Success(tasks[i := tasks[i].(done := true)])
  }

  /** Removing a name present once from a collection with unique names shortens it by one
      and keeps the names unique. */
  lemma WithoutNameKeepsUnique(tasks: seq<Task>, name: string)
    requires HasName(tasks, name)
    ensures UniqueNames(tasks) ==>
              && |WithoutName(tasks, name)| == |tasks| - 1
              && UniqueNames(WithoutName(tasks, name))
  {
    if UniqueNames(tasks) {
      var i := IndexOf(tasks, name).value;
      WithoutUniqueName(tasks, name, i);
      SubsequenceKeepsUnique(WithoutName(tasks, name), tasks);
    }
  }

  /** `remove_task`: drop every task called `name`; it is an error if that drops nothing. */
  function RemoveTask(tasks: seq<Task>, name: string): (r: Result<seq<Task>, Error>)
    ensures r.Failure? <==> !HasName(tasks, name)
    ensures r.Failure? ==> r.error == NotFound(name)
    ensures r.Success? ==>
              && !HasName(r.value, name)
              && IsSubsequence(r.value, tasks)
              && (forall i | 0 <= i < |tasks| && tasks[i].name != name :: tasks[i] in r.value)
              && forall i | 0 <= i < |tasks| ::
                   multiset(r.value)[tasks[i]]
                   == if tasks[i].name == name then 0 else multiset(tasks)[tasks[i]]
    ensures r.Success? && UniqueNames(tasks) ==>
              UniqueNames(r.value) && |r.value| == |tasks| - 1
  {
    var kept := WithoutName(tasks, name);
    FilterShrinks(tasks, (t: Task) => t.name != name);
    FilterCounts(tasks, (t: Task) => t.name != name);
    if |kept| < |tasks| then
      WithoutNameKeepsUnique(tasks, name);
      Success(kept)
    else
      Failure(NotFound(name))
  }

  /** `_filter_by_priority`: the tasks of the named level; an unknown level is an error. */
  function FilterByPriority(tasks: seq<Task>, priority: string): (r: Result<seq<Task>, Error>)
    ensures r.Failure? <==> forall p: Priority :: PriorityName(p) != priority
    ensures r.Failure? ==> r.error == InvalidPriority(priority)
    ensures r.Success? ==>
              && IsSubsequence(r.value, tasks)
              && (forall i | 0 <= i < |r.value| :: PriorityName(r.value[i].priority) == priority)
              && (forall i | 0 <= i < |tasks| && PriorityName(tasks[i].priority) == priority ::
                   tasks[i] in r.value)
              && forall i | 0 <= i < |tasks| ::
                   multiset(r.value)[tasks[i]]
                   == if PriorityName(tasks[i].priority) == priority then multiset(tasks)[tasks[i]] else 0
  {
    match ParsePriority(priority)
    case None => Failure(InvalidPriority(priority))
    case Some(p) =>
      ParsePriorityName(Alta);
      ParsePriorityName(Media);
      ParsePriorityName(Baixa);
      FilterCounts(tasks, (t: Task) => t.priority == p);
      Success(WithPriority(tasks, p))
  }

  /** The two status words `_filter_by_status` accepts. */
  predicate IsStatus(status: string) {
    status == "pending" || status == "done"
  }

  /** `_filter_by_status`: "pending" keeps the unfinished tasks, "done" the finished ones;
      any other word is an error. */
  function FilterByStatus(tasks: seq<Task>, status: string): (r: Result<seq<Task>, Error>)
    ensures r.Failure? <==> !IsStatus(status)
    ensures r.Failure? ==> r.error == InvalidStatus(status)
    ensures r.Success? ==>
              && IsSubsequence(r.value, tasks)
              && (forall i | 0 <= i < |r.value| :: r.value[i].done == (status == "done"))
              && (forall i | 0 <= i < |tasks| && tasks[i].done == (status == "done") ::
                   tasks[i] in r.value)
              && forall i | 0 <= i < |tasks| ::
                   multiset(r.value)[tasks[i]]
                   == if tasks[i].done == (status == "done") then multiset(tasks)[tasks[i]] else 0
  {
    if status == "pending" then
      FilterCounts(tasks, (t: Task) => t.done == false);
      Success(WithDone(tasks, false))
    else if status == "done" then
      FilterCounts(tasks, (t: Task) => t.done == true);
      Success(WithDone(tasks, true))
    else Failure(InvalidStatus(status))
  }

  /** Python truthiness of an optional filter argument: neither `None` nor the empty string. */
  predicate Given(filter: Option<string>) {
    filter.Some? && filter.value != ""
  }

  /** A task passes the filters that are given: the status filter on `done`, the priority
      filter on the level's spelling. */
  predicate Matches(t: Task, status: Option<string>, priority: Option<string>) {
    && (Given(status) ==> t.done == (status.value == "done"))
    && (Given(priority) ==> PriorityName(t.priority) == priority.value)
  }

  /** `list_filtered_tasks`: the status filter, when given, and then the priority filter,
      when given. */
  function ListFilteredTasks(tasks: seq<Task>, status: Option<string>, priority: Option<string>)
    : (r: Result<seq<Task>, Error>)
    ensures Given(status) && !IsStatus(status.value) ==> r == Failure(InvalidStatus(status.value))
    ensures (Given(status) ==> IsStatus(status.value))
            && Given(priority) && (forall p: Priority :: PriorityName(p) != priority.value)
            ==> r == Failure(InvalidPriority(priority.value))
    ensures r.Success? <==>
              && (Given(status) ==> IsStatus(status.value))
              && (Given(priority) ==> exists p: Priority :: PriorityName(p) == priority.value)
    ensures r.Success? ==>
              && IsSubsequence(r.value, tasks)
              && (forall i | 0 <= i < |r.value| :: Matches(r.value[i], status, priority))
              && forall i | 0 <= i < |tasks| && Matches(tasks[i], status, priority) ::
                   tasks[i] in r.value
    ensures !Given(status) && !Given(priority) ==> r == Success(tasks)
  {
    SubsequenceReflexive(tasks);
    var byStatus := if Given(status) then FilterByStatus(tasks, status.value) else Success(tasks);
    match byStatus
    case Failure(e) => Failure(e)
    case Success(afterStatus) =>
      SubsequenceReflexive(afterStatus);
      var byPriority :=
        if Given(priority) then FilterByPriority(afterStatus, priority.value)
        else Success(afterStatus);
      match byPriority
      case Failure(e) => Failure(e)
      case Success(afterPriority) =>
        SubsequenceTransitive(afterPriority, afterStatus, tasks);
        SubsequenceMembers(afterPriority, afterStatus);
        Success(afterPriority)
  }
}
