/** Properties relating several store operations: what a later call sees after an earlier one. */
module QuestProperties {
  import opened Wrappers
  import Text
  import opened Sequences
  import opened Quests
  import opened PrioritySort
  import opened QuestManager

  /** A task appended under a name absent before is the only one with that name, and the
      lookup by name finds it. */
  lemma AppendedNameOnlyLast(tasks: seq<Task>, t: Task)
    requires !HasName(tasks, t.name)
    ensures forall i | 0 <= i < |tasks| + 1 :: (tasks + [t])[i].name == t.name <==> i == |tasks|
    ensures IndexOf(tasks + [t], t.name) == Some(|tasks|)
  {
    var s := tasks + [t];
    assert s[|tasks|] == t;
    assert forall k | 0 <= k < |tasks| :: s[k] == tasks[k];
  }

  /** A successful add appends one pending task whose name was absent before. */
  lemma AddAppends(tasks: seq<Task>, name: string, description: string, priority: string,
                   after: seq<Task>)
    requires AddTask(tasks, name, description, priority) == Success(after)
    ensures after == tasks + [Task(name, description, after[|tasks|].priority, false)]
    ensures !HasName(tasks, name)
  {
    assert after[..|tasks|] == tasks;
  }

  /** An add without a priority stores a média task; it fails only on a blank or taken name. */
  lemma AddDefaultPriority(tasks: seq<Task>, name: string, description: string)
    ensures AddTask(tasks, name, description).Failure? <==> Text.IsBlank(name) || HasName(tasks, name)
    ensures AddTask(tasks, name, description).Success? ==>
              AddTask(tasks, name, description).value[|tasks|].priority == Media
  {
    Text.BlankIffAllSpace(name);
    assert PriorityName(Media) == DefaultPriority;
  }

  /** After a successful add, the listing holds exactly one task with the new name: the
      appended one, which is the task `complete_task` and `remove_task` will find. */
  lemma AddThenListed(tasks: seq<Task>, name: string, description: string, priority: string,
                      after: seq<Task>)
    requires AddTask(tasks, name, description, priority) == Success(after)
    ensures forall i | 0 <= i < |ListTasks(after)| :: ListTasks(after)[i].name == name <==> i == |tasks|
    ensures IndexOf(after, name) == Some(|tasks|)
  {
    AddAppends(tasks, name, description, priority, after);
    AppendedNameOnlyLast(tasks, after[|tasks|]);
  }

  /** A name just added cannot be added again, whatever the description and priority. */
  lemma AddTwiceRejected(tasks: seq<Task>, name: string, description: string, priority: string,
                         after: seq<Task>, description2: string, priority2: string)
    requires AddTask(tasks, name, description, priority) == Success(after)
    ensures AddTask(after, name, description2, priority2) == Failure(DuplicateName(name))
  {
    AddThenListed(tasks, name, description, priority, after);
  }

  /** Removing the name of the last task, absent from the rest, leaves the rest. */
  lemma RemoveLast(tasks: seq<Task>, t: Task)
    requires !HasName(tasks, t.name)
    ensures RemoveTask(tasks + [t], t.name) == Success(tasks)
  {
    WithoutNameConcat(tasks, [t], t.name);
    WithoutAbsentName(tasks, t.name);
    assert [t][1..] == [];
    assert WithoutName([t], t.name) == [];
    assert WithoutName(tasks + [t], t.name) == tasks;
  }

  /** Removing the name just added restores the collection as it was before the add. */
  lemma RemoveUndoesAdd(tasks: seq<Task>, name: string, description: string, priority: string,
                        after: seq<Task>)
    requires AddTask(tasks, name, description, priority) == Success(after)
    ensures RemoveTask(after, name) == Success(tasks)
  {
    AddAppends(tasks, name, description, priority, after);
    RemoveLast(tasks, after[|tasks|]);
  }

  /** Under unique names, `remove_task` takes out exactly the task with that name. */
  lemma RemoveExactlyOne(tasks: seq<Task>, name: string, i: nat)
    requires UniqueNames(tasks)
    requires i < |tasks| && tasks[i].name == name
    ensures RemoveTask(tasks, name) == Success(tasks[..i] + tasks[i + 1..])
  {
    WithoutUniqueName(tasks, name, i);
  }

  /** Completing a task twice is the same as completing it once. */
  lemma CompleteIdempotent(tasks: seq<Task>, name: string, after: seq<Task>)
    requires CompleteTask(tasks, name) == Success(after)
    ensures CompleteTask(after, name) == Success(after)
  {
    var i := IndexOf(tasks, name).value;
    assert forall j | 0 <= j < |tasks| :: after[j].name == tasks[j].name;
    assert !HasName(tasks[..i], name);
    var k := IndexOf(after, name).value;
    assert k == i;
    assert after[i].done;
    assert after[i := after[i].(done := true)] == after;
  }

  /** Completing the name of the last task, absent from the rest, marks only that task. */
  lemma CompleteLast(tasks: seq<Task>, t: Task)
    requires !HasName(tasks, t.name)
    ensures CompleteTask(tasks + [t], t.name) == Success(tasks + [t.(done := true)])
  {
    AppendedNameOnlyLast(tasks, t);
    assert (tasks + [t])[|tasks| := t.(done := true)] == tasks + [t.(done := true)];
  }

  /** The "done" listing of a collection with one more finished task at the end. */
  lemma ListDoneLast(tasks: seq<Task>, t: Task)
    requires t.done
    ensures ListFilteredTasks(tasks + [t], Some("done"), None) == Success(WithDone(tasks, true) + [t])
  {
    WithDoneConcat(tasks, [t], true);
    assert [t][1..] == [];
    assert WithDone([t], true) == [t];
    assert FilterByStatus(tasks + [t], "done") == Success(WithDone(tasks + [t], true));
  }

  /** A task added and then completed is listed by the "done" filter after every task that was
      already done, and it is the only new entry there. */
  lemma AddCompleteListDone(tasks: seq<Task>, name: string, description: string, priority: string,
                            added: seq<Task>, completed: seq<Task>)
    requires AddTask(tasks, name, description, priority) == Success(added)
    requires CompleteTask(added, name) == Success(completed)
    ensures ListFilteredTasks(completed, Some("done"), None)
         == Success(WithDone(tasks, true) + [Task(name, description, added[|tasks|].priority, true)])
  {
    AddAppends(tasks, name, description, priority, added);
    var t := added[|tasks|];
    CompleteLast(tasks, t);
    ListDoneLast(tasks, t.(done := true));
  }

  /** The two filters of `list_filtered_tasks` together are one pass keeping the tasks that
      match every given filter. */
  lemma ListFilteredIsOnePass(tasks: seq<Task>, status: Option<string>, priority: Option<string>)
    requires ListFilteredTasks(tasks, status, priority).Success?
    ensures ListFilteredTasks(tasks, status, priority).value
         == Filter(tasks, (t: Task) => Matches(t, status, priority))
  {
    var matches := (t: Task) => Matches(t, status, priority);
    var wantDone := Given(status) && status.value == "done";
    var statusTest := (t: Task) => t.done == wantDone;
    if !Given(status) && !Given(priority) {
      FilterKeepsAll(tasks, matches);
    } else if !Given(priority) {
      FilterSameTest(tasks, statusTest, matches);
    } else {
      var p := ParsePriority(priority.value).value;
      var priorityTest := (t: Task) => t.priority == p;
      if !Given(status) {
        FilterSameTest(tasks, priorityTest, matches);
      } else {
        FilterFilter(tasks, statusTest, priorityTest, matches);
      }
    }
  }

  /** `list_tasks_by_priority` equals the alta tasks, then the média tasks, then the baixa
      tasks, each group in stored order. */
  lemma ByPriorityIsLevels(tasks: seq<Task>)
    ensures ListTasksByPriority(tasks)
         == WithPriority(tasks, Alta) + WithPriority(tasks, Media) + WithPriority(tasks, Baixa)
  {
    SortedIsLevels(ListTasksByPriority(tasks));
  }
}
