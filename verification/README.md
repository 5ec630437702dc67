# Quest tracker store, modelled in Dafny

This project models `QuestManager`, the task store of a single-user command-line quest
tracker. The store holds an ordered list of quests. Each quest has a `name`, a
`description`, a priority (`alta`, `média` or `baixa`) and a `done` flag. The store supports
these operations:

- add a quest, checking for a blank name, then a duplicate name, then an unknown priority;
- list the quests as stored;
- list them stably sorted by priority, alta first;
- complete a quest by name;
- remove a quest by name;
- list the quests through optional status and priority filters, combined with AND.

Each operation is a pure function over `seq<Task>`. A mutation returns
`Result<seq<Task>, Error>`: on success, the collection after the call; on failure, the error
the Python method raises. A failed call leaves the caller's collection as it was. `add_task`
and `complete_task` run their checks before they change anything. `remove_task` reassigns its
list before its check (`tarefas_cli.py:64-66`), but on the not-found path the new list equals
the old one, which `Quests.WithoutAbsentName` proves.

Files and modules:

- `wrappers.dfy` (`Wrappers`): `Option` and `Result`.
- `text.dfy` (`Text`): Python's `str.strip()` and the whitespace set of `str.isspace()`, used
  by the blank-name check.
- `sequences.dfy` (`Sequences`): `Filter` (a list comprehension with a condition),
  `IsSubsequence` and their algebra.
- `quests.dfy` (`Quests`): `Priority`, `Task`, `Error`, the spelling of the priority levels,
  name lookup, name uniqueness, and the three selections the store uses (by level, by flag,
  without a name).
- `priority_sort.dfy` (`PrioritySort`): the stable sort by priority, with proofs that it is
  sorted, a permutation, stable, and equal to the alta tasks, then the média tasks, then the
  baixa tasks.
- `quest_manager.dfy` (`QuestManager`): the store operations.
- `quest_properties.dfy` (`QuestProperties`): properties that relate several calls.
- `quest_session.dfy` (`QuestSession`): a run of invocations, each performing one mutation on
  the collection left by the previous one. This states the whole-store invariants.

Points of the code the model follows closely:

- An empty status or priority filter is treated as no filter, because the code tests the
  arguments for truthiness (`tarefas_cli.py:104`, `:106`).
- `remove_task` removes every quest with the given name (a filter), keeping every other task
  with its multiplicity. Under unique names this is exactly one task, which
  `QuestProperties.RemoveExactlyOne` proves.
- The code raises `ValueError` for every error; the model keeps one constructor per cause:
  `EmptyName`, `DuplicateName`, `InvalidPriority`, `InvalidStatus` and `NotFound`.
- The default priority is the string `"média"` (`Quests.DefaultPriority`), the default value
  of `AddTask`'s `priority` parameter, as in `tarefas_cli.py:18`.
- `add_task` only checks that `name.strip()` is non-empty. The name is stored unstripped, and
  the duplicate check compares the exact, case-sensitive string.

## Model

| member | source | states |
|---|---|---|
| Text.StripLeft | tarefas_cli.py:21 | the left half of `strip()`: the result is a suffix of the input, everything cut off is whitespace, and the result does not start with whitespace |
| Text.StripRight | tarefas_cli.py:21 | the right half of `strip()`: the result is a prefix of the input, everything cut off is whitespace, and the result does not end with whitespace |
| Text.BlankIffAllSpace | tarefas_cli.py:21-22 | `name.strip()` is empty exactly when every character of the name is Python whitespace, so the empty name and whitespace-only names are the blank ones |
| Sequences.Filter | tarefas_cli.py:64 | a list comprehension with a condition keeps every element that passes, keeps only such elements, preserves their order (the result is a subsequence), and never lengthens the list |
| Sequences.FilterCounts | tarefas_cli.py:64 | a list comprehension with a condition keeps each passing element as many times as it occurs in the input, and no copy of a failing one |
| Quests.ParsePriority | tarefas_cli.py:27 | the priority check accepts exactly the three spellings, and an accepted string names the level it is parsed to |
| Quests.IndexOf | tarefas_cli.py:52-57 | the front-to-back scan of `complete_task` stops at the first task with that exact name, and finds nothing exactly when no task has that name |
| Quests.UniqueIndexOf | tarefas_cli.py:52-57 | under unique names, a task carrying the name is the one the scan stops at |
| Quests.WithoutAbsentName | tarefas_cli.py:64-69 | on the not-found path, the filtered list that `remove_task` assigns back is equal to the list it replaced |
| Quests.WithoutUniqueName | tarefas_cli.py:64 | under unique names, filtering out a name removes exactly the task at its index and keeps the others in order |
| Quests.SubsequenceKeepsUnique | tarefas_cli.py:64 | a list obtained by dropping tasks keeps pairwise-distinct names |
| PrioritySort.SortSorted | tarefas_cli.py:44-47 | the sort orders tasks by the key alta 1, média 2, baixa 3 |
| PrioritySort.SortPermutes | tarefas_cli.py:45-47 | the sorted list has the same tasks, with the same multiplicities, as the stored list |
| PrioritySort.SortStable | tarefas_cli.py:45-47 | tasks of equal priority keep their stored relative order, as Python's stable `sorted` does |
| PrioritySort.SortedIsLevels | tarefas_cli.py:44-47 | a list sorted by the key is its alta tasks, then its média tasks, then its baixa tasks |
| QuestManager.AddTask | tarefas_cli.py:17-36 | checks in order for a blank name (EmptyName), a name already present (DuplicateName), then an unknown priority (InvalidPriority); it succeeds exactly when all three pass; success appends one task at the end with the given name, description and priority and `done` false, leaves the earlier tasks untouched, and preserves unique names |
| QuestManager.AppendFresh | tarefas_cli.py:35 | appending a task whose name is absent keeps the earlier tasks in place and keeps names unique |
| QuestManager.ListTasksByPriority | tarefas_cli.py:43-48 | the result is a permutation of the stored tasks, ordered alta before média before baixa, with each level in stored order |
| QuestManager.CompleteTask | tarefas_cli.py:51-58 | an unknown name fails with NotFound; otherwise only the first task with that name has `done` set, while the length, the order and every other task stay as they were, and unique names are preserved |
| QuestManager.WithoutNameKeepsUnique | tarefas_cli.py:61-69 | under unique names, removing a present name shortens the list by exactly one and keeps names unique |
| QuestManager.RemoveTask | tarefas_cli.py:61-69 | an unknown name fails with NotFound; otherwise no task with the name remains, every other task remains with its number of occurrences, order is kept, and under unique names the length drops by exactly one |
| QuestManager.FilterByPriority | tarefas_cli.py:72-78 | an unknown level fails with InvalidPriority; otherwise the result keeps, in order, exactly the tasks of that level, each as many times as it occurs in the stored list, and no copy of any other task |
| QuestManager.FilterByStatus | tarefas_cli.py:81-87 | any word other than `pending` or `done` fails with InvalidStatus; otherwise the result keeps, in order, exactly the unfinished tasks (`pending`) or the finished ones (`done`), each as many times as it occurs in the stored list, and no copy of any other task |
| QuestManager.ListFilteredTasks | tarefas_cli.py:89-108 | an absent or empty filter is no filter; a bad status fails before a bad priority is looked at; success keeps, in order, exactly the tasks that match every given filter; with no filter the result is the stored list |
| QuestProperties.AppendedNameOnlyLast | tarefas_cli.py:24-35 | a task appended under a name absent before is the only task with that name, and the lookup by name finds it at the end |
| QuestProperties.AddDefaultPriority | tarefas_cli.py:17-36 | an add without a priority argument fails only on a blank or taken name, and otherwise stores a média task |
| QuestProperties.AddAppends | tarefas_cli.py:30-35 | after a successful add, the collection is the old one plus one pending task, and the name was absent before |
| QuestProperties.AddThenListed | tarefas_cli.py:30-35 | after a successful add, `list_tasks` has exactly one task with the new name, the appended one, and the name lookup finds it |
| QuestProperties.AddTwiceRejected | tarefas_cli.py:24-25 | adding a name that was just added fails with DuplicateName, whatever the description and priority |
| QuestProperties.RemoveLast | tarefas_cli.py:61-69 | removing the name of the last task, when no other task has it, yields the tasks before it |
| QuestProperties.RemoveUndoesAdd | tarefas_cli.py:61-69 | removing the name just added restores the collection exactly as it was before the add |
| QuestProperties.RemoveExactlyOne | tarefas_cli.py:61-69 | under unique names, removal takes out exactly the task with that name and keeps the rest in order |
| QuestProperties.CompleteIdempotent | tarefas_cli.py:51-58 | completing the same name a second time succeeds and changes nothing |
| QuestProperties.CompleteLast | tarefas_cli.py:51-58 | completing the name of the last task, when no other task has it, sets the flag of that task alone |
| QuestProperties.ListDoneLast | tarefas_cli.py:85-86 | the `done` listing of a list that ends in a finished task is the earlier finished tasks followed by that task |
| QuestProperties.AddCompleteListDone | tarefas_cli.py:51-58 | add, then complete, then list with status `done` gives the earlier finished tasks followed by the new task, now done |
| QuestProperties.ListFilteredIsOnePass | tarefas_cli.py:103-108 | the status filter followed by the priority filter equals one filter that keeps a task when it matches every given filter |
| QuestProperties.ByPriorityIsLevels | tarefas_cli.py:43-48 | `list_tasks_by_priority` equals the alta tasks, then the média tasks, then the baixa tasks, each in stored order |
| QuestSession.Step | tarefas_cli.py:17-69 | a failed mutation leaves the collection as it was, and every mutation preserves unique names |
| QuestSession.ReplayKeepsUnique | tarefas_cli.py:24-25 | after any run of add, complete and remove commands starting from no file, no two stored tasks share a name |
| QuestSession.AddNames | tarefas_cli.py:30-35 | after an add, every task's name is the added one or was already present |
| QuestSession.CompleteNames | tarefas_cli.py:51-58 | completing a task changes no name |
| QuestSession.RemoveNames | tarefas_cli.py:64 | after a removal, every remaining name was already present |
| QuestSession.StepNames | tarefas_cli.py:17-69 | a mutation brings in no name except the one an add adds |
| QuestSession.ReplayNamesAdded | tarefas_cli.py:30-35 | after any run of commands, every stored task carries a name that some add command supplied |

## Left out

- `save_tasks` and `load_tasks` (`tarefas_cli.py:111-119`) write and read the JSON file through
  the `json` library, which is not part of this model. `QuestSession.Step` returns the one
  collection that is both kept in memory and written back after a successful mutation. This
  is the only trace of persistence in the model. The JSON round trip is not modelled, and
  neither is a corrupt file, which is an unhandled parse exception in the source.
- Data read from a file can break the store's invariants: duplicate names, a priority outside
  the three levels, or missing fields. A priority outside the three levels and missing fields
  are ruled out by the model's types; in the source, such a priority makes
  `list_tasks_by_priority` raise `KeyError`, and the model has no such path. Duplicate names
  are not ruled out: `seq<Task>` can hold them, and `CompleteTask` (first match) and
  `RemoveTask` (every match) are specified on them as the source behaves. Uniqueness is a
  separate predicate, `Quests.UniqueNames`, kept by every mutation.
- `main` (`tarefas_cli.py:122-171`) is the argparse front end. Its required-argument checks and
  printed messages are presentation only.
- `list_tasks` returns the live list object (`tarefas_cli.py:39-40`). In a value model this is
  the identity function, `QuestManager.ListTasks`. It has no contract of its own, and the
  Python aliasing is not meaningful here.
- The sort algorithm: Python's `sorted` uses Timsort, while the model uses a stable insertion
  sort. A stable sort has exactly one possible result, and `QuestProperties.ByPriorityIsLevels`
  states it. So the model describes the source's output, not its algorithm.
- Error messages are not modelled, only which error is raised.
- Python strings are sequences of code points; `string` here is `seq<char>` over Unicode
  scalar values. Lone surrogates, which Python strings can hold, are not modelled.
