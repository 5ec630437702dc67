/** A run of invocations against one store: each invocation performs one mutation on the
    collection left by the previous one. A successful mutation's collection is the one written
    back to the file; a failed one leaves memory and file as they were. */
module QuestSession {
  import opened Wrappers
  import opened Sequences
  import opened Quests
  import opened QuestManager

  /** The mutations an invocation can ask for. */
  datatype Command =
    | Add(name: string, description: string, priority: string)
    | Complete(name: string)
    | Remove(name: string)

  /** The store call a command makes. */
  function Run(tasks: seq<Task>, c: Command): Result<seq<Task>, Error> {
    match c
    case Add(n, d, p) => AddTask(tasks, n, d, p)
    case Complete(n) => CompleteTask(tasks, n)
    case Remove(n) => RemoveTask(tasks, n)
  }

  /** The collection after a command: the new one on success, the old one on error. */
  function Step(tasks: seq<Task>, c: Command): (r: seq<Task>)
    ensures UniqueNames(tasks) ==> UniqueNames(r)
    ensures Run(tasks, c).Failure? ==> r == tasks
  {
    match Run(tasks, c)
    case Success(next) => next
    case Failure(_) => tasks
  }

  /** The collection after running `commands` in order, starting from no file. */
  function Replay(commands: seq<Command>): seq<Task> {
    if commands == [] then []
    else Step(Replay(commands[..|commands| - 1]), commands[|commands| - 1])
  }

  /** Whatever commands have run, no two stored tasks share a name. */
  lemma {:induction false} ReplayKeepsUnique(commands: seq<Command>)
    ensures UniqueNames(Replay(commands))
  {
    if commands != [] {
      ReplayKeepsUnique(commands[..|commands| - 1]);
    }
  }

  /** An add brings in no name but its own. */
  lemma AddNames(tasks: seq<Task>, n: string, d: string, p: string, next: seq<Task>, i: nat)
    requires AddTask(tasks, n, d, p) == Success(next) && i < |next|
    ensures next[i].name == n || HasName(tasks, next[i].name)
  {
    if i < |tasks| {
      assert next[..|tasks|][i] == next[i];
    }
  }

  /** Completing a task brings in no name. */
  lemma CompleteNames(tasks: seq<Task>, n: string, next: seq<Task>, i: nat)
    requires CompleteTask(tasks, n) == Success(next) && i < |next|
    ensures HasName(tasks, next[i].name)
  {
    assert next[i].name == tasks[i].name;
  }

  /** Removing a task brings in no name. */
  lemma RemoveNames(tasks: seq<Task>, n: string, next: seq<Task>, i: nat)
    requires RemoveTask(tasks, n) == Success(next) && i < |next|
    ensures HasName(tasks, next[i].name)
  {
    SubsequenceMembers(next, tasks);
    var k :| 0 <= k < |tasks| && tasks[k] == next[i];
  }

  /** A command brings in no name except the one it adds. */
  lemma StepNames(tasks: seq<Task>, c: Command, i: nat)
    requires i < |Step(tasks, c)|
    ensures || (c.Add? && Step(tasks, c)[i].name == c.name)
            || HasName(tasks, Step(tasks, c)[i].name)
  {
    var r := Run(tasks, c);
    if r.Failure? {
      assert Step(tasks, c)[i] == tasks[i];
    } else {
      match c
      case Add(n, d, p) => AddNames(tasks, n, d, p, r.value, i);
      case Complete(n) => CompleteNames(tasks, n, r.value, i);
      case Remove(n) => RemoveNames(tasks, n, r.value, i);
    }
  }

  /** Whatever commands have run, every stored task carries a name some command added. */
  lemma {:induction false} ReplayNamesAdded(commands: seq<Command>, i: nat)
    requires i < |Replay(commands)|
    ensures exists k | 0 <= k < |commands| ::
              commands[k].Add? && commands[k].name == Replay(commands)[i].name
  {
    var front := commands[..|commands| - 1];
    var last := commands[|commands| - 1];
    var before := Replay(front);
    assert Replay(commands) == Step(before, last);
    var name := Replay(commands)[i].name;
    StepNames(before, last, i);
    if !(last.Add? && last.name == name) {
      var j: nat :| j < |before| && before[j].name == name;
      ReplayNamesAdded(front, j);
      var k :| 0 <= k < |front| && front[k].Add? && front[k].name == name;
      assert commands[k] == front[k];
    }
  }
}
