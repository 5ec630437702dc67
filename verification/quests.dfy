/** The task record of the quest tracker and the queries every store operation shares. */
module Quests {
  import opened Wrappers
  import opened Sequences

  /** The three priority levels; the source spells them "alta", "média", "baixa". */
  datatype Priority = Alta | Media | Baixa

  /** The spelling of a priority level, as stored and as accepted on input. */
  function PriorityName(p: Priority): string {
    match p
    case Alta => "alta"
    case Media => "média"
    case Baixa => "baixa"
  }

  /** Whether a string spells one of the three levels, and which one. */
  function ParsePriority(s: string): (r: Option<Priority>)
    ensures r.Some? ==> PriorityName(r.value) == s
    ensures r.None? ==> forall p: Priority :: PriorityName(p) != s
  {
    if s == "alta" then Some(Alta)
    else if s == "média" then Some(Media)
    else if s == "baixa" then Some(Baixa)
    else None
  }

  /** Every level's spelling is accepted back as that same level. */
  lemma ParsePriorityName(p: Priority)
    ensures ParsePriority(PriorityName(p)) == Some(p)
  {
  }

  /** The sort key `priority_order`: alta 1, média 2, baixa 3. */
  function Rank(p: Priority): nat {
    match p
    case Alta => 1
    case Media => 2
    case Baixa => 3
  }

  /** The default priority of a new task. */
  const DefaultPriority: string := "média"

  /** One quest: the four fields of a stored task record. */
  datatype Task = Task(name: string, description: string, priority: Priority, done: bool)

  /** The causes of the `ValueError`s the store raises. */
  datatype Error =
    | EmptyName
    | DuplicateName(name: string)
    | InvalidPriority(priority: string)
    | InvalidStatus(status: string)
    | NotFound(name: string)

  /** Some task of the collection is called exactly `name` (case-sensitive). */
  predicate HasName(tasks: seq<Task>, name: string) {
    exists i | 0 <= i < |tasks| :: tasks[i].name == name
  }

  /** No two tasks of the collection share a name. */
  predicate UniqueNames(tasks: seq<Task>) {
    forall i, j | 0 <= i < j < |tasks| :: tasks[i].name != tasks[j].name
  }

  /** The position of the first task called `name`, the one a front-to-back scan stops at. */
  function IndexOf(tasks: seq<Task>, name: string): (r: Option<nat>)
    ensures r.None? <==> !HasName(tasks, name)
    ensures r.Some? ==> r.value < |tasks| && tasks[r.value].name == name
    ensures r.Some? ==> forall j | 0 <= j < r.value :: tasks[j].name != name
  {
    if tasks == [] then None
    else if tasks[0].name == name then Some(0)
    else
      match IndexOf(tasks[1..], name)
      case None => None
      case Some(i) => Some(i + 1)
  }

  /** Under unique names, the only task called `name` is the one `IndexOf` finds. */
  lemma UniqueIndexOf(tasks: seq<Task>, name: string, i: nat)
    requires UniqueNames(tasks)
    requires i < |tasks| && tasks[i].name == name
    ensures IndexOf(tasks, name) == Some(i)
  {
  }

  /** The tasks of one priority level, in collection order. */
  function WithPriority(tasks: seq<Task>, p: Priority): seq<Task> {
    Filter(tasks, (t: Task) => t.priority == p)
  }

  /** The tasks whose completion flag is `done`, in collection order. */
  function WithDone(tasks: seq<Task>, done: bool): seq<Task> {
    Filter(tasks, (t: Task) => t.done == done)
  }

  /** The tasks not called `name`, in collection order. */
  function WithoutName(tasks: seq<Task>, name: string): seq<Task> {
    Filter(tasks, (t: Task) => t.name != name)
  }

  /** Selecting by completion flag from a concatenation selects from each part. */
  lemma WithDoneConcat(a: seq<Task>, b: seq<Task>, done: bool)
    ensures WithDone(a + b, done) == WithDone(a, done) + WithDone(b, done)
  {
    FilterConcat(a, b, (t: Task) => t.done == done);
  }

  /** Filtering a name out of a concatenation filters it out of each part. */
  lemma WithoutNameConcat(a: seq<Task>, b: seq<Task>, name: string)
    ensures WithoutName(a + b, name) == WithoutName(a, name) + WithoutName(b, name)
  {
    FilterConcat(a, b, (t: Task) => t.name != name);
  }

  /** Dropping tasks keeps the names of the rest distinct. */
  lemma {:induction false} SubsequenceKeepsUnique(a: seq<Task>, b: seq<Task>)
    requires IsSubsequence(a, b) && UniqueNames(b)
    ensures UniqueNames(a)
    decreases |b|
  {
    if a != [] {
      if a[0] == b[0] && IsSubsequence(a[1..], b[1..]) {
        SubsequenceKeepsUnique(a[1..], b[1..]);
        SubsequenceMembers(a[1..], b[1..]);
        forall j | 0 < j < |a|
          ensures a[0].name != a[j].name
        {
          assert a[1..][j - 1] in b[1..];
        }
      } else {
        SubsequenceKeepsUnique(a, b[1..]);
      }
    }
  }

  /** Filtering out a name nobody has changes nothing. */
  lemma WithoutAbsentName(tasks: seq<Task>, name: string)
    requires !HasName(tasks, name)
    ensures WithoutName(tasks, name) == tasks
  {
    FilterKeepsAll(tasks, (t: Task) => t.name != name);
  }

  /** Under unique names, filtering out a name drops exactly the one task carrying it. */
  lemma WithoutUniqueName(tasks: seq<Task>, name: string, i: nat)
    requires UniqueNames(tasks)
    requires i < |tasks| && tasks[i].name == name
    ensures WithoutName(tasks, name) == tasks[..i] + tasks[i + 1..]
  {
    var front, back := tasks[..i], tasks[i + 1..];
    assert tasks == front + ([tasks[i]] + back);
    assert !HasName(front, name) by {
      forall j | 0 <= j < |front|
        ensures front[j].name != name
      {
        assert front[j] == tasks[j];
      }
    }
    assert !HasName(back, name) by {
      forall j | 0 <= j < |back|
        ensures back[j].name != name
      {
        assert back[j] == tasks[i + 1 + j];
      }
    }
    WithoutAbsentName(front, name);
    WithoutAbsentName(back, name);
    WithoutNameConcat(front, [tasks[i]] + back, name);
    WithoutNameConcat([tasks[i]], back, name);
    assert [tasks[i]][1..] == [];
    assert WithoutName([tasks[i]], name) == [];
  }
}
