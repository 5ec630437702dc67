/** The stable sort behind `list_tasks_by_priority`: alta first, then média, then baixa. */
module PrioritySort {
  import opened Sequences
  import opened Quests

  /** Ranks never decrease along the sequence. */
  predicate SortedByPriority(s: seq<Task>) {
    forall i, j | 0 <= i < j < |s| :: Rank(s[i].priority) <= Rank(s[j].priority)
  }

  /** Place `t` in front of the first task whose rank is not smaller than its own. */
  function Insert(t: Task, s: seq<Task>): (r: seq<Task>)
    ensures multiset(r) == multiset(s) + multiset{t}
  {
    if s == [] || Rank(t.priority) <= Rank(s[0].priority) then [t] + s
    else
      assert s == [s[0]] + s[1..];
      [s[0]] + Insert(t, s[1..])
  }

  /** Stable insertion sort by `Rank`: each task goes in front of the already sorted tasks
      of equal rank, all of which came after it in the input. */
  function SortByPriority(s: seq<Task>): seq<Task> {
    if s == [] then [] else Insert(s[0], SortByPriority(s[1..]))
  }

  /** A task ranked no later than every task of a sorted sequence can go in front of it. */
  lemma SortedCons(x: Task, q: seq<Task>)
    requires SortedByPriority(q)
    requires forall k | 0 <= k < |q| :: Rank(x.priority) <= Rank(q[k].priority)
    ensures SortedByPriority([x] + q)
  {
    var r := [x] + q;
    forall i, j | 0 <= i < j < |r|
      ensures Rank(r[i].priority) <= Rank(r[j].priority)
    {
      assert r[j] == q[j - 1];
      if i > 0 {
        assert r[i] == q[i - 1];
      }
    }
  }

  /** Inserting into a sorted sequence keeps it sorted. */
  lemma {:induction false} InsertSorted(t: Task, s: seq<Task>)
    requires SortedByPriority(s)
    ensures SortedByPriority(Insert(t, s))
  {
    if s == [] || Rank(t.priority) <= Rank(s[0].priority) {
      SortedCons(t, s);
    } else {
      var rest := s[1..];
      assert SortedByPriority(rest) by {
        forall i, j | 0 <= i < j < |rest|
          ensures Rank(rest[i].priority) <= Rank(rest[j].priority)
        {
          assert rest[i] == s[i + 1] && rest[j] == s[j + 1];
        }
      }
      InsertSorted(t, rest);
      var q := Insert(t, rest);
      forall k | 0 <= k < |q|
        ensures Rank(s[0].priority) <= Rank(q[k].priority)
      {
        assert q[k] in multiset(rest) + multiset{t};
        if q[k] != t {
          var m :| 0 <= m < |rest| && rest[m] == q[k];
          assert rest[m] == s[m + 1];
        }
      }
      SortedCons(s[0], q);
    }
  }

  /** Inserting `t` adds it to its own level, in front, and leaves the other levels alone. */
  lemma {:induction false} InsertStable(t: Task, s: seq<Task>, p: Priority)
    ensures WithPriority(Insert(t, s), p)
         == if t.priority == p then [t] + WithPriority(s, p) else WithPriority(s, p)
  {
    if s == [] || Rank(t.priority) <= Rank(s[0].priority) {
      LevelCons(t, s, p);
    } else {
      assert Insert(t, s) == [s[0]] + Insert(t, s[1..]);
      InsertStable(t, s[1..], p);
      LevelCons(s[0], Insert(t, s[1..]), p);
      LevelCons(s[0], s[1..], p);
      assert s == [s[0]] + s[1..];
    }
  }

  /** The sort orders the tasks by rank. */
  lemma {:induction false} SortSorted(s: seq<Task>)
    ensures SortedByPriority(SortByPriority(s))
  {
    if s != [] {
      SortSorted(s[1..]);
      InsertSorted(s[0], SortByPriority(s[1..]));
    }
  }

  /** The sort neither loses nor invents tasks. */
  lemma {:induction false} SortPermutes(s: seq<Task>)
    ensures multiset(SortByPriority(s)) == multiset(s)
  {
    if s != [] {
      SortPermutes(s[1..]);
      assert s == [s[0]] + s[1..];
    }
  }

  /** The sort is stable: within each level, tasks keep their input order. */
  lemma {:induction false} SortStable(s: seq<Task>, p: Priority)
    ensures WithPriority(SortByPriority(s), p) == WithPriority(s, p)
  {
    if s != [] {
      SortStable(s[1..], p);
      InsertStable(s[0], SortByPriority(s[1..]), p);
      assert s == [s[0]] + s[1..];
      LevelCons(s[0], s[1..], p);
    }
  }

  /** Selecting one level of `[x] + rest` looks at `x` first. */
  lemma LevelCons(x: Task, rest: seq<Task>, p: Priority)
    ensures WithPriority([x] + rest, p)
         == (if x.priority == p then [x] else []) + WithPriority(rest, p)
  {
    FilterConcat([x], rest, (t: Task) => t.priority == p);
  }

  /** A sorted sequence holds no task of a level ranked before its first task. */
  lemma NoEarlierLevel(s: seq<Task>, p: Priority)
    requires SortedByPriority(s) && s != []
    requires Rank(p) < Rank(s[0].priority)
    ensures WithPriority(s, p) == []
  {
  }

  /** Putting `x` in front of levels `a`, `m`, `b` adds it to its own level, provided the
      levels ranked before `x` are empty. */
  lemma PrependToLevels(x: Task, a: seq<Task>, m: seq<Task>, b: seq<Task>)
    requires x.priority != Alta ==> a == []
    requires x.priority == Baixa ==> m == []
    ensures [x] + (a + m + b)
         == ((if x.priority == Alta then [x] else []) + a)
          + ((if x.priority == Media then [x] else []) + m)
          + ((if x.priority == Baixa then [x] else []) + b)
  {
  }

  /** Dropping the first task of a sorted sequence leaves it sorted. */
  lemma SortedTail(s: seq<Task>)
    requires SortedByPriority(s) && s != []
    ensures SortedByPriority(s[1..])
  {
    forall i, j | 0 <= i < j < |s| - 1
      ensures Rank(s[1..][i].priority) <= Rank(s[1..][j].priority)
    {
      assert s[1..][i] == s[i + 1] && s[1..][j] == s[j + 1];
    }
  }

  /** Behind the first task of a sorted sequence there is no task of an earlier level. */
  lemma EarlierLevelsEmpty(s: seq<Task>)
    requires SortedByPriority(s) && s != []
    ensures s[0].priority != Alta ==> WithPriority(s[1..], Alta) == []
    ensures s[0].priority == Baixa ==> WithPriority(s[1..], Media) == []
  {
    var rest := s[1..];
    if rest != [] && s[0].priority != Alta {
      SortedTail(s);
      assert Rank(s[0].priority) <= Rank(rest[0].priority) by {
        assert rest[0] == s[1];
      }
      NoEarlierLevel(rest, Alta);
      if s[0].priority == Baixa {
        NoEarlierLevel(rest, Media);
      }
    }
  }

  /** A sequence sorted by rank is its alta tasks, then its média tasks, then its baixa tasks. */
  lemma {:induction false} SortedIsLevels(s: seq<Task>)
    requires SortedByPriority(s)
    ensures s == WithPriority(s, Alta) + WithPriority(s, Media) + WithPriority(s, Baixa)
  {
    if s != [] {
      var x, rest := s[0], s[1..];
      assert s == [x] + rest;
      SortedTail(s);
      SortedIsLevels(rest);
      EarlierLevelsEmpty(s);
      LevelCons(x, rest, Alta);
      LevelCons(x, rest, Media);
      LevelCons(x, rest, Baixa);
      PrependToLevels(x, WithPriority(rest, Alta), WithPriority(rest, Media), WithPriority(rest, Baixa));
    }
  }
}
