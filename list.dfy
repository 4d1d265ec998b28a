/**
 * `List`: a todo list kept in two buckets, the open tasks and the done tasks, with
 * in-place `add` and `remove` and filters over both buckets.
 */
module Lists {
  import opened Wrappers
  import opened Text
  import opened Seqs
  import opened Tasks
  import opened TaskLists

  /** The bucket test of `add` and `deserialise_list`. */
  predicate IsOpenTask(t: Task)
  {
    !t.IsDone()
  }

  predicate IsDoneTask(t: Task)
  {
    t.IsDone()
  }

  /** The closure `remove` hands to `retain`: keep the tasks with another original text. */
  function OtherThan(task: Task): Task -> bool
  {
    (t: Task) => t.Original() != task.Original()
  }

  /** Every open-bucket task is open and every done-bucket task is done. */
  predicate BucketsSorted(open: seq<Task>, done: seq<Task>)
  {
    (forall i :: 0 <= i < |open| ==> IsOpenTask(open[i])) &&
    (forall i :: 0 <= i < |done| ==> IsDoneTask(done[i]))
  }

  class List {
    var openTasks: seq<Task>
    var doneTasks: seq<Task>

    /** The bucket invariant that `add`, `remove` and `deserialise_list` keep. */
    predicate Valid()
      reads this
    {
      BucketsSorted(openTasks, doneTasks)
    }

    /** The struct literal `List { open_tasks, done_tasks, .. }`. */
    constructor (open: seq<Task>, done: seq<Task>)
      ensures openTasks == open && doneTasks == done
    {
      openTasks := open;
      doneTasks := done;
    }

    /** `List::add`: push onto the bucket the task's flag selects; the other bucket is untouched. */
    method Add(task: Task)
      modifies this
      ensures task.IsDone() ==> doneTasks == old(doneTasks) + [task] && openTasks == old(openTasks)
      ensures !task.IsDone() ==> openTasks == old(openTasks) + [task] && doneTasks == old(doneTasks)
      ensures old(Valid()) ==> Valid()
    {
      if task.IsDone() {
        doneTasks := doneTasks + [task];
      } else {
        openTasks := openTasks + [task];
      }
    }

    /**
     * `List::remove`: retain, in the bucket the task's flag selects, the tasks with another
     * original text; the other bucket is untouched.
     */
    method Remove(task: Task)
      modifies this
      ensures task.IsDone() ==> doneTasks == Filter(old(doneTasks), OtherThan(task)) && openTasks == old(openTasks)
      ensures !task.IsDone() ==> openTasks == Filter(old(openTasks), OtherThan(task)) && doneTasks == old(doneTasks)
      ensures old(Valid()) ==> Valid()
    {
      if task.IsDone() {
        doneTasks := Filter(doneTasks, OtherThan(task));
      } else {
        openTasks := Filter(openTasks, OtherThan(task));
      }
    }

    /** `List::done`: the done bucket, whose tasks are all done while the invariant holds. */
    function Done(): (r: seq<Task>)
      reads this
      ensures Valid() ==> forall i :: 0 <= i < |r| ==> r[i].IsDone()
    {
      doneTasks
    }

    /** `List::open`: the open bucket, whose tasks are all open while the invariant holds. */
    function Open(): (r: seq<Task>)
      reads this
      ensures Valid() ==> forall i :: 0 <= i < |r| ==> !r[i].IsDone()
    {
      openTasks
    }

    /**
     * `List::by_prio`: the open matches, then the done matches, of the uppercased query;
     * the same as the case-sensitive `TaskList::by_prio` of the uppercased query on all tasks.
     */
    function ByPrio(prio: string): (r: TaskList)
      reads this
      ensures r == TaskList(openTasks + doneTasks).ByPrio(ToUpper(prio))
      ensures forall t :: t in r.tasks <==> (t in openTasks || t in doneTasks) && t.Prio() == ToUpper(prio)
      ensures |r.tasks| <= |openTasks| + |doneTasks|
    {
      FilterConcat(openTasks, doneTasks, PrioIs(ToUpper(prio)));
      TaskList(Filter(openTasks, PrioIs(ToUpper(prio))) + Filter(doneTasks, PrioIs(ToUpper(prio))))
    }

    /** `List::by_context`: `TaskList::by_context` over the open tasks followed by the done tasks. */
    function ByContext(context: string): (r: TaskList)
      reads this
      ensures r == TaskList(openTasks + doneTasks).ByContext(context)
      ensures forall t :: t in r.tasks <==> (t in openTasks || t in doneTasks) && AnyTagMatches(t.contextTags, context)
      ensures |r.tasks| <= |openTasks| + |doneTasks|
    {
      FilterConcat(openTasks, doneTasks, ContextMatch(context));
      TaskList(Filter(openTasks, ContextMatch(context)) + Filter(doneTasks, ContextMatch(context)))
    }

    /** `List::by_project`: `TaskList::by_project` over the open tasks followed by the done tasks. */
    function ByProject(project: string): (r: TaskList)
      reads this
      ensures r == TaskList(openTasks + doneTasks).ByProject(project)
      ensures forall t :: t in r.tasks <==> (t in openTasks || t in doneTasks) && AnyTagMatches(t.projectTags, project)
      ensures |r.tasks| <= |openTasks| + |doneTasks|
    {
      FilterConcat(openTasks, doneTasks, ProjectMatch(project));
      TaskList(Filter(openTasks, ProjectMatch(project)) + Filter(doneTasks, ProjectMatch(project)))
    }

    /** `List::by_special`: `TaskList::by_special` over the open tasks followed by the done tasks. */
    function BySpecial(special: string): (r: TaskList)
      reads this
      ensures r == TaskList(openTasks + doneTasks).BySpecial(special)
      ensures forall t :: t in r.tasks <==> (t in openTasks || t in doneTasks) && AnyKeyMatches(t.specialTags, special)
      ensures |r.tasks| <= |openTasks| + |doneTasks|
    {
      FilterConcat(openTasks, doneTasks, SpecialMatch(special));
      TaskList(Filter(openTasks, SpecialMatch(special)) + Filter(doneTasks, SpecialMatch(special)))
    }
  }

  // ---------------------------------------------------------------
  //                       Properties of List
  // ---------------------------------------------------------------

  /** What `remove` keeps: every task with another original text, in order, and nothing else. */
  lemma RemoveKeepsOthers(bucket: seq<Task>, task: Task)
    ensures var r := Filter(bucket, OtherThan(task));
      IsSubsequence(r, bucket) &&
      (forall t :: t in r <==> t in bucket && !SameTask(t, task)) &&
      (forall i :: 0 <= i < |bucket| && SameTask(bucket[i], task) ==> |r| < |bucket|)
  {
    FilterIsSubsequence(bucket, OtherThan(task));
    forall i | 0 <= i < |bucket| && SameTask(bucket[i], task)
      ensures |Filter(bucket, OtherThan(task))| < |bucket|
    {
      FilterDrops(bucket, OtherThan(task), i);
    }
  }

  /** A filter that rejects some element returns a shorter sequence. */
  lemma {:induction false} FilterDrops(s: seq<Task>, p: Task -> bool, i: nat)
    requires i < |s| && !p(s[i])
    ensures |Filter(s, p)| < |s|
  {
    if i > 0 {
      FilterDrops(s[1..], p, i - 1);
    }
  }

  lemma UpperIdempotent(s: string)
    ensures ToUpper(ToUpper(s)) == ToUpper(s)
  {
    assert forall i :: 0 <= i < |s| ==> ToUpper(ToUpper(s))[i] == ToUpper(s)[i];
  }

  /** `List::by_prio` ignores the case of the query. */
  lemma ByPrioIgnoresCase(l: List, prio: string)
    ensures l.ByPrio(prio) == l.ByPrio(ToUpper(prio))
  {
    UpperIdempotent(prio);
  }

  /** `by_prio("a")` keeps exactly the tasks with priority `(A)`. */
  lemma ByPrioLowercaseLetter(l: List)
    ensures forall t :: t in l.ByPrio("a").tasks <==> (t in l.openTasks || t in l.doneTasks) && t.priority == Some('A')
  {
    assert ToUpper("a") == "A";
    forall t: Task
      ensures t.Prio() == "A" <==> t.priority == Some('A')
    {
      if t.priority.Some? {
        assert t.Prio() == [t.priority.value];
      }
    }
  }

  /** `by_prio("")` keeps exactly the tasks without a priority. */
  lemma ByPrioEmptyMatchesUnprioritised(l: List)
    ensures forall t :: t in l.ByPrio("").tasks <==> (t in l.openTasks || t in l.doneTasks) && t.priority.None?
  {
    assert ToUpper("") == "";
  }
}
