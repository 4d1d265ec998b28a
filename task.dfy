/**
 * The `Task` record as the list stores it, with its read accessors, and the equality
 * and ordering that the crate's tests assert of tasks.
 */
module Tasks {
  import opened Wrappers
  import opened Dates

  /**
   * `struct Task`: the fields `deserialize_task` fills in. `completionDate` and
   * `inceptionDate` hold the default date when absent.
   */
  datatype Task = Task(
    done: bool,
    priority: Option<char>,
    completionDate: Date,
    inceptionDate: Date,
    text: string,
    contextTags: seq<string>,
    projectTags: seq<string>,
    specialTags: map<string, string>,
    originalText: string)
  {
    /** `Task::is_done`. */
    predicate IsDone()
    {
      done
    }

    /** `Task::prio`: the priority letter as a string, empty when there is none. */
    function Prio(): (r: string)
      ensures r == "" <==> priority.None?
      ensures priority.Some? ==> |r| == 1 && r[0] == priority.value
    {
      if priority.Some? then [priority.value] else ""
    }

    /** `Task::contexts`. */
    function Contexts(): seq<string>
    {
      contextTags
    }

    /** `Task::projects`. */
    function Projects(): seq<string>
    {
      projectTags
    }

    /** `Task::specials`. */
    function Specials(): map<string, string>
    {
      specialTags
    }

    /** `Task::completion_date`: the formatted completion date, empty when its year is zero. */
    function CompletionDate(): (r: string)
      ensures r == "" <==> completionDate.year == 0
    {
      FormatDate(completionDate)
    }

    /** `Task::inception_date`: the formatted inception date, empty when its year is zero. */
    function InceptionDate(): (r: string)
      ensures r == "" <==> inceptionDate.year == 0
    {
      FormatDate(inceptionDate)
    }

    /** `Task::text`. */
    function Text(): string
    {
      text
    }

    /** `Task::original`. */
    function Original(): string
    {
      originalText
    }

    /** `impl Display for Task`: writes the original text. */
    function ToString(): (r: string)
      ensures r == Original()
    {
      originalText
    }
  }

  // ---------------------------------------------------------------
  //   Equality and ordering, as far as the crate's tests assert them
  // ---------------------------------------------------------------

  /** Task equality: two tasks are equal when their original texts are. */
  predicate SameTask(a: Task, b: Task)
  {
    a.originalText == b.originalText
  }

  /**
   * The rank a priority gives in the task order: `(A)` is the highest (26), `(Z)` the
   * lowest letter (1). A task without a priority is given rank 0, below all of them: no
   * test compares such a task, so this placement is a modelling choice.
   */
  function PriorityRank(t: Task): (r: nat)
    ensures r <= 26
    ensures r == 0 <==> !(t.priority.Some? && 'A' <= t.priority.value <= 'Z')
  {
    if t.priority.Some? && 'A' <= t.priority.value <= 'Z' then 26 - (t.priority.value as int - 'A' as int) else 0
  }

  /** `a > b` in the task order: a has the earlier priority letter. */
  predicate Greater(a: Task, b: Task)
  {
    PriorityRank(a) > PriorityRank(b)
  }

  /** `a >= b` in the task order. */
  predicate GreaterOrEqual(a: Task, b: Task)
  {
    PriorityRank(a) >= PriorityRank(b)
  }

  /** An earlier letter ranks higher. */
  lemma EarlierLetterIsGreater(a: Task, b: Task)
    requires a.priority.Some? && b.priority.Some?
    requires 'A' <= a.priority.value < b.priority.value <= 'Z'
    ensures Greater(a, b) && !Greater(b, a)
  {
  }

  /**
   * Ordering and equality disagree: two tasks with the same priority are neither greater
   * than the other, yet they are not equal when their texts differ.
   */
  lemma OrderIgnoresText(a: Task, b: Task)
    requires a.priority == b.priority && a.originalText != b.originalText
    ensures !Greater(a, b) && !Greater(b, a) && GreaterOrEqual(a, b) && GreaterOrEqual(b, a)
    ensures !SameTask(a, b)
  {
  }
}
