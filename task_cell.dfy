/**
 * A task in place: the `&mut self` operations of `Task` (`new`, `update`, `done`,
 * `undone`) on an object holding the nine fields, whose value is a `Tasks.Task`.
 */
module TaskCells {
  import opened Wrappers
  import opened Text
  import opened Dates
  import opened Tasks
  import opened TaskBuilder

  class TaskCell {
    var done: bool
    var priority: Option<char>
    var completionDate: Date
    var inceptionDate: Date
    var text: string
    var contextTags: seq<string>
    var projectTags: seq<string>
    var specialTags: map<string, string>
    var originalText: string

    /** The task the fields currently hold. */
    function Value(): Task
      reads this
    {
      Task(done, priority, completionDate, inceptionDate, text,
           contextTags, projectTags, specialTags, originalText)
    }

    /** `Task::new`: the task `deserialize_task` reads from the line. */
    constructor (line: string)
      requires Parseable(line)
      ensures Value() == ParseTask(line)
    {
      var t := DeserializeTask(line);
      done := t.done;
      priority := t.priority;
      completionDate := t.completionDate;
      inceptionDate := t.inceptionDate;
      text := t.text;
      contextTags := t.contextTags;
      projectTags := t.projectTags;
      specialTags := t.specialTags;
      originalText := t.originalText;
    }

    /** `Task::update`: parse the line and overwrite every field with the new task's. */
    method Update(line: string)
      requires Parseable(line)
      modifies this
      ensures Value() == ParseTask(line)
    {
      var t := DeserializeTask(line);
      done := t.done;
      priority := t.priority;
      completionDate := t.completionDate;
      inceptionDate := t.inceptionDate;
      text := t.text;
      contextTags := t.contextTags;
      projectTags := t.projectTags;
      specialTags := t.specialTags;
      originalText := t.originalText;
    }

    /** `Task::done`: set the flag and nothing else; the original text keeps whatever marker it had. */
    method Done()
      modifies this
      ensures Value() == old(Value()).(done := true)
    {
      done := true;
    }

    /** `Task::undone`: clear the flag and nothing else. */
    method Undone()
      modifies this
      ensures Value() == old(Value()).(done := false)
    {
      done := false;
    }
  }

  /**
   * `done` and `undone` do not touch the original text, so marking an open task done leaves
   * a task whose flag and original text disagree: the text still does not start with `x `.
   */
  lemma DoneFlagDisagreesWithOriginal(line: string)
    requires Parseable(line) && !ParseTask(line).done
    ensures var t := ParseTask(line).(done := true);
      t.done && !StartsWith(t.originalText, "x ")
  {
    DoneIffMarked(line);
  }
}
