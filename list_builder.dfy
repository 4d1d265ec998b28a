/**
 * Building a `List`: the empty list, reading one from the text of a todo file (one task
 * per line), and writing one back as newline-terminated lines.
 */
module ListBuilder {
  import opened Wrappers
  import opened Text
  import opened Seqs
  import opened Tasks
  import opened TaskBuilder
  import opened Lists

  /** `build_default_list`: both buckets empty. */
  method BuildDefaultList() returns (l: List)
    ensures fresh(l)
    ensures l.openTasks == [] && l.doneTasks == [] && l.Valid()
  {
    l := new List([], []);
  }

  // ---------------------------------------------------------------
  //                         Reading
  // ---------------------------------------------------------------

  /** Every line is one `Task::new` accepts (it panics on a line without enough tokens). */
  predicate AllParseable(lines: seq<string>)
  {
    forall i :: 0 <= i < |lines| ==> Parseable(lines[i])
  }

  /** The tasks the lines describe, one per line, in order. */
  function ParseAll(lines: seq<string>): (ts: seq<Task>)
    requires AllParseable(lines)
    ensures |ts| == |lines|
  {
    seq(|lines|, i requires 0 <= i < |lines| => ParseTask(lines[i]))
  }

  /** Task `i` is the one line `i` describes. */
  lemma ParseAllAt(lines: seq<string>, i: nat)
    requires AllParseable(lines) && i < |lines|
    ensures ParseAll(lines)[i] == ParseTask(lines[i])
  {
  }

  /**
   * `deserialise_list`: parse every line of the (already trimmed) file text and push the
   * task onto the done bucket when it is done, onto the open bucket otherwise.
   */
  method DeserialiseList(contents: string) returns (l: List)
    requires AllParseable(Lines(contents))
    ensures fresh(l)
    ensures l.openTasks == Filter(ParseAll(Lines(contents)), IsOpenTask)
    ensures l.doneTasks == Filter(ParseAll(Lines(contents)), IsDoneTask)
    ensures l.Valid()
  {
    var open, done := PushLines(Lines(contents));
    FilteredBucketsSorted(ParseAll(Lines(contents)));
    l := new List(open, done);
  }

  /** The loop of `deserialise_list`: each line's task is pushed onto the bucket its flag selects. */
  method PushLines(lines: seq<string>) returns (open: seq<Task>, done: seq<Task>)
    requires AllParseable(lines)
    ensures open == Filter(ParseAll(lines), IsOpenTask)
    ensures done == Filter(ParseAll(lines), IsDoneTask)
  {
    ghost var parsed := ParseAll(lines);
    open := [];
    done := [];
    for i := 0 to |lines|
      invariant open == Filter(parsed[..i], IsOpenTask)
      invariant done == Filter(parsed[..i], IsDoneTask)
    {
      var task := DeserializeTask(lines[i]);
      assert parsed[i] == task by { ParseAllAt(lines, i); }
      BucketsStep(parsed, i, task);
      if task.IsDone() {
        done := done + [task];
      } else {
        open := open + [task];
      }
    }
    assert parsed[..|lines|] == parsed;
  }

  /** One loop step of `deserialise_list`: task `i` joins the bucket its flag selects. */
  lemma BucketsStep(parsed: seq<Task>, i: nat, task: Task)
    requires i < |parsed| && parsed[i] == task
    ensures Filter(parsed[..i + 1], IsOpenTask) == Filter(parsed[..i], IsOpenTask) + (if IsOpenTask(task) then [task] else [])
    ensures Filter(parsed[..i + 1], IsDoneTask) == Filter(parsed[..i], IsDoneTask) + (if IsDoneTask(task) then [task] else [])
  {
    assert parsed[..i + 1] == parsed[..i] + [task];
    FilterSnoc(parsed[..i], task, IsOpenTask);
    FilterSnoc(parsed[..i], task, IsDoneTask);
  }

  /** Sorting by the done flag gives buckets that meet the invariant. */
  lemma FilteredBucketsSorted(ts: seq<Task>)
    ensures BucketsSorted(Filter(ts, IsOpenTask), Filter(ts, IsDoneTask))
  {
    var open := Filter(ts, IsOpenTask);
    var done := Filter(ts, IsDoneTask);
    assert forall i :: 0 <= i < |open| ==> IsOpenTask(open[i]);
    assert forall i :: 0 <= i < |done| ==> IsDoneTask(done[i]);
  }

  /**
   * `List::new` without the file system: `file` is the text read from the path, or `None`
   * when it could not be read. A read text is trimmed and deserialised; otherwise the
   * list starts empty.
   */
  method NewList(file: Option<string>) returns (l: List)
    requires file.Some? ==> AllParseable(Lines(Trim(file.value)))
    ensures fresh(l) && l.Valid()
    ensures file.None? ==> l.openTasks == [] && l.doneTasks == []
    ensures file.Some? ==> l.openTasks == Filter(ParseAll(Lines(Trim(file.value))), IsOpenTask)
    ensures file.Some? ==> l.doneTasks == Filter(ParseAll(Lines(Trim(file.value))), IsDoneTask)
  {
    match file
    case Some(text) =>
      l := DeserialiseList(Trim(text));
    case None =>
      l := BuildDefaultList();
  }

  /** Every line lands in exactly one bucket: the two buckets hold as many tasks as there are lines. */
  lemma BucketsHoldEveryLine(lines: seq<string>)
    requires AllParseable(lines)
    ensures |Filter(ParseAll(lines), IsOpenTask)| + |Filter(ParseAll(lines), IsDoneTask)| == |lines|
  {
    FilterComplement(ParseAll(lines), IsOpenTask, IsDoneTask);
  }

  // ---------------------------------------------------------------
  //                         Writing
  // ---------------------------------------------------------------

  /** Each task's original text followed by a line feed, in order. */
  function Serialised(ts: seq<Task>): string
  {
    if ts == [] then "" else Serialised(ts[..|ts| - 1]) + ts[|ts| - 1].Original() + "\n"
  }

  /** `serialise_list`: the open tasks' lines, then the done tasks' lines. */
  method SerialiseList(l: List) returns (output: string)
    ensures output == Serialised(l.openTasks + l.doneTasks)
  {
    output := "";
    for i := 0 to |l.openTasks|
      invariant output == Serialised(l.openTasks[..i])
    {
      assert l.openTasks[..i + 1][..i] == l.openTasks[..i];
      output := output + l.openTasks[i].Original() + "\n";
    }
    assert l.openTasks[..|l.openTasks|] == l.openTasks;
    assert l.openTasks + l.doneTasks[..0] == l.openTasks;
    for i := 0 to |l.doneTasks|
      invariant output == Serialised(l.openTasks + l.doneTasks[..i])
    {
      assert (l.openTasks + l.doneTasks[..i + 1])[..|l.openTasks| + i] == l.openTasks + l.doneTasks[..i];
      output := output + l.doneTasks[i].Original() + "\n";
    }
    assert l.doneTasks[..|l.doneTasks|] == l.doneTasks;
  }

  /** The original texts of the tasks, in order. */
  function Originals(ts: seq<Task>): (os: seq<string>)
    ensures |os| == |ts|
    ensures forall i :: 0 <= i < |ts| ==> os[i] == ts[i].originalText
  {
    seq(|ts|, i requires 0 <= i < |ts| => ts[i].originalText)
  }

  lemma {:induction false} SerialisedConcat(a: seq<Task>, b: seq<Task>)
    ensures Serialised(a + b) == Serialised(a) + Serialised(b)
    decreases |b|
  {
    if b == [] {
      assert a + b == a;
    } else {
      var b' := b[..|b| - 1];
      assert (a + b)[..|a + b| - 1] == a + b';
      assert (a + b)[|a + b| - 1] == b[|b| - 1];
      SerialisedConcat(a, b');
    }
  }

  /** The output has one line feed per task when no original text holds a line feed. */
  lemma {:induction false} SerialisedNewlines(ts: seq<Task>)
    requires forall i :: 0 <= i < |ts| ==> '\n' !in ts[i].originalText
    ensures Count(Serialised(ts), '\n') == |ts|
  {
    if ts != [] {
      var init := ts[..|ts| - 1];
      var last := ts[|ts| - 1];
      SerialisedNewlines(init);
      CountConcat(Serialised(init), last.originalText, '\n');
      CountConcat(Serialised(init) + last.originalText, "\n", '\n');
      CountAbsent(last.originalText, '\n');
    }
  }

  /** A non-empty list is written as text ending in a line feed; an empty one as the empty text. */
  lemma SerialisedEnding(ts: seq<Task>)
    ensures ts == [] <==> Serialised(ts) == ""
    ensures ts != [] ==> EndsWithChar(Serialised(ts), '\n')
  {
  }

  /** Each line followed by a line feed, written front to back. */
  function Terminated(lines: seq<string>): string
  {
    if lines == [] then "" else lines[0] + "\n" + Terminated(lines[1..])
  }

  lemma {:induction false} SerialisedIsTerminated(ts: seq<Task>)
    ensures Serialised(ts) == Terminated(Originals(ts))
  {
    if ts != [] {
      SerialisedConcat([ts[0]], ts[1..]);
      assert [ts[0]] + ts[1..] == ts;
      assert Serialised([ts[0]]) == ts[0].originalText + "\n" by {
        assert [ts[0]][..0] == [];
      }
      SerialisedIsTerminated(ts[1..]);
      assert Originals(ts)[1..] == Originals(ts[1..]);
    }
  }

  /** `lines` splits newline-terminated single-spaced lines back into those lines. */
  lemma {:induction false} LinesOfTerminated(lines: seq<string>)
    requires forall i :: 0 <= i < |lines| ==> SingleSpaced(lines[i])
    ensures Lines(Terminated(lines)) == lines
  {
    if lines != [] {
      SingleSpacedLine(lines[0]);
      LinesCons(lines[0], Terminated(lines[1..]));
      LinesOfTerminated(lines[1..]);
    }
  }

  /** `lines` splits the output back into the original texts, when each is a single-spaced line. */
  lemma LinesOfSerialised(ts: seq<Task>)
    requires forall i :: 0 <= i < |ts| ==> SingleSpaced(ts[i].originalText)
    ensures Lines(Serialised(ts)) == Originals(ts)
  {
    SerialisedIsTerminated(ts);
    LinesOfTerminated(Originals(ts));
  }

  /** A line a parsed task's original text can be: non-empty and single-spaced. */
  predicate IsTaskLine(s: string)
  {
    s != [] && SingleSpaced(s)
  }

  lemma TaskLineEnds(s: string)
    requires IsTaskLine(s)
    ensures !IsSpace(s[0]) && !IsSpace(s[|s| - 1]) && '\n' !in s
  {
    SingleSpacedLine(s);
    assert GoodSpaceAt(s, 0) && GoodSpaceAt(s, |s| - 1);
  }

  lemma LinesOfLine(s: string)
    requires s != [] && '\n' !in s
    ensures Lines(s) == [s]
  {
    assert LineLength(s) == |s|;
  }

  /** A non-empty text that neither starts nor ends with whitespace. */
  predicate NonSpaceEnds(s: string)
  {
    s != [] && !IsSpace(s[0]) && !IsSpace(s[|s| - 1])
  }

  /** Joined with line feeds, task lines start and end with the first and last line's ends. */
  lemma {:induction false} JoinedTaskLines(os: seq<string>)
    requires os != [] && forall i :: 0 <= i < |os| ==> IsTaskLine(os[i])
    ensures NonSpaceEnds(Join(os, "\n"))
  {
    TaskLineEnds(os[0]);
    if |os| > 1 {
      JoinedTaskLines(os[1..]);
      var rest := Join(os[1..], "\n");
      assert Join(os, "\n") == os[0] + "\n" + rest;
    }
  }

  lemma {:induction false} TerminatedIsJoin(os: seq<string>)
    requires os != []
    ensures Terminated(os) == Join(os, "\n") + "\n"
  {
    if |os| == 1 {
      assert Terminated(os[1..]) == "";
    } else {
      TerminatedIsJoin(os[1..]);
    }
  }

  /** `lines` splits task lines joined with line feeds back into those lines. */
  lemma {:induction false} LinesOfJoin(os: seq<string>)
    requires forall i :: 0 <= i < |os| ==> IsTaskLine(os[i])
    ensures Lines(Join(os, "\n")) == os
  {
    if |os| == 1 {
      TaskLineEnds(os[0]);
      LinesOfLine(os[0]);
    } else if |os| > 1 {
      SingleSpacedLine(os[0]);
      LinesCons(os[0], Join(os[1..], "\n"));
      LinesOfJoin(os[1..]);
    }
  }

  /** Trimming task lines joined and terminated by line feeds drops only the final line feed. */
  lemma TrimJoined(os: seq<string>)
    requires os != [] && forall i :: 0 <= i < |os| ==> IsTaskLine(os[i])
    ensures Trim(Join(os, "\n") + "\n") == Join(os, "\n")
  {
    JoinedTaskLines(os);
    TrimFinalLineFeed(Join(os, "\n"));
  }

  /** Trimming a text that starts and ends with a non-space removes just an appended line feed. */
  lemma TrimFinalLineFeed(j: string)
    requires NonSpaceEnds(j)
    ensures Trim(j + "\n") == j
  {
    assert (j + "\n")[..|j + "\n"| - 1] == j;
    assert TrimEnd(j + "\n") == TrimEnd(j);
    assert TrimEnd(j) == j;
  }

  lemma LinesOfTrimmedTerminated(os: seq<string>)
    requires forall i :: 0 <= i < |os| ==> IsTaskLine(os[i])
    ensures Lines(Trim(Terminated(os))) == os
  {
    if os != [] {
      TerminatedIsJoin(os);
      TrimJoined(os);
      LinesOfJoin(os);
    }
  }

  /**
   * `List::new` trims the file text before splitting it into lines; for written task
   * lines this only drops the final line feed and yields the same lines.
   */
  lemma LinesOfTrimmedSerialised(ts: seq<Task>)
    requires forall i :: 0 <= i < |ts| ==> IsTaskLine(ts[i].originalText)
    ensures Lines(Trim(Serialised(ts))) == Originals(ts)
  {
    SerialisedIsTerminated(ts);
    LinesOfTrimmedTerminated(Originals(ts));
  }

  // ---------------------------------------------------------------
  //                        Round trip
  // ---------------------------------------------------------------

  /**
   * A task that survives being written and read back: its original text is a line that
   * parses, to a task with that same original text and the same done flag. Every task
   * `Task::new` builds is one; a task whose flag `done()`/`undone()` changed is not.
   */
  predicate Reloadable(t: Task)
  {
    Parseable(t.originalText) &&
    ParseTask(t.originalText).originalText == t.originalText &&
    ParseTask(t.originalText).done == t.done
  }

  lemma ParsedTaskIsReloadable(line: string)
    requires Parseable(line)
    ensures Reloadable(ParseTask(line))
  {
    ReparseIdentity(line);
  }

  /** Tasks that agree on original text and flag are sorted into buckets with the same originals. */
  lemma {:induction false} BucketsAgree(xs: seq<Task>, ys: seq<Task>, p: Task -> bool)
    requires p == IsOpenTask || p == IsDoneTask
    requires |xs| == |ys|
    requires forall i :: 0 <= i < |xs| ==> xs[i].originalText == ys[i].originalText && xs[i].done == ys[i].done
    ensures Originals(Filter(xs, p)) == Originals(Filter(ys, p))
  {
    if xs != [] {
      var hx := if p(xs[0]) then [xs[0]] else [];
      var hy := if p(ys[0]) then [ys[0]] else [];
      assert p(xs[0]) == p(ys[0]);
      assert Originals(hx) == Originals(hy);
      BucketsAgree(xs[1..], ys[1..], p);
      assert Filter(xs, p) == hx + Filter(xs[1..], p);
      assert Filter(ys, p) == hy + Filter(ys[1..], p);
      OriginalsCons(hx, Filter(xs[1..], p));
      OriginalsCons(hy, Filter(ys[1..], p));
    }
  }

  lemma OriginalsCons(a: seq<Task>, b: seq<Task>)
    ensures Originals(a + b) == Originals(a) + Originals(b)
  {
  }

  /** Under the bucket invariant, sorting the concatenated buckets gives the buckets back. */
  lemma SortedBucketsSplit(open: seq<Task>, done: seq<Task>)
    requires BucketsSorted(open, done)
    ensures Filter(open + done, IsOpenTask) == open
    ensures Filter(open + done, IsDoneTask) == done
  {
    FilterConcat(open, done, IsOpenTask);
    FilterConcat(open, done, IsDoneTask);
    FilterAll(open, IsOpenTask);
    FilterAll(done, IsDoneTask);
    FilterNone(done, IsOpenTask);
    FilterNone(open, IsDoneTask);
  }

  lemma ReloadableIsTaskLine(t: Task)
    requires Reloadable(t)
    ensures IsTaskLine(t.originalText)
  {
    OriginalIsNormalised(t.originalText);
  }

  /** The lines of a written list are the original texts, and each parses to a task that agrees with its source. */
  lemma ReloadedLines(ts: seq<Task>)
    requires forall i :: 0 <= i < |ts| ==> Reloadable(ts[i])
    ensures var lines := Lines(Serialised(ts));
      Lines(Trim(Serialised(ts))) == lines &&
      AllParseable(lines) && |ParseAll(lines)| == |ts| &&
      forall i :: 0 <= i < |ts| ==>
        ParseAll(lines)[i].originalText == ts[i].originalText && ParseAll(lines)[i].done == ts[i].done
  {
    forall i | 0 <= i < |ts|
      ensures IsTaskLine(ts[i].originalText)
    {
      ReloadableIsTaskLine(ts[i]);
    }
    LinesOfSerialised(ts);
    LinesOfTrimmedSerialised(ts);
    ReparsedOriginals(ts);
  }

  /** Parsing the original texts of reloadable tasks gives tasks with the same originals and flags. */
  lemma ReparsedOriginals(ts: seq<Task>)
    requires forall i :: 0 <= i < |ts| ==> Reloadable(ts[i])
    ensures AllParseable(Originals(ts))
    ensures forall i :: 0 <= i < |ts| ==>
      ParseAll(Originals(ts))[i].originalText == ts[i].originalText && ParseAll(Originals(ts))[i].done == ts[i].done
  {
    var lines := Originals(ts);
    assert AllParseable(lines);
    forall i | 0 <= i < |ts|
      ensures ParseAll(lines)[i].originalText == ts[i].originalText && ParseAll(lines)[i].done == ts[i].done
    {
      ParseAllAt(lines, i);
    }
  }

  /**
   * Writing a list and reading the text back, trimmed as `List::new` does or not, gives
   * the same original texts, in the same buckets and in the same order, when every task
   * is reloadable.
   */
  lemma RoundTrip(open: seq<Task>, done: seq<Task>)
    requires BucketsSorted(open, done)
    requires forall i :: 0 <= i < |open| ==> Reloadable(open[i])
    requires forall i :: 0 <= i < |done| ==> Reloadable(done[i])
    ensures var lines := Lines(Serialised(open + done));
      Lines(Trim(Serialised(open + done))) == lines && AllParseable(lines) &&
      Originals(Filter(ParseAll(lines), IsOpenTask)) == Originals(open) &&
      Originals(Filter(ParseAll(lines), IsDoneTask)) == Originals(done)
  {
    var ts := open + done;
    assert forall i :: 0 <= i < |ts| ==> ts[i] == if i < |open| then open[i] else done[i - |open|];
    ReloadedLines(ts);
    var parsed := ParseAll(Lines(Serialised(ts)));
    BucketsAgree(parsed, ts, IsOpenTask);
    BucketsAgree(parsed, ts, IsDoneTask);
    SortedBucketsSplit(open, done);
  }

  /** A task straight from `Task::new`: it is what its own original text parses to. */
  predicate Pristine(t: Task)
  {
    Parseable(t.originalText) && t == ParseTask(t.originalText)
  }

  lemma PristineIsReloadable(t: Task)
    requires Pristine(t)
    ensures Reloadable(t)
  {
  }

  lemma ParsedTaskIsPristine(line: string)
    requires Parseable(line)
    ensures Pristine(ParseTask(line))
  {
    ReparseIdentity(line);
  }

  /** The lines of a written list of pristine tasks parse back to those very tasks. */
  lemma ReloadedPristine(ts: seq<Task>)
    requires forall i :: 0 <= i < |ts| ==> Pristine(ts[i])
    ensures Lines(Trim(Serialised(ts))) == Lines(Serialised(ts))
    ensures AllParseable(Lines(Serialised(ts))) && ParseAll(Lines(Serialised(ts))) == ts
  {
    PristineTaskLines(ts);
    LinesOfSerialised(ts);
    LinesOfTrimmedSerialised(ts);
    ParseOriginals(ts);
  }

  /** Every original of pristine tasks is one task line. */
  lemma PristineTaskLines(ts: seq<Task>)
    requires forall i :: 0 <= i < |ts| ==> Pristine(ts[i])
    ensures forall i :: 0 <= i < |ts| ==> IsTaskLine(ts[i].originalText)
  {
    forall i | 0 <= i < |ts|
      ensures IsTaskLine(ts[i].originalText)
    {
      PristineIsReloadable(ts[i]);
      ReloadableIsTaskLine(ts[i]);
    }
  }

  /** Parsing the originals of pristine tasks gives the tasks back. */
  lemma ParseOriginals(ts: seq<Task>)
    requires forall i :: 0 <= i < |ts| ==> Pristine(ts[i])
    ensures AllParseable(Originals(ts)) && ParseAll(Originals(ts)) == ts
  {
    var lines := Originals(ts);
    assert AllParseable(lines);
    forall i | 0 <= i < |ts|
      ensures ParseAll(lines)[i] == ts[i]
    {
      PristineAt(lines, ts, i);
    }
  }

  /** A line holding the original text of a pristine task parses back to that task. */
  lemma PristineAt(lines: seq<string>, ts: seq<Task>, i: nat)
    requires AllParseable(lines) && i < |lines| == |ts|
    requires lines[i] == ts[i].originalText && Pristine(ts[i])
    ensures ParseAll(lines)[i] == ts[i]
  {
    ParseAllAt(lines, i);
  }

  /**
   * A list whose tasks all came straight from `Task::new` is read back exactly: the
   * reloaded buckets are the buckets.
   */
  lemma ExactRoundTrip(open: seq<Task>, done: seq<Task>)
    requires BucketsSorted(open, done)
    requires forall i :: 0 <= i < |open| ==> Pristine(open[i])
    requires forall i :: 0 <= i < |done| ==> Pristine(done[i])
    ensures var lines := Lines(Serialised(open + done));
      Lines(Trim(Serialised(open + done))) == lines && AllParseable(lines) &&
      Filter(ParseAll(lines), IsOpenTask) == open &&
      Filter(ParseAll(lines), IsDoneTask) == done
  {
    var ts := open + done;
    assert forall i :: 0 <= i < |ts| ==> ts[i] == if i < |open| then open[i] else done[i - |open|];
    ReloadedPristine(ts);
    SortedBucketsSplit(open, done);
  }
}
