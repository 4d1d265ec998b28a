/**
 * The crate's list tests and documentation examples on concrete lines: the bucket counts
 * of `simple_use`, `remove`, and the filters.
 */
module ListExamples {
  import opened Wrappers
  import opened Text
  import opened Seqs
  import opened Tasks
  import opened TaskBuilder
  import opened TaskExamples
  import opened TaskLists
  import opened Lists
  import opened ListBuilder

  /** A line whose first word is plain: nothing is consumed as a header, and the task is open. */
  lemma PlainFirstWord(ts: seq<string>)
    requires AllWords(ts) && |ts| >= 1 && '-' !in ts[0] && ts[0] != "x" && !IsPriorityToken(ts[0])
    ensures TokensParseable(ts) && BodyStart(ts) == 0
    ensures var t := ParseTokens(ts); !t.done && t.priority.None?
  {
    NoHyphenNoDate(ts[0]);
  }

  /** `x` followed by a plain word: the task is done and has no priority. */
  lemma DoneThenPlainWord(ts: seq<string>)
    requires AllWords(ts) && |ts| >= 2 && ts[0] == "x" && '-' !in ts[1] && !IsPriorityToken(ts[1])
    ensures TokensParseable(ts) && BodyStart(ts) == 1
    ensures var t := ParseTokens(ts); t.done && t.priority.None?
  {
    NoHyphenNoDate(ts[1]);
  }

  lemma Task1()
    ensures Parseable("Task 1") && !ParseTask("Task 1").done && ParseTask("Task 1").originalText == "Task 1"
  {
    var ts := ["Task", "1"];
    assert Join(ts, " ") == "Task 1";
    PlainFirstWord(ts);
    ParseJoined(ts);
  }

  lemma Task2()
    ensures Parseable("x Task 2") && ParseTask("x Task 2").done
  {
    var ts := ["x", "Task", "2"];
    assert Join(ts, " ") == "x Task 2";
    DoneThenPlainWord(ts);
    ParseJoined(ts);
  }

  lemma Task3()
    ensures Parseable("Task 3") && !ParseTask("Task 3").done
  {
    var ts := ["Task", "3"];
    assert Join(ts, " ") == "Task 3";
    PlainFirstWord(ts);
    ParseJoined(ts);
  }

  lemma Task2Open()
    ensures Parseable("Task 2") && !ParseTask("Task 2").done && ParseTask("Task 2").originalText == "Task 2"
  {
    var ts := ["Task", "2"];
    assert Join(ts, " ") == "Task 2";
    PlainFirstWord(ts);
    ParseJoined(ts);
  }

  /** `tests/integration.rs`, `simple_use`: two open tasks and one done task. */
  method SimpleUse() returns (open: nat, done: nat)
    ensures open == 2 && done == 1
  {
    Task1();
    Task2();
    Task3();
    var t1 := DeserializeTask("Task 1");
    var t2 := DeserializeTask("x Task 2");
    var t3 := DeserializeTask("Task 3");
    open, done := OpenDoneOpen(t1, t2, t3);
  }

  /** Adding an open, a done and an open task fills the buckets with two and one. */
  method OpenDoneOpen(t1: Task, t2: Task, t3: Task) returns (open: nat, done: nat)
    requires !t1.done && t2.done && !t3.done
    ensures open == 2 && done == 1
  {
    var list := BuildDefaultList();
    list.Add(t1);
    list.Add(t2);
    list.Add(t3);
    open := |list.Open()|;
    done := |list.Done()|;
  }

  lemma Task1Done()
    ensures Parseable("x Task 1") && ParseTask("x Task 1").done
  {
    var ts := ["x", "Task", "1"];
    assert Join(ts, " ") == "x Task 1";
    DoneThenPlainWord(ts);
    ParseJoined(ts);
  }

  /** The `done` and `open` examples: of `x Task 1` and `Task 2`, one is done and one is open. */
  method OpenDoneExample() returns (done: nat, open: nat)
    ensures done == 1 && open == 1
  {
    Task1Done();
    Task2Open();
    var t1 := DeserializeTask("x Task 1");
    var t2 := DeserializeTask("Task 2");
    done, open := DoneThenOpen(t1, t2);
  }

  /** Adding a done and an open task puts one in each bucket. */
  method DoneThenOpen(t1: Task, t2: Task) returns (done: nat, open: nat)
    requires t1.done && !t2.done
    ensures done == 1 && open == 1
  {
    var list := BuildDefaultList();
    list.Add(t1);
    list.Add(t2);
    done := |list.Done()|;
    open := |list.Open()|;
  }

  lemma RemoveFirstOfTwo(a: Task, b: Task)
    requires a.originalText != b.originalText
    ensures Filter([a, b], OtherThan(a)) == [b]
  {
    assert [a, b][1..] == [b];
    assert [b][1..] == [];
  }

  /** The `remove` example: of two open tasks, removing the first leaves one. */
  method RemoveExample() returns (before: nat, after: nat)
    ensures before == 2 && after == 1
  {
    Task1();
    Task2Open();
    var task1 := DeserializeTask("Task 1");
    var task2 := DeserializeTask("Task 2");
    before, after := RemoveFirstOfTwoOpen(task1, task2);
  }

  /** Adding two distinct open tasks and removing the first leaves the second. */
  method RemoveFirstOfTwoOpen(task1: Task, task2: Task) returns (before: nat, after: nat)
    requires !task1.done && !task2.done && task1.originalText != task2.originalText
    ensures before == 2 && after == 1
  {
    var list := BuildDefaultList();
    list.Add(task1);
    list.Add(task2);
    before := |list.Open()|;
    RemoveFirstOfTwo(task1, task2);
    list.Remove(task1);
    after := |list.Open()|;
  }

  /** A priority marker followed by a plain word: the task is open with that priority. */
  lemma PriorityThenPlainWord(ts: seq<string>)
    requires AllWords(ts) && |ts| >= 2 && ts[0] != "x" && IsPriorityToken(ts[0])
    requires '-' !in ts[1] && !IsPriorityToken(ts[1])
    ensures TokensParseable(ts) && BodyStart(ts) == 1
    ensures var t := ParseTokens(ts); !t.done && t.priority == Some(ts[0][1])
  {
    NoHyphenNoDate(ts[1]);
  }

  lemma PriorityLine(ts: seq<string>, line: string) returns (t: Task)
    requires AllWords(ts) && |ts| >= 2 && ts[0] != "x" && IsPriorityToken(ts[0])
    requires '-' !in ts[1] && !IsPriorityToken(ts[1])
    requires Join(ts, " ") == line
    ensures Parseable(line) && t == ParseTask(line) && !t.done && t.priority == Some(ts[0][1])
  {
    PriorityThenPlainWord(ts);
    ParseJoined(ts);
    t := ParseTask(line);
  }

  /** The four lines of the `by_prio` example. */
  const PrioLineText1: string := "(A) Task 1"
  const PrioLineText2: string := "(A) Task 2 @air"
  const PrioLineText3: string := "(B) Task 3 @AIR"
  const PrioLineText4: string := "(Z) Task 4 @AirCraft"

  lemma PrioLine1() returns (t: Task)
    ensures Parseable(PrioLineText1) && t == ParseTask(PrioLineText1) && !t.done && t.priority == Some('A')
  {
    var ts := ["(A)", "Task", "1"];
    assert Join(ts, " ") == "(A) Task 1";
    t := PriorityLine(ts, PrioLineText1);
  }

  lemma PrioWords2()
    ensures Join(["(A)", "Task", "2", "@air"], " ") == PrioLineText2
  {
  }

  lemma PrioLine2() returns (t: Task)
    ensures Parseable(PrioLineText2) && t == ParseTask(PrioLineText2) && !t.done && t.priority == Some('A')
  {
    var ts := ["(A)", "Task", "2", "@air"];
    PrioWords2();
    t := PriorityLine(ts, PrioLineText2);
  }

  lemma PrioWords3()
    ensures Join(["(B)", "Task", "3", "@AIR"], " ") == PrioLineText3
  {
  }

  lemma PrioLine3() returns (t: Task)
    ensures Parseable(PrioLineText3) && t == ParseTask(PrioLineText3) && !t.done && t.priority == Some('B')
  {
    var ts := ["(B)", "Task", "3", "@AIR"];
    PrioWords3();
    t := PriorityLine(ts, PrioLineText3);
  }

  lemma PrioWords4()
    ensures Join(["(Z)", "Task", "4", "@AirCraft"], " ") == PrioLineText4
  {
    JoinFour("(Z)", "Task", "4", "@AirCraft");
  }

  lemma PrioLine4() returns (t: Task)
    ensures Parseable(PrioLineText4) && t == ParseTask(PrioLineText4) && !t.done && t.priority == Some('Z')
  {
    var ts := ["(Z)", "Task", "4", "@AirCraft"];
    PrioWords4();
    t := PriorityLine(ts, PrioLineText4);
  }

  lemma TwoOfFourHavePriorityA(t1: Task, t2: Task, t3: Task, t4: Task)
    requires t1.priority == Some('A') && t2.priority == Some('A')
    requires t3.priority == Some('B') && t4.priority == Some('Z')
    ensures Filter([t1, t2, t3, t4], PrioIs("A")) == [t1, t2]
  {
    var p := PrioIs("A");
    assert p(t1) && p(t2) && !p(t3) && !p(t4);
    assert Filter([t4], p) == [] by {
      assert [t4][1..] == [];
    }
    assert Filter([t3, t4], p) == [] by {
      assert [t3, t4][1..] == [t4];
    }
    assert Filter([t2, t3, t4], p) == [t2] by {
      assert [t2, t3, t4][1..] == [t3, t4];
    }
    assert [t1, t2, t3, t4][1..] == [t2, t3, t4];
  }

  lemma ByPrioOfFour(l: List)
    requires |l.openTasks| == 4 && l.doneTasks == []
    requires l.openTasks[0].priority == Some('A') && l.openTasks[1].priority == Some('A')
    requires l.openTasks[2].priority == Some('B') && l.openTasks[3].priority == Some('Z')
    ensures |l.ByPrio("a").tasks| == 2
  {
    var ts := l.openTasks;
    assert ts == [ts[0], ts[1], ts[2], ts[3]];
    assert l.openTasks + l.doneTasks == ts;
    assert ToUpper("a") == "A";
    TwoOfFourHavePriorityA(ts[0], ts[1], ts[2], ts[3]);
  }

  /** Adding the four `by_prio` example tasks to a new list and filtering it by `"a"`. */
  method ByPrioOnFour(t1: Task, t2: Task, t3: Task, t4: Task) returns (n: nat)
    requires !t1.done && !t2.done && !t3.done && !t4.done
    requires t1.priority == Some('A') && t2.priority == Some('A')
    requires t3.priority == Some('B') && t4.priority == Some('Z')
    ensures n == 2
  {
    var list := BuildDefaultList();
    list.Add(t1);
    list.Add(t2);
    list.Add(t3);
    list.Add(t4);
    assert list.openTasks == [t1, t2, t3, t4];
    ByPrioOfFour(list);
    n := |list.ByPrio("a").tasks|;
  }

  /** The `by_prio` example: the query `"a"` finds the two `(A)` tasks. */
  method ByPrioExample() returns (n: nat)
    ensures n == 2
  {
    var _ := PrioLine1();
    var _ := PrioLine2();
    var _ := PrioLine3();
    var _ := PrioLine4();
    var t1 := DeserializeTask(PrioLineText1);
    var t2 := DeserializeTask(PrioLineText2);
    var t3 := DeserializeTask(PrioLineText3);
    var t4 := DeserializeTask(PrioLineText4);
    n := ByPrioOnFour(t1, t2, t3, t4);
  }

  /** A line whose first word is plain: an open task whose tags come from every word. */
  lemma PlainLine(ts: seq<string>, line: string) returns (t: Task)
    requires AllWords(ts) && |ts| >= 1 && '-' !in ts[0] && ts[0] != "x" && !IsPriorityToken(ts[0])
    requires Join(ts, " ") == line
    ensures Parseable(line) && t == ParseTask(line) && !t.done
    ensures t.contextTags == ContextTags(ts) && t.originalText == line
  {
    PlainFirstWord(ts);
    ParseJoined(ts);
    assert ts[0..] == ts;
    t := ParseTask(line);
  }

  /** A line `x` followed by a plain word: a done task whose tags come from the later words. */
  lemma DoneLine(ts: seq<string>, line: string) returns (t: Task)
    requires AllWords(ts) && |ts| >= 2 && ts[0] == "x" && '-' !in ts[1] && !IsPriorityToken(ts[1])
    requires Join(ts, " ") == line
    ensures Parseable(line) && t == ParseTask(line) && t.done
    ensures t.contextTags == ContextTags(ts[1..]) && t.originalText == line
  {
    DoneThenPlainWord(ts);
    ParseJoined(ts);
    t := ParseTask(line);
  }

  /** The lines of the `by_context` example, and the line `Task 4 @AirCraft` it compares with. */
  const ContextLineText1: string := "Task 1"
  const ContextLineText2: string := "Task 2 @air"
  const ContextLineText3: string := "Task 3 @AIR"
  const ContextLineText4: string := "x Task 4 @AirCraft"
  const OpenLineText4: string := "Task 4 @AirCraft"

  /** Two plain words and then a context tag. */
  lemma TagAfterTwoWords(a: string, b: string, c: string)
    requires !IsContextToken(a) && !IsContextToken(b) && IsContextToken(c)
    ensures ContextTags([a, b, c]) == [c[1..]]
  {
    assert [a][..0] == [];
    assert ContextTags([a]) == [];
    assert [a, b][..1] == [a];
    assert ContextTags([a, b]) == [];
    assert [a, b, c][..2] == [a, b];
  }

  lemma ContextLine1() returns (t: Task)
    ensures Parseable(ContextLineText1) && t == ParseTask(ContextLineText1) && !t.done && t.contextTags == []
  {
    var ts := ["Task", "1"];
    assert Join(ts, " ") == ContextLineText1;
    t := PlainLine(ts, ContextLineText1);
    assert ts[..1] == ["Task"];
    assert ["Task"][..0] == [];
  }

  lemma ContextLine2() returns (t: Task)
    ensures Parseable(ContextLineText2) && t == ParseTask(ContextLineText2) && !t.done
    ensures t.contextTags == ["air"] && t.originalText == ContextLineText2
  {
    var ts := ["Task", "2", "@air"];
    assert Join(ts, " ") == ContextLineText2;
    t := PlainLine(ts, ContextLineText2);
    TagAfterTwoWords("Task", "2", "@air");
  }

  lemma ContextLine3() returns (t: Task)
    ensures Parseable(ContextLineText3) && t == ParseTask(ContextLineText3) && !t.done
    ensures t.contextTags == ["AIR"] && t.originalText == ContextLineText3
  {
    var ts := ["Task", "3", "@AIR"];
    assert Join(ts, " ") == ContextLineText3;
    t := PlainLine(ts, ContextLineText3);
    TagAfterTwoWords("Task", "3", "@AIR");
  }

  lemma ContextWords4()
    ensures Join(["x", "Task", "4", "@AirCraft"], " ") == ContextLineText4
  {
    JoinFour("x", "Task", "4", "@AirCraft");
  }

  lemma ContextLine4() returns (t: Task)
    ensures Parseable(ContextLineText4) && t == ParseTask(ContextLineText4) && t.done
    ensures t.contextTags == ["AirCraft"] && t.originalText == ContextLineText4
  {
    var ts := ["x", "Task", "4", "@AirCraft"];
    ContextWords4();
    t := DoneLine(ts, ContextLineText4);
    assert ts[1..] == ["Task", "4", "@AirCraft"];
    TagAfterTwoWords("Task", "4", "@AirCraft");
  }

  lemma OpenLine4() returns (t: Task)
    ensures Parseable(OpenLineText4) && t == ParseTask(OpenLineText4) && !t.done
    ensures t.originalText == OpenLineText4
  {
    var ts := ["Task", "4", "@AirCraft"];
    JoinThree("Task", "4", "@AirCraft");
    t := PlainLine(ts, OpenLineText4);
  }

  /** A needle longer than the haystack occurs nowhere in it. */
  lemma {:induction false} TooLongNotContained(hay: string, needle: string)
    requires |needle| > |hay|
    ensures !Contains(hay, needle)
    decreases |hay|
  {
    if |hay| > 0 {
      TooLongNotContained(hay[1..], needle);
    }
  }

  /** How the three context tags of the example answer the queries `air` and `craft`. */
  lemma ExampleTagMatches()
    ensures TagMatches("air", "air") && TagMatches("AIR", "air") && TagMatches("AirCraft", "air")
    ensures !TagMatches("air", "craft") && !TagMatches("AIR", "craft") && TagMatches("AirCraft", "craft")
  {
    assert ToLower("air") == "air";
    assert ToLower("AIR") == "air";
    assert ToLower("AirCraft") == "aircraft";
    assert ToLower("craft") == "craft";
    assert StartsWith("air", "air");
    assert StartsWith("aircraft", "air");
    assert "aircraft"[1..][1..][1..] == "craft";
    assert StartsWith("craft", "craft");
    TooLongNotContained("air", "craft");
  }

  lemma DropFirstOfThree(a: Task, b: Task, c: Task, p: Task -> bool)
    requires !p(a) && p(b) && p(c)
    ensures Filter([a, b, c], p) == [b, c]
  {
    assert [c][1..] == [];
    assert [b, c][1..] == [c];
    assert [a, b, c][1..] == [b, c];
  }

  lemma DropAllOfThree(a: Task, b: Task, c: Task, p: Task -> bool)
    requires !p(a) && !p(b) && !p(c)
    ensures Filter([a, b, c], p) == []
  {
    assert [c][1..] == [];
    assert Filter([c], p) == [];
    assert [b, c][1..] == [c];
    assert Filter([b, c], p) == [];
    assert [a, b, c][1..] == [b, c];
  }

  lemma FilterOne(a: Task, p: Task -> bool)
    requires p(a)
    ensures Filter([a], p) == [a]
  {
    assert [a][1..] == [];
  }

  /** What `by_context("air")` and `by_context("craft")` keep of the example list. */
  lemma ByContextOfFour(l: List)
    requires |l.openTasks| == 3 && |l.doneTasks| == 1
    requires l.openTasks[0].contextTags == [] && l.openTasks[1].contextTags == ["air"]
    requires l.openTasks[2].contextTags == ["AIR"] && l.doneTasks[0].contextTags == ["AirCraft"]
    ensures l.ByContext("air").tasks == [l.openTasks[1], l.openTasks[2], l.doneTasks[0]]
    ensures l.ByContext("craft").tasks == [l.doneTasks[0]]
  {
    ExampleTagMatches();
    ByContextAir(l);
    ByContextCraft(l);
  }

  lemma ByContextAir(l: List)
    requires |l.openTasks| == 3 && |l.doneTasks| == 1
    requires l.openTasks[0].contextTags == [] && l.openTasks[1].contextTags == ["air"]
    requires l.openTasks[2].contextTags == ["AIR"] && l.doneTasks[0].contextTags == ["AirCraft"]
    requires TagMatches("air", "air") && TagMatches("AIR", "air") && TagMatches("AirCraft", "air")
    ensures l.ByContext("air").tasks == [l.openTasks[1], l.openTasks[2], l.doneTasks[0]]
  {
    var o := l.openTasks;
    var d := l.doneTasks[0];
    assert o == [o[0], o[1], o[2]];
    assert l.doneTasks == [d];
    var air := ContextMatch("air");
    assert !air(o[0]);
    assert TagMatches(o[1].Contexts()[0], "air") && TagMatches(o[2].Contexts()[0], "air");
    assert TagMatches(d.Contexts()[0], "air");
    DropFirstOfThree(o[0], o[1], o[2], air);
    FilterOne(d, air);
  }

  lemma ByContextCraft(l: List)
    requires |l.openTasks| == 3 && |l.doneTasks| == 1
    requires l.openTasks[0].contextTags == [] && l.openTasks[1].contextTags == ["air"]
    requires l.openTasks[2].contextTags == ["AIR"] && l.doneTasks[0].contextTags == ["AirCraft"]
    requires TagMatches("AirCraft", "craft") && !TagMatches("air", "craft") && !TagMatches("AIR", "craft")
    ensures l.ByContext("craft").tasks == [l.doneTasks[0]]
  {
    var o := l.openTasks;
    var d := l.doneTasks[0];
    assert o == [o[0], o[1], o[2]];
    assert l.doneTasks == [d];
    var craft := ContextMatch("craft");
    assert TagMatches(d.Contexts()[0], "craft");
    assert !craft(o[0]) && !craft(o[1]) && !craft(o[2]);
    DropAllOfThree(o[0], o[1], o[2], craft);
    FilterOne(d, craft);
  }


  /**
   * The `by_context` example on four given tasks: `air` finds three, the comparison with the
   * expected list holds although its third task differs from the filtered one (the `eq` of
   * `TaskList` needs only one agreeing position), and `craft` finds one.
   */
  method ByContextOnFour(t1: Task, t2: Task, t3: Task, t4: Task, u2: Task, u3: Task, u4: Task)
    returns (air: nat, same: bool, thirdDiffers: bool, craft: nat)
    requires !t1.done && !t2.done && !t3.done && t4.done
    requires t1.contextTags == [] && t2.contextTags == ["air"]
    requires t3.contextTags == ["AIR"] && t4.contextTags == ["AirCraft"]
    requires SameTask(t2, u2) && !SameTask(t4, u4)
    ensures air == 3 && same && thirdDiffers && craft == 1
  {
    var list := OpenOpenOpenDone(t1, t2, t3, t4);
    ByContextOfFour(list);
    var filtered := list.ByContext("air");
    var crafted := list.ByContext("craft");
    assert filtered.tasks == [t2, t3, t4] && crafted.tasks == [t4];
    air := |filtered.tasks|;
    craft := |crafted.tasks|;
    same, thirdDiffers := CompareFirstAndThird(filtered, TaskList([u2, u3, u4]));
  }

  /** Three open tasks and then a done one, added to an empty list. */
  method OpenOpenOpenDone(t1: Task, t2: Task, t3: Task, t4: Task) returns (list: List)
    requires !t1.done && !t2.done && !t3.done && t4.done
    ensures list.openTasks == [t1, t2, t3] && list.doneTasks == [t4]
  {
    list := BuildDefaultList();
    list.Add(t1);
    list.Add(t2);
    list.Add(t3);
    list.Add(t4);
  }

  /** `eq` against an expected list of the same length that agrees first and differs third. */
  method CompareFirstAndThird(filtered: TaskList, expected: TaskList) returns (same: bool, thirdDiffers: bool)
    requires |filtered.tasks| == 3 && |expected.tasks| == 3
    requires SameTask(filtered.tasks[0], expected.tasks[0]) && !SameTask(filtered.tasks[2], expected.tasks[2])
    ensures same && thirdDiffers
  {
    same := filtered.Eq(expected);
    thirdDiffers := !SameTask(filtered.tasks[2], expected.tasks[2]);
  }

  /** The `by_context` example, with `Task 4 @AirCraft` for the third expected task. */
  method ByContextExample() returns (air: nat, same: bool, thirdDiffers: bool, craft: nat)
    ensures air == 3 && same && thirdDiffers && craft == 1
  {
    var _ := ContextLine1();
    var _ := ContextLine2();
    var _ := ContextLine3();
    var _ := ContextLine4();
    var _ := OpenLine4();
    var t1 := DeserializeTask(ContextLineText1);
    var t2 := DeserializeTask(ContextLineText2);
    var t3 := DeserializeTask(ContextLineText3);
    var t4 := DeserializeTask(ContextLineText4);
    var u2 := DeserializeTask(ContextLineText2);
    var u3 := DeserializeTask(ContextLineText3);
    var u4 := DeserializeTask(OpenLineText4);
    air, same, thirdDiffers, craft := ByContextOnFour(t1, t2, t3, t4, u2, u3, u4);
  }
}
