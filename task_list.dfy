/**
 * `TaskList`: the result of a list query, a sequence of tasks with chainable filters and
 * the crate's own (unusual) equality.
 */
module TaskLists {
  import opened Wrappers
  import opened Text
  import opened Dates
  import opened Seqs
  import opened Tasks

  // ---------------------------------------------------------------
  //                 The tests the filters apply
  // ---------------------------------------------------------------

  /** The test of `by_prio`: `prio()` equals the query exactly. */
  function PrioIs(prio: string): Task -> bool
  {
    (t: Task) => t.Prio() == prio
  }

  /** A tag matches a query when, both lowercased, the query occurs in the tag. */
  predicate TagMatches(tag: string, query: string)
  {
    Contains(ToLower(tag), ToLower(query))
  }

  predicate AnyTagMatches(tags: seq<string>, query: string)
  {
    exists i :: 0 <= i < |tags| && TagMatches(tags[i], query)
  }

  predicate AnyKeyMatches(specials: map<string, string>, query: string)
  {
    exists key :: key in specials && TagMatches(key, query)
  }

  /** The test of `by_context`. */
  function ContextMatch(context: string): Task -> bool
  {
    (t: Task) => AnyTagMatches(t.Contexts(), context)
  }

  /** The test of `by_project`. */
  function ProjectMatch(project: string): Task -> bool
  {
    (t: Task) => AnyTagMatches(t.Projects(), project)
  }

  /** The test of `by_special`: only the keys of the special tags are looked at. */
  function SpecialMatch(special: string): Task -> bool
  {
    (t: Task) => AnyKeyMatches(t.Specials(), special)
  }

  /** The loop inside the `by_context` and `by_project` closures: stop at the first matching tag. */
  method FindMatchingTag(tags: seq<string>, query: string) returns (found: bool)
    ensures found <==> AnyTagMatches(tags, query)
  {
    for i := 0 to |tags|
      invariant forall j :: 0 <= j < i ==> !TagMatches(tags[j], query)
    {
      if Contains(ToLower(tags[i]), ToLower(query)) {
        return true;
      }
    }
    return false;
  }

  /** The loop inside the `by_special` closure, over the keys of the special tags. */
  method FindMatchingKey(specials: map<string, string>, query: string) returns (found: bool)
    ensures found <==> AnyKeyMatches(specials, query)
  {
    var keys := specials.Keys;
    while keys != {}
      invariant keys <= specials.Keys
      invariant forall key :: key in specials && key !in keys ==> !TagMatches(key, query)
      decreases keys
    {
      var key :| key in keys;
      if Contains(ToLower(key), ToLower(query)) {
        return true;
      }
      keys := keys - {key};
    }
    return false;
  }

  // ---------------------------------------------------------------
  //                        TaskList
  // ---------------------------------------------------------------

  /** `struct TaskList`; `TaskList::new` is the constructor and `tasks()` the field. */
  datatype TaskList = TaskList(tasks: seq<Task>)
  {
    /**
     * The equality `PartialEq::eq` implements: the lengths agree and SOME position holds
     * two tasks with the same original text.
     */
    predicate SomePositionAgrees(other: TaskList)
    {
      |tasks| == |other.tasks| &&
      exists i :: 0 <= i < |tasks| && SameTask(tasks[i], other.tasks[i])
    }

    /** `PartialEq::eq`: unequal lengths give false, then the first agreeing position gives true. */
    method Eq(other: TaskList) returns (r: bool)
      ensures r <==> SomePositionAgrees(other)
    {
      if |tasks| != |other.tasks| {
        return false;
      }
      for i := 0 to |tasks|
        invariant forall j :: 0 <= j < i ==> !SameTask(tasks[j], other.tasks[j])
      {
        if tasks[i].Original() == other.tasks[i].Original() {
          return true;
        }
      }
      return false;
    }

    /** `PartialEq::ne`: the negation of `eq`. */
    method Ne(other: TaskList) returns (r: bool)
      ensures r <==> !SomePositionAgrees(other)
    {
      var e := Eq(other);
      r := !e;
    }

    /** `by_prio`: the tasks whose `prio()` is exactly the query (case-sensitive). */
    function ByPrio(prio: string): (r: TaskList)
      ensures IsSubsequence(r.tasks, tasks)
      ensures forall t :: t in r.tasks <==> t in tasks && t.Prio() == prio
      ensures KeepsEveryCopy(tasks, r.tasks, PrioIs(prio))
    {
      FilterIsSubsequence(tasks, PrioIs(prio));
      FilterMultiset(tasks, PrioIs(prio));
      TaskList(Filter(tasks, PrioIs(prio)))
    }

    /** `by_context`: the tasks with a context tag containing the query, ignoring case. */
    function ByContext(context: string): (r: TaskList)
      ensures IsSubsequence(r.tasks, tasks)
      ensures forall t :: t in r.tasks <==> t in tasks && AnyTagMatches(t.contextTags, context)
      ensures KeepsEveryCopy(tasks, r.tasks, ContextMatch(context))
    {
      FilterIsSubsequence(tasks, ContextMatch(context));
      FilterMultiset(tasks, ContextMatch(context));
      TaskList(Filter(tasks, ContextMatch(context)))
    }

    /** `by_project`: the tasks with a project tag containing the query, ignoring case. */
    function ByProject(project: string): (r: TaskList)
      ensures IsSubsequence(r.tasks, tasks)
      ensures forall t :: t in r.tasks <==> t in tasks && AnyTagMatches(t.projectTags, project)
      ensures KeepsEveryCopy(tasks, r.tasks, ProjectMatch(project))
    {
      FilterIsSubsequence(tasks, ProjectMatch(project));
      FilterMultiset(tasks, ProjectMatch(project));
      TaskList(Filter(tasks, ProjectMatch(project)))
    }

    /** `by_special`: the tasks with a special-tag key containing the query, ignoring case. */
    function BySpecial(special: string): (r: TaskList)
      ensures IsSubsequence(r.tasks, tasks)
      ensures forall t :: t in r.tasks <==> t in tasks && AnyKeyMatches(t.specialTags, special)
      ensures KeepsEveryCopy(tasks, r.tasks, SpecialMatch(special))
    {
      FilterIsSubsequence(tasks, SpecialMatch(special));
      FilterMultiset(tasks, SpecialMatch(special));
      TaskList(Filter(tasks, SpecialMatch(special)))
    }
  }

  // ---------------------------------------------------------------
  //                     Properties of TaskList
  // ---------------------------------------------------------------

  /** A filter never makes a list longer. */
  lemma FiltersShrink(l: TaskList, q: string)
    ensures |l.ByPrio(q).tasks| <= |l.tasks| && |l.ByContext(q).tasks| <= |l.tasks|
    ensures |l.ByProject(q).tasks| <= |l.tasks| && |l.BySpecial(q).tasks| <= |l.tasks|
  {
  }

  /** Applying a filter a second time changes nothing. */
  lemma FiltersIdempotent(l: TaskList, q: string)
    ensures l.ByPrio(q).ByPrio(q) == l.ByPrio(q)
    ensures l.ByContext(q).ByContext(q) == l.ByContext(q)
    ensures l.ByProject(q).ByProject(q) == l.ByProject(q)
    ensures l.BySpecial(q).BySpecial(q) == l.BySpecial(q)
  {
    FilterIdempotent(l.tasks, PrioIs(q));
    FilterIdempotent(l.tasks, ContextMatch(q));
    FilterIdempotent(l.tasks, ProjectMatch(q));
    FilterIdempotent(l.tasks, SpecialMatch(q));
  }

  /**
   * Chaining `by_project(p).by_context(c).by_special(s)` keeps the tasks that pass all
   * three tests, in their original order.
   */
  lemma ChainIsConjunction(l: TaskList, p: string, c: string, s: string)
    ensures l.ByProject(p).ByContext(c).tasks == Filter(l.tasks, And(ProjectMatch(p), ContextMatch(c)))
    ensures l.ByProject(p).ByContext(c).BySpecial(s).tasks
         == Filter(l.tasks, And(And(ProjectMatch(p), ContextMatch(c)), SpecialMatch(s)))
  {
    FilterFilter(l.tasks, ProjectMatch(p), ContextMatch(c));
    FilterFilter(l.tasks, And(ProjectMatch(p), ContextMatch(c)), SpecialMatch(s));
  }

  /** The order in which two filters are chained does not matter. */
  lemma ChainCommutes(l: TaskList, p: string, c: string, s: string)
    ensures l.ByProject(p).ByContext(c) == l.ByContext(c).ByProject(p)
    ensures l.ByContext(c).BySpecial(s) == l.BySpecial(s).ByContext(c)
    ensures l.ByProject(p).BySpecial(s) == l.BySpecial(s).ByProject(p)
    ensures l.ByPrio(p).ByContext(c) == l.ByContext(c).ByPrio(p)
  {
    FilterCommute(l.tasks, ProjectMatch(p), ContextMatch(c));
    FilterCommute(l.tasks, ContextMatch(c), SpecialMatch(s));
    FilterCommute(l.tasks, ProjectMatch(p), SpecialMatch(s));
    FilterCommute(l.tasks, PrioIs(p), ContextMatch(c));
  }

  lemma LowerUpperLower(s: string)
    ensures ToLower(ToUpper(s)) == ToLower(s)
    ensures ToLower(ToLower(s)) == ToLower(s)
  {
    assert forall i :: 0 <= i < |s| ==> ToLower(ToUpper(s))[i] == ToLower(s)[i];
    assert forall i :: 0 <= i < |s| ==> ToLower(ToLower(s))[i] == ToLower(s)[i];
  }

  /** The tag filters ignore the case of the query. */
  lemma TagFiltersIgnoreCase(l: TaskList, q: string)
    ensures l.ByContext(ToUpper(q)) == l.ByContext(q) == l.ByContext(ToLower(q))
    ensures l.ByProject(ToUpper(q)) == l.ByProject(q) == l.ByProject(ToLower(q))
    ensures l.BySpecial(ToUpper(q)) == l.BySpecial(q) == l.BySpecial(ToLower(q))
  {
    LowerUpperLower(q);
    assert forall tag :: TagMatches(tag, ToUpper(q)) == TagMatches(tag, q) == TagMatches(tag, ToLower(q));
    FilterSamePredicate(l.tasks, ContextMatch(ToUpper(q)), ContextMatch(q));
    FilterSamePredicate(l.tasks, ContextMatch(ToLower(q)), ContextMatch(q));
    FilterSamePredicate(l.tasks, ProjectMatch(ToUpper(q)), ProjectMatch(q));
    FilterSamePredicate(l.tasks, ProjectMatch(ToLower(q)), ProjectMatch(q));
    FilterSamePredicate(l.tasks, SpecialMatch(ToUpper(q)), SpecialMatch(q));
    FilterSamePredicate(l.tasks, SpecialMatch(ToLower(q)), SpecialMatch(q));
  }

  /** The empty query is contained in every tag: it keeps exactly the tasks with some tag. */
  lemma EmptyQueryKeepsTagged(t: Task)
    ensures ContextMatch("")(t) <==> |t.contextTags| > 0
    ensures ProjectMatch("")(t) <==> |t.projectTags| > 0
    ensures SpecialMatch("")(t) <==> |t.specialTags| > 0
  {
    assert forall tag :: StartsWith(ToLower(tag), ToLower(""));
    if |t.contextTags| > 0 {
      assert TagMatches(t.contextTags[0], "");
    }
    if |t.projectTags| > 0 {
      assert TagMatches(t.projectTags[0], "");
    }
    if |t.specialTags| > 0 {
      var key :| key in t.specialTags;
      assert TagMatches(key, "");
    }
  }

  /** Equality fails on two empty lists: there is no position that could agree. */
  lemma EmptyListsAreUnequal()
    ensures !TaskList([]).SomePositionAgrees(TaskList([]))
  {
  }

  /** A list equals itself exactly when it is not empty. */
  lemma EqualToItself(l: TaskList)
    ensures l.SomePositionAgrees(l) <==> |l.tasks| > 0
  {
    if |l.tasks| > 0 {
      assert SameTask(l.tasks[0], l.tasks[0]);
    }
  }

  /** One agreeing position is enough, whatever the other positions hold. */
  lemma OneAgreementSuffices(a: TaskList, b: TaskList, i: nat)
    requires |a.tasks| == |b.tasks| && i < |a.tasks|
    requires SameTask(a.tasks[i], b.tasks[i])
    ensures a.SomePositionAgrees(b) && b.SomePositionAgrees(a)
  {
    assert SameTask(b.tasks[i], a.tasks[i]);
  }

  /** A task whose only content is its original text. */
  function Plain(original: string): Task
  {
    Task(false, None, Default(), Default(), original, [], [], map[], original)
  }

  /** The equality is not transitive. */
  lemma EqualityNotTransitive()
    ensures var a := TaskList([Plain("a"), Plain("b")]);
      var b := TaskList([Plain("a"), Plain("c")]);
      var c := TaskList([Plain("d"), Plain("c")]);
      a.SomePositionAgrees(b) && b.SomePositionAgrees(c) && !a.SomePositionAgrees(c)
  {
    var a := TaskList([Plain("a"), Plain("b")]);
    var b := TaskList([Plain("a"), Plain("c")]);
    var c := TaskList([Plain("d"), Plain("c")]);
    assert SameTask(a.tasks[0], b.tasks[0]);
    assert SameTask(b.tasks[1], c.tasks[1]);
  }
}
