/**
 * The order `List::sort` returns, as far as the sort tests assert it: ascending by the
 * key a `SortBy` names (the priority letter `A` first, or the date, earliest first), with
 * tasks of equal key kept in the order they were added.
 */
module SortOrders {
  import opened Dates
  import opened Tasks
  import opened Seqs
  import opened SortBys

  /** The tasks the tests sort all carry the key: a priority, or a set date. */
  predicate Keyed(sortBy: SortBy, t: Task)
  {
    match sortBy
    case Priority => t.priority.Some?
    case InceptionDate => IsSet(t.inceptionDate)
    case CompletionDate => IsSet(t.completionDate)
  }

  /** A date as one number, so that numeric order is the order of (year, month, day). */
  function DateKey(d: Date): nat
  {
    (d.year * 0x100 + d.month) * 0x100 + d.day
  }

  /** Comparing date keys compares year first, then month, then day. */
  lemma DateKeyOrder(a: Date, b: Date)
    ensures DateKey(a) <= DateKey(b) <==>
      a.year < b.year || (a.year == b.year && (a.month < b.month || (a.month == b.month && a.day <= b.day)))
    ensures DateKey(a) == DateKey(b) <==> a == b
  {
    var ma, mb := a.year * 0x100 + a.month, b.year * 0x100 + b.month;
    assert ma < mb <==> a.year < b.year || (a.year == b.year && a.month < b.month);
    assert DateKey(a) < DateKey(b) <==> ma < mb || (ma == mb && a.day < b.day);
  }

  /** The key a task is sorted by. */
  function SortKey(sortBy: SortBy, t: Task): int
  {
    match sortBy
    case Priority => if t.priority.Some? then t.priority.value as int else 0
    case InceptionDate => DateKey(t.inceptionDate)
    case CompletionDate => DateKey(t.completionDate)
  }

  /** An earlier priority letter sorts first. */
  lemma EarlierLetterSortsFirst(a: Task, b: Task)
    requires a.priority.Some? && b.priority.Some?
    ensures SortKey(Priority, a) < SortKey(Priority, b) <==> a.priority.value < b.priority.value
  {
  }

  /** The test "the key is `k`". */
  function HasKey(sortBy: SortBy, k: int): Task -> bool
  {
    (t: Task) => SortKey(sortBy, t) == k
  }

  ghost predicate KeysAscending(sortBy: SortBy, s: seq<Task>)
  {
    forall i, j :: 0 <= i < j < |s| ==> SortKey(sortBy, s[i]) <= SortKey(sortBy, s[j])
  }

  /**
   * `output` is what `sort(sortBy)` returns for the tasks `input` in the order they were
   * added: the same tasks, keys ascending, and the tasks of each key in input order.
   */
  ghost predicate StableSortedBy(sortBy: SortBy, input: seq<Task>, output: seq<Task>)
  {
    (forall i :: 0 <= i < |input| ==> Keyed(sortBy, input[i])) &&
    multiset(output) == multiset(input) &&
    KeysAscending(sortBy, output) &&
    SameGroups(sortBy, output, input)
  }

  /** The relation determines the output: there is only one stable sort of a list. */
  lemma StableSortUnique(sortBy: SortBy, input: seq<Task>, o1: seq<Task>, o2: seq<Task>)
    requires StableSortedBy(sortBy, input, o1) && StableSortedBy(sortBy, input, o2)
    ensures o1 == o2
  {
    assert SameGroups(sortBy, o1, o2) by {
      forall k ensures Filter(o1, HasKey(sortBy, k)) == Filter(o2, HasKey(sortBy, k)) {
        assert Filter(o1, HasKey(sortBy, k)) == Filter(input, HasKey(sortBy, k));
      }
    }
    SameGroupsSameOrder(sortBy, o1, o2);
  }

  /** The tasks of each key, in order, agree between `a` and `b`. */
  ghost predicate SameGroups(sortBy: SortBy, a: seq<Task>, b: seq<Task>)
  {
    forall k :: Filter(a, HasKey(sortBy, k)) == Filter(b, HasKey(sortBy, k))
  }

  /** Two key-ascending sequences with the same tasks of each key, in the same order, are equal. */
  lemma {:induction false} SameGroupsSameOrder(sortBy: SortBy, a: seq<Task>, b: seq<Task>)
    requires KeysAscending(sortBy, a) && KeysAscending(sortBy, b)
    requires SameGroups(sortBy, a, b)
    ensures a == b
    decreases |a| + |b|
  {
    if a == [] || b == [] {
      if a != [] {
        EmptyHasNoGroups(sortBy, b, a);
      } else if b != [] {
        EmptyHasNoGroups(sortBy, a, b);
      }
    } else {
      HeadsAgree(sortBy, a, b);
      TailsSameGroups(sortBy, a, b);
      SameGroupsSameOrder(sortBy, a[1..], b[1..]);
      assert a == [a[0]] + a[1..] && b == [b[0]] + b[1..];
    }
  }

  /** An empty sequence has the same groups only as another empty one. */
  lemma EmptyHasNoGroups(sortBy: SortBy, e: seq<Task>, s: seq<Task>)
    requires e == [] && s != []
    ensures !SameGroups(sortBy, e, s) && !SameGroups(sortBy, s, e)
  {
    NonEmptyGroup(sortBy, s);
    assert Filter(e, HasKey(sortBy, SortKey(sortBy, s[0]))) == [];
  }

  /** Key-ascending sequences with the same groups start with the same task. */
  lemma HeadsAgree(sortBy: SortBy, a: seq<Task>, b: seq<Task>)
    requires a != [] && b != [] && KeysAscending(sortBy, a) && KeysAscending(sortBy, b)
    requires SameGroups(sortBy, a, b)
    ensures a[0] == b[0]
  {
    FirstKeyIsLeast(sortBy, a, b);
    FirstKeyIsLeast(sortBy, b, a);
    var p := HasKey(sortBy, SortKey(sortBy, a[0]));
    FilterCons(a, p);
    FilterCons(b, p);
    assert Filter(a, p) == Filter(b, p);
    assert Filter(a, p)[0] == a[0] && Filter(b, p)[0] == b[0];
  }

  /** Dropping the same first task keeps the groups equal. */
  lemma TailsSameGroups(sortBy: SortBy, a: seq<Task>, b: seq<Task>)
    requires a != [] && b != [] && a[0] == b[0] && SameGroups(sortBy, a, b)
    ensures SameGroups(sortBy, a[1..], b[1..])
  {
    forall k
      ensures Filter(a[1..], HasKey(sortBy, k)) == Filter(b[1..], HasKey(sortBy, k))
    {
      var q := HasKey(sortBy, k);
      assert Filter(a, q) == Filter(b, q);
      FilterCons(a, q);
      FilterCons(b, q);
      var head := if q(a[0]) then [a[0]] else [];
      assert (head + Filter(a[1..], q))[|head|..] == Filter(a[1..], q);
      assert (head + Filter(b[1..], q))[|head|..] == Filter(b[1..], q);
    }
  }

  /** The group of the first task's key is not empty. */
  lemma NonEmptyGroup(sortBy: SortBy, s: seq<Task>)
    requires s != []
    ensures Filter(s, HasKey(sortBy, SortKey(sortBy, s[0]))) != []
  {
    assert s[0] in Filter(s, HasKey(sortBy, SortKey(sortBy, s[0])));
  }

  /** With the same groups, the first key of `b` is no larger than the first key of `a`. */
  lemma FirstKeyIsLeast(sortBy: SortBy, a: seq<Task>, b: seq<Task>)
    requires a != [] && b != [] && KeysAscending(sortBy, b)
    requires SameGroups(sortBy, a, b)
    ensures SortKey(sortBy, b[0]) <= SortKey(sortBy, a[0])
  {
    var p := HasKey(sortBy, SortKey(sortBy, a[0]));
    assert a[0] in Filter(a, p);
    assert Filter(a, p) == Filter(b, p);
    assert a[0] in Filter(b, p);
    var j :| 0 <= j < |b| && b[j] == a[0];
    if j > 0 {
      assert SortKey(sortBy, b[0]) <= SortKey(sortBy, b[j]);
    }
  }

  /** Tasks already in key order sort to themselves. */
  lemma SortedInputIsItsOwnSort(sortBy: SortBy, s: seq<Task>)
    requires forall i :: 0 <= i < |s| ==> Keyed(sortBy, s[i])
    requires KeysAscending(sortBy, s)
    ensures StableSortedBy(sortBy, s, s)
  {
  }

  /** Tasks that all share one key come back in the order they were added. */
  lemma TiesKeepInsertionOrder(sortBy: SortBy, input: seq<Task>, output: seq<Task>)
    requires StableSortedBy(sortBy, input, output)
    requires forall i :: 0 <= i < |input| ==> SortKey(sortBy, input[i]) == SortKey(sortBy, input[0])
    ensures output == input
  {
    SortedInputIsItsOwnSort(sortBy, input);
    StableSortUnique(sortBy, input, output, input);
  }

  /** Two tasks added in descending key order come back swapped. */
  lemma TwoInReverseOrder(sortBy: SortBy, a: Task, b: Task)
    requires Keyed(sortBy, a) && Keyed(sortBy, b) && SortKey(sortBy, a) > SortKey(sortBy, b)
    ensures StableSortedBy(sortBy, [a, b], [b, a])
  {
    assert multiset([b, a]) == multiset([a, b]);
    forall k
      ensures Filter([b, a], HasKey(sortBy, k)) == Filter([a, b], HasKey(sortBy, k))
    {
      var p := HasKey(sortBy, k);
      FilterCons([b, a], p);
      FilterCons([a, b], p);
      assert [b, a][1..] == [a] && [a, b][1..] == [b];
      FilterCons([a], p);
      FilterCons([b], p);
      assert [a][1..] == [] && [b][1..] == [];
    }
  }
}
