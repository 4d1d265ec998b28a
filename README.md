# anansi in Dafny

A model of the core of anansi, a Rust library for todo.txt task lists, with proofs about it.

One line of a todo.txt file is one task. The line may start with:

- `x` (the task is done);
- a priority `(A)` … `(Z)`;
- up to two dates `YYYY-MM-DD`.

The rest of the line is the task text. Its words can be tags:

- `@context`;
- `+project`;
- `key:value` (a special tag).

A `List` keeps the parsed tasks in two buckets, open tasks and done tasks. It can add and remove tasks, and filter by priority, context, project or special key. The filters return a `TaskList`, which can itself be filtered again. A list is written back as one original line per task.

The modules follow the crate:

| module | file | models |
|---|---|---|
| `Dates` | `date.dfy` | `Date`, `Default`, `format_date`, `is_set`, `FromStr`/`From`, `Display`, `deserialize_date` (from `src/util/mod.rs`) |
| `TaskBuilder` | `task_builder.dfy` | `deserialize_task`: the line grammar, as the specification function `ParseTask` and as the loop method `DeserializeTask` proved equal to it |
| `Tasks` | `task.dfy` | the `Task` record and its accessors, `Display`, and the equality and ordering the tests assert |
| `TaskCells` | `task_cell.dfy` | the `&mut self` operations of `Task` (`new`, `update`, `done`, `undone`) on an object |
| `TaskLists` | `task_list.dfy` | `TaskList`, its position-wise `eq`/`ne` and its four filters |
| `Lists` | `list.dfy` | `List` with its two buckets, `add`, `remove`, `open`, `done` and the four filters |
| `ListBuilder` | `list_builder.dfy` | `build_default_list`, `deserialise_list`, `serialise_list`, `List::new` on already-read text, and the save/load round trip |
| `SortBys` | `sort_by.dfy` | `SortBy` and its string conversions |
| `SortOrders` | `sort_order.dfy` | the order `List::sort` returns, as the relation `StableSortedBy` the sort tests assert, with its uniqueness |
| `TaskExamples`, `ListExamples` | `task_examples.dfy`, `list_examples.dfy` | the crate's unit tests, integration test and documentation examples, stated on concrete lines |
| `Text`, `Seqs`, `Wrappers` | `text.dfy`, `seqs.dfy`, `wrappers.dfy` | the pieces of Rust's `str` and iterator API that the core uses, on ASCII text |

## Modelling choices

- Text is ASCII. Whitespace is the space character and the characters tab through carriage return. Case mapping covers `A`–`Z` only. Byte length and character count then agree.
- The library panics when a line runs out of tokens. `Parseable(line)` is the precondition that rules this out. `From<String>` for `SortBy` panics on an unknown name; `IsSortByName` is its precondition.
- `Date` fields are the subset types `uint16` and `uint8`. The `u16`/`u8` parse accepts an optional leading `+`, as Rust's does.
- A `Task` value is the datatype `Tasks.Task`, which is what the vectors hold. The in-place methods `update`, `done` and `undone` are on the class `TaskCells.TaskCell`, whose fields hold one such value.
- `List` is a class whose `seq` fields the methods reassign. Its filters are functions that read the object.
- `TaskList` is a value. Its `eq` is a method with the source's early-return loop. It is proved equal to `SomePositionAgrees`.
- The closures in the filters become the predicate-makers `PrioIs`, `ContextMatch`, `ProjectMatch` and `SpecialMatch`. `retain` and `filter` become `Seqs.Filter`.
- `List::add` takes anything that converts into a `Task`. The conversion from `&str` is not part of this model, so `Add` takes a `Task`. The examples build each task with `DeserializeTask`.
- `List::new` reads a file. The model takes the file's text as an `Option<string>`: `None` means the file could not be read.
- The `PartialEq` and `PartialOrd` implementations of `Task` are not part of this model. Equality is modelled as `SameTask` (the same original text), which is what `remove` and `TaskList::eq` compare. The task order is likewise modelled only as the tests assert it: priority only, with the earlier letter greater.
- `original_text` is the whitespace-separated tokens re-joined with single spaces, not the verbatim line (`TaskBuilder.OriginalIsNormalised`).
- `format_date` tests only the year, while `is_set` needs all three fields (`Dates.FormattedButUnset`).
- `done()` and `undone()` change only the flag, not the original text. After `done()`, a save and reload therefore puts the task back in the open bucket (`TaskCells.DoneFlagDisagreesWithOriginal`). The round-trip lemmas assume tasks whose flag agrees with their line (`Reloadable`, `Pristine`).
- `TaskList::eq` is true when *some* position holds equal originals, and false for two empty lists. The `by_context` documentation example relies on this (`ListExamples.ByContextExample`).
- Some names and signatures in the sources do not line up. The model follows the definitions and ignores the call sites:
  - `deserialise_date` is imported while `deserialize_date` is defined.
  - `Task::new` is called with an id argument it does not take.
  - `description()` and `TaskList::done()` are used in tests but defined nowhere.
  - `AnansiError` is declared in `src/lib.rs`, but its module is not part of this model.

Where the code and the crate's own tests disagree, the model follows the code:

- `deserialize_date` has no month or day range check. `"2010-15-35"` gives `Date(2010, 15, 35)` (`Dates.NoRangeCheck`). The test at src/util/test.rs:23,33 expects the default date.

## Model

| member | source | states |
|---|---|---|
| Dates.Default | src/util/date.rs:25-33 | the default date is unset and formats to the empty string |
| Dates.IsSetExample | src/util/date.rs:96-106 | `is_set` holds of `Date::new(2022, 1, 1)` and not of the default date |
| Dates.ParseUnsigned | src/util/mod.rs:10-12 | a group parses to a value no larger than the type's maximum and below 10 to the power of the group's length, so year ≤ 9999 and month, day ≤ 99 |
| Dates.ParsedGroupShape | src/util/mod.rs:10-12 | a group parses exactly when it is non-empty digits, or one `+` followed by non-empty digits, whose value is within the maximum; the result is the value of those digits |
| Dates.PadDecimal | src/util/date.rs:87 | the zero-padded rendering is non-empty, all digits and unsigned |
| Dates.PadDecimalValue | src/util/date.rs:87 | the padded digits denote the number |
| Dates.PadDecimalLength | src/util/date.rs:87 | a number below 10^width pads to exactly `width` digits |
| Dates.FormatDate | src/util/date.rs:85-91 | the output is empty exactly when the year is zero |
| Dates.FormatDateShape | src/util/date.rs:87 | for years 1 to 9999 and month, day ≤ 99 the output has 10 characters, `-` at positions 4 and 7, and digits elsewhere |
| Dates.IsSetFormatsNonEmpty | src/util/date.rs:85-106 | a set date always formats to non-empty text |
| Dates.FormattedButUnset | src/util/date.rs:85-106 | the converse fails: `Date::new(2022, 0, 1)` formats non-empty yet is unset |
| Dates.Display | src/util/date.rs:112-116 | the displayed text is empty exactly for a zero year, and a date with year 1 to 9999 and month, day ≤ 99 reads back from it |
| Dates.DeserializeDate | src/util/mod.rs:7-21 | the fields are bounded (year ≤ 9999, month and day ≤ 99); a non-default result comes from exactly three hyphen-free groups of lengths 4, 2 and 2, each of which parses to the matching field (so `+1` is accepted as a month or day) |
| Dates.GroupsGiveDate | src/util/mod.rs:8-14 | three `-`-free groups of lengths 4, 2 and 2 that all parse give exactly the date of their values |
| Dates.TwoGroups | src/util/mod.rs:8-9 | `a-b` with hyphen-free `a` and `b` has too few groups and gives the default |
| Dates.MonthNotANumber | src/util/mod.rs:8-14 | three groups of lengths 4, 2 and 2 give the default when the month does not parse |
| Dates.UnparsableGroup | src/util/mod.rs:8-16 | three hyphen-free groups of lengths 4, 2 and 2 give the default when any one of them does not parse |
| Dates.YearNotANumber | src/util/mod.rs:8-16 | `"20x2-01-05"` gives the default |
| Dates.FourGroups | src/util/mod.rs:8-9 | four hyphen-separated groups give the default |
| Dates.NegativeDayGivesDefault | src/util/mod.rs:8-16 | `"2022-01--1"` splits into four groups and gives the default: a `-` sign is never read as a sign |
| Dates.DigitToken | src/util/mod.rs:7-21 | a 10-character token with hyphens at 4 and 7 and digits elsewhere gives the positional values of its digit groups |
| Dates.DigitTokenDate | src/util/mod.rs:7-21 | a digit token gives the date whose year, month and day are the caller-named values of its three digit groups |
| Dates.DigitTokensInjective | src/util/mod.rs:7-21 | two such digit tokens that give the same date are the same token |
| Dates.TokenRoundTrip | src/util/mod.rs:7-21 | formatting the date of such a digit token with a non-zero year gives the token back |
| Dates.SplitJoinPieces | src/util/mod.rs:8 | the pieces of `split('-')` joined with `-` give the input back |
| Dates.SplitPieces | src/util/mod.rs:8-9 | an input splitting into three groups is those groups joined by the separator |
| Dates.SplitNoSeparator | src/util/mod.rs:8 | a text without the separator splits into itself alone |
| Dates.SplitAtSeparator | src/util/mod.rs:8 | splitting `a-b` with a separator-free `a` gives `a` followed by the pieces of `b` |
| Dates.ParsePadded | src/util/mod.rs:10-12 | the zero-padded rendering of a number within range parses back to it |
| Dates.PlusOneParses | src/util/mod.rs:11 | the `u8` parse accepts a leading `+`: `"+1"` gives 1 |
| Dates.PlusSignAccepted | src/util/mod.rs:9-14 | `"2022-+1-05"` is accepted and gives `Date(2022, 1, 5)` |
| Dates.PlusSignGroups | src/util/mod.rs:9-14 | the groups `2022`, `+1` and `05` joined by hyphens give `Date(2022, 1, 5)` |
| Dates.FromStr | src/util/date.rs:38-43 | `from_str` always succeeds, with the value of `deserialize_date` |
| Dates.FormatDeserializeRoundTrip | src/util/test.rs:36-58 | parsing the formatted text of any date with year 1 to 9999 and month, day ≤ 99 gives the date back |
| Dates.FormatParseFormat | src/util/test.rs:36-58 | for calendar-range dates, formatting what was parsed from a formatted date gives the same text |
| Dates.AllZeroIsDefault | src/util/mod.rs:14 | `"0000-00-00"` parses to a date equal to the default |
| Dates.NoRangeCheck | src/util/mod.rs:9-14 | `"2010-15-35"` gives `Date(2010, 15, 35)`: months and days are not range-checked |
| Dates.NewEqualsFrom | src/util/date.rs:60-65 | `Date::new(2022, 1, 1)` equals `Date::from("2022-01-01")` |
| Dates.TooFewGroupsGiveDefault | src/util/test.rs:22-29 | `""` and `"2014.15.10"` give the default |
| Dates.TwoGroupsGiveDefault | src/util/test.rs:22-30 | `"asdf-xcv"` and `"25-10"` give the default |
| Dates.WrongLengthsGiveDefault | src/util/test.rs:22-32 | `"15-10-10"` and `"2010-DEC-11"` give the default |
| Dates.NonDigitsGiveDefault | src/util/test.rs:22-27 | `"xxXx-yy-zz"` gives the default |
| Text.SplitWhitespace | src/task/builder.rs:8 | `split_whitespace` returns non-empty words without whitespace |
| Text.TrimEnd | src/task/builder.rs:78 | `trim_end` removes exactly the trailing whitespace: a prefix, ending in a non-space, with only spaces cut |
| Text.TrimStart | src/list/mod.rs:46 | the leading half of `trim`: a suffix, starting with a non-space, with only spaces cut |
| Text.ToLower | src/util/task_list.rs:51 | `to_lowercase` maps each character and keeps the length |
| Text.ToUpper | src/list/mod.rs:155 | `to_uppercase` maps each character and keeps the length |
| Text.ContainsIff | src/util/task_list.rs:51 | `contains` holds exactly when the needle occurs at some index |
| Text.SplitOnce | src/task/builder.rs:71 | `split_once(':')` splits at the first `:` and returns the parts either side |
| Text.SplitOnceAt | src/task/builder.rs:71 | splitting `left:right` with a colon-free `left` gives `(left, right)` |
| Text.Lines | src/list/builder.rs:19 | `lines()` returns lines without `\n` |
| Text.LinesCons | src/list/builder.rs:19 | a line without `\n` or a trailing `\r`, followed by `\n`, is the first line of the text |
| Text.SplitJoin | src/task/builder.rs:8-9 | splitting the single-space join of words gives the words back |
| Text.JoinSplitIdentity | src/task/builder.rs:8-9 | re-joining the words of a text gives the text exactly when it is single-spaced |
| Text.JoinShape | src/task/builder.rs:9 | a join of words is single-spaced, and neither starts nor ends with a space |
| TaskBuilder.ClassifyTokens | src/task/builder.rs:54-77 | the tag loop builds the space-terminated text and the context, project and special tags as the prefix-recursive definitions give them |
| TaskBuilder.TrimTerminated | src/task/builder.rs:78 | trimming the space-terminated text gives the single-space join of the tokens |
| TaskBuilder.DeserializeTask | src/task/builder.rs:7-91 | the imperative parser returns exactly `ParseTask(input)` |
| TaskBuilder.TakeDate | src/task/builder.rs:29-47 | one date block: the front token is popped and returned exactly when it is a set date; otherwise nothing is popped and the date is the default |
| TaskBuilder.TakePriority | src/task/builder.rs:16-27 | the priority block: the front token is popped and its letter returned exactly when it is a priority marker; the letter is an upper-case ASCII letter; otherwise nothing is popped and the priority is `None` |
| TaskBuilder.ParseJoined | src/task/builder.rs:8-9 | a line written as single-spaced words parses as those words |
| TaskBuilder.ParseLayout | src/task/builder.rs:9-78 | after the header tokens, the text, tags and specials come from the remaining tokens; the original is the join of all tokens |
| TaskBuilder.ParsedAccessors | src/task/mod.rs:42-88 | of a parsed line: `is_done` holds exactly when the first token is `x`; `text`, `contexts`, `projects` and `specials` are read from the tokens after the header; `original` is all tokens joined by single spaces |
| TaskBuilder.HeaderLengthIsBodyStart | src/task/builder.rs:11-52 | the header length recomputed from the parsed fields equals the number of tokens consumed |
| TaskBuilder.OriginalIsNormalised | src/task/builder.rs:9 | `original_text` is single-spaced, and equals the input exactly when the input is |
| TaskBuilder.ReparseIdentity | src/task/builder.rs:8-9 | re-parsing `original_text` gives the same task |
| TaskBuilder.TextIsSuffixOfOriginal | src/task/builder.rs:9-78 | `text` is a suffix of `original_text` |
| TaskBuilder.JoinTailIsSuffix | src/task/builder.rs:9 | joining a tail of the tokens gives a suffix of joining all of them |
| TaskBuilder.DoneIffMarked | src/task/builder.rs:11-14 | a task is done exactly when its original starts with `x ` |
| TaskBuilder.PriorityIffMarker | src/task/builder.rs:16-27 | a priority is set exactly when the token after the optional `x` is `(`, an uppercase letter, `)`; it is that letter |
| TaskBuilder.ParseDates | src/task/builder.rs:29-52 | up to two leading date tokens are taken; two give completion and inception; a lone date becomes the inception date; unset dates are the default |
| TaskBuilder.DoneMarkerFields | src/task/builder.rs:11-14 | prefixing `x` changes only the done flag and the original |
| TaskBuilder.DoneMarkerOnlySetsDone | src/task/builder.rs:11-14 | the same, as one equation on the task record |
| TaskBuilder.TagsConcat | src/task/builder.rs:59-77 | tags of concatenated tokens are the concatenated tags (for specials, later keys win) |
| TaskBuilder.TagsCons | src/task/builder.rs:59-77 | the first token contributes its own tag ahead of the rest |
| TaskBuilder.ContextTagsMembership | src/task/builder.rs:60-63 | `tag` is a context tag exactly when it is non-empty and `@tag` is a token |
| TaskBuilder.ProjectTagsMembership | src/task/builder.rs:64-67 | `tag` is a project tag exactly when it is non-empty and `+tag` is a token |
| TaskBuilder.SpecialTokenShape | src/task/builder.rs:68-72 | a special token is `key:value` with a colon-free key and a non-empty value |
| TaskBuilder.KeyValueIsSpecial | src/task/builder.rs:68-72 | `key:value` with non-empty, colon-free key and value and a key starting with neither `@` nor `+` is a special token |
| TaskBuilder.NoSpecialTokensNoTags | src/task/builder.rs:68-72 | without special tokens there are no special tags |
| TaskBuilder.SpecialTagsKeys | src/task/builder.rs:68-72 | a key is present exactly when some special token has that key |
| TaskBuilder.SpecialTagsLastWins | src/task/builder.rs:72 | the value kept for a key is that of its last special token |
| Tasks.Task.ToString | src/task/mod.rs:94-98 | a task displays as its original text |
| Tasks.Task.Prio | src/task/mod.rs:54-60 | `prio()` is empty exactly when there is no priority, and otherwise the one-letter string |
| Tasks.Task.CompletionDate | src/task/mod.rs:74-76 | the formatted completion date, empty exactly when its year is zero |
| Tasks.Task.InceptionDate | src/task/mod.rs:78-80 | the formatted inception date, empty exactly when its year is zero |
| Tasks.PriorityRank | src/task/test.rs:86-96 | ranks lie in 0..26, with 0 exactly for no priority letter |
| Tasks.EarlierLetterIsGreater | src/task/test.rs:86-96 | a task with an earlier letter is greater and not smaller |
| Tasks.OrderIgnoresText | src/task/test.rs:86-96 | same-priority tasks are `>=` each other in both directions, yet unequal when their texts differ |
| TaskCells.TaskCell.constructor | src/task/mod.rs:25-27 | `Task::new` holds exactly the parsed task |
| TaskCells.TaskCell.Update | src/task/mod.rs:29-40 | after `update` every field is that of the newly parsed task |
| TaskCells.TaskCell.Done | src/task/mod.rs:46-48 | `done` sets the flag and changes nothing else |
| TaskCells.TaskCell.Undone | src/task/mod.rs:50-52 | `undone` clears the flag and changes nothing else |
| TaskCells.DoneFlagDisagreesWithOriginal | src/task/mod.rs:46-48 | after `done` on an open task, the flag is set but the original still lacks `x ` |
| TaskExamples.ContextTokenExamples | src/task/test.rs:129-137 | `@` and `web@email.com` are not context tokens; `@context` is |
| TaskExamples.ProjectTokenExamples | src/task/test.rs:139-147 | `+` and `1+2` are not project tokens; `+project` is |
| TaskExamples.SpecialTokenExamples | src/task/builder.rs:68-72 | `key1:value1` is special; `:abc` is special with an empty key |
| TaskExamples.PlainTokenExamples | src/task/test.rs:149-157 | `test:`, `:2`, `:` and `hello!` are not special |
| TaskExamples.DoubleColonExample | src/task/test.rs:155 | `testing::test` is not special |
| TaskExamples.NoHyphenNoDate | src/util/mod.rs:8-9 | a token without `-` is never a date |
| TaskExamples.BasicTokensHeader | src/task/test.rs:7-20 | `x (A) …` is done with priority A and no dates |
| TaskExamples.BasicTokensTags | src/task/test.rs:13-15 | its tags are `context`, `project` and `key := value` |
| TaskExamples.BasicDeserialisation | src/task/test.rs:7-20 | every field of the basic test line is as asserted |
| TaskExamples.Date20201231 | src/task/test.rs:49-54 | `2020-12-31` is a date token and formats back to itself |
| TaskExamples.Dates2010 | src/task/test.rs:56-59 | `2010-10-20` and `2010-10-01` are date tokens and format back to themselves |
| TaskExamples.PriorityThenLoneDate | src/task/builder.rs:29-52 | after a priority, a single date token followed by a non-date is the inception date, no completion date is set, and the text starts after it |
| TaskExamples.LoneDateIsInception | src/task/test.rs:22-34 | `(Z) 2020-12-31 …` has only an inception date |
| TaskExamples.TwoDates | src/task/test.rs:36-46 | `2010-10-20 2010-10-01 …` has both dates and no priority |
| TaskExamples.MalformedDateToken | src/task/test.rs:66-69 | `2020-IT-CM` is not a date |
| TaskExamples.MalformedDateStaysInText | src/task/test.rs:66-69 | it stays in the text and no date is set |
| TaskExamples.NonDateStaysInText | src/task/builder.rs:29-47 | after a priority, a token that is no date is not consumed, no date is set and the token starts the text |
| TaskExamples.Date20220108 | src/list/test.rs:106 | `2022-01-08` parses |
| TaskExamples.DateBeforePriority | src/task/builder.rs:16-52 | when a date token comes first, the priority check sees the date, so `(A)` after it is no priority and stays in the text; the date is the inception date |
| TaskExamples.PriorityOnlyBeforeDates | src/task/builder.rs:16-52 | so that line has no priority and `(A)` stays in the text |
| TaskExamples.EveryLetterIsAPriority | src/task/test.rs:182-189 | each of the 26 letters is accepted as a priority |
| TaskExamples.LetterTask | src/task/test.rs:182-189 | the parsed priority is that letter |
| TaskExamples.LowercaseIsNoPriority | src/task/builder.rs:19 | `(a)` is no priority and stays in the text |
| TaskExamples.EqualityTest | src/task/test.rs:77-84 | two `(A) test` tasks are equal; `(A) test` and `(B) test` are not |
| TaskExamples.OrderingTest | src/task/test.rs:86-94 | `(B) test` is greater than `(Z) test` |
| TaskExamples.OrderingTieTest | src/task/test.rs:93-95 | two `(A) test` tasks are `>=` |
| TaskExamples.ContextTagsInOrder | src/task/test.rs:131-132 | context tags keep token order |
| TaskExamples.OneContextTag | src/task/test.rs:135-136 | of `web@email.com @ context1 @context2` only `context2` is a tag |
| TaskExamples.OneProjectTag | src/task/test.rs:145-146 | of `+project 1 + 2, 1+2` only `project` is a tag |
| TaskExamples.KeyPairTags | src/task/test.rs:151-152 | `key1:value1 key2:value2` gives both keys |
| TaskExamples.TwoSpecials | src/task/builder.rs:69-73 | two special tokens give the map with both key/value pairs, the second one winning on equal keys |
| TaskExamples.PlainTokensNoTags | src/task/test.rs:155-156 | the near-miss tokens give no special tags |
| TaskLists.FindMatchingTag | src/util/task_list.rs:50-55 | the tag loop returns true exactly when some lowercased tag contains the lowercased query |
| TaskLists.FindMatchingKey | src/util/task_list.rs:84-89 | the same over the special-tag keys |
| TaskLists.TaskList.Eq | src/util/task_list.rs:9-19 | true exactly when the lengths agree and some position holds equal originals |
| TaskLists.TaskList.Ne | src/util/task_list.rs:21-23 | exactly the negation of `eq` |
| TaskLists.TaskList.ByPrio | src/util/task_list.rs:35-43 | a subsequence of the input, holding exactly the tasks whose `prio()` is the query, case-sensitively, with every copy of a passing task kept and none of a failing one |
| TaskLists.TaskList.ByContext | src/util/task_list.rs:45-60 | a subsequence holding exactly the tasks with a context tag matching the query, ignoring case, with every copy of a passing task kept and none of a failing one |
| TaskLists.TaskList.ByProject | src/util/task_list.rs:62-77 | the same over project tags: a subsequence keeping every copy of each task with a matching project tag and no other task |
| TaskLists.TaskList.BySpecial | src/util/task_list.rs:79-94 | the same over special-tag keys, values ignored: a subsequence keeping every copy of each task with a matching key and no other task |
| Seqs.FilterMultiset | src/util/task_list.rs:37-42 | `retain` keeps every copy of an element that passes and none of one that fails |
| TaskLists.FiltersShrink | src/util/task_list.rs:37-42 | no filter returns more tasks than it was given |
| TaskLists.FiltersIdempotent | src/util/task_list.rs:35-94 | applying any filter twice equals applying it once |
| TaskLists.ChainIsConjunction | tests/write_read.rs:48-49 | chained filters equal one filter by the conjunction of their predicates |
| TaskLists.ChainCommutes | tests/write_read.rs:48-49 | chained filters commute |
| TaskLists.LowerUpperLower | src/util/task_list.rs:51 | lowercasing after uppercasing, or twice, is lowercasing once |
| TaskLists.TagFiltersIgnoreCase | src/util/task_list.rs:51-85 | the tag filters give the same result for the query in any case |
| TaskLists.EmptyQueryKeepsTagged | src/util/task_list.rs:45-94 | the empty query keeps exactly the tasks with at least one tag of that kind |
| TaskLists.EmptyListsAreUnequal | src/util/task_list.rs:13-18 | two empty task lists are not equal |
| TaskLists.EqualToItself | src/util/task_list.rs:9-19 | a list equals itself exactly when it is non-empty |
| TaskLists.OneAgreementSuffices | src/util/task_list.rs:13-16 | equal lengths and one agreeing position make two lists equal, both ways |
| TaskLists.EqualityNotTransitive | src/util/task_list.rs:9-19 | `eq` is not transitive |
| Lists.List.constructor | src/list/mod.rs:9-14 | the struct holds the two buckets it is given |
| Lists.List.Add | src/list/mod.rs:53-60 | push onto the bucket the task's flag picks; the other bucket is unchanged; the bucket invariant is kept |
| Lists.List.Remove | src/list/mod.rs:78-84 | that bucket retains the tasks with another original; the other bucket is unchanged; the invariant is kept |
| Lists.List.Done | src/list/mod.rs:97-99 | the done bucket, all done while the invariant holds |
| Lists.List.Open | src/list/mod.rs:112-114 | the open bucket, all open while the invariant holds |
| Lists.List.ByPrio | src/list/mod.rs:154-168 | open matches then done matches of the uppercased query: `TaskList::by_prio` of it over both buckets; membership iff; bounded length |
| Lists.List.ByContext | src/list/mod.rs:195-223 | `TaskList::by_context` over open then done tasks; membership iff; bounded length |
| Lists.List.ByProject | src/list/mod.rs:249-277 | the same for projects |
| Lists.List.BySpecial | src/list/mod.rs:307-335 | the same for special keys |
| Lists.RemoveKeepsOthers | src/list/mod.rs:78-84 | `remove` keeps, in order, exactly the tasks with another original, and shrinks the bucket when one matched |
| Lists.FilterDrops | src/list/mod.rs:80-82 | a filter that rejects some element returns fewer elements |
| Lists.UpperIdempotent | src/list/mod.rs:155 | uppercasing twice is uppercasing once |
| Lists.ByPrioIgnoresCase | src/list/mod.rs:155 | `List::by_prio` gives the same result for a query and its uppercase |
| Lists.ByPrioLowercaseLetter | src/list/mod.rs:146-152 | `by_prio("a")` keeps exactly the tasks with priority A |
| Lists.ByPrioEmptyMatchesUnprioritised | src/list/mod.rs:154-168 | `by_prio("")` keeps exactly the tasks without a priority |
| ListBuilder.BuildDefaultList | src/list/builder.rs:7-13 | a fresh list with both buckets empty |
| ListBuilder.ParseAll | src/list/builder.rs:19-20 | one task per line |
| ListBuilder.ParseAllAt | src/list/builder.rs:19-20 | the i-th task is the parse of the i-th line |
| ListBuilder.DeserialiseList | src/list/builder.rs:15-33 | the buckets are the open and the done tasks of the parsed lines, in line order, and the invariant holds |
| ListBuilder.PushLines | src/list/builder.rs:19-26 | the loop pushes each line's task onto the open or done bucket by its flag: the buckets are the open and the done tasks of the parsed lines, in line order |
| ListBuilder.FilteredBucketsSorted | src/list/builder.rs:21-25 | splitting tasks by their flag gives sorted buckets |
| ListBuilder.BucketsHoldEveryLine | src/list/builder.rs:19-26 | the two buckets together hold one task per line |
| ListBuilder.NewList | src/list/mod.rs:26-51 | a readable file gives the buckets of its trimmed text; otherwise both buckets are empty; the invariant holds |
| ListBuilder.SerialiseList | src/list/builder.rs:35-46 | the output is each open task's original then each done task's, each followed by `\n` |
| ListBuilder.Originals | src/list/builder.rs:38-42 | the i-th entry is the i-th task's original |
| ListBuilder.SerialisedConcat | src/list/builder.rs:37-44 | serialising two sequences is concatenating their serialisations |
| ListBuilder.SerialisedNewlines | src/list/builder.rs:37-44 | the output has exactly one `\n` per task |
| ListBuilder.SerialisedEnding | src/list/builder.rs:37-44 | the output is empty exactly for no tasks, and otherwise ends with `\n` |
| ListBuilder.SerialisedIsTerminated | src/list/builder.rs:35-46 | the output is the originals each followed by `\n` |
| ListBuilder.LinesOfTerminated | src/list/builder.rs:19 | `lines()` of `\n`-terminated single-spaced lines gives them back |
| ListBuilder.LinesOfSerialised | src/list/builder.rs:19-44 | the lines of the output are the originals |
| ListBuilder.TerminatedIsJoin | src/list/builder.rs:37-44 | `\n`-terminated lines are their `\n`-join plus a final `\n` |
| ListBuilder.LinesOfJoin | src/list/builder.rs:19 | `lines()` of a `\n`-join of task lines gives them back |
| ListBuilder.TrimJoined | src/list/mod.rs:46 | `trim` removes only the final `\n` of serialised task lines |
| ListBuilder.LinesOfTrimmedTerminated | src/list/mod.rs:46 | trimming does not change the lines of serialised task lines |
| ListBuilder.LinesOfTrimmedSerialised | src/list/mod.rs:46 | the lines of the trimmed output are still the originals |
| ListBuilder.ParsedTaskIsReloadable | src/list/builder.rs:20 | every parsed task is reloadable |
| ListBuilder.BucketsAgree | src/list/builder.rs:21-25 | tasks agreeing in original and flag fall into buckets with the same originals |
| ListBuilder.SortedBucketsSplit | src/list/builder.rs:21-25 | sorted buckets split back into themselves |
| ListBuilder.ReparsedOriginals | src/list/builder.rs:19-20 | parsing the originals of reloadable tasks gives one task each, with the same original and flag |
| ListBuilder.ReloadedLines | src/list/builder.rs:15-46 | reloading serialised reloadable tasks gives one task per line, with the same originals and flags |
| ListBuilder.RoundTrip | tests/write_read.rs:32-45 | save then load reproduces the originals of each bucket, in order |
| ListBuilder.ParsedTaskIsPristine | src/list/builder.rs:20 | every parsed task re-parses to itself |
| ListBuilder.PristineIsReloadable | src/list/builder.rs:15-46 | a task that re-parses to itself is reloadable |
| ListBuilder.ReloadableIsTaskLine | src/list/builder.rs:19-20 | a reloadable task's original is non-empty and single-spaced, so it is one line |
| ListBuilder.ReloadedPristine | src/list/builder.rs:15-46 | reloading serialised parsed tasks gives the same tasks |
| ListBuilder.PristineTaskLines | src/list/builder.rs:19-20 | the original text of every parsed task is a task line: non-empty, and every whitespace character in it is a single space between two non-space characters |
| ListBuilder.ParseOriginals | src/list/builder.rs:19-20 | parsing the original texts of parsed tasks gives those tasks back |
| ListBuilder.ExactRoundTrip | tests/write_read.rs:32-45 | save then load of parsed tasks gives identical buckets |
| SortBys.SortBy.ToString | src/util/sort_by.rs:10-18 | the name is one of the three that `From<String>` accepts |
| SortBys.SortBy.Display | src/util/sort_by.rs:31-35 | the displayed name reads back as the same key |
| SortBys.FromString | src/util/sort_by.rs:20-29 | the inverse of `ToString` on the three names |
| SortBys.FromToString | src/util/sort_by.rs:10-29 | `from(into(s)) == s` |
| SortBys.ToStringInjective | src/util/sort_by.rs:10-18 | different keys have different names |
| SortOrders.DateKeyOrder | src/list/test.rs:104-227 | date keys compare by year, then month, then day, and are equal exactly for equal dates |
| SortOrders.EarlierLetterSortsFirst | src/list/test.rs:17-101 | by priority, an earlier letter sorts first |
| SortOrders.StableSortUnique | src/list/test.rs:17-227 | at most one output is a stable sort of given input: the relation fixes every position the tests assert |
| SortOrders.SameGroupsSameOrder | src/list/test.rs:41-101 | two key-ascending sequences with the same tasks of each key, in the same order, are equal |
| SortOrders.HeadsAgree | src/list/test.rs:41-101 | two such sequences start with the same task |
| SortOrders.TailsSameGroups | src/list/test.rs:41-101 | dropping that task keeps the groups equal |
| SortOrders.FirstKeyIsLeast | src/list/test.rs:17-227 | a key-ascending sequence starts with the least key of any sequence with the same groups |
| SortOrders.SortedInputIsItsOwnSort | src/list/test.rs:17-227 | keyed tasks already in key order are their own stable sort |
| SortOrders.TiesKeepInsertionOrder | src/list/test.rs:41-101 | tasks that all share one key come back in the order they were added |
| SortOrders.TwoInReverseOrder | src/list/test.rs:17-39 | two keyed tasks added in descending key order come back swapped |
| ListExamples.SimpleUse | tests/integration.rs:4-11 | adding `Task 1`, `x Task 2` and `Task 3` gives two open tasks and one done task |
| ListExamples.OpenDoneOpen | tests/integration.rs:4-11 | adding an open, a done and an open task to an empty list leaves two open tasks and one done task |
| ListExamples.OpenDoneExample | src/list/mod.rs:86-114 | with `x Task 1` and `Task 2`, `done()` and `open()` each hold one task |
| ListExamples.DoneThenOpen | src/list/mod.rs:86-114 | adding a done task and an open task to an empty list puts one task in each bucket |
| ListExamples.RemoveExample | src/list/mod.rs:67-77 | removing the first of two open tasks leaves one |
| ListExamples.RemoveFirstOfTwoOpen | src/list/mod.rs:67-85 | after adding two distinct open tasks there are two open tasks; removing the first leaves one |
| ListExamples.ByPrioExample | src/list/mod.rs:143-153 | `by_prio("a")` finds the two `(A)` tasks of four |
| ListExamples.ByPrioOnFour | src/list/mod.rs:146-152 | the same, for any four open tasks with priorities A, A, B, Z |
| ListExamples.ByContextExample | src/list/mod.rs:181-194 | `by_context("air")` finds three tasks; it compares equal to the expected list though their third tasks differ; `by_context("craft")` finds one |
| ListExamples.ByContextOnFour | src/list/mod.rs:184-193 | the same, for any tasks with those flags, tags and originals |
| ListExamples.ByContextOfFour | src/util/task_list.rs:45-60 | which tasks each of the two queries keeps |
| ListExamples.ByContextAir | src/util/task_list.rs:45-60 | `by_context("air")` keeps the tasks tagged `air`, `AIR` and `AirCraft`, in order |
| ListExamples.ByContextCraft | src/util/task_list.rs:45-60 | `by_context("craft")` keeps only the task tagged `AirCraft` |
| ListExamples.ExampleTagMatches | src/util/task_list.rs:51 | `air`, `AIR` and `AirCraft` contain `air` when lowercased; only `AirCraft` contains `craft` |
| ListExamples.TooLongNotContained | src/util/task_list.rs:51 | a needle longer than the text is not contained in it |

## Left out

- File I/O. `List::new` reads the file; the model takes the text it read as a parameter. `List::save` (src/list/mod.rs:130-133) writes the file; the model stops at `SerialiseList`. The `file_path` field is dropped.
- `List::sort` itself. Its body is not part of this model, so there is no sorting method. The order its tests in src/list/test.rs assert is stated as the relation `SortOrders.StableSortedBy`: keys ascending, ties in the order the tasks were added. `StableSortUnique` shows that this relation fixes the output.
- StableSortedBy: the tests only sort tasks that all carry the key, so the relation says nothing about where tasks without a priority or without a set date go. It also does not say which bucket, open or done, feeds the sort, or in which order. Each test adds only open tasks or only done tasks.
- The concrete sort tests, with 8 to 27 tasks each, are not restated line by line. `TiesKeepInsertionOrder`, `TwoInReverseOrder` and `StableSortUnique` state the general facts those positions rely on.
- The `PartialEq` and `PartialOrd` implementations of `Task` are not part of this model. Equality and order are stated only as far as the tests assert them.
- Unicode: case mapping, whitespace and `is_uppercase`/`is_alphabetic` are modelled on ASCII only.
- The tests in tests/read.rs. They read `test-data` files and measure time.
- The commented-out tests in src/task/test.rs: `update`, `mark_done` and part of `dates`. They exercise behaviour the current code does not have.
- The tests/write_read.rs counts (10 open, 5 done, and the filter counts on fifteen concrete lines) are not restated. `RoundTrip`, `ExactRoundTrip`, `ChainIsConjunction` and `ChainCommutes` state the general properties those counts rely on.
- ParseAll: a list line that would make `deserialize_task` panic is excluded by the precondition `AllParseable`, not modelled as a panic.
- RoundTrip: assumes every task's done flag agrees with its original. A task marked done in place breaks this assumption (see `DoneFlagDisagreesWithOriginal`).
