/**
 * `deserialize_task`: the line grammar. A line is split into whitespace-separated tokens;
 * an optional `x` marks the task done, an optional `(A)`..`(Z)` gives the priority, up to
 * two date tokens give the completion and inception dates, and the remaining tokens form
 * the text, classified into context (`@`), project (`+`) and special (`key:value`) tags.
 */
module TaskBuilder {
  import opened Wrappers
  import opened Text
  import opened Dates
  import opened Tasks

  // ---------------------------------------------------------------
  //                     Token classification
  // ---------------------------------------------------------------

  /** `char::is_uppercase && char::is_alphabetic` on ASCII. */
  predicate IsUpperAscii(c: char)
  {
    'A' <= c <= 'Z'
  }

  /** A priority marker: three characters, `(`, an uppercase letter, `)`. */
  predicate IsPriorityToken(tok: string)
  {
    StartsWithChar(tok, '(') && EndsWithChar(tok, ')') && |tok| == 3 && IsUpperAscii(tok[1])
  }

  /** A token that `deserialize_date` reads as a set date. */
  predicate IsDateToken(tok: string)
  {
    IsSet(DeserializeDate(tok))
  }

  /** A context tag: `@` followed by at least one character. */
  predicate IsContextToken(tok: string)
  {
    StartsWithChar(tok, '@') && |tok| > 1
  }

  /** A project tag: `+` followed by at least one character. */
  predicate IsProjectToken(tok: string)
  {
    StartsWithChar(tok, '+') && |tok| > 1
  }

  /** The shape of a special tag: a `:` that is not last, no `::`, and more than two characters. */
  predicate HasSpecialShape(tok: string)
  {
    !EndsWithChar(tok, ':') && ':' in tok && !Contains(tok, "::") && |tok| > 2
  }

  /** A special tag: a token with the special shape that was not taken as a context or project tag. */
  predicate IsSpecialToken(tok: string)
  {
    !IsContextToken(tok) && !IsProjectToken(tok) && HasSpecialShape(tok)
  }

  /** The key of a special tag: the text before its first `:`. */
  function SpecialKey(tok: string): string
    requires ':' in tok
  {
    SplitOnce(tok, ':').0
  }

  /** The value of a special tag: the text after its first `:`. */
  function SpecialValue(tok: string): string
    requires ':' in tok
  {
    SplitOnce(tok, ':').1
  }

  /** The context tags of a token sequence: the names, without `@`, in token order and with duplicates. */
  function ContextTags(ts: seq<string>): seq<string>
  {
    if ts == [] then []
    else
      var last := ts[|ts| - 1];
      ContextTags(ts[..|ts| - 1]) + (if IsContextToken(last) then [last[1..]] else [])
  }

  /** The project tags of a token sequence: the names, without `+`, in token order and with duplicates. */
  function ProjectTags(ts: seq<string>): seq<string>
  {
    if ts == [] then []
    else
      var last := ts[|ts| - 1];
      ProjectTags(ts[..|ts| - 1]) + (if IsProjectToken(last) then [last[1..]] else [])
  }

  /** The special tags of a token sequence, inserted in token order so that a later key overwrites an earlier one. */
  function SpecialTags(ts: seq<string>): map<string, string>
  {
    if ts == [] then map[]
    else
      var last := ts[|ts| - 1];
      var earlier := SpecialTags(ts[..|ts| - 1]);
      if IsSpecialToken(last) then earlier[SpecialKey(last) := SpecialValue(last)] else earlier
  }

  // ---------------------------------------------------------------
  //                     The grammar of a line
  // ---------------------------------------------------------------

  /** Index of the token after the done marker. */
  function PriorityStart(ts: seq<string>): nat
    requires |ts| > 0
  {
    if ts[0] == "x" then 1 else 0
  }

  /** Index of the first date candidate: after the done marker and the priority. */
  function DateStart(ts: seq<string>): nat
    requires |ts| > 0 && PriorityStart(ts) < |ts|
  {
    var k := PriorityStart(ts);
    if IsPriorityToken(ts[k]) then k + 1 else k
  }

  /** Index of the second date candidate. */
  function SecondDateStart(ts: seq<string>): nat
    requires |ts| > 0 && PriorityStart(ts) < |ts| && DateStart(ts) < |ts|
  {
    var k := DateStart(ts);
    if IsDateToken(ts[k]) then k + 1 else k
  }

  /** Index of the first token after the header. */
  function BodyStart(ts: seq<string>): nat
    requires |ts| > 0 && PriorityStart(ts) < |ts| && DateStart(ts) < |ts| && SecondDateStart(ts) < |ts|
  {
    var k := SecondDateStart(ts);
    if IsDateToken(ts[k]) then k + 1 else k
  }

  /**
   * The tokens `deserialize_task` reads without running out: it reads the first token,
   * the one after the done marker, the one after the priority, and the one after the
   * completion date (when there is one), and panics when any of them is missing.
   */
  predicate TokensParseable(ts: seq<string>)
  {
    |ts| > 0 && PriorityStart(ts) < |ts| && DateStart(ts) < |ts| && SecondDateStart(ts) < |ts|
  }

  /** A line `deserialize_task` parses without panicking. */
  predicate Parseable(input: string)
  {
    TokensParseable(SplitWhitespace(input))
  }

  /** The task a token sequence describes. */
  function ParseTokens(ts: seq<string>): Task
    requires TokensParseable(ts)
  {
    Assemble(ts[0] == "x", ts[PriorityStart(ts)], ts[DateStart(ts)], ts[SecondDateStart(ts)],
             ts[BodyStart(ts)..], Join(ts, " "))
  }

  /**
   * The task read from its header tokens: the done flag, the priority candidate, the two
   * date candidates (the same token when the first is no date), the body tokens and the
   * original text. Unset dates are the default; a lone date is the inception date.
   */
  function Assemble(done: bool, prioToken: string, firstDate: string, secondDate: string,
                    rest: seq<string>, original: string): Task
  {
    var priority := if IsPriorityToken(prioToken) then Some(prioToken[1]) else None;
    var first := DeserializeDate(firstDate);
    var second := DeserializeDate(secondDate);
    var completion := if IsSet(first) then first else Default();
    var inception := if IsSet(second) then second else Default();
    var demote := IsSet(completion) && !IsSet(inception);
    Task(done, priority,
         if demote then Default() else completion,
         if demote then completion else inception,
         Join(rest, " "), ContextTags(rest), ProjectTags(rest), SpecialTags(rest), original)
  }

  /** The task `deserialize_task` builds from a line. */
  function ParseTask(input: string): Task
    requires Parseable(input)
  {
    ParseTokens(SplitWhitespace(input))
  }

  // ---------------------------------------------------------------
  //                     deserialize_task
  // ---------------------------------------------------------------

  /** The text accumulated by the classification loop: every token followed by one space. */
  ghost function Terminated(ts: seq<string>): string
  {
    if ts == [] then "" else Terminated(ts[..|ts| - 1]) + ts[|ts| - 1] + " "
  }

  lemma {:induction false} TerminatedIsJoinAndSpace(ts: seq<string>)
    requires ts != []
    ensures Terminated(ts) == Join(ts, " ") + " "
    decreases |ts|
  {
    if |ts| > 1 {
      var init := ts[..|ts| - 1];
      TerminatedIsJoinAndSpace(init);
      JoinSnoc(init, ts[|ts| - 1], " ");
      assert init + [ts[|ts| - 1]] == ts;
    }
  }

  /** Trimming the accumulated text drops exactly the final space. */
  lemma TrimTerminated(ts: seq<string>)
    requires AllWords(ts)
    ensures TrimEnd(Terminated(ts)) == Join(ts, " ")
  {
    if ts != [] {
      TerminatedIsJoinAndSpace(ts);
      JoinShape(ts);
      var j := Join(ts, " ");
      assert (j + " ")[..|j + " "| - 1] == j;
    }
  }

  /** The classification loop of `deserialize_task` over the tokens after the header. */
  method ClassifyTokens(tokens: seq<string>) returns (text: string, contextTags: seq<string>,
                                                     projectTags: seq<string>, specialTags: map<string, string>)
    ensures text == Terminated(tokens)
    ensures contextTags == ContextTags(tokens)
    ensures projectTags == ProjectTags(tokens)
    ensures specialTags == SpecialTags(tokens)
  {
    text := "";
    contextTags := [];
    projectTags := [];
    specialTags := map[];
    for i := 0 to |tokens|
      invariant text == Terminated(tokens[..i])
      invariant contextTags == ContextTags(tokens[..i])
      invariant projectTags == ProjectTags(tokens[..i])
      invariant specialTags == SpecialTags(tokens[..i])
    {
      var token := tokens[i];
      assert tokens[..i + 1][..i] == tokens[..i] && tokens[..i + 1][i] == token;
      if StartsWithChar(token, '@') && |token| > 1 {
        text := text + token + " ";
        contextTags := contextTags + [token[1..]];
      } else if StartsWithChar(token, '+') && |token| > 1 {
        text := text + token + " ";
        projectTags := projectTags + [token[1..]];
      } else if !EndsWithChar(token, ':') && ':' in token && !Contains(token, "::") && |token| > 2 {
        text := text + token + " ";
        var (key, value) := SplitOnce(token, ':');
        specialTags := specialTags[key := value];
      } else {
        text := text + token + " ";
      }
    }
    assert tokens[..|tokens|] == tokens;
  }

  /** Popping the front of a suffix of `all` gives the next suffix. */
  lemma PopFront(all: seq<string>, k: nat)
    requires k < |all|
    ensures all[k..][1..] == all[k + 1..] && all[k..][0] == all[k]
  {
  }

  lemma WordsSuffix(all: seq<string>, k: nat)
    requires AllWords(all) && k <= |all|
    ensures AllWords(all[k..])
  {
    forall j | 0 <= j < |all| - k ensures IsWord(all[k..][j]) {
      assert all[k..][j] == all[k + j];
    }
  }

  /**
   * The priority block of `deserialize_task`: when the front token `all[k]` is a priority
   * marker it is popped and its letter returned; otherwise nothing is popped.
   */
  method TakePriority(tokens: seq<string>, ghost all: seq<string>, ghost k: nat)
    returns (priority: Option<char>, rest: seq<string>, ghost k': nat)
    requires k < |all| && tokens == all[k..]
    ensures priority.Some? == IsPriorityToken(all[k])
    ensures priority.Some? ==> priority.value == all[k][1] && IsUpperAscii(priority.value)
    ensures k' == (if IsPriorityToken(all[k]) then k + 1 else k) && rest == all[k'..]
  {
    priority := None;
    rest := tokens;
    k' := k;
    if StartsWithChar(tokens[0], '(') && EndsWithChar(tokens[0], ')') && |tokens[0]| == 3 {
      var potentialPrio := tokens[0][1];
      if IsUpperAscii(potentialPrio) {
        priority := Some(potentialPrio);
        PopFront(all, k);
        rest := tokens[1..];
        k' := k + 1;
      }
    }
  }

  /**
   * One date block of `deserialize_task`: when the front token `all[k]` is a set date it is
   * popped and returned; otherwise nothing is popped and the date is the default.
   */
  method TakeDate(tokens: seq<string>, ghost all: seq<string>, ghost k: nat)
    returns (date: Date, rest: seq<string>, ghost k': nat)
    requires k < |all| && tokens == all[k..]
    ensures IsSet(date) == IsDateToken(all[k])
    ensures date == if IsDateToken(all[k]) then DeserializeDate(all[k]) else Default()
    ensures k' == (if IsDateToken(all[k]) then k + 1 else k) && rest == all[k'..]
  {
    date := Default();
    rest := tokens;
    k' := k;
    var potentialDate := DeserializeDate(tokens[0]);
    if IsSet(potentialDate) {
      PopFront(all, k);
      rest := tokens[1..];
      k' := k + 1;
      date := potentialDate;
    }
  }

  /** `deserialize_task`: consume the header tokens one by one, then classify the rest. */
  method DeserializeTask(input: string) returns (task: Task)
    requires Parseable(input)
    ensures task == ParseTask(input)
  {
    var tokens := SplitWhitespace(input);
    ghost var all := tokens;
    ghost var k: nat := 0;  // the number of tokens popped so far
    var originalText := Join(tokens, " ");

    var done := tokens[0] == "x";
    if done {
      PopFront(all, k);
      tokens := tokens[1..];
      k := k + 1;
    }
    assert k == PriorityStart(all) && tokens == all[k..];

    var priority;
    priority, tokens, k := TakePriority(tokens, all, k);
    assert k == DateStart(all) && tokens == all[k..];

    var completionDate, inceptionDate;
    completionDate, tokens, k := TakeDate(tokens, all, k);
    assert k == SecondDateStart(all) && tokens == all[k..];
    inceptionDate, tokens, k := TakeDate(tokens, all, k);
    assert k == BodyStart(all) && tokens == all[k..];

    if IsSet(completionDate) && !IsSet(inceptionDate) {
      inceptionDate := completionDate;
      completionDate := Default();
    }

    var text, contextTags, projectTags, specialTags := ClassifyTokens(tokens);
    WordsSuffix(all, k);
    TrimTerminated(tokens);
    text := TrimEnd(text);

    task := Task(done, priority, completionDate, inceptionDate, text,
                 contextTags, projectTags, specialTags, originalText);
  }

  // ---------------------------------------------------------------
  //                     Properties of the grammar
  // ---------------------------------------------------------------

  /** The number of header tokens a task consumed: the done marker, the priority and each set date. */
  function HeaderLength(t: Task): nat
  {
    (if t.done then 1 else 0) + (if t.priority.Some? then 1 else 0) +
    (if IsSet(t.completionDate) then 1 else 0) + (if IsSet(t.inceptionDate) then 1 else 0)
  }

  /** Joining tokens and parsing the result is parsing the tokens. */
  lemma ParseJoined(ts: seq<string>)
    requires AllWords(ts) && TokensParseable(ts)
    ensures Parseable(Join(ts, " ")) && ParseTask(Join(ts, " ")) == ParseTokens(ts)
  {
    SplitJoin(ts);
  }

  /**
   * The header is the first `HeaderLength` tokens; the text and all three kinds of tag
   * are taken from the tokens after it, and the original text from all tokens.
   */
  lemma ParseLayout(ts: seq<string>)
    requires TokensParseable(ts)
    ensures var t := ParseTokens(ts); var n := HeaderLength(t);
      n <= |ts| &&
      t.text == Join(ts[n..], " ") &&
      t.contextTags == ContextTags(ts[n..]) &&
      t.projectTags == ProjectTags(ts[n..]) &&
      t.specialTags == SpecialTags(ts[n..]) &&
      t.originalText == Join(ts, " ")
  {
    HeaderLengthIsBodyStart(ts);
    BodyFields(ts);
  }

  /** The text and the tags are read from the tokens from `BodyStart` on. */
  lemma BodyFields(ts: seq<string>)
    requires TokensParseable(ts)
    ensures var t := ParseTokens(ts); var rest := ts[BodyStart(ts)..];
      t.text == Join(rest, " ") && t.contextTags == ContextTags(rest) &&
      t.projectTags == ProjectTags(rest) && t.specialTags == SpecialTags(rest)
  {
  }

  lemma HeaderLengthIsBodyStart(ts: seq<string>)
    requires TokensParseable(ts)
    ensures HeaderLength(ParseTokens(ts)) == BodyStart(ts)
  {
    var t := ParseTokens(ts);
    var k1, k2, k3 := PriorityStart(ts), DateStart(ts), SecondDateStart(ts);
    assert (if t.done then 1 else 0) == k1;
    assert (if t.priority.Some? then 1 else 0) == k2 - k1;
    var dates := (if IsSet(t.completionDate) then 1 else 0) + (if IsSet(t.inceptionDate) then 1 else 0);
    if IsDateToken(ts[k2]) {
      if IsDateToken(ts[k3]) {
        assert dates == 2 && k3 == k2 + 1;
      } else {
        assert dates == 1 && k3 == k2 + 1;
      }
    } else {
      assert dates == 0 && k3 == k2;
    }
  }

  /** The original text is single-spaced, and equals the input exactly when the input is single-spaced. */
  lemma OriginalIsNormalised(input: string)
    requires Parseable(input)
    ensures var o := ParseTask(input).originalText;
      SingleSpaced(o) && (o == input <==> SingleSpaced(input))
  {
    JoinShape(SplitWhitespace(input));
    JoinSplitIdentity(input);
  }

  /** Parsing the original text again gives the same task. */
  lemma ReparseIdentity(input: string)
    requires Parseable(input)
    ensures var t := ParseTask(input);
      Parseable(t.originalText) && ParseTask(t.originalText) == t
  {
    ParseJoined(SplitWhitespace(input));
  }

  /**
   * What the accessors of a parsed task return: `is_done` tells whether the first token is
   * `x`; `text`, `contexts`, `projects` and `specials` are read from the tokens after the
   * header; `original` and `Display` give all tokens joined by single spaces.
   */
  lemma ParsedAccessors(input: string)
    requires Parseable(input)
    ensures var t, ts := ParseTask(input), SplitWhitespace(input); var rest := ts[BodyStart(ts)..];
      (t.IsDone() <==> ts[0] == "x") &&
      t.Text() == Join(rest, " ") && t.Contexts() == ContextTags(rest) &&
      t.Projects() == ProjectTags(rest) && t.Specials() == SpecialTags(rest) &&
      t.Original() == Join(ts, " ") && t.ToString() == t.Original()
  {
    BodyFields(SplitWhitespace(input));
  }

  /** The text is the tail of the original text: the header tokens are dropped, the rest kept verbatim. */
  lemma TextIsSuffixOfOriginal(input: string)
    requires Parseable(input)
    ensures var t := ParseTask(input); var o := t.originalText;
      |t.text| <= |o| && o[|o| - |t.text|..] == t.text
  {
    var ts := SplitWhitespace(input);
    var t := ParseTokens(ts);
    assert ParseTask(input) == t;
    BodyFields(ts);
    assert t.originalText == Join(ts, " ");
    JoinTailIsSuffix(ts, BodyStart(ts));
  }

  /** Joining a tail of the tokens gives a suffix of joining them all. */
  lemma JoinTailIsSuffix(ts: seq<string>, n: nat)
    requires n <= |ts|
    ensures var o, s := Join(ts, " "), Join(ts[n..], " ");
      |s| <= |o| && o[|o| - |s|..] == s
  {
    if 0 < n < |ts| {
      assert ts == ts[..n] + ts[n..];
      JoinAppend(ts[..n], ts[n..], " ");
    } else if n == 0 {
      assert ts[n..] == ts;
    }
  }

  /** A task is done exactly when its original text starts with the word `x`. */
  lemma DoneIffMarked(input: string)
    requires Parseable(input)
    ensures var t := ParseTask(input);
      t.done <==> StartsWith(t.originalText, "x ")
  {
    var ts := SplitWhitespace(input);
    JoinStartsWithWord(ts, "x");
  }

  /**
   * The priority is set exactly when the token after the done marker is a priority marker,
   * and it is then the letter of that marker.
   */
  lemma PriorityIffMarker(ts: seq<string>)
    requires TokensParseable(ts)
    ensures var t := ParseTokens(ts); var tok := ts[PriorityStart(ts)];
      (t.priority.Some? <==> IsPriorityToken(tok)) &&
      (t.priority.Some? ==> tok == "(" + [t.priority.value] + ")" && IsUpperAscii(t.priority.value))
  {
    var tok := ts[PriorityStart(ts)];
    if IsPriorityToken(tok) {
      assert tok == [tok[0]] + [tok[1]] + [tok[2]];
    }
  }

  /**
   * The dates: the first date candidate, when set, is followed by another token; two set
   * dates are the completion and inception dates; a lone date is the inception date; and a
   * date field that is not set holds the default.
   */
  lemma ParseDates(ts: seq<string>)
    requires TokensParseable(ts)
    ensures var t := ParseTokens(ts); var k := DateStart(ts);
      (IsSet(t.completionDate) ==> IsSet(t.inceptionDate)) &&
      (!IsSet(t.completionDate) ==> t.completionDate == Default()) &&
      (!IsSet(t.inceptionDate) ==> t.inceptionDate == Default()) &&
      (!IsDateToken(ts[k]) ==> t.inceptionDate == Default() && t.completionDate == Default()) &&
      (IsDateToken(ts[k]) ==>
        (k + 1 < |ts| &&
         if IsDateToken(ts[k + 1]) then
           t.completionDate == DeserializeDate(ts[k]) && t.inceptionDate == DeserializeDate(ts[k + 1])
         else
           t.completionDate == Default() && t.inceptionDate == DeserializeDate(ts[k])))
  {
  }

  /** With a done marker in front, every header position moves one token to the right. */
  lemma DoneMarkerShifts(ts: seq<string>)
    requires TokensParseable(ts) && ts[0] != "x"
    ensures var xs := ["x"] + ts;
      TokensParseable(xs) && PriorityStart(xs) == 1 && xs[1] == ts[PriorityStart(ts)] &&
      DateStart(xs) == DateStart(ts) + 1 && xs[DateStart(xs)] == ts[DateStart(ts)] &&
      SecondDateStart(xs) == SecondDateStart(ts) + 1 && xs[SecondDateStart(xs)] == ts[SecondDateStart(ts)] &&
      BodyStart(xs) == BodyStart(ts) + 1 && xs[BodyStart(xs)..] == ts[BodyStart(ts)..]
  {
    var xs := ["x"] + ts;
    ShiftDateStart(ts, xs);
    ShiftSecondDateStart(ts, xs);
    ShiftBodyStart(ts, xs);
    DropCons("x", ts, BodyStart(ts));
  }

  lemma DropCons(x: string, ts: seq<string>, k: nat)
    requires k <= |ts|
    ensures ([x] + ts)[k + 1..] == ts[k..]
  {
  }

  lemma ShiftDateStart(ts: seq<string>, xs: seq<string>)
    requires |ts| > 0 && ts[0] != "x" && xs == ["x"] + ts
    ensures PriorityStart(ts) == 0 && PriorityStart(xs) == 1 && xs[1] == ts[0]
    ensures DateStart(ts) < |ts| ==> DateStart(xs) == DateStart(ts) + 1 && xs[DateStart(xs)] == ts[DateStart(ts)]
  {
  }

  lemma ShiftSecondDateStart(ts: seq<string>, xs: seq<string>)
    requires |ts| > 0 && ts[0] != "x" && xs == ["x"] + ts && DateStart(ts) < |ts|
    ensures PriorityStart(xs) < |xs| && DateStart(xs) < |xs|
    ensures SecondDateStart(xs) == SecondDateStart(ts) + 1
    ensures SecondDateStart(ts) < |ts| ==> xs[SecondDateStart(xs)] == ts[SecondDateStart(ts)]
  {
    ShiftDateStart(ts, xs);
  }

  lemma ShiftBodyStart(ts: seq<string>, xs: seq<string>)
    requires TokensParseable(ts) && ts[0] != "x" && xs == ["x"] + ts
    ensures TokensParseable(xs) && BodyStart(xs) == BodyStart(ts) + 1
  {
    ShiftSecondDateStart(ts, xs);
  }

  /** Field by field: the done marker adds `done` and the leading `x ` of the original text. */
  lemma DoneMarkerFields(ts: seq<string>)
    requires TokensParseable(ts) && ts[0] != "x"
    ensures TokensParseable(["x"] + ts)
    ensures var t, u := ParseTokens(ts), ParseTokens(["x"] + ts);
      u.done && u.priority == t.priority && u.completionDate == t.completionDate &&
      u.inceptionDate == t.inceptionDate && u.text == t.text && u.contextTags == t.contextTags &&
      u.projectTags == t.projectTags && u.specialTags == t.specialTags &&
      u.originalText == "x " + t.originalText
  {
    var xs := ["x"] + ts;
    var o := Join(ts, " ");
    DoneMarkerShifts(ts);
    JoinCons("x", ts, " ");
    assert "x" + " " == "x ";
    assert xs[0] == "x" && Join(xs, " ") == "x " + o;
    var p, f, g, rest := ts[PriorityStart(ts)], ts[DateStart(ts)], ts[SecondDateStart(ts)], ts[BodyStart(ts)..];
    assert ParseTokens(ts) == Assemble(false, p, f, g, rest, o);
    assert ParseTokens(xs) == Assemble(true, p, f, g, rest, "x " + o);
    AssembleFlags(false, p, f, g, rest, o, true, "x " + o);
  }

  /** The done flag and the original text pass through `Assemble` untouched. */
  lemma AssembleFlags(done: bool, p: string, f: string, g: string, rest: seq<string>, original: string,
                      done': bool, original': string)
    ensures Assemble(done', p, f, g, rest, original') ==
      Assemble(done, p, f, g, rest, original).(done := done', originalText := original')
  {
  }

  /** Prefixing the done marker sets `done` and changes nothing else but the original text: the dates are read the same way. */
  lemma DoneMarkerOnlySetsDone(ts: seq<string>)
    requires TokensParseable(ts) && ts[0] != "x"
    ensures TokensParseable(["x"] + ts)
    ensures var t := ParseTokens(ts);
      ParseTokens(["x"] + ts) == t.(done := true, originalText := "x " + t.originalText)
  {
    DoneMarkerFields(ts);
  }

  // ---------------------------------------------------------------
  //                     Properties of the tags
  // ---------------------------------------------------------------

  /** Tags of a concatenation: the tags of each part, in order; for special tags the later part wins. */
  lemma TagsConcat(a: seq<string>, b: seq<string>)
    ensures ContextTags(a + b) == ContextTags(a) + ContextTags(b)
    ensures ProjectTags(a + b) == ProjectTags(a) + ProjectTags(b)
    ensures SpecialTags(a + b) == SpecialTags(a) + SpecialTags(b)
  {
    ContextTagsConcat(a, b);
    ProjectTagsConcat(a, b);
    SpecialTagsConcat(a, b);
  }

  /** The last token of a non-empty concatenation with a non-empty right part, and what precedes it. */
  lemma ConcatInit(a: seq<string>, b: seq<string>)
    requires b != []
    ensures (a + b)[..|a + b| - 1] == a + b[..|b| - 1] && (a + b)[|a + b| - 1] == b[|b| - 1]
  {
  }

  lemma {:induction false} ContextTagsConcat(a: seq<string>, b: seq<string>)
    ensures ContextTags(a + b) == ContextTags(a) + ContextTags(b)
    decreases |b|
  {
    if b == [] {
      assert a + b == a;
    } else {
      ContextTagsConcat(a, b[..|b| - 1]);
      ConcatInit(a, b);
    }
  }

  lemma {:induction false} ProjectTagsConcat(a: seq<string>, b: seq<string>)
    ensures ProjectTags(a + b) == ProjectTags(a) + ProjectTags(b)
    decreases |b|
  {
    if b == [] {
      assert a + b == a;
    } else {
      ProjectTagsConcat(a, b[..|b| - 1]);
      ConcatInit(a, b);
    }
  }

  lemma {:induction false} SpecialTagsConcat(a: seq<string>, b: seq<string>)
    ensures SpecialTags(a + b) == SpecialTags(a) + SpecialTags(b)
    decreases |b|
  {
    if b == [] {
      assert a + b == a;
      assert SpecialTags(a) + map[] == SpecialTags(a);
    } else {
      var init, last := b[..|b| - 1], b[|b| - 1];
      SpecialTagsConcat(a, init);
      ConcatInit(a, b);
      if IsSpecialToken(last) {
        var k, v := SpecialKey(last), SpecialValue(last);
        assert (SpecialTags(a) + SpecialTags(init))[k := v] == SpecialTags(a) + SpecialTags(init)[k := v];
      }
    }
  }

  /** Tags of a token followed by more tokens. */
  lemma TagsCons(tok: string, ts: seq<string>)
    ensures ContextTags([tok] + ts) == (if IsContextToken(tok) then [tok[1..]] else []) + ContextTags(ts)
    ensures ProjectTags([tok] + ts) == (if IsProjectToken(tok) then [tok[1..]] else []) + ProjectTags(ts)
    ensures SpecialTags([tok] + ts) ==
      (if IsSpecialToken(tok) then map[SpecialKey(tok) := SpecialValue(tok)] else map[]) + SpecialTags(ts)
  {
    TagsConcat([tok], ts);
    assert [tok][..0] == [];
  }

  /** A name is a context tag exactly when it is non-empty and `@` followed by it is a token. */
  lemma {:induction false} ContextTagsMembership(ts: seq<string>, tag: string)
    ensures tag in ContextTags(ts) <==> tag != "" && "@" + tag in ts
    decreases |ts|
  {
    if ts != [] {
      var init, last := ts[..|ts| - 1], ts[|ts| - 1];
      ContextTagsMembership(init, tag);
      assert ts == init + [last];
      if IsContextToken(last) {
        assert last == "@" + last[1..];
      }
      assert ("@" + tag)[1..] == tag;
    }
  }

  /** A name is a project tag exactly when it is non-empty and `+` followed by it is a token. */
  lemma {:induction false} ProjectTagsMembership(ts: seq<string>, tag: string)
    ensures tag in ProjectTags(ts) <==> tag != "" && "+" + tag in ts
    decreases |ts|
  {
    if ts != [] {
      var init, last := ts[..|ts| - 1], ts[|ts| - 1];
      ProjectTagsMembership(init, tag);
      assert ts == init + [last];
      if IsProjectToken(last) {
        assert last == "+" + last[1..];
      }
      assert ("+" + tag)[1..] == tag;
    }
  }

  /** A special tag splits at its first `:` into a key free of `:` and a non-empty value. */
  lemma SpecialTokenShape(tok: string)
    requires IsSpecialToken(tok)
    ensures tok == SpecialKey(tok) + ":" + SpecialValue(tok)
    ensures ':' !in SpecialKey(tok) && SpecialValue(tok) != ""
  {
    var (k, v) := SplitOnce(tok, ':');
    assert v == "" ==> tok == k + ":";
  }

  /** `key:value` with a non-empty key that starts no other tag and a non-empty value, both free of `:`, is a special tag. */
  lemma KeyValueIsSpecial(key: string, value: string)
    requires |key| > 0 && key[0] != '@' && key[0] != '+' && ':' !in key
    requires |value| > 0 && ':' !in value
    ensures var tok := key + ":" + value;
      IsSpecialToken(tok) && SpecialKey(tok) == key && SpecialValue(tok) == value
  {
    var tok := key + ":" + value;
    assert tok == key + [':'] + value;
    SplitOnceAt(tok, ':', key, value);
    assert forall i :: 0 <= i < |tok| && tok[i] == ':' ==> i == |key| by {
      assert forall i :: 0 <= i < |key| ==> tok[i] == key[i];
      assert forall i :: |key| < i < |tok| ==> tok[i] == value[i - |key| - 1];
    }
    NoAdjacentPair(tok, ':');
    assert tok[0] == key[0] && tok[|tok| - 1] == value[|value| - 1];
  }

  /** Tokens none of which is a special tag give no special tags. */
  lemma {:induction false} NoSpecialTokensNoTags(ts: seq<string>)
    requires forall i :: 0 <= i < |ts| ==> !IsSpecialToken(ts[i])
    ensures SpecialTags(ts) == map[]
    decreases |ts|
  {
    if ts != [] {
      var init := ts[..|ts| - 1];
      assert forall i :: 0 <= i < |init| ==> init[i] == ts[i];
      NoSpecialTokensNoTags(init);
    }
  }

  /** `tok` is a special tag with key `key`. */
  predicate IsKeyToken(tok: string, key: string)
  {
    IsSpecialToken(tok) && SpecialKey(tok) == key
  }

  /** Some token of `ts` is a special tag with key `key`. */
  predicate HasKeyToken(ts: seq<string>, key: string)
  {
    exists j :: 0 <= j < |ts| && IsKeyToken(ts[j], key)
  }

  /** The keys of the special tags are exactly the keys of the special tokens. */
  lemma {:induction false} SpecialTagsKeys(ts: seq<string>, key: string)
    ensures key in SpecialTags(ts) <==> HasKeyToken(ts, key)
    decreases |ts|
  {
    if ts != [] {
      SpecialTagsKeys(ts[..|ts| - 1], key);
      KeyTokenSnoc(ts, key);
    }
  }

  /** A token with key `key` is in `ts` exactly when it is in all but the last token, or is the last. */
  lemma KeyTokenSnoc(ts: seq<string>, key: string)
    requires ts != []
    ensures HasKeyToken(ts, key) <==> HasKeyToken(ts[..|ts| - 1], key) || IsKeyToken(ts[|ts| - 1], key)
  {
    var n := |ts| - 1;
    if HasKeyToken(ts, key) && !IsKeyToken(ts[n], key) {
      KeyTokenInInit(ts, key);
    }
    if HasKeyToken(ts[..n], key) {
      KeyTokenFromInit(ts, key);
    }
    if IsKeyToken(ts[n], key) {
      assert HasKeyToken(ts, key);
    }
  }

  lemma KeyTokenFromInit(ts: seq<string>, key: string)
    requires ts != [] && HasKeyToken(ts[..|ts| - 1], key)
    ensures HasKeyToken(ts, key)
  {
    var init := ts[..|ts| - 1];
    var j :| 0 <= j < |init| && IsKeyToken(init[j], key);
    assert ts[j] == init[j];
  }

  lemma KeyTokenInInit(ts: seq<string>, key: string)
    requires ts != [] && HasKeyToken(ts, key) && !IsKeyToken(ts[|ts| - 1], key)
    ensures HasKeyToken(ts[..|ts| - 1], key)
  {
    var init := ts[..|ts| - 1];
    var j :| 0 <= j < |ts| && IsKeyToken(ts[j], key);
    assert init[j] == ts[j];
  }

  /** The last special token with a given key supplies its value: a later duplicate overwrites an earlier one. */
  lemma {:induction false} SpecialTagsLastWins(ts: seq<string>, j: nat)
    requires j < |ts| && IsSpecialToken(ts[j])
    requires forall i :: j < i < |ts| && IsSpecialToken(ts[i]) ==> SpecialKey(ts[i]) != SpecialKey(ts[j])
    ensures SpecialKey(ts[j]) in SpecialTags(ts) && SpecialTags(ts)[SpecialKey(ts[j])] == SpecialValue(ts[j])
    decreases |ts|
  {
    if j < |ts| - 1 {
      var init := ts[..|ts| - 1];
      assert init[j] == ts[j];
      forall i | j < i < |init| && IsSpecialToken(init[i])
        ensures SpecialKey(init[i]) != SpecialKey(init[j])
      {
        assert init[i] == ts[i];
      }
      SpecialTagsLastWins(init, j);
    }
  }
}
