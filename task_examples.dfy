/**
 * The line grammar on the concrete lines of the crate's task tests: token classification,
 * a full line with every kind of field, the date positions and the priority letters.
 */
module TaskExamples {
  import opened Wrappers
  import opened Text
  import opened Dates
  import opened Tasks
  import opened TaskBuilder

  /** A bare `@` and an e-mail address are not context tags; `@context` is. */
  lemma ContextTokenExamples()
    ensures !IsContextToken("@") && !IsContextToken("web@email.com") && IsContextToken("@context")
  {
  }

  /** A bare `+` and `1+2` are not project tags; `+project` is. */
  lemma ProjectTokenExamples()
    ensures !IsProjectToken("+") && !IsProjectToken("1+2") && IsProjectToken("+project")
  {
  }

  /** `key1:value1` is a special tag split at its colon, and so is `:abc`, with an empty key. */
  lemma SpecialTokenExamples()
    ensures IsSpecialToken("key1:value1") && SpecialKey("key1:value1") == "key1" && SpecialValue("key1:value1") == "value1"
    ensures IsSpecialToken(":abc") && SpecialKey(":abc") == "" && SpecialValue(":abc") == "abc"
  {
    KeyValueIsSpecial("key1", "value1");
    assert "key1" + ":" + "value1" == "key1:value1";
    NoAdjacentPair(":abc", ':');
    SplitOnceAt(":abc", ':', "", "abc");
  }

  /** A trailing colon, fewer than three characters or no colon at all make a plain word. */
  lemma PlainTokenExamples()
    ensures !IsSpecialToken("test:") && !IsSpecialToken(":2") && !IsSpecialToken(":") && !IsSpecialToken("hello!")
  {
  }

  /** A double colon makes a plain word. */
  lemma DoubleColonExample()
    ensures !IsSpecialToken("testing::test")
  {
    var t := "testing::test";
    assert t[7..9] == "::";
    ContainsAt(t, "::", 7);
  }

  /** A token without a hyphen is never read as a date. */
  lemma NoHyphenNoDate(tok: string)
    requires '-' !in tok
    ensures !IsDateToken(tok)
  {
    SplitNoSeparator(tok, '-');
  }

  /**
   * The line `x (A) test +project @context key:value`, written as its words
   * with one space between neighbours.
   */
  function BasicLine(): string
  {
    "x" + " " + "(A)" + " " + "test" + " " + "+project" + " " + "@context" + " " + "key:value"
  }

  /** Its text `test +project @context key:value`, written the same way. */
  function BasicText(): string
  {
    "test" + " " + "+project" + " " + "@context" + " " + "key:value"
  }

  /** The tokens of `x (A) test +project @context key:value`. */
  function BasicTokens(): seq<string>
  {
    ["x", "(A)", "test", "+project", "@context", "key:value"]
  }

  lemma BasicTokensAreWords()
    ensures AllWords(BasicTokens())
  {
  }

  /** One step of `join`: the first token, the separator, the join of the rest. */
  lemma JoinStep(ts: seq<string>)
    requires |ts| >= 2
    ensures Join(ts, " ") == ts[0] + " " + Join(ts[1..], " ")
  {
  }

  /** Joining three tokens puts one space between neighbours. */
  lemma JoinThree(a: string, b: string, c: string)
    ensures Join([a, b, c], " ") == a + " " + b + " " + c
  {
    JoinCons(b, [c], " ");
    JoinCons(a, [b, c], " ");
    assert [a] + [b, c] == [a, b, c];
  }

  /** Joining four tokens puts one space between neighbours. */
  lemma JoinFour(a: string, b: string, c: string, d: string)
    ensures Join([a, b, c, d], " ") == a + " " + b + " " + c + " " + d
  {
    JoinCons(c, [d], " ");
    JoinCons(b, [c, d], " ");
    JoinCons(a, [b, c, d], " ");
    assert [a] + [b, c, d] == [a, b, c, d];
  }

  /** Joining six tokens puts one space between neighbours. */
  lemma JoinSix(a: string, b: string, c: string, d: string, e: string, f: string)
    ensures Join([a, b, c, d, e, f], " ") == a + " " + b + " " + c + " " + d + " " + e + " " + f
  {
    JoinCons(e, [f], " ");
    JoinCons(d, [e, f], " ");
    JoinCons(c, [d, e, f], " ");
    JoinCons(b, [c, d, e, f], " ");
    JoinCons(a, [b, c, d, e, f], " ");
    assert [a] + [b, c, d, e, f] == [a, b, c, d, e, f];
  }

  lemma BasicTokensJoin()
    ensures Join(BasicTokens(), " ") == BasicLine()
  {
    JoinSix("x", "(A)", "test", "+project", "@context", "key:value");
  }

  lemma BasicTextJoin()
    ensures Join(BasicTokens()[2..], " ") == BasicText()
  {
    JoinFour("test", "+project", "@context", "key:value");
    assert BasicTokens()[2..] == ["test", "+project", "@context", "key:value"];
  }

  /** `key:value` is the special tag `key` with value `value`. */
  lemma KeyValueToken()
    ensures IsSpecialToken("key:value") && SpecialKey("key:value") == "key" && SpecialValue("key:value") == "value"
  {
    KeyValueIsSpecial("key", "value");
    assert "key" + ":" + "value" == "key:value";
  }

  lemma BasicTokensHeader()
    ensures TokensParseable(BasicTokens()) && BodyStart(BasicTokens()) == 2
    ensures var t := ParseTokens(BasicTokens());
      t.done && t.priority == Some('A') && !IsSet(t.completionDate) && !IsSet(t.inceptionDate)
  {
    NoHyphenNoDate("test");
  }

  lemma BasicTokensTags()
    ensures var rest := BasicTokens()[2..];
      ContextTags(rest) == ["context"] && ProjectTags(rest) == ["project"] &&
      SpecialTags(rest) == map["key" := "value"]
  {
    assert BasicTokens()[2..] == ["test", "+project", "@context", "key:value"];
    BasicBodyContexts();
    BasicBodyProjects();
    BasicBodySpecials();
  }

  lemma BasicBodyContexts()
    ensures ContextTags(["test", "+project", "@context", "key:value"]) == ["context"]
  {
    TagsOfFour("test", "+project", "@context", "key:value");
  }

  lemma BasicBodyProjects()
    ensures ProjectTags(["test", "+project", "@context", "key:value"]) == ["project"]
  {
    TagsOfFour("test", "+project", "@context", "key:value");
  }

  lemma BasicBodySpecials()
    ensures SpecialTags(["test", "+project", "@context", "key:value"]) == map["key" := "value"]
  {
    BasicBodyNotSpecial();
    KeyValueToken();
    OneSpecialLast("test", "+project", "@context", "key:value");
  }

  lemma BasicBodyNotSpecial()
    ensures !IsSpecialToken("test") && !IsSpecialToken("+project") && !IsSpecialToken("@context")
  {
    assert "test"[2] != ':';
  }

  /** Three tokens that are not special followed by a special one give that one special tag. */
  lemma OneSpecialLast(a: string, b: string, c: string, d: string)
    requires !IsSpecialToken(a) && !IsSpecialToken(b) && !IsSpecialToken(c) && IsSpecialToken(d)
    ensures SpecialTags([a, b, c, d]) == map[SpecialKey(d) := SpecialValue(d)]
  {
    TagsOfFour(a, b, c, d);
  }

  /** The tags of four tokens are those of each token, in order. */
  lemma TagsOfFour(a: string, b: string, c: string, d: string)
    ensures ContextTags([a, b, c, d]) == ContextTags([a]) + ContextTags([b]) + ContextTags([c]) + ContextTags([d])
    ensures ProjectTags([a, b, c, d]) == ProjectTags([a]) + ProjectTags([b]) + ProjectTags([c]) + ProjectTags([d])
    ensures SpecialTags([a, b, c, d]) == SpecialTags([a]) + SpecialTags([b]) + SpecialTags([c]) + SpecialTags([d])
  {
    TagsConcat([a], [b]);
    TagsConcat([a, b], [c]);
    TagsConcat([a, b, c], [d]);
    assert [a] + [b] == [a, b] && [a, b] + [c] == [a, b, c] && [a, b, c] + [d] == [a, b, c, d];
  }

  /** `x (A) test +project @context key:value`: every kind of field at once. */
  lemma BasicDeserialisation()
    ensures Parseable(BasicLine())
    ensures var t := ParseTask(BasicLine());
      t.IsDone() && t.Prio() == "A" &&
      t.Contexts() == ["context"] && t.Projects() == ["project"] &&
      t.Specials() == map["key" := "value"] &&
      t.Text() == BasicText() &&
      t.Original() == BasicLine() &&
      !IsSet(t.completionDate) && !IsSet(t.inceptionDate)
  {
    var ts := BasicTokens();
    BasicTokensAreWords();
    BasicTokensJoin();
    BasicTextJoin();
    BasicTokensHeader();
    BasicTokensTags();
    ParseJoined(ts);
    BodyFields(ts);
  }

  // ---------------------------------------------------------------
  //                     Dates in the header
  // ---------------------------------------------------------------

  /** `2020-12-31` is a set date and formats back to itself. */
  lemma Date20201231()
    ensures IsDateToken("2020-12-31") && FormatDate(DeserializeDate("2020-12-31")) == "2020-12-31"
  {
    DigitTokenDate("2020-12-31", 2020, 12, 31);
    TokenRoundTrip("2020-12-31");
  }

  /** `2010-10-20` and `2010-10-01` are set dates and format back to themselves. */
  lemma Dates2010()
    ensures IsDateToken("2010-10-20") && FormatDate(DeserializeDate("2010-10-20")) == "2010-10-20"
    ensures IsDateToken("2010-10-01") && FormatDate(DeserializeDate("2010-10-01")) == "2010-10-01"
  {
    Date20101020();
    Date20101001();
  }

  lemma Date20101020()
    ensures IsDateToken("2010-10-20") && FormatDate(DeserializeDate("2010-10-20")) == "2010-10-20"
  {
    DigitTokenDate("2010-10-20", 2010, 10, 20);
    TokenRoundTrip("2010-10-20");
  }

  lemma Date20101001()
    ensures IsDateToken("2010-10-01") && FormatDate(DeserializeDate("2010-10-01")) == "2010-10-01"
  {
    DigitTokenDate("2010-10-01", 2010, 10, 1);
    TokenRoundTrip("2010-10-01");
  }

  /** `(Z) date ...`: a lone date after the priority is the inception date. */
  lemma PriorityThenLoneDate(date: string, rest: seq<string>)
    requires IsDateToken(date) && rest != [] && !IsDateToken(rest[0])
    ensures TokensParseable(["(Z)", date] + rest)
    ensures var t := ParseTokens(["(Z)", date] + rest);
      t.Prio() == "Z" && !IsSet(t.completionDate) && t.inceptionDate == DeserializeDate(date) &&
      t.text == Join(rest, " ")
  {
    var ts := ["(Z)", date] + rest;
    assert ts[0] == "(Z)" && ts[1] == date && ts[2] == rest[0];
    assert IsPriorityToken(ts[0]);
    assert PriorityStart(ts) == 0 && DateStart(ts) == 1 && SecondDateStart(ts) == 2;
    assert BodyStart(ts) == 2 && ts[2..] == rest;
    PriorityIffMarker(ts);
    ParseDates(ts);
    BodyFields(ts);
  }

  /** `(Z) 2020-12-31 ...`: a lone date after the priority is the inception date. */
  lemma LoneDateIsInception(rest: seq<string>)
    requires rest != [] && !IsDateToken(rest[0])
    ensures TokensParseable(["(Z)", "2020-12-31"] + rest)
    ensures var t := ParseTokens(["(Z)", "2020-12-31"] + rest);
      t.Prio() == "Z" && t.CompletionDate() == "" && t.InceptionDate() == "2020-12-31" &&
      t.text == Join(rest, " ")
  {
    Date20201231();
    PriorityThenLoneDate("2020-12-31", rest);
  }

  /** `2010-10-20 2010-10-01 ...`: two dates are the completion and the inception date. */
  lemma TwoDates(rest: seq<string>)
    requires rest != []
    ensures TokensParseable(["2010-10-20", "2010-10-01"] + rest)
    ensures var t := ParseTokens(["2010-10-20", "2010-10-01"] + rest);
      !t.done && t.Prio() == "" &&
      t.CompletionDate() == "2010-10-20" && t.InceptionDate() == "2010-10-01" &&
      t.text == Join(rest, " ")
  {
    var ts := ["2010-10-20", "2010-10-01"] + rest;
    Dates2010();
    assert ts[0] == "2010-10-20" && ts[1] == "2010-10-01";
    assert !IsPriorityToken(ts[0]);
    assert PriorityStart(ts) == 0 && DateStart(ts) == 0 && SecondDateStart(ts) == 1;
    assert BodyStart(ts) == 2 && ts[2..] == rest;
    PriorityIffMarker(ts);
    ParseDates(ts);
    BodyFields(ts);
  }

  /** `2020-IT-CM` has the shape of a date, but its month is no number. */
  lemma MalformedDateToken()
    ensures !IsDateToken("2020-IT-CM")
  {
    assert "2020-IT-CM" == "2020" + "-" + "IT" + "-" + "CM";
    assert !IsDigit("IT"[0]);
    MonthNotANumber("2020", "IT", "CM");
  }

  /** `(Z) tok ...` with `tok` no date: the token is not consumed and stays in the text. */
  lemma NonDateStaysInText(tok: string, rest: seq<string>)
    requires !IsDateToken(tok)
    ensures TokensParseable(["(Z)", tok] + rest)
    ensures var t := ParseTokens(["(Z)", tok] + rest);
      t.CompletionDate() == "" && t.InceptionDate() == "" && t.text == Join([tok] + rest, " ")
  {
    var ts := ["(Z)", tok] + rest;
    assert ts[0] == "(Z)" && ts[1] == tok;
    assert PriorityStart(ts) == 0 && DateStart(ts) == 1 && SecondDateStart(ts) == 1;
    assert BodyStart(ts) == 1 && ts[1..] == [tok] + rest;
    ParseDates(ts);
    BodyFields(ts);
  }

  /** `(Z) 2020-IT-CM ...`: a malformed date is not consumed and stays in the text. */
  lemma MalformedDateStaysInText(rest: seq<string>)
    ensures TokensParseable(["(Z)", "2020-IT-CM"] + rest)
    ensures var t := ParseTokens(["(Z)", "2020-IT-CM"] + rest);
      t.CompletionDate() == "" && t.InceptionDate() == "" && t.text == Join(["2020-IT-CM"] + rest, " ")
  {
    MalformedDateToken();
    NonDateStaysInText("2020-IT-CM", rest);
  }

  lemma Date20220108()
    ensures DeserializeDate("2022-01-08") == Date(2022, 1, 8)
  {
    DigitTokenDate("2022-01-08", 2022, 1, 8);
  }

  /**
   * A date token ahead of a priority marker: the priority is looked for only before the
   * dates, so the marker is no priority and stays in the text, and the lone date is the
   * inception date.
   */
  lemma DateBeforePriority(date: string, rest: seq<string>)
    requires IsDateToken(date)
    ensures TokensParseable([date, "(A)"] + rest)
    ensures var t := ParseTokens([date, "(A)"] + rest);
      t.priority == None && t.inceptionDate == DeserializeDate(date) && !IsSet(t.completionDate) &&
      t.text == Join(["(A)"] + rest, " ")
  {
    var ts := [date, "(A)"] + rest;
    NoHyphenNoDate("(A)");
    assert |date| == 10;
    assert ts[0] == date && ts[1] == "(A)" && ts[1..] == ["(A)"] + rest;
    assert PriorityStart(ts) == 0 && DateStart(ts) == 0 && SecondDateStart(ts) == 1 && BodyStart(ts) == 1;
    ParseDates(ts);
    BodyFields(ts);
  }

  /** `2022-01-08 (A) Task ...`: no priority, `(A)` stays in the text, and the date is the inception date. */
  lemma PriorityOnlyBeforeDates(rest: seq<string>)
    ensures TokensParseable(["2022-01-08", "(A)"] + rest)
    ensures var t := ParseTokens(["2022-01-08", "(A)"] + rest);
      t.priority == None && t.inceptionDate == Date(2022, 1, 8) && !IsSet(t.completionDate) &&
      t.text == Join(["(A)"] + rest, " ")
  {
    Date20220108();
    DateBeforePriority("2022-01-08", rest);
  }

  // ---------------------------------------------------------------
  //                     Priorities, equality, order
  // ---------------------------------------------------------------

  /** The line `(c) test`. */
  function LetterLine(c: char): string
  {
    "(" + [c] + ") test"
  }

  /** `(c) test` for every letter `c` from `A` to `Z`: the priority is `c` and the text is `test`. */
  lemma EveryLetterIsAPriority(c: char)
    requires IsUpperAscii(c)
    ensures Parseable(LetterLine(c))
    ensures var t := ParseTask(LetterLine(c));
      t.Prio() == [c] && t.Text() == "test" && t.Original() == LetterLine(c)
  {
    var marker := "(" + [c] + ")";
    var ts := [marker, "test"];
    assert IsWord(marker) by {
      assert forall i :: 0 <= i < 3 ==> marker[i] in {'(', c, ')'};
    }
    assert AllWords(ts);
    JoinStep(ts);
    assert ts[1..] == ["test"];
    assert "(" + [c] + ") test" == marker + " " + "test";
    NoHyphenNoDate("test");
    assert IsPriorityToken(marker);
    assert TokensParseable(ts) && BodyStart(ts) == 1 && ts[1..] == ["test"];
    ParseJoined(ts);
    PriorityIffMarker(ts);
    BodyFields(ts);
  }

  /** `(a) test`: a lowercase letter is no priority and stays in the text. */
  lemma LowercaseIsNoPriority()
    ensures TokensParseable(["(a)", "test"])
    ensures var t := ParseTokens(["(a)", "test"]);
      t.priority == None && t.text == "(a) test"
  {
    var ts := ["(a)", "test"];
    NoHyphenNoDate("(a)");
    assert !IsPriorityToken("(a)");
    assert BodyStart(ts) == 0;
    JoinStep(ts);
    assert ts[1..] == ["test"];
    PriorityIffMarker(ts);
    BodyFields(ts);
  }

  /** Tasks read from the same line are equal; a different priority makes them unequal. */
  lemma EqualityTest()
    ensures Parseable(LetterLine('A')) && Parseable(LetterLine('B'))
    ensures SameTask(ParseTask(LetterLine('A')), ParseTask(LetterLine('A')))
    ensures !SameTask(ParseTask(LetterLine('A')), ParseTask(LetterLine('B')))
  {
    var a := LetterTask('A');
    var b := LetterTask('B');
    assert a.originalText[1] == 'A' && b.originalText[1] == 'B';
  }

  /** The task of `(c) test` has priority `c` and keeps the line as its original text. */
  lemma LetterTask(c: char) returns (t: Task)
    requires IsUpperAscii(c)
    ensures Parseable(LetterLine(c)) && t == ParseTask(LetterLine(c))
    ensures t.priority == Some(c) && t.originalText == LetterLine(c)
  {
    EveryLetterIsAPriority(c);
    t := ParseTask(LetterLine(c));
  }

  /** `(B) > (Z)` and `(Z) < (B)`. */
  lemma OrderingTest()
    ensures Parseable(LetterLine('B')) && Parseable(LetterLine('Z'))
    ensures Greater(ParseTask(LetterLine('B')), ParseTask(LetterLine('Z')))
    ensures !Greater(ParseTask(LetterLine('Z')), ParseTask(LetterLine('B')))
  {
    var b := LetterTask('B');
    var z := LetterTask('Z');
    EarlierLetterIsGreater(b, z);
  }

  /** Two `(A)` tasks are `>=` and `<=` each other. */
  lemma OrderingTieTest()
    ensures Parseable(LetterLine('A'))
    ensures GreaterOrEqual(ParseTask(LetterLine('A')), ParseTask(LetterLine('A')))
  {
    var a := LetterTask('A');
  }

  // ---------------------------------------------------------------
  //                     Tag lists
  // ---------------------------------------------------------------

  /** The context tags of three tokens are those of each token, in order. */
  lemma ContextTagsOfThree(a: string, b: string, c: string)
    ensures ContextTags([a, b, c]) == ContextTags([a]) + ContextTags([b]) + ContextTags([c])
  {
    assert [a, b, c][..2] == [a, b] && [a, b][..1] == [a];
  }

  /** The project tags of five tokens are those of each token, in order. */
  lemma ProjectTagsOfFive(a: string, b: string, c: string, d: string, e: string)
    ensures ProjectTags([a, b, c, d, e]) ==
      ProjectTags([a]) + ProjectTags([b]) + ProjectTags([c]) + ProjectTags([d]) + ProjectTags([e])
  {
    assert [a, b, c, d, e][..4] == [a, b, c, d] && [a, b, c, d][..3] == [a, b, c];
    assert [a, b, c][..2] == [a, b] && [a, b][..1] == [a];
    assert ProjectTags([a, b]) == ProjectTags([a]) + ProjectTags([b]);
    assert ProjectTags([a, b, c]) == ProjectTags([a, b]) + ProjectTags([c]);
    assert ProjectTags([a, b, c, d]) == ProjectTags([a, b, c]) + ProjectTags([d]);
  }

  /** Context tags keep token order: `@context @context2 @test`. */
  lemma ContextTagsInOrder()
    ensures ContextTags(["@context", "@context2", "@test"]) == ["context", "context2", "test"]
  {
    ContextTagsOfThree("@context", "@context2", "@test");
  }

  /** `web@email.com @ context1 @context2`: one context tag. */
  lemma OneContextTag()
    ensures ContextTags(["web@email.com", "@", "context1", "@context2"]) == ["context2"]
  {
    TagsOfFour("web@email.com", "@", "context1", "@context2");
  }

  /** `+project 1 + 2, 1+2`: one project tag. */
  lemma OneProjectTag()
    ensures ProjectTags(["+project", "1", "+", "2,", "1+2"]) == ["project"]
  {
    ProjectTagsOfFive("+project", "1", "+", "2,", "1+2");
  }

  /** `key2:value2` is the special tag `key2` with value `value2`. */
  lemma SecondKeyToken()
    ensures IsSpecialToken("key2:value2") && SpecialKey("key2:value2") == "key2" && SpecialValue("key2:value2") == "value2"
  {
    KeyValueIsSpecial("key2", "value2");
    assert "key2" + ":" + "value2" == "key2:value2";
  }

  /** Two special tokens give their two tags; with equal keys the second wins. */
  lemma TwoSpecials(a: string, b: string)
    requires IsSpecialToken(a) && IsSpecialToken(b)
    ensures SpecialTags([a, b]) == map[SpecialKey(a) := SpecialValue(a)][SpecialKey(b) := SpecialValue(b)]
  {
    assert [a, b][..1] == [a] && [a][..0] == [];
    assert SpecialTags([a]) == map[SpecialKey(a) := SpecialValue(a)];
    assert SpecialTags([a, b]) == SpecialTags([a])[SpecialKey(b) := SpecialValue(b)];
  }

  /** `key1:value1 key2:value2`: two special tags. */
  lemma KeyPairTags()
    ensures SpecialTags(["key1:value1", "key2:value2"]) == map["key1" := "value1", "key2" := "value2"]
  {
    SpecialTokenExamples();
    SecondKeyToken();
    TwoSpecials("key1:value1", "key2:value2");
  }

  /** Five tokens none of which is special give no special tags. */
  lemma NoSpecialAmongFive(a: string, b: string, c: string, d: string, e: string)
    requires !IsSpecialToken(a) && !IsSpecialToken(b) && !IsSpecialToken(c)
    requires !IsSpecialToken(d) && !IsSpecialToken(e)
    ensures SpecialTags([a, b, c, d, e]) == map[]
  {
    var ts := [a, b, c, d, e];
    assert forall i :: 0 <= i < |ts| ==> ts[i] in {a, b, c, d, e};
    NoSpecialTokensNoTags(ts);
  }

  /** `test: hello! :2 : testing::test`: no special tags. */
  lemma PlainTokensNoTags()
    ensures SpecialTags(["test:", "hello!", ":2", ":", "testing::test"]) == map[]
  {
    PlainTokenExamples();
    DoubleColonExample();
    NoSpecialAmongFive("test:", "hello!", ":2", ":", "testing::test");
  }
}
