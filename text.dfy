/**
 * The parts of Rust's `str` API that the crate uses, restricted to ASCII text:
 * `split_whitespace`, `join`, `trim_end`, `split`, `split_once`, `lines`,
 * `starts_with`/`ends_with`/`contains`, `to_lowercase` and `to_uppercase`.
 */
module Text {

  /** `char::is_whitespace` on ASCII: tab, line feed, vertical tab, form feed, carriage return, space. */
  predicate IsSpace(c: char)
  {
    c == ' ' || ('\t' <= c <= '\r')
  }

  /** A token produced by `split_whitespace`: non-empty and free of whitespace. */
  predicate IsWord(w: string)
  {
    |w| > 0 && forall i :: 0 <= i < |w| ==> !IsSpace(w[i])
  }

  predicate AllWords(ws: seq<string>)
  {
    forall i :: 0 <= i < |ws| ==> IsWord(ws[i])
  }

  /** Length of the leading run of non-whitespace characters. */
  function WordLength(s: string): (n: nat)
    ensures n <= |s|
    ensures forall i :: 0 <= i < n ==> !IsSpace(s[i])
    ensures n < |s| ==> IsSpace(s[n])
    ensures s != [] && !IsSpace(s[0]) ==> n > 0
  {
    if s == [] || IsSpace(s[0]) then 0 else 1 + WordLength(s[1..])
  }

  /** `str::split_whitespace`: the maximal runs of non-whitespace characters, in order. */
  function SplitWhitespace(s: string): (ws: seq<string>)
    ensures AllWords(ws)
    decreases |s|
  {
    if s == [] then []
    else if IsSpace(s[0]) then SplitWhitespace(s[1..])
    else
      var n := WordLength(s);
      [s[..n]] + SplitWhitespace(s[n..])
  }

  /** `[&str]::join(sep)`. */
  function Join(ws: seq<string>, sep: string): string
  {
    if |ws| == 0 then ""
    else if |ws| == 1 then ws[0]
    else ws[0] + sep + Join(ws[1..], sep)
  }

  /** `str::trim_end`: drop trailing whitespace. */
  function TrimEnd(s: string): (r: string)
    ensures |r| <= |s| && r == s[..|r|]
    ensures r == [] || !IsSpace(r[|r| - 1])
    ensures forall i :: |r| <= i < |s| ==> IsSpace(s[i])
  {
    if s != [] && IsSpace(s[|s| - 1]) then
      var init := s[..|s| - 1];
      var r := TrimEnd(init);
      assert init[..|r|] == s[..|r|];
      assert forall i :: |r| <= i < |init| ==> init[i] == s[i];
      r
    else s
  }

  /** `str::trim_start`: drop leading whitespace. */
  function TrimStart(s: string): (r: string)
    ensures |r| <= |s| && r == s[|s| - |r|..]
    ensures r == [] || !IsSpace(r[0])
    ensures forall i :: 0 <= i < |s| - |r| ==> IsSpace(s[i])
  {
    if s != [] && IsSpace(s[0]) then
      var tail := s[1..];
      var r := TrimStart(tail);
      assert tail[|tail| - |r|..] == s[|s| - |r|..];
      assert forall i :: 0 <= i < |tail| - |r| ==> tail[i] == s[i + 1];
      r
    else s
  }

  /** `str::trim`: drop leading and trailing whitespace. */
  function Trim(s: string): string
  {
    TrimStart(TrimEnd(s))
  }

  /**
   * A string in the form `join(" ")` produces from tokens: every whitespace character is
   * a single space with a non-whitespace character on each side.
   */
  predicate SingleSpaced(s: string)
  {
    forall i :: 0 <= i < |s| ==> GoodSpaceAt(s, i)
  }

  /** Position `i` of `s` is no whitespace, or a single space between two non-spaces. */
  predicate GoodSpaceAt(s: string, i: int)
  {
    0 <= i < |s| && IsSpace(s[i]) ==>
      s[i] == ' ' && 0 < i < |s| - 1 && !IsSpace(s[i - 1]) && !IsSpace(s[i + 1])
  }

  /** `str::starts_with(char)`. */
  predicate StartsWithChar(s: string, c: char)
  {
    |s| > 0 && s[0] == c
  }

  /** `str::ends_with(char)`. */
  predicate EndsWithChar(s: string, c: char)
  {
    |s| > 0 && s[|s| - 1] == c
  }

  predicate StartsWith(s: string, prefix: string)
  {
    |prefix| <= |s| && s[..|prefix|] == prefix
  }

  /** `str::contains(&str)`: `needle` occurs somewhere in `hay` (the empty needle always does). */
  predicate Contains(hay: string, needle: string)
    decreases |hay|
  {
    StartsWith(hay, needle) || (|hay| > 0 && Contains(hay[1..], needle))
  }

  /** `needle` occurs in `hay` starting at index `i`. */
  predicate OccursAt(hay: string, needle: string, i: nat)
  {
    i + |needle| <= |hay| && hay[i..i + |needle|] == needle
  }

  /** `contains` holds exactly when the needle occurs at some position of the haystack. */
  lemma {:induction false} ContainsIff(hay: string, needle: string)
    ensures Contains(hay, needle) <==> exists i: nat :: OccursAt(hay, needle, i)
    decreases |hay|
  {
    if |hay| > 0 {
      var rest := hay[1..];
      ContainsIff(rest, needle);
      if Contains(rest, needle) {
        var j: nat :| OccursAt(rest, needle, j);
        assert hay[j + 1..j + 1 + |needle|] == rest[j..j + |needle|];
        assert OccursAt(hay, needle, j + 1);
      }
      if StartsWith(hay, needle) {
        assert OccursAt(hay, needle, 0);
      }
      if exists i: nat :: OccursAt(hay, needle, i) {
        var i: nat :| OccursAt(hay, needle, i);
        if i > 0 {
          assert rest[i - 1..i - 1 + |needle|] == hay[i..i + |needle|];
          assert OccursAt(rest, needle, i - 1);
        }
      }
    } else {
      if StartsWith(hay, needle) {
        assert OccursAt(hay, needle, 0);
      }
    }
  }

  /** An occurrence at a known position makes `contains` hold. */
  lemma ContainsAt(hay: string, needle: string, i: nat)
    requires OccursAt(hay, needle, i)
    ensures Contains(hay, needle)
  {
    ContainsIff(hay, needle);
  }

  /** A string in which `c` never follows `c` does not contain the pair `cc`. */
  lemma NoAdjacentPair(hay: string, c: char)
    requires forall i :: 0 <= i < |hay| - 1 ==> !(hay[i] == c && hay[i + 1] == c)
    ensures !Contains(hay, [c, c])
  {
    ContainsIff(hay, [c, c]);
    forall i: nat
      ensures !OccursAt(hay, [c, c], i)
    {
      if i + 2 <= |hay| {
        assert hay[i..i + 2][0] == hay[i] && hay[i..i + 2][1] == hay[i + 1];
      }
    }
  }

  /** `char::to_ascii_lowercase`. */
  function LowerChar(c: char): char
  {
    if 'A' <= c <= 'Z' then (c as int + 32) as char else c
  }

  /** `char::to_ascii_uppercase`. */
  function UpperChar(c: char): char
  {
    if 'a' <= c <= 'z' then (c as int - 32) as char else c
  }

  /** `str::to_lowercase` on ASCII text. */
  function ToLower(s: string): (r: string)
    ensures |r| == |s|
    ensures forall i :: 0 <= i < |s| ==> r[i] == LowerChar(s[i])
  {
    seq(|s|, i requires 0 <= i < |s| => LowerChar(s[i]))
  }

  /** `str::to_uppercase` on ASCII text. */
  function ToUpper(s: string): (r: string)
    ensures |r| == |s|
    ensures forall i :: 0 <= i < |s| ==> r[i] == UpperChar(s[i])
  {
    seq(|s|, i requires 0 <= i < |s| => UpperChar(s[i]))
  }

  /** `str::split(sep)` for a single-character separator; always at least one piece. */
  function Split(s: string, sep: char): (r: seq<string>)
    ensures |r| >= 1
  {
    if |s| == 0 then [""]
    else if s[0] == sep then [""] + Split(s[1..], sep)
    else
      var rest := Split(s[1..], sep);
      [[s[0]] + rest[0]] + rest[1..]
  }

  /** Position of the first occurrence of `c`. */
  function IndexOf(s: string, c: char): (i: nat)
    requires c in s
    ensures i < |s| && s[i] == c
    ensures forall j :: 0 <= j < i ==> s[j] != c
  {
    if s[0] == c then 0 else 1 + IndexOf(s[1..], c)
  }

  /** `str::split_once(c)`: the text before and after the first `c`. */
  function SplitOnce(s: string, c: char): (r: (string, string))
    requires c in s
    ensures s == r.0 + [c] + r.1
    ensures c !in r.0
  {
    var i := IndexOf(s, c);
    assert s == s[..i] + [c] + s[i + 1..];
    (s[..i], s[i + 1..])
  }
  /** `split_once` splits at the first occurrence: any split whose left part is free of `c` is the one it returns. */
  lemma SplitOnceAt(s: string, c: char, left: string, right: string)
    requires s == left + [c] + right && c !in left
    ensures c in s && SplitOnce(s, c) == (left, right)
  {
    assert s[|left|] == c;
    assert forall j :: 0 <= j < |left| ==> s[j] == left[j];
    assert IndexOf(s, c) == |left|;
    assert s[..|left|] == left && s[|left| + 1..] == right;
  }


  /** Length of the text before the first line feed (all of `s` when there is none). */
  function LineLength(s: string): (n: nat)
    ensures n <= |s|
    ensures forall i :: 0 <= i < n ==> s[i] != '\n'
    ensures n < |s| ==> s[n] == '\n'
  {
    if s == [] || s[0] == '\n' then 0 else 1 + LineLength(s[1..])
  }

  /** Strip one `\r` that stood before a line feed. */
  function StripCarriageReturn(line: string): string
  {
    if |line| > 0 && line[|line| - 1] == '\r' then line[..|line| - 1] else line
  }

  /**
   * `str::lines`: split after each `\n`, drop the `\n` and a `\r` just before it; a final
   * line without `\n` is kept as it is, and no empty line follows a final `\n`.
   */
  function Lines(s: string): (ls: seq<string>)
    ensures forall i :: 0 <= i < |ls| ==> '\n' !in ls[i]
    decreases |s|
  {
    if s == [] then []
    else
      var n := LineLength(s);
      if n == |s| then [s]
      else [StripCarriageReturn(s[..n])] + Lines(s[n + 1..])
  }

  /** Number of occurrences of `c`. */
  function Count(s: string, c: char): nat
  {
    if s == [] then 0 else (if s[0] == c then 1 else 0) + Count(s[1..], c)
  }

  // ---------------------------------------------------------------
  //                 Lemmas on tokenising and joining
  // ---------------------------------------------------------------

  lemma SplitWhitespaceSkip(s: string)
    requires s != [] && IsSpace(s[0])
    ensures SplitWhitespace(s) == SplitWhitespace(s[1..])
  {
  }

  lemma WordLengthOfWord(w: string, rest: string)
    requires IsWord(w)
    requires rest == [] || IsSpace(rest[0])
    ensures WordLength(w + rest) == |w|
  {
    var s := w + rest;
    assert forall i :: 0 <= i < |w| ==> s[i] == w[i];
    assert |w| < |s| ==> s[|w|] == rest[0];
  }

  lemma JoinCons(w: string, ws: seq<string>, sep: string)
    requires ws != []
    ensures Join([w] + ws, sep) == w + sep + Join(ws, sep)
  {
    assert ([w] + ws)[1..] == ws;
  }

  /** Splitting a single-space join gives the tokens back. */
  lemma {:induction false} SplitJoin(ws: seq<string>)
    requires AllWords(ws)
    ensures SplitWhitespace(Join(ws, " ")) == ws
    decreases |ws|
  {
    if |ws| == 0 {
    } else if |ws| == 1 {
      var w := ws[0];
      WordLengthOfWord(w, "");
      assert w + "" == w;
      assert w[..|w|] == w && w[|w|..] == [];
    } else {
      var w, rest := ws[0], ws[1..];
      var j := Join(rest, " ");
      var s := w + " " + j;
      assert Join(ws, " ") == s;
      WordLengthOfWord(w, " " + j);
      assert w + (" " + j) == s;
      assert s[..|w|] == w;
      assert s[|w|..] == " " + j;
      SplitWhitespaceSkip(" " + j);
      assert (" " + j)[1..] == j;
      SplitJoin(rest);
      assert AllWords(rest) by {
        forall i | 0 <= i < |rest| ensures IsWord(rest[i]) { assert rest[i] == ws[i + 1]; }
      }
      assert [w] + rest == ws;
    }
  }

  /** A single-space join of tokens is single-spaced and starts and ends with a token character. */
  lemma {:induction false} JoinShape(ws: seq<string>)
    requires AllWords(ws)
    ensures var j := Join(ws, " "); SingleSpaced(j) && (ws != [] ==> |j| > 0 && !IsSpace(j[0]) && !IsSpace(j[|j| - 1]))
    ensures ws != [] ==> Join(ws, " ")[0] == ws[0][0]
    decreases |ws|
  {
    if |ws| == 1 {
      assert IsWord(ws[0]);
    } else if |ws| > 1 {
      var w, rest := ws[0], ws[1..];
      assert IsWord(w);
      assert AllWords(rest) by {
        forall i | 0 <= i < |rest| ensures IsWord(rest[i]) { assert rest[i] == ws[i + 1]; }
      }
      JoinShape(rest);
      var j := Join(rest, " ");
      var s := w + " " + j;
      assert Join(ws, " ") == s;
      forall i | 0 <= i < |s|
        ensures GoodSpaceAt(s, i)
      {
        if i < |w| {
          assert s[i] == w[i];
        } else if i == |w| {
          assert s[i + 1] == j[0];
        } else {
          var k := i - |w| - 1;
          assert s[i] == j[k];
          if IsSpace(s[i]) {
            assert GoodSpaceAt(j, k);
            if k > 0 { assert s[i - 1] == j[k - 1]; }
            assert s[i + 1] == j[k + 1];
          }
        }
      }
    }
  }

  /** Tokenising and re-joining with single spaces leaves a string unchanged exactly when it is single-spaced. */
  lemma {:induction false} JoinSplitIdentity(s: string)
    ensures Join(SplitWhitespace(s), " ") == s <==> SingleSpaced(s)
  {
    if SingleSpaced(s) {
      JoinSplitSingleSpaced(s);
    } else {
      JoinShape(SplitWhitespace(s));
    }
  }

  lemma SingleSpacedSuffix(s: string, k: nat)
    requires SingleSpaced(s) && k <= |s|
    requires k < |s| ==> !IsSpace(s[k])
    ensures SingleSpaced(s[k..])
  {
    var t := s[k..];
    forall i | 0 <= i < |t|
      ensures GoodSpaceAt(t, i)
    {
      assert GoodSpaceAt(s, k + i);
      assert t[i] == s[k + i];
      if IsSpace(t[i]) {
        assert t[i - 1] == s[k + i - 1] by { assert i > 0; }
        assert i + 1 < |t| ==> t[i + 1] == s[k + i + 1];
      }
    }
  }

  lemma {:induction false} JoinSplitSingleSpaced(s: string)
    requires SingleSpaced(s)
    ensures Join(SplitWhitespace(s), " ") == s
    ensures s != [] ==> SplitWhitespace(s) != []
    decreases |s|
  {
    if s != [] {
      assert GoodSpaceAt(s, 0);
      var n := WordLength(s);
      if n == |s| {
        assert s[..n] == s && s[n..] == [];
      } else {
        assert GoodSpaceAt(s, n);
        assert s[n] == ' ' && n + 1 < |s| && !IsSpace(s[n + 1]);
        var tail := s[n + 1..];
        SingleSpacedSuffix(s, n + 1);
        JoinSplitSingleSpaced(tail);
        SplitWhitespaceSkip(s[n..]);
        assert s[n..][1..] == tail;
        JoinCons(s[..n], SplitWhitespace(tail), " ");
        assert s == s[..n] + " " + tail;
      }
    }
  }

  /** `join` of an extended list. */
  lemma {:induction false} JoinSnoc(ws: seq<string>, w: string, sep: string)
    requires ws != []
    ensures Join(ws + [w], sep) == Join(ws, sep) + sep + w
    decreases |ws|
  {
    if |ws| == 1 {
      assert ws + [w] == [ws[0]] + [w];
      JoinCons(ws[0], [w], sep);
    } else {
      JoinSnoc(ws[1..], w, sep);
      assert (ws + [w])[1..] == ws[1..] + [w];
      assert ws + [w] == [ws[0]] + (ws[1..] + [w]);
      JoinCons(ws[0], ws[1..] + [w], sep);
    }
  }

  /** `join` of a concatenation of two non-empty lists. */
  lemma {:induction false} JoinAppend(a: seq<string>, b: seq<string>, sep: string)
    requires a != [] && b != []
    ensures Join(a + b, sep) == Join(a, sep) + sep + Join(b, sep)
    decreases |a|
  {
    if |a| == 1 {
      assert a + b == [a[0]] + b;
      JoinCons(a[0], b, sep);
    } else {
      JoinAppend(a[1..], b, sep);
      assert a + b == [a[0]] + (a[1..] + b);
      JoinCons(a[0], a[1..] + b, sep);
      assert [a[0]] + a[1..] == a;
      JoinCons(a[0], a[1..], sep);
    }
  }

  /** A string that starts with a word and a space has that word as its leading run. */
  lemma WordPrefixLength(s: string, w: string)
    requires IsWord(w) && StartsWith(s, w + " ")
    ensures WordLength(s) == |w| < |s| && s[..|w|] == w
  {
    var after := s[|w|..];
    assert s == w + after;
    assert after[0] == ' ';
    WordLengthOfWord(w, after);
  }

  /** A single-space join starts with a word and a space exactly when that word is the first of at least two tokens. */
  lemma JoinStartsWithWord(ws: seq<string>, w: string)
    requires AllWords(ws) && ws != [] && IsWord(w)
    ensures (|ws| > 1 && ws[0] == w) <==> StartsWith(Join(ws, " "), w + " ")
  {
    var j := Join(ws, " ");
    var first := ws[0];
    assert IsWord(first);
    if |ws| == 1 {
      assert j == first + "";
      WordLengthOfWord(first, "");
      assert WordLength(j) == |j|;
    } else {
      var tail := " " + Join(ws[1..], " ");
      assert j == first + tail;
      WordLengthOfWord(first, tail);
      assert j[..|first| + 1] == first + " ";
    }
    if StartsWith(j, w + " ") {
      WordPrefixLength(j, w);
    }
  }

  /** A single-spaced string contains no line feed and does not end in a carriage return. */
  lemma SingleSpacedLine(s: string)
    requires SingleSpaced(s)
    ensures '\n' !in s
    ensures s == [] || s[|s| - 1] != '\r'
  {
    forall i | 0 <= i < |s|
      ensures s[i] != '\n' && (i == |s| - 1 ==> s[i] != '\r')
    {
      assert GoodSpaceAt(s, i);
    }
  }

  /** `lines` takes the text before the first line feed as its first line. */
  lemma LinesCons(line: string, rest: string)
    requires '\n' !in line
    requires line == [] || line[|line| - 1] != '\r'
    ensures Lines(line + "\n" + rest) == [line] + Lines(rest)
  {
    var s := line + "\n" + rest;
    assert forall i :: 0 <= i < |line| ==> s[i] == line[i];
    assert s[|line|] == '\n';
    var n := LineLength(s);
    assert n == |line|;
    assert s[..n] == line;
    assert s[n + 1..] == rest;
  }

  lemma CountConcat(a: string, b: string, c: char)
    ensures Count(a + b, c) == Count(a, c) + Count(b, c)
  {
    if a == [] {
      assert a + b == b;
    } else {
      assert (a + b)[1..] == a[1..] + b;
      CountConcat(a[1..], b, c);
    }
  }

  lemma CountAbsent(s: string, c: char)
    requires c !in s
    ensures Count(s, c) == 0
  {
    if s != [] {
      CountAbsent(s[1..], c);
    }
  }
}
