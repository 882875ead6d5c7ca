/** The modify test's command line, from text to directives: the shell splitter cuts it into
    twelve words, tokenizing them gives the twelve directives `Directives.BreakitDirectives`
    lists, and so the line itself files the seven complaints `Directives.Breakit` counts. */
module BreakitLine {
  import opened Wrappers
  import opened Strings
  import opened Store
  import ShellWords
  import D = Directives

  /** The test's `format!` with its four arguments put in place, word by word as typed: the
      description keeps its double quotes, and single blanks separate the words. */
  function Typed(u: Uuid): seq<string> {
    ["wait" + ":" + "abc", "due" + ":" + "def", "+concert", "-twk", "+d/c", "-e/b", "+WAITING", "-PENDING", "start",
     "\"" + "description" + ":" + "This is a title with spaces" + "\"", "depends" + ":" + u, "project" + ":" + ""]
  }

  /** The command line the test hands to `run_modify_command`. */
  function CommandLine(u: Uuid): string {
    ShellWords.Line(Typed(u))
  }

  /** The words the shell splitter is to find in it. */
  function Words(u: Uuid): seq<string> {
    ["wait" + ":" + "abc", "due" + ":" + "def", "+concert", "-twk", "+d/c", "-e/b", "+WAITING", "-PENDING", "start",
     "description" + ":" + "This is a title with spaces", "depends" + ":" + u, "project" + ":" + ""]
  }

  /** A simple word followed by more words is the next word found. */
  lemma SimpleAt(ws: seq<string>, found: seq<string>, k: nat)
    requires k < |ws| - 1 && k < |found| && ShellWords.SimpleWord(ws[k]) && found[k] == ws[k]
    ensures ShellWords.Run(ShellWords.Line(ws[k..]), ShellWords.Delimiter, "", found[..k]) ==
            ShellWords.Run(ShellWords.Line(ws[k + 1..]), ShellWords.Delimiter, "", found[..k + 1])
  {
    assert ws[k..][1..] == ws[k + 1..];
    ShellWords.SimpleWordStep(ws[k], ShellWords.Line(ws[k + 1..]), found[..k]);
    assert found[..k] + [ws[k]] == found[..k + 1];
  }

  /** A double-quoted word followed by more words is the next word found, without its quotes. */
  lemma QuotedAt(ws: seq<string>, found: seq<string>, k: nat)
    requires k < |ws| - 1 && k < |found| && ws[k] == "\"" + found[k] + "\"" && ShellWords.QuotableText(found[k])
    ensures ShellWords.Run(ShellWords.Line(ws[k..]), ShellWords.Delimiter, "", found[..k]) ==
            ShellWords.Run(ShellWords.Line(ws[k + 1..]), ShellWords.Delimiter, "", found[..k + 1])
  {
    assert ws[k..][1..] == ws[k + 1..];
    var rest := ShellWords.Line(ws[k + 1..]);
    assert ShellWords.Line(ws[k..]) == "\"" + found[k] + "\" " + rest;
    ShellWords.QuotedWordStep(found[k], rest, found[..k]);
    assert found[..k] + [found[k]] == found[..k + 1];
  }

  /** A simple last word ends the run with every word found. */
  lemma LastAt(ws: seq<string>, found: seq<string>)
    requires |ws| == |found| > 0 && ShellWords.SimpleWord(ws[|ws| - 1]) && found[|ws| - 1] == ws[|ws| - 1]
    ensures ShellWords.Run(ShellWords.Line(ws[|ws| - 1..]), ShellWords.Delimiter, "", found[..|ws| - 1]) == Ok(found)
  {
    var k := |ws| - 1;
    ShellWords.SimpleWordLast(ws[k], found[..k]);
    assert found[..k] + [ws[k]] == found;
  }

  /** A UUID's characters stand for themselves outside quotes. */
  lemma UuidPlain(u: Uuid)
    requires IsCanonicalUuid(u)
    ensures ShellWords.SimpleWord("depends" + ":" + u)
  {
    var w := "depends" + ":" + u;
    forall i | 0 <= i < |w| ensures ShellWords.Plain(w[i]) {
      if i >= 8 {
        assert w[i] == u[i - 8];
      }
    }
  }

  /** Simple words, one after another, are each the next word found. */
  lemma {:induction false} SimpleRun(ws: seq<string>, found: seq<string>, i: nat, j: nat)
    requires i <= j < |ws| && j <= |found|
    requires forall k :: i <= k < j ==> ShellWords.SimpleWord(ws[k]) && found[k] == ws[k]
    ensures ShellWords.Run(ShellWords.Line(ws[i..]), ShellWords.Delimiter, "", found[..i]) ==
            ShellWords.Run(ShellWords.Line(ws[j..]), ShellWords.Delimiter, "", found[..j])
    decreases j - i
  {
    if i < j {
      SimpleAt(ws, found, i);
      SimpleRun(ws, found, i + 1, j);
    }
  }

  /** The plain words of the line need no quoting. */
  lemma PlainWords()
    ensures ShellWords.SimpleWord("wait" + ":" + "abc") && ShellWords.SimpleWord("due" + ":" + "def") && ShellWords.SimpleWord("+concert")
    ensures ShellWords.SimpleWord("-twk") && ShellWords.SimpleWord("+d/c") && ShellWords.SimpleWord("-e/b")
    ensures ShellWords.SimpleWord("+WAITING") && ShellWords.SimpleWord("-PENDING") && ShellWords.SimpleWord("start")
    ensures ShellWords.SimpleWord("project" + ":" + "")
  {
  }

  /** The description may stand between double quotes as it is. */
  lemma QuotedWord()
    ensures ShellWords.QuotableText("description" + ":" + "This is a title with spaces")
  {
  }

  /** The typed words, against the words to be found. */
  lemma TypedWords(u: Uuid)
    requires IsCanonicalUuid(u)
    ensures |Typed(u)| == |Words(u)| == 12
    ensures forall k :: 0 <= k < 12 && k != 9 ==> ShellWords.SimpleWord(Typed(u)[k]) && Typed(u)[k] == Words(u)[k]
    ensures Typed(u)[9] == "\"" + Words(u)[9] + "\"" && ShellWords.QuotableText(Words(u)[9])
  {
    UuidPlain(u);
    PlainWords();
    QuotedWord();
  }

  /** Eleven simple words with a double-quoted one in tenth place split into the eleven and the
      quoted text. */
  lemma SplitTwelve(ws: seq<string>, found: seq<string>)
    requires |ws| == |found| == 12
    requires forall k :: 0 <= k < 12 && k != 9 ==> ShellWords.SimpleWord(ws[k]) && ws[k] == found[k]
    requires ws[9] == "\"" + found[9] + "\"" && ShellWords.QuotableText(found[9])
    ensures ShellWords.Split(ShellWords.Line(ws)) == Ok(found)
  {
    assert ws[0..] == ws && found[..0] == [];
    SimpleRun(ws, found, 0, 9);
    QuotedAt(ws, found, 9);
    SimpleAt(ws, found, 10);
    LastAt(ws, found);
  }

  /** The line splits into the twelve words: the double-quoted description is one word, without
      its quotes. */
  lemma SplitLine(u: Uuid)
    requires IsCanonicalUuid(u)
    ensures ShellWords.Split(CommandLine(u)) == Ok(Words(u))
  {
    TypedWords(u);
    SplitTwelve(Typed(u), Words(u));
  }

  /** A word `k:v` whose halves need no trimming is the directive `k` with value `v`. */
  lemma KeyedWord(w: string, k: string, v: string)
    requires w == k + ":" + v && ':' !in k && k != []
    requires !IsWhitespace(k[0]) && !IsWhitespace(k[|k| - 1])
    requires v == [] || (!IsWhitespace(v[0]) && !IsWhitespace(v[|v| - 1]))
    ensures D.Tokenize(w) == D.Directive(k, Some(v))
  {
    D.TokenizeAt(k, v);
    TrimNoop(k);
    TrimNoop(v);
  }

  /** A word without `:` whose ends are no whitespace is a directive without value. */
  lemma BareWord(w: string)
    requires ':' !in w && w != [] && !IsWhitespace(w[0]) && !IsWhitespace(w[|w| - 1])
    ensures D.Tokenize(w) == D.Directive(w, None)
  {
    TrimNoop(w);
  }

  /** Words tokenized one by one are the directives. */
  lemma TokensFrom(ws: seq<string>, ds: seq<D.Directive>)
    requires |ws| == |ds| && forall i :: 0 <= i < |ws| ==> D.Tokenize(ws[i]) == ds[i]
    ensures D.Tokens(ws) == ds
  {
  }

  /** The wait date, tokenized. */
  lemma WaitWord(u: Uuid)
    requires IsCanonicalUuid(u)
    ensures D.Tokenize(Words(u)[0]) == D.BreakitDirectives(u)[0]
  {
    assert Words(u)[0] == "wait" + ":" + "abc" && D.BreakitDirectives(u)[0] == D.Directive("wait", Some("abc"));
    KeyedWord("wait" + ":" + "abc", "wait", "abc");
  }

  /** The due date, tokenized. */
  lemma DueWord(u: Uuid)
    requires IsCanonicalUuid(u)
    ensures D.Tokenize(Words(u)[1]) == D.BreakitDirectives(u)[1]
  {
    assert Words(u)[1] == "due" + ":" + "def" && D.BreakitDirectives(u)[1] == D.Directive("due", Some("def"));
    KeyedWord("due" + ":" + "def", "due", "def");
  }

  /** The description, tokenized: the blanks inside it stay. */
  lemma DescriptionWord(u: Uuid)
    requires IsCanonicalUuid(u)
    ensures D.Tokenize(Words(u)[9]) == D.BreakitDirectives(u)[9]
  {
    assert Words(u)[9] == "description" + ":" + "This is a title with spaces" && D.BreakitDirectives(u)[9] == D.Directive("description", Some("This is a title with spaces"));
    KeyedWord("description" + ":" + "This is a title with spaces", "description", "This is a title with spaces");
  }

  /** The dependency, tokenized: the UUID needs no trimming. */
  lemma DependsWord(u: Uuid)
    requires IsCanonicalUuid(u)
    ensures D.Tokenize(Words(u)[10]) == D.BreakitDirectives(u)[10]
  {
    assert !IsWhitespace(u[0]) && !IsWhitespace(u[35]);
    assert Words(u)[10] == "depends" + ":" + u && D.BreakitDirectives(u)[10] == D.Directive("depends", Some(u));
    KeyedWord("depends" + ":" + u, "depends", u);
  }

  /** The empty project, tokenized. */
  lemma ProjectWord(u: Uuid)
    requires IsCanonicalUuid(u)
    ensures D.Tokenize(Words(u)[11]) == D.BreakitDirectives(u)[11]
  {
    assert Words(u)[11] == "project" + ":" + "" && D.BreakitDirectives(u)[11] == D.Directive("project", Some(""));
    KeyedWord("project" + ":" + "", "project", "");
  }

  /** The four tags, tokenized. */
  lemma TagWords(u: Uuid)
    ensures forall i :: 2 <= i < 6 ==> D.Tokenize(Words(u)[i]) == D.BreakitDirectives(u)[i]
  {
    var ws, ds := Words(u), D.BreakitDirectives(u);
    forall i | 2 <= i < 6 ensures D.Tokenize(ws[i]) == ds[i] {
      if i == 2 {
        assert ws[i] == "+concert" && ds[i] == D.Directive("+concert", None);
        BareWord("+concert");
      } else if i == 3 {
        assert ws[i] == "-twk" && ds[i] == D.Directive("-twk", None);
        BareWord("-twk");
      } else if i == 4 {
        assert ws[i] == "+d/c" && ds[i] == D.Directive("+d/c", None);
        BareWord("+d/c");
      } else {
        assert ws[i] == "-e/b" && ds[i] == D.Directive("-e/b", None);
        BareWord("-e/b");
      }
    }
  }

  /** The synthetic tags and `start`, tokenized. */
  lemma StatusWords(u: Uuid)
    ensures forall i :: 6 <= i < 9 ==> D.Tokenize(Words(u)[i]) == D.BreakitDirectives(u)[i]
  {
    var ws, ds := Words(u), D.BreakitDirectives(u);
    forall i | 6 <= i < 9 ensures D.Tokenize(ws[i]) == ds[i] {
      if i == 6 {
        assert ws[i] == "+WAITING" && ds[i] == D.Directive("+WAITING", None);
        BareWord("+WAITING");
      } else if i == 7 {
        assert ws[i] == "-PENDING" && ds[i] == D.Directive("-PENDING", None);
        BareWord("-PENDING");
      } else {
        assert ws[i] == "start" && ds[i] == D.Directive("start", None);
        BareWord("start");
      }
    }
  }

  /** Tokenizing the twelve words gives the twelve directives the modify test's line stands for:
      the keyed words split at their `:`, the others are keys without value, and nothing needs
      trimming. */
  lemma TokenizeWords(u: Uuid)
    requires IsCanonicalUuid(u)
    ensures D.Tokens(Words(u)) == D.BreakitDirectives(u)
  {
    var ws, ds := Words(u), D.BreakitDirectives(u);
    forall i | 0 <= i < 12 ensures D.Tokenize(ws[i]) == ds[i] {
      if i == 0 {
        WaitWord(u);
      } else if i == 1 {
        DueWord(u);
      } else if i < 6 {
        TagWords(u);
      } else if i < 9 {
        StatusWords(u);
      } else if i == 9 {
        DescriptionWord(u);
      } else if i == 10 {
        DependsWord(u);
      } else {
        ProjectWord(u);
      }
    }
    TokensFrom(ws, ds);
  }

  /** `run_modify_command` fed the test's line: the shell split and the tokenizer turn it into the
      twelve directives, which file exactly seven complaints with a store that refuses nothing. */
  lemma LineComplaints(env: Env, st: Staged, u: Uuid)
    requires env.refused == {} && IsCanonicalUuid(u)
    ensures D.Additions(env, st, CommandLine(u)).errs ==
      [D.Complaint(D.ParseFailed("wait", D.TIMESTAMP_PARSE_ERROR)), D.Complaint(D.ParseFailed("due", D.TIMESTAMP_PARSE_ERROR)),
       D.Complaint(InvalidTag("d/c")), D.Complaint(InvalidTag("e/b")),
       D.Complaint(SYNTHETIC_TAG_ERROR), D.Complaint(SYNTHETIC_TAG_ERROR),
       D.Complaint(D.ForbiddenMessage("start"))]
  {
    SplitLine(u);
    TokenizeWords(u);
    D.Breakit(env, st, u);
  }
}
