/** POSIX-shell-style word splitting as the `shell_words` crate's `split` does it: blanks separate
    words, single quotes keep everything literally, double quotes keep everything but a backslash
    before `$`, `` ` ``, `"`, `\` or a newline, a backslash outside quotes escapes the next
    character, and `#` at the start of a word begins a comment. An unterminated quote is an error. */
module ShellWords {
  import opened Wrappers

  datatype State =
    | Delimiter
    | Backslash
    | Unquoted
    | UnquotedBackslash
    | SingleQuoted
    | DoubleQuoted
    | DoubleQuotedBackslash
    | Comment

  /** The message of the crate's only error. */
  const MISSING_QUOTE: string := "missing closing quote"

  predicate IsBlank(c: char) { c == ' ' || c == '\t' || c == '\n' }

  /** The machine run over the rest of the input, with the word being built and the words done. */
  function Run(rest: string, state: State, word: string, words: seq<string>): Result<seq<string>, string>
    decreases |rest|
  {
    if rest == [] then
      match state
      case Delimiter => Ok(words)
      case Comment => Ok(words)
      case Backslash => Ok(words + [word + "\\"])
      case UnquotedBackslash => Ok(words + [word + "\\"])
      case Unquoted => Ok(words + [word])
      case SingleQuoted => Err(MISSING_QUOTE)
      case DoubleQuoted => Err(MISSING_QUOTE)
      case DoubleQuotedBackslash => Err(MISSING_QUOTE)
    else
      var c := rest[0];
      var tail := rest[1..];
      match state
      case Delimiter =>
        if c == '\'' then Run(tail, SingleQuoted, word, words)
        else if c == '"' then Run(tail, DoubleQuoted, word, words)
        else if c == '\\' then Run(tail, Backslash, word, words)
        else if IsBlank(c) then Run(tail, Delimiter, word, words)
        else if c == '#' then Run(tail, Comment, word, words)
        else Run(tail, Unquoted, word + [c], words)
      case Backslash =>
        if c == '\n' then Run(tail, Delimiter, word, words)
        else Run(tail, Unquoted, word + [c], words)
      case Unquoted =>
        if c == '\'' then Run(tail, SingleQuoted, word, words)
        else if c == '"' then Run(tail, DoubleQuoted, word, words)
        else if c == '\\' then Run(tail, UnquotedBackslash, word, words)
        else if IsBlank(c) then Run(tail, Delimiter, "", words + [word])
        else Run(tail, Unquoted, word + [c], words)
      case UnquotedBackslash =>
        if c == '\n' then Run(tail, Unquoted, word, words)
        else Run(tail, Unquoted, word + [c], words)
      case SingleQuoted =>
        if c == '\'' then Run(tail, Unquoted, word, words)
        else Run(tail, SingleQuoted, word + [c], words)
      case DoubleQuoted =>
        if c == '"' then Run(tail, Unquoted, word, words)
        else if c == '\\' then Run(tail, DoubleQuotedBackslash, word, words)
        else Run(tail, DoubleQuoted, word + [c], words)
      case DoubleQuotedBackslash =>
        if c == '\n' then Run(tail, DoubleQuoted, word, words)
        else if c == '$' || c == '`' || c == '"' || c == '\\' then Run(tail, DoubleQuoted, word + [c], words)
        else Run(tail, DoubleQuoted, word + ['\\', c], words)
      case Comment =>
        if c == '\n' then Run(tail, Delimiter, word, words)
        else Run(tail, Comment, word, words)
  }

  /** `shell_words::split`. */
  function Split(s: string): Result<seq<string>, string> {
    Run(s, Delimiter, "", [])
  }

  /** A character that stands for itself outside quotes. */
  predicate Plain(c: char) {
    !IsBlank(c) && c != '\'' && c != '"' && c != '\\'
  }

  /** A word that needs no quoting: non-empty, plain characters, not starting a comment. */
  predicate SimpleWord(w: string) {
    w != [] && w[0] != '#' && forall i :: 0 <= i < |w| ==> Plain(w[i])
  }

  /** Text that may stand between double quotes unchanged. */
  predicate QuotableText(w: string) {
    forall i :: 0 <= i < |w| ==> w[i] != '"' && w[i] != '\\'
  }

  /** Plain characters are appended to the word being built. */
  lemma {:induction false} UnquotedRun(w: string, tail: string, word: string, words: seq<string>)
    requires forall i :: 0 <= i < |w| ==> Plain(w[i])
    ensures Run(w + tail, Unquoted, word, words) == Run(tail, Unquoted, word + w, words)
    decreases |w|
  {
    if w != [] {
      assert (w + tail)[0] == w[0] && (w + tail)[1..] == w[1..] + tail;
      UnquotedRun(w[1..], tail, word + [w[0]], words);
      assert word + [w[0]] + w[1..] == word + w;
    } else {
      assert w + tail == tail && word + w == word;
    }
  }

  /** Quoted text is appended to the word being built. */
  lemma {:induction false} DoubleQuotedRun(w: string, tail: string, word: string, words: seq<string>)
    requires QuotableText(w)
    ensures Run(w + tail, DoubleQuoted, word, words) == Run(tail, DoubleQuoted, word + w, words)
    decreases |w|
  {
    if w != [] {
      assert (w + tail)[0] == w[0] && (w + tail)[1..] == w[1..] + tail;
      DoubleQuotedRun(w[1..], tail, word + [w[0]], words);
      assert word + [w[0]] + w[1..] == word + w;
    } else {
      assert w + tail == tail && word + w == word;
    }
  }

  /** A simple word followed by a blank is one word. */
  lemma SimpleWordStep(w: string, rest: string, words: seq<string>)
    requires SimpleWord(w)
    ensures Run(w + " " + rest, Delimiter, "", words) == Run(rest, Delimiter, "", words + [w])
  {
    var s := w + " " + rest;
    assert s[0] == w[0] && s[1..] == w[1..] + (" " + rest);
    assert Plain(w[0]);
    assert "" + [w[0]] == [w[0]];
    assert Run(s, Delimiter, "", words) == Run(w[1..] + (" " + rest), Unquoted, [w[0]], words);
    UnquotedRun(w[1..], " " + rest, [w[0]], words);
    assert [w[0]] + w[1..] == w;
    assert (" " + rest)[0] == ' ' && (" " + rest)[1..] == rest;
    assert Run(" " + rest, Unquoted, w, words) == Run(rest, Delimiter, "", words + [w]);
  }

  /** A double-quoted text followed by a blank is one word, without the quotes. */
  lemma QuotedWordStep(w: string, rest: string, words: seq<string>)
    requires QuotableText(w)
    ensures Run("\"" + w + "\" " + rest, Delimiter, "", words) == Run(rest, Delimiter, "", words + [w])
  {
    var s := "\"" + w + "\" " + rest;
    assert s[0] == '"' && s[1..] == w + ("\" " + rest);
    DoubleQuotedRun(w, "\" " + rest, "", words);
    assert "" + w == w;
    assert ("\" " + rest)[1..] == " " + rest;
    assert (" " + rest)[1..] == rest;
  }

  /** A simple word at the end of the input is the last word. */
  lemma SimpleWordLast(w: string, words: seq<string>)
    requires SimpleWord(w)
    ensures Run(w, Delimiter, "", words) == Ok(words + [w])
  {
    assert w == [w[0]] + w[1..];
    assert Plain(w[0]);
    assert "" + [w[0]] == [w[0]];
    assert w[1..] + "" == w[1..];
    assert Run(w, Delimiter, "", words) == Run(w[1..] + "", Unquoted, [w[0]], words);
    UnquotedRun(w[1..], "", [w[0]], words);
  }

  /** Simple words separated by single blanks split back into those words. */
  lemma {:induction false} SplitSimpleWords(ws: seq<string>, words: seq<string>)
    requires ws != [] && forall k :: 0 <= k < |ws| ==> SimpleWord(ws[k])
    ensures Run(Line(ws), Delimiter, "", words) == Ok(words + ws)
    decreases |ws|
  {
    if |ws| == 1 {
      SimpleWordLast(ws[0], words);
      assert words + [ws[0]] == words + ws;
    } else {
      SimpleWordStep(ws[0], Line(ws[1..]), words);
      SplitSimpleWords(ws[1..], words + [ws[0]]);
      assert words + [ws[0]] + ws[1..] == words + ws;
    }
  }

  /** Words joined by single blanks. */
  function Line(ws: seq<string>): string
    requires ws != []
  {
    if |ws| == 1 then ws[0] else ws[0] + " " + Line(ws[1..])
  }

  /** An input that ends inside a double quote is refused, whatever came before. */
  lemma {:induction false} UnterminatedDoubleQuote(w: string, word: string, words: seq<string>)
    requires QuotableText(w)
    ensures Run(w, DoubleQuoted, word, words) == Err(MISSING_QUOTE)
  {
    DoubleQuotedRun(w, "", word, words);
    assert w + "" == w;
  }

  /** A word that opens a double quote and never closes it is refused. */
  lemma OpenQuoteAtEnd(w: string, words: seq<string>)
    requires SimpleWord(w)
    ensures Run(w + "\"", Delimiter, "", words) == Err(MISSING_QUOTE)
  {
    var s := w + "\"";
    assert s[0] == w[0] && s[1..] == w[1..] + "\"";
    assert Plain(w[0]);
    assert "" + [w[0]] == [w[0]];
    assert Run(s, Delimiter, "", words) == Run(w[1..] + "\"", Unquoted, [w[0]], words);
    UnquotedRun(w[1..], "\"", [w[0]], words);
    assert [w[0]] + w[1..] == w;
    assert Run("\"", Unquoted, w, words) == Run("", DoubleQuoted, w, words);
  }

  /** The form input of the failing-add test, `priority:H due:"`, is a quoting error. */
  lemma MissingQuoteExample()
    ensures Split("priority:H" + " " + ("due:" + "\"")) == Err(MISSING_QUOTE)
  {
    var a, b := "priority:H", "due:";
    assert SimpleWord(a) by { assert forall i :: 0 <= i < |a| ==> Plain(a[i]); }
    assert SimpleWord(b) by { assert forall i :: 0 <= i < |b| ==> Plain(b[i]); }
    SimpleWordStep(a, b + "\"", []);
    OpenQuoteAtEnd(b, [] + [a]);
  }

  /** The splitter's only failure is the missing closing quote. */
  lemma OnlyQuoteError(rest: string, state: State, word: string, words: seq<string>)
    ensures Run(rest, state, word, words).Err? ==> Run(rest, state, word, words).error == MISSING_QUOTE
  {
  }
}
