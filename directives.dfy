/** The directive language of the add and modify forms. The "additional" line is split into shell
    words; each word becomes a `key[:value]` directive; each directive is routed, by a fixed
    precedence, to a handler that changes the task being edited or files one complaint under the
    field `additional`. A failing directive never stops the ones after it. The functions here are
    the specification; `Editor` in module `Editing` carries them out in place. */
module Directives {
  import opened Wrappers
  import opened Strings
  import opened Store
  import opened Calendar
  import opened Errors
  import Backend
  import ShellWords

  // ---------------------------------------------------------------- words to directives

  /** A directive: a trimmed key and, when the word had a `:`, a trimmed value. */
  datatype Directive = Directive(key: string, value: Option<string>)

  /** A word split at its first `:`; a word without `:` is a key with no value. */
  function Tokenize(word: string): (d: Directive)
    ensures ':' !in word ==> d == Directive(Trim(word), None)
    ensures ':' in word ==> d.value.Some?
  {
    match SplitOnce(word, ':')
    case None => Directive(Trim(word), None)
    case Some((k, v)) => Directive(Trim(k), Some(Trim(v)))
  }

  /** Every word with a `:` is a key free of `:`, a `:` and a value; the key and the value
      are the trimmed halves. */
  lemma TokenizeAt(k: string, v: string)
    requires ':' !in k
    ensures Tokenize(k + ":" + v) == Directive(Trim(k), Some(Trim(v)))
  {
    var w := k + ":" + v;
    assert forall j :: 0 <= j < |k| ==> w[j] == k[j] && w[j] !in {':'};
    assert w[|k|] in {':'};
    var i := IndexOfAny(w, {':'});
    assert i.value == |k|;
    assert w[..|k|] == k && w[|k| + 1..] == v;
  }

  /** The words of a split line, each made a directive. */
  function Tokens(words: seq<string>): (ds: seq<Directive>)
    ensures |ds| == |words|
    ensures forall i :: 0 <= i < |words| ==> ds[i] == Tokenize(words[i])
  {
    if words == [] then []
    else
      var init := words[..|words| - 1];
      assert forall i :: 0 <= i < |init| ==> init[i] == words[i];
      Tokens(init) + [Tokenize(words[|words| - 1])]
  }

  // ---------------------------------------------------------------- routing

  datatype Kind =
    | TagAddition
    | TagRemoval
    | Dependencies
    | DescriptionChange
    | PriorityChange
    | TimestampChange
    | StatusChange
    | Recurrence
    | ForbiddenField
    | ReservedProperty
    | UserAttribute

  const TIMESTAMP_KEYS: set<string> := {"entry", "wait", "due"}

  /** Fields the store maintains itself. */
  const FORBIDDEN_KEYS: set<string> := {"start", "stop", "done", "end", "modified"}

  /** The key as the later tests compare it: lower-cased, then trimmed. */
  function Folded(key: string): string {
    Trim(ToLower(key))
  }

  /** The handler a directive goes to, the first test that matches winning. */
  function Classify(d: Directive): (k: Kind)
    ensures k == TagAddition ==> StartsWith(d.key, "+") && d.value.None?
    ensures k == TagRemoval ==> StartsWith(d.key, "-") && d.value.None?
    ensures k == ReservedProperty ==>
      Backend.PropertyFrom(d.key).Ok? && Folded(d.key) != "description" && Folded(d.key) != "priority" &&
      Folded(d.key) != "status" && Folded(d.key) !in TIMESTAMP_KEYS && Folded(d.key) !in FORBIDDEN_KEYS
  {
    if StartsWith(d.key, "+") && d.value.None? then TagAddition
    else if StartsWith(d.key, "-") && d.value.None? then TagRemoval
    else if ToLower(d.key) == "depends" then Dependencies
    else if Folded(d.key) == "description" then DescriptionChange
    else if Folded(d.key) == "priority" then PriorityChange
    else if Folded(d.key) in TIMESTAMP_KEYS then TimestampChange
    else if Folded(d.key) == "status" then StatusChange
    else if Folded(d.key) == "recur" then Recurrence
    else if Folded(d.key) in FORBIDDEN_KEYS then ForbiddenField
    else if Backend.PropertyFrom(d.key).Ok? then ReservedProperty
    else UserAttribute
  }

  /** A key names a forbidden field exactly when its folded form is one of them, whatever its
      value; nothing earlier in the order takes such a key. */
  lemma ClassifyForbidden(d: Directive)
    ensures Classify(d) == ForbiddenField <==> Folded(d.key) in FORBIDDEN_KEYS
  {
    var f := Folded(d.key);
    if f in FORBIDDEN_KEYS {
      NoSign(d.key);
      NotDepends(d.key);
      ForbiddenApart(f);
    }
  }

  /** The forbidden names start with a letter and are none of the names routed before them. */
  lemma ForbiddenApart(f: string)
    requires f in FORBIDDEN_KEYS
    ensures f != "depends" && f != "description" && f != "priority" && f != "status" && f != "recur"
    ensures f !in TIMESTAMP_KEYS
  {
  }

  lemma ForbiddenLetter(f: string)
    requires f in FORBIDDEN_KEYS
    ensures f != [] && 'a' <= f[0] <= 'z'
  {
  }

  lemma NoSign(key: string)
    requires Folded(key) in FORBIDDEN_KEYS
    ensures !StartsWith(key, "+") && !StartsWith(key, "-")
  {
    ForbiddenLetter(Folded(key));
    if StartsWith(key, "+") || StartsWith(key, "-") {
      assert key[..1][0] == key[0];
      SignKept(key);
    }
  }

  /** Folding keeps a leading sign. */
  lemma SignKept(key: string)
    requires key != [] && (key[0] == '+' || key[0] == '-')
    ensures Folded(key) != [] && Folded(key)[0] == key[0]
  {
    var l := ToLower(key);
    assert l[0] == key[0];
    TrimFirst(l);
  }

  lemma NotDepends(key: string)
    requires Folded(key) in FORBIDDEN_KEYS
    ensures ToLower(key) != "depends"
  {
    ForbiddenApart(Folded(key));
    if ToLower(key) == "depends" {
      DependsTrimmed(ToLower(key));
    }
  }

  lemma DependsTrimmed(l: string)
    requires l == "depends"
    ensures Trim(l) == l
  {
    assert l[0] == 'd' && l[|l| - 1] == 's';
    TrimNoop(l);
  }

  /** The only reserved property that reaches the generic setter is `project`: every other one
      has a handler or is forbidden. */
  lemma ReservedIsProject(d: Directive)
    requires Classify(d) == ReservedProperty
    ensures ToLower(d.key) == "project"
  {
    Backend.PropertyFromIff(d.key);
    ReservedKey(ToLower(d.key), Folded(d.key));
  }

  lemma ReservedKey(l: string, f: string)
    requires l in Backend.RESERVED_NAMES && f == Trim(l)
    requires f != "description" && f != "priority" && f != "status" && f !in TIMESTAMP_KEYS && f !in FORBIDDEN_KEYS
    ensures l == "project"
  {
    ReservedTrimmed(l);
    ReservedRest(l);
  }

  lemma ReservedLetters(l: string)
    requires l in Backend.RESERVED_NAMES
    ensures l != [] && 'a' <= l[0] <= 'z' && 'a' <= l[|l| - 1] <= 'z'
  {
  }

  /** The reserved names have no surrounding whitespace. */
  lemma ReservedTrimmed(l: string)
    requires l in Backend.RESERVED_NAMES
    ensures Trim(l) == l
  {
    ReservedLetters(l);
    assert !IsWhitespace(l[0]) && !IsWhitespace(l[|l| - 1]);
    TrimNoop(l);
  }

  lemma ReservedRest(l: string)
    requires l in Backend.RESERVED_NAMES
    requires l != "description" && l != "priority" && l != "status" && l !in TIMESTAMP_KEYS
    requires l !in FORBIDDEN_KEYS
    ensures l == "project"
  {
  }

  // ---------------------------------------------------------------- handlers

  /** The field every complaint of the directive language is filed under. */
  const ADDITIONAL: string := "additional"

  function Complaint(message: string): FieldError {
    FieldError(ADDITIONAL, message)
  }

  /** The edited task and its recorded operations after a handler, with the complaints it filed. */
  datatype Outcome = Outcome(st: Staged, errs: seq<FieldError>)

  /** A setter's result: the new state, or the old state and one complaint around the store's
      error text. */
  function Attempt(st: Staged, r: Result<Staged, string>, before: string, after: string): Outcome {
    match r
    case Ok(s) => Outcome(s, [])
    case Err(p) => Outcome(st, [Complaint(before + p + after)])
  }

  /** A setter's result whose error text is the complaint itself. */
  function Settle(st: Staged, r: Result<Staged, string>): Outcome {
    match r
    case Ok(s) => Outcome(s, [])
    case Err(p) => Outcome(st, [Complaint(p)])
  }

  /** `task_apply_tag_add` (`add`) and `task_apply_tag_remove` on the name after the sign: a name
      that is not a tag, a synthetic tag and a refused store each file one complaint. */
  function ApplyTag(env: Env, st: Staged, name: string, add: bool): (o: Outcome)
    ensures o.errs == [] <==> ParseTag(name) == Ok(User(name)) && "tag_" + name !in env.refused
    ensures o.errs != [] ==> o.st == st && |o.errs| == 1
    ensures o.errs == [] ==>
      o.st.task == Task(st.task.uuid, Assign(st.task.data, "tag_" + name, if add then Some("") else None))
  {
    match ParseTag(name)
    case Err(m) => Outcome(st, [Complaint(m)])
    case Ok(tag) => Settle(st, SetTag(env, st, tag, add))
  }

  const RECUR_FAILED: string := "Failed change recurrence: "
  const RECURRING_FAILED: string := "Failed change task status to recurring: "

  /** `task_apply_recur`: the recurrence, then the status Recurring, then `rtype` `periodic`,
      stopping at the first refusal with one complaint (earlier steps stay done). */
  function ApplyRecur(env: Env, st: Staged, value: Option<string>): (o: Outcome)
    ensures |o.errs| <= 1
    ensures o.errs == [] <==> "recur" !in env.refused && "status" !in env.refused && "rtype" !in env.refused
    ensures "recur" in env.refused ==> o == Outcome(st, [Complaint(RECUR_FAILED + Refusal("recur"))])
    ensures o.errs == [] ==>
      Get(o.st.task.data, "recur") == value && Get(o.st.task.data, "status") == Some("recurring") &&
      Get(o.st.task.data, "rtype") == Some("periodic")
  {
    match SetValue(env, st, "recur", value)
    case Err(p) => Outcome(st, [Complaint(RECUR_FAILED + p)])
    case Ok(s1) =>
      match SetStatus(env, s1, Recurring)
      case Err(p) => Outcome(s1, [Complaint(RECURRING_FAILED + p)])
      case Ok(s2) => Attempt(s2, SetValue(env, s2, "rtype", Some("periodic")), RECURRING_FAILED, "")
  }

  /** `task_apply_status`: no value is no change; any value is stored as given, known word or
      not, and only a refusal files a complaint. */
  function ApplyStatus(env: Env, st: Staged, value: Option<string>): (o: Outcome)
    ensures value.None? ==> o == Outcome(st, [])
    ensures value.Some? ==> (o.errs == [] <==> "status" !in env.refused)
    ensures value.Some? && o.errs == [] ==> o.st.task == Task(st.task.uuid, Assign(st.task.data, "status", value))
    ensures o.errs != [] ==>
      o == Outcome(st, [Complaint("Invalid status " + value.value + " (" + Refusal("status") + ").")])
  {
    match value
    case None => Outcome(st, [])
    case Some(v) => Attempt(st, SetStatus(env, st, Backend.ConvertTaskStatus(v)), "Invalid status " + v + " (", ").")
  }

  /** What the date-time parsers report for text they do not accept (their own wording is not
      modelled). */
  const TIMESTAMP_PARSE_ERROR: string := "input contains invalid characters"

  /** An RFC 3339 date-time of the trimmed text, failing that a full-date of the text itself. */
  function ParseTimestamp(text: string): Option<int> {
    match ParseRfc3339(Trim(text))
    case Some(t) => Some(t)
    case None => ParseFullDate(text)
  }

  /** The instant a timestamp directive sets: none for a missing or blank value, an error for a
      value that is no date. */
  function TimestampValue(value: Option<string>): (r: Result<Option<int>, string>)
    ensures r == Ok(None) <==> value.None? || Trim(value.value) == []
    ensures r.Err? <==> value.Some? && Trim(value.value) != [] && ParseTimestamp(value.value).None?
    ensures r.Ok? && r.value.Some? ==> value.Some? && ParseTimestamp(value.value) == r.value
  {
    match value
    case Some(v) =>
      if Trim(v) == [] then Ok(None)
      else
        (match ParseTimestamp(v)
         case Some(t) => Ok(Some(t))
         case None => Err(TIMESTAMP_PARSE_ERROR))
    case None => Ok(None)
  }

  /** The complaint for a timestamp value that is no date. */
  function ParseFailed(key: string, p: string): string {
    "Failed parsing timestamp for " + key + " (" + p + ")."
  }

  /** How a timestamp is stored. */
  function Stamp(t: Option<int>): Option<string> {
    match t
    case Some(x) => Some(IntToString(x))
    case None => None
  }

  /** `task_apply_timestamps`: a value that is no date files one complaint naming the key; any
      other value sets, or with no date clears, the named timestamp. */
  function ApplyTimestamp(env: Env, st: Staged, key: string, value: Option<string>): (o: Outcome)
    ensures |o.errs| <= 1 && (o.errs != [] ==> o.st == st)
    ensures forall e :: e in o.errs ==> e.field == ADDITIONAL
    ensures TimestampValue(value).Err? ==>
      o.errs == [Complaint(ParseFailed(key, TIMESTAMP_PARSE_ERROR))]
    ensures TimestampValue(value).Ok? && Folded(key) in TIMESTAMP_KEYS ==>
      (o.errs == [] <==> Folded(key) !in env.refused)
    ensures TimestampValue(value).Ok? && Folded(key) in TIMESTAMP_KEYS && o.errs == [] ==>
      o.st.task == Task(st.task.uuid, Assign(st.task.data, Folded(key), Stamp(TimestampValue(value).value)))
  {
    match TimestampValue(value)
    case Err(p) => Outcome(st, [Complaint(ParseFailed(key, p))])
    case Ok(t) =>
      if Folded(key) in TIMESTAMP_KEYS then
        Attempt(st, SetTimestamp(env, st, Folded(key), t), "Failed setting timestamp for " + key + " (", ").")
      else Outcome(st, [])
  }

  /** `task_apply_description` and `task_apply_priority`: the value, or the empty text, under
      `property`; a refusal files one complaint starting with `before`. */
  function ApplyText(env: Env, st: Staged, property: string, value: Option<string>, before: string): (o: Outcome)
    ensures o.errs == [] <==> property !in env.refused
    ensures o.errs != [] ==> o == Outcome(st, [Complaint(before + Refusal(property))])
    ensures o.errs == [] ==> o.st.task == Task(st.task.uuid, Assign(st.task.data, property, Some(value.GetOr(""))))
  {
    match SetValue(env, st, property, Some(value.GetOr("")))
    case Ok(s) => Outcome(s, [])
    case Err(p) => Outcome(st, [Complaint(before + p)])
  }

  const DESCRIPTION_FAILED: string := "Invalid description given: "
  const PRIORITY_FAILED: string := "Invalid priority given: "

  /** The complaint for a forbidden field. */
  function ForbiddenMessage(key: string): string {
    "Manual modification of the field " + key + " is not allowed."
  }

  // ---------------------------------------------------------------- dependencies

  /** The items of a `depends` value: split on `,`, trimmed, empty ones dropped. */
  function DependencyItems(value: Option<string>): (r: seq<string>)
    ensures forall i :: 0 <= i < |r| ==> r[i] != []
  {
    NonEmptyTrimmed(Split(value.GetOr(""), {','}))
  }

  function NonEmptyTrimmed(parts: seq<string>): (r: seq<string>)
    ensures forall i :: 0 <= i < |r| ==> r[i] != []
  {
    if parts == [] then []
    else
      var t := Trim(parts[|parts| - 1]);
      NonEmptyTrimmed(parts[..|parts| - 1]) + (if t == [] then [] else [t])
  }

  /** Every item is trimmed already. */
  lemma DependencyItemsTrimmed(value: Option<string>)
    ensures forall i :: 0 <= i < |DependencyItems(value)| ==> Trim(DependencyItems(value)[i]) == DependencyItems(value)[i]
  {
    NonEmptyTrimmedTrimmed(Split(value.GetOr(""), {','}));
  }

  lemma {:induction false} NonEmptyTrimmedTrimmed(parts: seq<string>)
    ensures forall i :: 0 <= i < |NonEmptyTrimmed(parts)| ==> Trim(NonEmptyTrimmed(parts)[i]) == NonEmptyTrimmed(parts)[i]
  {
    if parts != [] {
      NonEmptyTrimmedTrimmed(parts[..|parts| - 1]);
      TrimIdempotent(parts[|parts| - 1]);
    }
  }

  /** An item's sign and reference: a leading `+` or `-` counts only when something follows;
      anything else adds the whole item. `true` means add. */
  function Signed(item: string): (bool, string)
    requires item != []
  {
    if (item[0] == '+' || item[0] == '-') && |item| > 1 then (item[0] == '+', item[1..])
    else (true, item)
  }

  /** A reference is first read as a UUID, then as a working-set number. */
  function Resolve(env: Env, reference: string): (r: Option<Uuid>)
    ensures ParseUuid(reference).Some? ==> r == ParseUuid(reference)
    ensures ParseUuid(reference).None? && ParseUsize(reference).None? ==> r.None?
    ensures r.Some? && ParseUuid(reference).None? ==> r.value in env.workingSet.Values
  {
    match ParseUuid(reference)
    case Some(u) => Some(u)
    case None =>
      match ParseUsize(reference)
      case Some(n) => if n in env.workingSet then Some(env.workingSet[n]) else None
      case None => None
  }

  function NotFound(reference: string): string {
    "Dependency task " + reference + " not found or invalid ID given."
  }

  function DependencyFailed(u: Uuid): string {
    "depends-error for uuid " + u + ": "
  }

  /** One item: an unresolved reference files the not-found complaint; a resolved one adds or
      removes the dependency. */
  function DependencyStep(env: Env, st: Staged, item: string): (o: Outcome)
    requires item != []
    ensures |o.errs| <= 1 && (o.errs != [] ==> o.st == st)
    ensures Resolve(env, Signed(item).1).None? ==> o.errs == [Complaint(NotFound(Signed(item).1))]
    ensures Resolve(env, Signed(item).1).Some? ==>
      var u := Resolve(env, Signed(item).1).value;
      (o.errs == [] <==> "dep_" + u !in env.refused) &&
      (o.errs == [] ==> o.st.task == Task(st.task.uuid, Assign(st.task.data, "dep_" + u, if Signed(item).0 then Some("") else None)))
  {
    var (add, reference) := Signed(item);
    match Resolve(env, reference)
    case None => Outcome(st, [Complaint(NotFound(reference))])
    case Some(u) => Attempt(st, SetDependency(env, st, u, add), DependencyFailed(u), "")
  }

  /** The items in order, each one's complaints after the earlier ones'. */
  function DependsFold(env: Env, st: Staged, items: seq<string>): (o: Outcome)
    requires forall i :: 0 <= i < |items| ==> items[i] != []
    ensures |o.errs| <= |items|
  {
    if items == [] then Outcome(st, [])
    else
      var o := DependsFold(env, st, items[..|items| - 1]);
      var o2 := DependencyStep(env, o.st, items[|items| - 1]);
      Outcome(o2.st, o.errs + o2.errs)
  }

  /** The first `i + 1` items are the first `i` and then item `i`. */
  lemma DependsFoldStep(env: Env, st: Staged, items: seq<string>, i: nat)
    requires i < |items| && forall j :: 0 <= j < |items| ==> items[j] != []
    ensures var o := DependsFold(env, st, items[..i]);
      DependsFold(env, st, items[..i + 1]) ==
      Outcome(DependencyStep(env, o.st, items[i]).st, o.errs + DependencyStep(env, o.st, items[i]).errs)
  {
    assert items[..i + 1][..i] == items[..i];
  }

  /** `task_apply_depends`. */
  function ApplyDepends(env: Env, st: Staged, value: Option<string>): Outcome {
    DependsFold(env, st, DependencyItems(value))
  }

  // ---------------------------------------------------------------- the engine

  /** The handlers that take the key without its sign need a sign to drop. */
  predicate Routable(d: Directive, k: Kind) {
    k == TagAddition || k == TagRemoval ==> |d.key| >= 1
  }

  /** One directive, sent to the handler of kind `k`. */
  function Route(env: Env, st: Staged, d: Directive, k: Kind): Outcome
    requires Routable(d, k)
  {
    match k
    case TagAddition => ApplyTag(env, st, d.key[1..], true)
    case TagRemoval => ApplyTag(env, st, d.key[1..], false)
    case Dependencies => ApplyDepends(env, st, d.value)
    case DescriptionChange => ApplyText(env, st, "description", d.value, DESCRIPTION_FAILED)
    case PriorityChange => ApplyText(env, st, "priority", d.value, PRIORITY_FAILED)
    case TimestampChange => ApplyTimestamp(env, st, d.key, d.value)
    case StatusChange => ApplyStatus(env, st, d.value)
    case Recurrence => ApplyRecur(env, st, d.value)
    case ForbiddenField => Outcome(st, [Complaint(ForbiddenMessage(d.key))])
    case ReservedProperty => Settle(st, SetValue(env, st, d.key, d.value))
    case UserAttribute => Settle(st, SetValue(env, st, d.key, Some(d.value.GetOr(""))))
  }

  /** One directive, routed by `Classify`. */
  function Apply(env: Env, st: Staged, d: Directive): Outcome {
    Route(env, st, d, Classify(d))
  }

  /** The directives in order, each one's complaints after the earlier ones'. */
  function ApplyAll(env: Env, st: Staged, ds: seq<Directive>): Outcome {
    if ds == [] then Outcome(st, [])
    else
      var o := ApplyAll(env, st, ds[..|ds| - 1]);
      var o2 := Apply(env, o.st, ds[|ds| - 1]);
      Outcome(o2.st, o.errs + o2.errs)
  }

  /** One more directive after the earlier ones. */
  lemma ApplyAllSnoc(env: Env, st: Staged, ds: seq<Directive>, d: Directive)
    ensures var o := ApplyAll(env, st, ds);
      ApplyAll(env, st, ds + [d]) == Outcome(Apply(env, o.st, d).st, o.errs + Apply(env, o.st, d).errs)
  {
    assert (ds + [d])[..|ds|] == ds;
  }

  /** `parse_apply_additions`: a line that does not split files the splitter's complaint and
      applies nothing. */
  function Additions(env: Env, st: Staged, line: string): Outcome {
    match ShellWords.Split(line)
    case Err(m) => Outcome(st, [Complaint(m)])
    case Ok(words) => ApplyAll(env, st, Tokens(words))
  }

  // ---------------------------------------------------------------- properties

  /** A directive's complaints do not depend on the state of the task it is applied to. */
  lemma ErrorsIndependent(env: Env, st1: Staged, st2: Staged, d: Directive)
    ensures Apply(env, st1, d).errs == Apply(env, st2, d).errs
  {
    RouteErrorsIndependent(env, st1, st2, d, Classify(d));
  }

  lemma RouteErrorsIndependent(env: Env, st1: Staged, st2: Staged, d: Directive, k: Kind)
    requires Routable(d, k)
    ensures Route(env, st1, d, k).errs == Route(env, st2, d, k).errs
  {
    match k
    case Dependencies => DependsErrorsIndependent(env, st1, st2, DependencyItems(d.value));
    case TagAddition =>
    case TagRemoval =>
    case DescriptionChange =>
    case PriorityChange =>
    case TimestampChange =>
    case StatusChange =>
    case Recurrence =>
    case ForbiddenField =>
    case ReservedProperty =>
    case UserAttribute =>
  }

  lemma {:induction false} DependsErrorsIndependent(env: Env, st1: Staged, st2: Staged, items: seq<string>)
    requires forall i :: 0 <= i < |items| ==> items[i] != []
    ensures DependsFold(env, st1, items).errs == DependsFold(env, st2, items).errs
  {
    if items != [] {
      DependsErrorsIndependent(env, st1, st2, items[..|items| - 1]);
    }
  }

  /** The same holds for a whole list of directives. */
  lemma {:induction false} AllErrorsIndependent(env: Env, st1: Staged, st2: Staged, ds: seq<Directive>)
    ensures ApplyAll(env, st1, ds).errs == ApplyAll(env, st2, ds).errs
  {
    if ds != [] {
      AllErrorsIndependent(env, st1, st2, ds[..|ds| - 1]);
      ErrorsIndependent(env, ApplyAll(env, st1, ds[..|ds| - 1]).st, ApplyAll(env, st2, ds[..|ds| - 1]).st, ds[|ds| - 1]);
    }
  }

  /** Each directive's complaints in the state `st`, in order. */
  function EachErrors(env: Env, st: Staged, ds: seq<Directive>): seq<FieldError> {
    if ds == [] then [] else EachErrors(env, st, ds[..|ds| - 1]) + Apply(env, st, ds[|ds| - 1]).errs
  }

  /** The complaints of a run are those each directive files on its own against the starting
      state: no directive's outcome changes what a later one reports. */
  lemma {:induction false} ApplyAllEach(env: Env, st: Staged, ds: seq<Directive>)
    ensures ApplyAll(env, st, ds).errs == EachErrors(env, st, ds)
  {
    if ds != [] {
      ApplyAllEach(env, st, ds[..|ds| - 1]);
      ErrorsIndependent(env, ApplyAll(env, st, ds[..|ds| - 1]).st, st, ds[|ds| - 1]);
    }
  }

  lemma EachSnoc(env: Env, st: Staged, ds: seq<Directive>, d: Directive)
    ensures EachErrors(env, st, ds + [d]) == EachErrors(env, st, ds) + Apply(env, st, d).errs
  {
    assert (ds + [d])[..|ds|] == ds;
  }

  lemma SnocSplit<T>(b: seq<T>)
    requires b != []
    ensures b == b[..|b| - 1] + [b[|b| - 1]]
  {
  }

  lemma AppendSnoc<T>(a: seq<T>, b: seq<T>)
    requires b != []
    ensures a + b == (a + b[..|b| - 1]) + [b[|b| - 1]]
  {
  }

  lemma Assoc<T>(p: seq<T>, q: seq<T>, r: seq<T>)
    ensures (p + q) + r == p + (q + r)
  {
  }

  lemma {:induction false} EachAppend(env: Env, st: Staged, a: seq<Directive>, b: seq<Directive>)
    ensures EachErrors(env, st, a + b) == EachErrors(env, st, a) + EachErrors(env, st, b)
  {
    if b == [] {
      assert a + b == a;
    } else {
      var b', x := b[..|b| - 1], b[|b| - 1];
      var ea, eb', ex := EachErrors(env, st, a), EachErrors(env, st, b'), Apply(env, st, x).errs;
      AppendSnoc(a, b);
      EachSnoc(env, st, a + b', x);
      SnocSplit(b);
      EachSnoc(env, st, b', x);
      EachAppend(env, st, a, b');
      Assoc(ea, eb', ex);
    }
  }

  lemma EachOne(env: Env, st: Staged, d: Directive)
    ensures EachErrors(env, st, [d]) == Apply(env, st, d).errs
  {
    assert [d][..0] == [];
  }

  lemma EachPair(env: Env, st: Staged, d0: Directive, d1: Directive)
    ensures EachErrors(env, st, [d0, d1]) == Apply(env, st, d0).errs + Apply(env, st, d1).errs
  {
    EachOne(env, st, d0);
    assert [d0, d1][..1] == [d0];
  }

  /** A state is carried to another when the edited task keeps its identity, the operations
      recorded so far stay at the head of the list, and, whenever the recorded operations committed
      on `tasks` gave the first task, they give the second. */
  ghost predicate Carries(tasks: Tasks, st: Staged, st2: Staged) {
    st2.task.uuid == st.task.uuid && st.ops <= st2.ops && (Tracks(tasks, st) ==> Tracks(tasks, st2))
  }

  /** A successful setter carries the state. */
  lemma SetCarries(env: Env, st: Staged, p: string, v: Option<string>, tasks: Tasks)
    ensures SetValue(env, st, p, v).Ok? ==> Carries(tasks, st, SetValue(env, st, p, v).value)
  {
    if SetValue(env, st, p, v).Ok? && Tracks(tasks, st) {
      SetValueTracks(env, st, p, v, tasks);
    }
  }

  /** Every handler keeps the recorded operations in step with the edited task: committing them
      gives exactly the task as edited, complaints or not. */
  lemma ApplyCarries(env: Env, st: Staged, d: Directive, tasks: Tasks)
    ensures Carries(tasks, st, Apply(env, st, d).st)
  {
    RouteCarries(env, st, d, Classify(d), tasks);
  }

  lemma RouteCarries(env: Env, st: Staged, d: Directive, k: Kind, tasks: Tasks)
    requires Routable(d, k)
    ensures Carries(tasks, st, Route(env, st, d, k).st)
  {
    match k
    case TagAddition =>
      SetCarries(env, st, "tag_" + d.key[1..], Some(""), tasks);
    case TagRemoval =>
      SetCarries(env, st, "tag_" + d.key[1..], None, tasks);
    case Dependencies =>
      DependsCarries(env, st, DependencyItems(d.value), tasks);
    case DescriptionChange =>
      SetCarries(env, st, "description", Some(d.value.GetOr("")), tasks);
    case PriorityChange =>
      SetCarries(env, st, "priority", Some(d.value.GetOr("")), tasks);
    case TimestampChange =>
      if TimestampValue(d.value).Ok? {
        SetCarries(env, st, Folded(d.key), Stamp(TimestampValue(d.value).value), tasks);
      }
    case StatusChange =>
      if d.value.Some? {
        SetCarries(env, st, "status", d.value, tasks);
      }
    case Recurrence =>
      RecurCarries(env, st, d.value, tasks);
    case ForbiddenField =>
    case ReservedProperty =>
      SetCarries(env, st, d.key, d.value, tasks);
    case UserAttribute =>
      SetCarries(env, st, d.key, Some(d.value.GetOr("")), tasks);
  }

  lemma RecurCarries(env: Env, st: Staged, value: Option<string>, tasks: Tasks)
    ensures Carries(tasks, st, ApplyRecur(env, st, value).st)
  {
    SetCarries(env, st, "recur", value, tasks);
    if SetValue(env, st, "recur", value).Ok? {
      var s1 := SetValue(env, st, "recur", value).value;
      SetCarries(env, s1, "status", Some("recurring"), tasks);
      if SetStatus(env, s1, Recurring).Ok? {
        var s2 := SetStatus(env, s1, Recurring).value;
        SetCarries(env, s2, "rtype", Some("periodic"), tasks);
      }
    }
  }

  lemma {:induction false} DependsCarries(env: Env, st: Staged, items: seq<string>, tasks: Tasks)
    requires forall i :: 0 <= i < |items| ==> items[i] != []
    ensures Carries(tasks, st, DependsFold(env, st, items).st)
  {
    if items != [] {
      var o := DependsFold(env, st, items[..|items| - 1]);
      DependsCarries(env, st, items[..|items| - 1], tasks);
      var item := items[|items| - 1];
      var (add, reference) := Signed(item);
      if Resolve(env, reference).Some? {
        var u := Resolve(env, reference).value;
        SetCarries(env, o.st, "dep_" + u, if add then Some("") else None, tasks);
      }
    }
  }

  /** The same for a list of directives. */
  lemma {:induction false} ApplyAllCarries(env: Env, st: Staged, ds: seq<Directive>, tasks: Tasks)
    ensures Carries(tasks, st, ApplyAll(env, st, ds).st)
  {
    if ds != [] {
      ApplyAllCarries(env, st, ds[..|ds| - 1], tasks);
      ApplyCarries(env, ApplyAll(env, st, ds[..|ds| - 1]).st, ds[|ds| - 1], tasks);
    }
  }

  /** And for a whole line. */
  lemma AdditionsCarries(env: Env, st: Staged, line: string, tasks: Tasks)
    ensures Carries(tasks, st, Additions(env, st, line).st)
  {
    if ShellWords.Split(line).Ok? {
      ApplyAllCarries(env, st, Tokens(ShellWords.Split(line).value), tasks);
    }
  }

  /** Every complaint of a directive is filed under `additional`. */
  lemma ApplyFiled(env: Env, st: Staged, d: Directive)
    ensures forall e :: e in Apply(env, st, d).errs ==> e.field == ADDITIONAL
  {
    RouteFiled(env, st, d, Classify(d));
  }

  lemma RouteFiled(env: Env, st: Staged, d: Directive, k: Kind)
    requires Routable(d, k)
    ensures forall e :: e in Route(env, st, d, k).errs ==> e.field == ADDITIONAL
  {
    if k == Dependencies {
      DependsFiled(env, st, DependencyItems(d.value));
    }
  }

  lemma {:induction false} DependsFiled(env: Env, st: Staged, items: seq<string>)
    requires forall i :: 0 <= i < |items| ==> items[i] != []
    ensures forall e :: e in DependsFold(env, st, items).errs ==> e.field == ADDITIONAL
  {
    if items != [] {
      DependsFiled(env, st, items[..|items| - 1]);
    }
  }

  lemma {:induction false} ApplyAllFiled(env: Env, st: Staged, ds: seq<Directive>)
    ensures forall e :: e in ApplyAll(env, st, ds).errs ==> e.field == ADDITIONAL
  {
    if ds != [] {
      ApplyAllFiled(env, st, ds[..|ds| - 1]);
      ApplyFiled(env, ApplyAll(env, st, ds[..|ds| - 1]).st, ds[|ds| - 1]);
    }
  }

  /** So is every complaint about a whole line. */
  lemma AdditionsFiled(env: Env, st: Staged, line: string)
    ensures forall e :: e in Additions(env, st, line).errs ==> e.field == ADDITIONAL
  {
    if ShellWords.Split(line).Ok? {
      ApplyAllFiled(env, st, Tokens(ShellWords.Split(line).value));
    }
  }

  /** A forbidden field, in any letter case and with any value, files exactly one complaint and
      changes nothing. */
  lemma ForbiddenOneError(env: Env, st: Staged, d: Directive)
    requires Folded(d.key) in FORBIDDEN_KEYS
    ensures Apply(env, st, d) == Outcome(st, [Complaint(ForbiddenMessage(d.key))])
  {
    ClassifyForbidden(d);
  }

  /** A line the shell splitter refuses files one complaint and applies no directive. */
  lemma ShellErrorOneError(env: Env, st: Staged, line: string)
    requires ShellWords.Split(line).Err?
    ensures Additions(env, st, line) == Outcome(st, [Complaint(ShellWords.MISSING_QUOTE)])
  {
    ShellWords.OnlyQuoteError(line, ShellWords.Delimiter, "", []);
  }

  /** The failing-add form input `priority:H due:"`. */
  lemma MissingQuoteAdditions(env: Env, st: Staged)
    ensures Additions(env, st, "priority:H" + " " + ("due:" + "\"")) == Outcome(st, [Complaint(ShellWords.MISSING_QUOTE)])
  {
    ShellWords.MissingQuoteExample();
  }

  // ---------------------------------------------------------------- the "breakit" modification

  /** Keys of lower-case letters fold to themselves. */
  lemma LowerKey(w: string)
    requires w != [] && forall i :: 0 <= i < |w| ==> 'a' <= w[i] <= 'z'
    ensures ToLower(w) == w && Folded(w) == w
  {
    LowerFixed(w);
    TrimNoop(w);
    FoldedFixed(w);
  }

  lemma FoldedFixed(w: string)
    requires ToLower(w) == w && Trim(w) == w
    ensures Folded(w) == w
  {
  }

  /** A `+` key with no value adds the tag named by the rest of the key. */
  lemma PlusKey(env: Env, s: Staged, key: string)
    requires key != [] && key[0] == '+'
    ensures Apply(env, s, Directive(key, None)) == ApplyTag(env, s, key[1..], true)
  {
    assert StartsWith(key, "+");
  }

  /** A `-` key with no value removes the tag named by the rest of the key. */
  lemma MinusKey(env: Env, s: Staged, key: string)
    requires key != [] && key[0] == '-'
    ensures Apply(env, s, Directive(key, None)) == ApplyTag(env, s, key[1..], false)
  {
    assert !StartsWith(key, "+") && StartsWith(key, "-");
  }

  /** A date key with text that is no date files the parse complaint. */
  lemma TimestampRejected(env: Env, s: Staged, key: string, text: string)
    requires key == "wait" || key == "due"
    requires Trim(text) != [] && ParseTimestamp(text).None?
    ensures Apply(env, s, Directive(key, Some(text))) ==
      Outcome(s, [Complaint(ParseFailed(key, TIMESTAMP_PARSE_ERROR))])
  {
    var d := Directive(key, Some(text));
    DateKind(d);
    ApplyTimestampKind(env, s, d);
  }

  lemma DateKind(d: Directive)
    requires d.key == "wait" || d.key == "due"
    ensures Classify(d) == TimestampChange
  {
    var k := d.key;
    LowerKey(k);
    assert !StartsWith(k, "+") && !StartsWith(k, "-") by {
      assert k[..1][0] == k[0] && k[0] != '+' && k[0] != '-';
    }
    assert ToLower(k) != "depends" && Folded(k) != "description" && Folded(k) != "priority" by {
      assert |k| <= 4;
    }
    assert Folded(k) in TIMESTAMP_KEYS;
  }

  lemma ApplyTimestampKind(env: Env, s: Staged, d: Directive)
    requires Classify(d) == TimestampChange
    ensures Apply(env, s, d) == ApplyTimestamp(env, s, d.key, d.value)
  {
  }

  /** Three letters are no date. */
  lemma ShortTextNoDate(text: string)
    requires |text| == 3 && forall i :: 0 <= i < 3 ==> 'a' <= text[i] <= 'z'
    ensures Trim(text) == text && ParseTimestamp(text).None?
  {
    TrimNoop(text);
  }

  /** A description directive goes to the description handler. */
  lemma DescriptionKey(env: Env, s: Staged, v: Option<string>)
    ensures Apply(env, s, Directive("description", v)) == ApplyText(env, s, "description", v, DESCRIPTION_FAILED)
  {
    var d := Directive("description", v);
    DescriptionKind(d);
    ApplyDescriptionKind(env, s, d);
  }

  lemma DescriptionKind(d: Directive)
    requires d.key == "description"
    ensures Classify(d) == DescriptionChange
  {
    var k := d.key;
    LowerKey(k);
    assert !StartsWith(k, "+") && !StartsWith(k, "-") by {
      assert k[..1][0] == k[0] == 'd';
    }
    assert ToLower(k) != "depends" by {
      assert k[2] != "depends"[2];
    }
  }

  lemma ApplyDescriptionKind(env: Env, s: Staged, d: Directive)
    requires Classify(d) == DescriptionChange
    ensures Apply(env, s, d) == ApplyText(env, s, "description", d.value, DESCRIPTION_FAILED)
  {
  }

  /** `project` with a value goes to the generic setter under that key. */
  lemma ProjectKey(env: Env, s: Staged, v: Option<string>)
    ensures Apply(env, s, Directive("project", v)) == Settle(s, SetValue(env, s, "project", v))
  {
    var d := Directive("project", v);
    ProjectKind(d);
    ApplyReservedKind(env, s, d);
  }

  lemma ProjectKind(d: Directive)
    requires d.key == "project"
    ensures Classify(d) == ReservedProperty
  {
    var k := d.key;
    LowerKey(k);
    ProjectApart(k);
    Backend.PropertyFromIff(k);
    assert !StartsWith(k, "+") && !StartsWith(k, "-") by {
      assert k[..1][0] == k[0] == 'p';
    }
    assert ToLower(k) != "depends" && Folded(k) == k;
  }

  lemma ProjectApart(f: string)
    requires f == "project"
    ensures f != [] && f[0] == 'p'
    ensures f != "depends" && f != "description" && f != "priority" && f != "status" && f != "recur"
    ensures f !in TIMESTAMP_KEYS && f !in FORBIDDEN_KEYS && f in Backend.RESERVED_NAMES
  {
  }

  lemma ApplyReservedKind(env: Env, s: Staged, d: Directive)
    requires Classify(d) == ReservedProperty
    ensures Apply(env, s, d) == Settle(s, SetValue(env, s, d.key, d.value))
  {
  }

  /** `start` is forbidden. */
  lemma StartKey(env: Env, s: Staged)
    ensures Apply(env, s, Directive("start", None)) == Outcome(s, [Complaint(ForbiddenMessage("start"))])
  {
    LowerKey("start");
    ForbiddenOneError(env, s, Directive("start", None));
  }

  /** A dependency on one UUID that the store accepts files nothing. */
  lemma DependsOnUuid(env: Env, s: Staged, u: Uuid)
    requires IsCanonicalUuid(u) && "dep_" + u !in env.refused
    ensures Apply(env, s, Directive("depends", Some(u))).errs == []
  {
    var d := Directive("depends", Some(u));
    DependsKind(d);
    ApplyDependsKind(env, s, d);
    OneUuidItems(u);
    OneItemFold(env, s, u);
    UuidStep(env, s, u);
  }

  /** A canonical UUID item adds that dependency. */
  lemma UuidStep(env: Env, s: Staged, u: Uuid)
    requires IsCanonicalUuid(u) && "dep_" + u !in env.refused
    ensures DependencyStep(env, s, u).errs == []
  {
    assert Signed(u) == (true, u) by { assert u[0] != '+' && u[0] != '-'; }
    ParseCanonicalUuid(u);
  }

  lemma OneItemFold(env: Env, s: Staged, item: string)
    requires item != []
    ensures DependsFold(env, s, [item]) == DependencyStep(env, s, item)
  {
    assert [item][..0] == [];
  }

  lemma DependsKind(d: Directive)
    requires d.key == "depends"
    ensures Classify(d) == Dependencies
  {
    LowerKey(d.key);
  }

  lemma ApplyDependsKind(env: Env, s: Staged, d: Directive)
    requires Classify(d) == Dependencies
    ensures Apply(env, s, d) == ApplyDepends(env, s, d.value)
  {
  }

  /** A single UUID is a single item. */
  lemma OneUuidItems(u: Uuid)
    requires IsCanonicalUuid(u)
    ensures DependencyItems(Some(u)) == [u]
  {
    assert forall i :: 0 <= i < |u| ==> u[i] !in {','};
    assert Split(u, {','}) == [u];
    TrimNoop(u);
    assert [u][..0] == [];
    assert NonEmptyTrimmed([u]) == NonEmptyTrimmed([]) + [u];
  }

  /** The directives of the modification test that tries to break the engine. */
  function BreakitDirectives(u: Uuid): seq<Directive> {
    [Directive("wait", Some("abc")), Directive("due", Some("def")), Directive("+concert", None),
     Directive("-twk", None), Directive("+d/c", None), Directive("-e/b", None),
     Directive("+WAITING", None), Directive("-PENDING", None), Directive("start", None),
     Directive("description", Some("This is a title with spaces")), Directive("depends", Some(u)),
     Directive("project", Some(""))]
  }

  /** The two dates that are no dates. */
  lemma BreakitDates(env: Env, b: Staged, k0: string, t0: string, k1: string, t1: string)
    requires k0 == "wait" && t0 == "abc" && k1 == "due" && t1 == "def"
    ensures EachErrors(env, b, [Directive(k0, Some(t0)), Directive(k1, Some(t1))]) ==
      [Complaint(ParseFailed(k0, TIMESTAMP_PARSE_ERROR)), Complaint(ParseFailed(k1, TIMESTAMP_PARSE_ERROR))]
  {
    WaitRejected(env, b);
    DueRejected(env, b);
    EachPair(env, b, Directive(k0, Some(t0)), Directive(k1, Some(t1)));
  }

  lemma WaitRejected(env: Env, b: Staged)
    ensures Apply(env, b, Directive("wait", Some("abc"))).errs == [Complaint(ParseFailed("wait", TIMESTAMP_PARSE_ERROR))]
  {
    DateRejected(env, b, "wait", "abc");
    EachOne(env, b, Directive("wait", Some("abc")));
  }

  lemma DueRejected(env: Env, b: Staged)
    ensures Apply(env, b, Directive("due", Some("def"))).errs == [Complaint(ParseFailed("due", TIMESTAMP_PARSE_ERROR))]
  {
    DateRejected(env, b, "due", "def");
    EachOne(env, b, Directive("due", Some("def")));
  }

  /** A date field given a three-letter word files the parse complaint. */
  lemma DateRejected(env: Env, b: Staged, k: string, t: string)
    requires (k == "wait" && t == "abc") || (k == "due" && t == "def")
    ensures EachErrors(env, b, [Directive(k, Some(t))]) == [Complaint(ParseFailed(k, TIMESTAMP_PARSE_ERROR))]
  {
    assert |t| == 3 && 'a' <= t[0] <= 'z' && 'a' <= t[1] <= 'z' && 'a' <= t[2] <= 'z';
    ShortTextNoDate(t);
    TimestampRejected(env, b, k, t);
    EachOne(env, b, Directive(k, Some(t)));
  }

  /** The two user tags, added and removed. */
  lemma BreakitUserTags(env: Env, b: Staged, k0: string, k1: string)
    requires env.refused == {} && k0 == "+concert" && k1 == "-twk"
    ensures EachErrors(env, b, [Directive(k0, None), Directive(k1, None)]) == []
  {
    var d0, d1 := Directive(k0, None), Directive(k1, None);
    UserTagAccepted(env, b, k0);
    UserTagAccepted(env, b, k1);
    EachAppend(env, b, [d0], [d1]);
    assert [d0] + [d1] == [d0, d1];
  }

  /** A lower-case tag name, added or removed, files nothing when the store refuses nothing. */
  lemma UserTagAccepted(env: Env, b: Staged, k: string)
    requires env.refused == {} && (k == "+concert" || k == "-twk")
    ensures EachErrors(env, b, [Directive(k, None)]) == []
  {
    var name := k[1..];
    if k == "+concert" {
      PlusKey(env, b, k);
      assert name == "concert";
    } else {
      MinusKey(env, b, k);
      assert name == "twk";
    }
    LowerWordTag(name);
    EachOne(env, b, Directive(k, None));
  }

  /** The two names that are no tags. */
  lemma BreakitBadTags(env: Env, b: Staged, k0: string, k1: string)
    requires k0 == "+d/c" && k1 == "-e/b"
    ensures EachErrors(env, b, [Directive(k0, None), Directive(k1, None)]) ==
      [Complaint(InvalidTag(k0[1..])), Complaint(InvalidTag(k1[1..]))]
  {
    PlusKey(env, b, k0);
    MinusKey(env, b, k1);
    assert k0[1..] == "d/c" && k1[1..] == "e/b";
    TagExamplesRejected();
    EachPair(env, b, Directive(k0, None), Directive(k1, None));
  }

  /** The two synthetic tags. */
  lemma BreakitSyntheticTags(env: Env, b: Staged, k0: string, k1: string)
    requires k0 == "+WAITING" && k1 == "-PENDING"
    ensures EachErrors(env, b, [Directive(k0, None), Directive(k1, None)]) ==
      [Complaint(SYNTHETIC_TAG_ERROR), Complaint(SYNTHETIC_TAG_ERROR)]
  {
    PlusKey(env, b, k0);
    MinusKey(env, b, k1);
    assert k0[1..] == "WAITING" && k1[1..] == "PENDING";
    TagExamplesSynthetic();
    EachPair(env, b, Directive(k0, None), Directive(k1, None));
  }

  /** `start` is refused; any description is accepted. */
  lemma BreakitStart(env: Env, b: Staged, k0: string, k1: string, v1: string)
    requires env.refused == {} && k0 == "start" && k1 == "description"
    ensures EachErrors(env, b, [Directive(k0, None), Directive(k1, Some(v1))]) == [Complaint(ForbiddenMessage(k0))]
  {
    StartKey(env, b);
    DescriptionKey(env, b, Some(v1));
    EachPair(env, b, Directive(k0, None), Directive(k1, Some(v1)));
  }

  /** A dependency on a UUID and an empty project are accepted. */
  lemma BreakitDepends(env: Env, b: Staged, u: Uuid, k0: string, k1: string, v1: string)
    requires env.refused == {} && IsCanonicalUuid(u) && k0 == "depends" && k1 == "project"
    ensures EachErrors(env, b, [Directive(k0, Some(u)), Directive(k1, Some(v1))]) == []
  {
    DependsOnUuid(env, b, u);
    ProjectKey(env, b, Some(v1));
    EachPair(env, b, Directive(k0, Some(u)), Directive(k1, Some(v1)));
  }

  /** Six groups of directives file their complaints in order. */
  lemma EachSix(env: Env, st: Staged, g1: seq<Directive>, g2: seq<Directive>, g3: seq<Directive>,
                g4: seq<Directive>, g5: seq<Directive>, g6: seq<Directive>)
    ensures ApplyAll(env, st, g1 + g2 + g3 + g4 + g5 + g6).errs ==
      EachErrors(env, st, g1) + EachErrors(env, st, g2) + EachErrors(env, st, g3) +
      EachErrors(env, st, g4) + EachErrors(env, st, g5) + EachErrors(env, st, g6)
  {
    ApplyAllEach(env, st, g1 + g2 + g3 + g4 + g5 + g6);
    EachAppend(env, st, g1, g2);
    EachAppend(env, st, g1 + g2, g3);
    EachAppend(env, st, g1 + g2 + g3, g4);
    EachAppend(env, st, g1 + g2 + g3 + g4, g5);
    EachAppend(env, st, g1 + g2 + g3 + g4 + g5, g6);
  }

  lemma SevenComplaints(c0: FieldError, c1: FieldError, c2: FieldError, c3: FieldError, c4: FieldError,
                        c5: FieldError, c6: FieldError)
    ensures [c0, c1] + [] + [c2, c3] + [c4, c5] + [c6] + [] == [c0, c1, c2, c3, c4, c5, c6]
  {
  }

  /** With a store that refuses nothing, the twelve directives file exactly seven complaints, all
      under `additional`: the two dates, the two malformed tags, the two synthetic tags and
      `start`; the other five directives succeed and do not stop the ones after them. */
  lemma Breakit(env: Env, st: Staged, u: Uuid)
    requires env.refused == {} && IsCanonicalUuid(u)
    ensures ApplyAll(env, st, BreakitDirectives(u)).errs ==
      [Complaint(ParseFailed("wait", TIMESTAMP_PARSE_ERROR)), Complaint(ParseFailed("due", TIMESTAMP_PARSE_ERROR)),
       Complaint(InvalidTag("d/c")), Complaint(InvalidTag("e/b")),
       Complaint(SYNTHETIC_TAG_ERROR), Complaint(SYNTHETIC_TAG_ERROR),
       Complaint(ForbiddenMessage("start"))]
  {
    var dates := [Directive("wait", Some("abc")), Directive("due", Some("def"))];
    var userTags := [Directive("+concert", None), Directive("-twk", None)];
    var badTags := [Directive("+d/c", None), Directive("-e/b", None)];
    var synthetic := [Directive("+WAITING", None), Directive("-PENDING", None)];
    var start := [Directive("start", None), Directive("description", Some("This is a title with spaces"))];
    var deps := [Directive("depends", Some(u)), Directive("project", Some(""))];
    assert BreakitDirectives(u) == dates + userTags + badTags + synthetic + start + deps;
    EachSix(env, st, dates, userTags, badTags, synthetic, start, deps);
    BreakitDates(env, st, "wait", "abc", "due", "def");
    BreakitUserTags(env, st, "+concert", "-twk");
    BreakitBadTags(env, st, "+d/c", "-e/b");
    BreakitSyntheticTags(env, st, "+WAITING", "-PENDING");
    BreakitStart(env, st, "start", "description", "This is a title with spaces");
    BreakitDepends(env, st, u, "depends", "project", "");
    assert "+d/c"[1..] == "d/c" && "-e/b"[1..] == "e/b";
    var c0 := Complaint(ParseFailed("wait", TIMESTAMP_PARSE_ERROR));
    var c1 := Complaint(ParseFailed("due", TIMESTAMP_PARSE_ERROR));
    var c2 := Complaint(InvalidTag("d/c"));
    var c3 := Complaint(InvalidTag("e/b"));
    var c4 := Complaint(SYNTHETIC_TAG_ERROR);
    var c6 := Complaint(ForbiddenMessage("start"));
    assert ApplyAll(env, st, BreakitDirectives(u)).errs == [c0, c1] + [] + [c2, c3] + [c4, c4] + [c6] + [];
    SevenComplaints(c0, c1, c2, c3, c4, c4, c6);
  }
}
