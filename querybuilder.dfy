/** The filter bar's state: the report, status, priority, project and tags the user has toggled
    on, and the word list handed to the task command (or shown as the filter text). Each request
    toggles one thing; the state is kept between requests. */
module QueryBuilder {
  import opened Wrappers
  import opened Strings

  // ---------------------------------------------------------------- the three settings

  datatype TaskReport = Next | New | Ready | All | NotSet
  datatype TaskPriority = High | Medium | Low | NotSet
  datatype TaskStatus = Pending | Completed | Waiting | NotSet

  /** `Display` for `TaskReport`. */
  function ReportName(r: TaskReport): string {
    match r
    case Next => "next"
    case New => "new"
    case Ready => "ready"
    case All => "all"
    case NotSet => ""
  }

  /** `From<String>` for `TaskReport`: the four names, anything else unset. */
  function ReportFrom(s: string): TaskReport {
    if s == "ready" then Ready
    else if s == "new" then New
    else if s == "next" then Next
    else if s == "all" then All
    else TaskReport.NotSet
  }

  /** Every report survives printing and reading back, and a name that reads as a report is
      that report's printed name. */
  lemma ReportRoundTrip(r: TaskReport, s: string)
    ensures ReportFrom(ReportName(r)) == r
    ensures !ReportFrom(s).NotSet? ==> ReportName(ReportFrom(s)) == s
  {
  }

  /** `Display` for `TaskPriority`: the prefixed form. */
  function PriorityName(p: TaskPriority): string {
    match p
    case High => "priority:H"
    case Medium => "priority:M"
    case Low => "priority:L"
    case NotSet => ""
  }

  /** `From<String>` for `TaskPriority`: the bare letter or the prefixed form. */
  function PriorityFrom(s: string): TaskPriority {
    if s == "H" || s == "priority:H" then High
    else if s == "M" || s == "priority:M" then Medium
    else if s == "L" || s == "priority:L" then Low
    else TaskPriority.NotSet
  }

  /** Printing then reading gives every priority back; a string that reads as a priority is its
      printed form or that form without the `priority:` prefix. */
  lemma PriorityRoundTrip(p: TaskPriority, s: string)
    ensures PriorityFrom(PriorityName(p)) == p
    ensures !PriorityFrom(s).NotSet? ==>
      s == PriorityName(PriorityFrom(s)) || "priority:" + s == PriorityName(PriorityFrom(s))
  {
  }

  /** `Display` for `TaskStatus`: the prefixed form. */
  function StatusName(s: TaskStatus): string {
    match s
    case Pending => "status:pending"
    case Completed => "status:completed"
    case Waiting => "status:waiting"
    case NotSet => ""
  }

  /** `From<String>` for `TaskStatus`: the bare name or the prefixed form. */
  function StatusFrom(s: string): TaskStatus {
    if s == "pending" || s == "status:pending" then Pending
    else if s == "completed" || s == "status:completed" then Completed
    else if s == "waiting" || s == "status:waiting" then Waiting
    else TaskStatus.NotSet
  }

  lemma StatusRoundTrip(t: TaskStatus, s: string)
    ensures StatusFrom(StatusName(t)) == t
    ensures !StatusFrom(s).NotSet? ==>
      s == StatusName(StatusFrom(s)) || "status:" + s == StatusName(StatusFrom(s))
  {
  }

  /** A string that differs from `prefix` at position `i` does not start with it. */
  lemma Differs(s: string, prefix: string, i: nat)
    requires i < |prefix| && (i < |s| ==> s[i] != prefix[i])
    ensures !StartsWith(s, prefix)
  {
    if |prefix| <= |s| {
      assert s[..|prefix|][i] == s[i];
    }
  }

  /** The word `priority:H` is a priority word, and no project word or tag. */
  lemma PriorityWord(h: string)
    requires h == "priority:H"
    ensures StartsWith(h, "priority:") && !StartsWith(h, "project:") && !StartsWith(h, "+")
    ensures PriorityFrom(h) == High && PriorityName(High) == h
  {
    assert h[..9] == "priority:";
    Differs(h, "project:", 2);
    Differs(h, "+", 0);
  }

  // ---------------------------------------------------------------- the state and its updates

  /** The request parameters the builder reads: a report name, a status name, one toggled filter
      word, and the word for a task entry. */
  datatype Params = Params(report: Option<string>, status: Option<string>, query: Option<string>,
                           taskEntry: Option<string>)

  const NO_PARAMS: Params := Params(None, None, None, None)

  datatype Query = Query(status: TaskStatus, priority: TaskPriority, report: TaskReport,
                         tags: seq<string>, project: Option<string>, filter: Option<string>,
                         newEntry: Option<string>)

  /** The default: the `next` report and nothing else. */
  const DEFAULT_QUERY: Query :=
    Query(TaskStatus.NotSet, TaskPriority.NotSet, Next, [], None, None, None)

  /** `retain_mut(|iv| iv != t)`: every occurrence of `t` dropped, the rest kept in order. */
  function Without(tags: seq<string>, t: string): (r: seq<string>)
    ensures forall x :: x in r <==> x in tags && x != t
    ensures t !in tags ==> r == tags
  {
    if tags == [] then []
    else if tags[0] == t then Without(tags[1..], t)
    else
      assert tags == [tags[0]] + tags[1..];
      [tags[0]] + Without(tags[1..], t)
  }

  /** The report step: a named report replaces the report and clears the status. */
  function AfterReport(q: Query, report: Option<string>): Query {
    match report
    case None => q
    case Some(rep) => q.(report := ReportFrom(rep), status := TaskStatus.NotSet)
  }

  /** The status step: the status already shown toggles off (back to `next`); another one
      replaces it and clears the report. */
  function AfterStatus(q: Query, status: Option<string>): Query {
    match status
    case None => q
    case Some(name) =>
      var s := StatusFrom(name);
      if s == q.status then q.(status := TaskStatus.NotSet, report := Next)
      else q.(status := s, report := TaskReport.NotSet)
  }

  /** The filter-word step: `project:…` toggles the project, `+…` the tag, `priority:…` the
      priority; any other word changes nothing. */
  function AfterQuery(q: Query, query: Option<string>): Query {
    match query
    case None => q
    case Some(t) =>
      if StartsWith(t, "project:") then
        q.(project := if q.project == Some(t) then None else Some(t))
      else if StartsWith(t, "+") then
        q.(tags := if t in q.tags then Without(q.tags, t) else q.tags + [t])
      else if StartsWith(t, "priority:") then
        var tp := PriorityFrom(t);
        q.(priority := if q.priority == tp then TaskPriority.NotSet else tp)
      else q
  }

  /** `update`: report, then status, then the filter word; the entry word is always replaced. */
  function Updated(q: Query, p: Params): Query {
    AfterQuery(AfterStatus(AfterReport(q, p.report), p.status), p.query).(newEntry := p.taskEntry)
  }

  /** An update never touches the stored filter, always replaces the entry word, and leaves
      alone what its parameters do not name. */
  lemma UpdateFrame(q: Query, p: Params)
    ensures Updated(q, p).filter == q.filter && Updated(q, p).newEntry == p.taskEntry
    ensures p.query.None? ==>
      Updated(q, p).tags == q.tags && Updated(q, p).project == q.project && Updated(q, p).priority == q.priority
    ensures p.report.None? && p.status.None? ==>
      Updated(q, p).status == q.status && Updated(q, p).report == q.report
  {
  }

  /** A report parameter selects that report and clears the status. */
  lemma ReportSelects(q: Query, rep: string, p: Params)
    requires p.report == Some(rep) && p.status.None?
    ensures Updated(q, p).report == ReportFrom(rep) && Updated(q, p).status.NotSet?
  {
  }

  /** Passing the shown status shows none and the `next` report; passing another shows it and
      no report; passing a known status twice gives the status back. */
  lemma StatusToggles(q: Query, name: string)
    ensures var u := Updated(q, Params(None, Some(name), None, q.newEntry));
      (StatusFrom(name) == q.status ==> u.status.NotSet? && u.report == Next) &&
      (StatusFrom(name) != q.status ==> u.status == StatusFrom(name) && u.report.NotSet?)
    ensures var p := Params(None, Some(name), None, q.newEntry);
      !StatusFrom(name).NotSet? && (q.status.NotSet? || q.status == StatusFrom(name)) ==>
        Updated(Updated(q, p), p).status == q.status
  {
  }

  /** A `+tag` word flips that tag's membership and keeps every other tag; toggled twice from
      absent, the tag list is as before. */
  lemma TagToggles(q: Query, t: string)
    requires StartsWith(t, "+")
    ensures var u := Updated(q, Params(None, None, Some(t), q.newEntry));
      (t in u.tags <==> t !in q.tags) && (forall x :: x != t ==> (x in u.tags <==> x in q.tags))
    ensures var p := Params(None, None, Some(t), q.newEntry);
      t !in q.tags ==> Updated(Updated(q, p), p) == q
  {
    var p := Params(None, None, Some(t), q.newEntry);
    Differs(t, "project:", 0);
    if t !in q.tags {
      var u := Updated(q, p);
      assert u.tags == q.tags + [t];
      assert Without(q.tags + [t], t) == q.tags by { WithoutAppended(q.tags, t); }
    }
  }

  lemma {:induction false} WithoutAppended(tags: seq<string>, t: string)
    requires t !in tags
    ensures Without(tags + [t], t) == tags
  {
    if tags == [] {
      assert [] + [t] == [t];
    } else {
      assert (tags + [t])[1..] == tags[1..] + [t];
      WithoutAppended(tags[1..], t);
      assert tags == [tags[0]] + tags[1..];
    }
  }

  /** A `project:` word sets that project, or clears it when it is the one shown; twice from
      none, there is none again. */
  lemma ProjectToggles(q: Query, t: string)
    requires StartsWith(t, "project:")
    ensures var u := Updated(q, Params(None, None, Some(t), q.newEntry));
      (q.project == Some(t) ==> u.project.None?) && (q.project != Some(t) ==> u.project == Some(t))
    ensures var p := Params(None, None, Some(t), q.newEntry);
      q.project.None? ==> Updated(Updated(q, p), p) == q
  {
  }

  /** A known `priority:` word sets that priority or clears it when it is the one shown; twice
      from none, there is none again. */
  lemma PriorityToggles(q: Query, t: string)
    requires StartsWith(t, "priority:")
    ensures var u := Updated(q, Params(None, None, Some(t), q.newEntry));
      (q.priority == PriorityFrom(t) ==> u.priority.NotSet?) &&
      (q.priority != PriorityFrom(t) ==> u.priority == PriorityFrom(t))
    ensures var p := Params(None, None, Some(t), q.newEntry);
      q.priority.NotSet? ==> Updated(Updated(q, p), p) == q
  {
    assert t[..9] == "priority:";
    Differs(t, "project:", 2);
    Differs(t, "+", 0);
  }

  // ---------------------------------------------------------------- the word list

  function Opt(w: Option<string>): seq<string> {
    match w
    case None => []
    case Some(x) => [x]
  }

  function Shown(word: string, set_: bool): seq<string> {
    if set_ then [word] else []
  }

  /** The words before `export`: filter, priority, project, tags, status, entry, in that order. */
  function Prefix(q: Query): seq<string> {
    Opt(q.filter) + Shown(PriorityName(q.priority), !q.priority.NotSet?) + Opt(q.project) + q.tags
      + Shown(StatusName(q.status), !q.status.NotSet?) + Opt(q.newEntry)
  }

  /** The words after `export`: the report, when one is set. */
  function Suffix(q: Query): seq<string> {
    Shown(ReportName(q.report), !q.report.NotSet?)
  }

  /** `get_query(with_export)`. */
  function QueryWords(q: Query, withExport: bool): seq<string> {
    Prefix(q) + Shown("export", withExport) + Suffix(q)
  }

  /** `export` appears only when asked for, and then with at most the report after it. */
  lemma ExportPlacement(q: Query)
    ensures exists k :: (0 <= k <= |QueryWords(q, false)| && |QueryWords(q, false)| - k <= 1 &&
      QueryWords(q, true) == QueryWords(q, false)[..k] + ["export"] + QueryWords(q, false)[k..])
  {
    var k := |Prefix(q)|;
    var w := QueryWords(q, false);
    assert w == Prefix(q) + Suffix(q);
    assert w[..k] == Prefix(q) && w[k..] == Suffix(q);
  }

  /** The report, when set, is the last word; otherwise no report word is added. */
  lemma ReportLast(q: Query, withExport: bool)
    ensures !q.report.NotSet? ==> QueryWords(q, withExport)[|QueryWords(q, withExport)| - 1] == ReportName(q.report)
    ensures q.report.NotSet? ==> QueryWords(q, withExport) == Prefix(q) + Shown("export", withExport)
  {
  }

  // ---------------------------------------------------------------- the builder as the source keeps it

  class TaskQuery {
    var status: TaskStatus
    var priority: TaskPriority
    var report: TaskReport
    var tags: seq<string>
    var project: Option<string>
    var filter: Option<string>
    var newEntry: Option<string>

    function Snapshot(): Query
      reads this
    {
      Query(status, priority, report, tags, project, filter, newEntry)
    }

    /** `TaskQuery::default`. */
    constructor ()
      ensures Snapshot() == DEFAULT_QUERY
    {
      status, priority, report := TaskStatus.NotSet, TaskPriority.NotSet, Next;
      tags, project, filter, newEntry := [], None, None, None;
    }

    /** `TaskQuery::new`: the default, then one update. */
    constructor FromParams(p: Params)
      ensures Snapshot() == Updated(DEFAULT_QUERY, p)
    {
      status, priority, report := TaskStatus.NotSet, TaskPriority.NotSet, Next;
      tags, project, filter, newEntry := [], None, None, None;
      new;
      Update(p);
    }

    /** `update`, step by step on the fields. */
    method Update(p: Params)
      modifies this
      ensures Snapshot() == Updated(old(Snapshot()), p)
    {
      if p.report.Some? {
        report := ReportFrom(p.report.value);
        status := TaskStatus.NotSet;
      }
      if p.status.Some? {
        var s := StatusFrom(p.status.value);
        if s == status {
          status := TaskStatus.NotSet;
          report := Next;
        } else {
          status := s;
          report := TaskReport.NotSet;
        }
      }
      if p.query.Some? {
        var t := p.query.value;
        if StartsWith(t, "project:") {
          if project == Some(t) {
            project := None;
          } else {
            project := Some(t);
          }
        } else if StartsWith(t, "+") {
          if t in tags {
            tags := Without(tags, t);
          } else {
            tags := tags + [t];
          }
        } else if StartsWith(t, "priority:") {
          var tp := PriorityFrom(t);
          if priority == tp {
            priority := TaskPriority.NotSet;
          } else {
            priority := tp;
          }
        }
      }
      newEntry := p.taskEntry;
    }

    /** The words `get_query` pushes before `export`, one field at a time. */
    method PrefixWords() returns (prefix: seq<string>)
      ensures prefix == Prefix(Snapshot())
    {
      prefix := [];
      if filter.Some? {
        prefix := prefix + [filter.value];
      }
      assert prefix == Opt(filter);
      if !priority.NotSet? {
        prefix := prefix + [PriorityName(priority)];
      }
      assert prefix == Opt(filter) + Shown(PriorityName(priority), !priority.NotSet?);
      if project.Some? {
        prefix := prefix + [project.value];
      }
      ghost var upToProject := prefix;
      assert upToProject == Opt(filter) + Shown(PriorityName(priority), !priority.NotSet?) + Opt(project);
      if |tags| > 0 {
        prefix := prefix + tags;
      } else {
        assert prefix + tags == prefix;
      }
      assert prefix == upToProject + tags;
      if !status.NotSet? {
        prefix := prefix + [StatusName(status)];
      }
      assert prefix == upToProject + tags + Shown(StatusName(status), !status.NotSet?);
      if newEntry.Some? {
        prefix := prefix + [newEntry.value];
      }
    }

    /** `get_query`: the prefix words, then `export` when asked, then the report. */
    method GetQuery(withExport: bool) returns (output: seq<string>)
      ensures output == QueryWords(Snapshot(), withExport)
    {
      var suffix: seq<string> := [];
      if !report.NotSet? {
        suffix := suffix + [ReportName(report)];
      }
      var prefix := PrefixWords();
      output := prefix;
      if withExport {
        output := output + ["export"];
      }
      output := output + suffix;
    }

    /** `as_filter_text`: the words without `export`. */
    method AsFilterText() returns (output: seq<string>)
      ensures output == QueryWords(Snapshot(), false)
      ensures output == Prefix(Snapshot()) + Suffix(Snapshot())
    {
      output := GetQuery(false);
    }
  }

  // ---------------------------------------------------------------- the documented examples

  /** A `priority:H` query, then the `pending` status: the filter reads `priority:H status:pending`. */
  lemma PriorityThenStatus(h: string, pending: string)
    requires h == "priority:H" && pending == "pending"
    ensures var q := Updated(Updated(DEFAULT_QUERY, NO_PARAMS.(query := Some(h))), NO_PARAMS.(status := Some(pending)));
      QueryWords(q, false) == [h, "status:" + pending]
  {
    assert StatusFrom(pending) == Pending;
    assert StatusName(Pending) == "status:" + pending;
    PriorityWord(h);
  }

  /** `priority:H` and the `pending` status in one request read the same. */
  lemma PriorityWithStatus(h: string, pending: string)
    requires h == "priority:H" && pending == "pending"
    ensures var q := Updated(DEFAULT_QUERY, Params(None, Some(pending), Some(h), None));
      QueryWords(q, false) == [h, "status:" + pending]
  {
    assert StatusFrom(pending) == Pending;
    assert StatusName(Pending) == "status:" + pending;
    PriorityWord(h);
  }

  /** `priority:H` alone keeps the default report: `priority:H next`. */
  lemma PriorityAlone(h: string)
    requires h == "priority:H"
    ensures QueryWords(Updated(DEFAULT_QUERY, NO_PARAMS.(query := Some(h))), false) == [h, "next"]
  {
    PriorityWord(h);
  }

  /** No parameters: just the default report. */
  lemma NoParams()
    ensures QueryWords(Updated(DEFAULT_QUERY, NO_PARAMS), false) == ["next"]
  {
  }

  /** The `completed` status replaces the report: `status:completed`. */
  lemma CompletedStatus(c: string)
    requires c == "completed"
    ensures QueryWords(Updated(DEFAULT_QUERY, NO_PARAMS.(status := Some(c))), false) == ["status:" + c]
  {
    assert StatusFrom(c) == Completed;
    assert StatusName(Completed) == "status:" + c;
  }
}
