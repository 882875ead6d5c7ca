/** The backend tables of the web front end: the reserved task properties, the status words, the
    hook events and their standard-input payload, the conversion of a stored task into the task
    the pages show, the project list and the grouping of the undo log. */
module Backend {
  import opened Wrappers
  import opened Strings
  import opened Store

  // ---------------------------------------------------------------- reserved properties

  /** `TaskProperties`: the properties the store itself interprets. */
  datatype TaskProperty = Description | Due | Modified | Start | Status | Priority | Wait | End | Entry | Project

  /** The order in which `try_from` tries the properties. */
  const PROPERTIES: seq<TaskProperty> := [Description, Due, Modified, Start, Status, Priority, Wait, End, Entry, Project]

  /** `to_string`: the property's key in the task map. */
  function PropertyName(p: TaskProperty): string {
    match p
    case Description => "description"
    case Due => "due"
    case Modified => "modified"
    case Start => "start"
    case Status => "status"
    case Priority => "priority"
    case Wait => "wait"
    case End => "end"
    case Entry => "entry"
    case Project => "project"
  }

  /** The names of all reserved properties. */
  const RESERVED_NAMES: set<string> :=
    {"description", "due", "modified", "start", "status", "priority", "wait", "end", "entry", "project"}

  /** The first property of `ps` whose name is `key`. */
  function FindProperty(ps: seq<TaskProperty>, key: string): (r: Option<TaskProperty>)
    ensures r.Some? ==> r.value in ps && PropertyName(r.value) == key
    ensures r.None? ==> forall i :: 0 <= i < |ps| ==> PropertyName(ps[i]) != key
  {
    if ps == [] then None
    else if PropertyName(ps[0]) == key then Some(ps[0])
    else FindProperty(ps[1..], key)
  }

  function NotReserved(s: string): string {
    "Property " + s + " is not a reserved property."
  }

  /** `TaskProperties::try_from`: the property named by the lower-cased input; the error names the
      input as given. */
  function PropertyFrom(s: string): (r: Result<TaskProperty, string>)
    ensures r.Ok? ==> PropertyName(r.value) == ToLower(s)
    ensures r.Err? ==> r.error == NotReserved(s)
  {
    match FindProperty(PROPERTIES, ToLower(s))
    case Some(p) => Ok(p)
    case None => Err(NotReserved(s))
  }

  /** `try_from` accepts exactly the inputs whose lower-case form is one of the ten names. */
  lemma PropertyFromIff(s: string)
    ensures PropertyFrom(s).Ok? <==> ToLower(s) in RESERVED_NAMES
  {
    var key := ToLower(s);
    if key in RESERVED_NAMES {
      var p := NamedBy(key);
      assert PropertyName(PROPERTIES[IndexOf(p)]) == key;
    } else if PropertyFrom(s).Ok? {
      NameReserved(PropertyFrom(s).value);
    }
  }

  /** A property's name is its own lower-case form and names it back. */
  lemma PropertyRoundTrip(p: TaskProperty)
    ensures PropertyFrom(PropertyName(p)) == Ok(p)
  {
    var n := PropertyName(p);
    NameLower(p);
    assert PropertyName(PROPERTIES[IndexOf(p)]) == n;
    NamesDistinct(PropertyFrom(n).value, p);
  }

  /** The property a reserved name stands for. */
  function NamedBy(key: string): (p: TaskProperty)
    requires key in RESERVED_NAMES
    ensures PropertyName(p) == key
  {
    if key == "description" then Description else if key == "due" then Due
    else if key == "modified" then Modified else if key == "start" then Start
    else if key == "status" then Status else if key == "priority" then Priority
    else if key == "wait" then Wait else if key == "end" then End
    else if key == "entry" then Entry else Project
  }

  lemma NameReserved(p: TaskProperty)
    ensures PropertyName(p) in RESERVED_NAMES
  {
  }

  lemma NamesDistinct(p: TaskProperty, q: TaskProperty)
    requires PropertyName(p) == PropertyName(q)
    ensures p == q
  {
  }

  lemma NameLower(p: TaskProperty)
    ensures ToLower(PropertyName(p)) == PropertyName(p)
  {
    var n := PropertyName(p);
    assert forall i :: 0 <= i < |n| ==> 'a' <= n[i] <= 'z';
    LowerFixed(n);
  }

  function IndexOf(p: TaskProperty): (i: nat)
    ensures i < |PROPERTIES| && PROPERTIES[i] == p
  {
    match p
    case Description => 0
    case Due => 1
    case Modified => 2
    case Start => 3
    case Status => 4
    case Priority => 5
    case Wait => 6
    case End => 7
    case Entry => 8
    case Project => 9
  }

  /** Reading is case-insensitive: an upper-case spelling names the same property. */
  lemma PropertyCaseExample()
    ensures PropertyFrom("DUE") == Ok(Due)
  {
    assert ToLower("DUE") == "due" by {
      var l := ToLower("DUE");
      assert l[0] == LowerChar('D') && l[1] == LowerChar('U') && l[2] == LowerChar('E');
    }
    PropertyRoundTrip(Due);
  }

  // ---------------------------------------------------------------- status words

  /** `convert_task_status`: the four status words, case-sensitively; any other text is kept. */
  function ConvertTaskStatus(s: string): (r: Store.Status)
    ensures r.Unknown? <==> s !in {"pending", "completed", "deleted", "recurring"}
    ensures StatusToTaskmap(r) == s
  {
    match s
    case "pending" => Pending
    case "completed" => Completed
    case "deleted" => Deleted
    case "recurring" => Recurring
    case _ => Unknown(s)
  }

  /** A status the front end writes reads back from the store as the same status. */
  lemma ConvertThenStore(s: string)
    ensures StatusFromTaskmap(StatusToTaskmap(ConvertTaskStatus(s))) == ConvertTaskStatus(s)
  {
  }

  // ---------------------------------------------------------------- hooks

  datatype TaskEvent = OnAdd | OnModify

  /** The prefix of the names of the scripts run for an event. */
  function EventName(e: TaskEvent): string {
    match e
    case OnAdd => "on-add"
    case OnModify => "on-modify"
  }

  /** No script is run for both events: neither name is a prefix of the other. */
  lemma EventNamesDisjoint(name: string)
    ensures !(StartsWith(name, EventName(OnAdd)) && StartsWith(name, EventName(OnModify)))
  {
    if StartsWith(name, EventName(OnAdd)) {
      assert name[3] == name[..6][3] == 'a';
    }
  }

  /** The line ending hooks receive. */
  const LINE_ENDING: string := "\n"

  /** The text written to a hook's standard input, built as `execute_hooks` builds it: for
      `on-modify` the old task's JSON and a line ending first, then the new task's JSON and a
      line ending; a missing task is the empty text. */
  method BuildPayload(event: TaskEvent, oldJson: Option<string>, newJson: Option<string>) returns (args: string)
    ensures args == Payload(event, oldJson, newJson)
  {
    var oldText := oldJson.GetOr("");
    var newText := newJson.GetOr("");
    args := "";
    match event {
      case OnAdd =>
      case OnModify =>
        args := args + oldText;
        args := args + LINE_ENDING;
    }
    args := args + newText;
    args := args + LINE_ENDING;
    PayloadText(event, oldJson, newJson);
  }

  /** The payload as lines: one line per task JSON, each terminated. */
  function Payload(event: TaskEvent, oldJson: Option<string>, newJson: Option<string>): string {
    var lines := if event.OnModify? then [oldJson.GetOr(""), newJson.GetOr("")] else [newJson.GetOr("")];
    Join(lines + [""], LINE_ENDING)
  }

  lemma PayloadText(event: TaskEvent, oldJson: Option<string>, newJson: Option<string>)
    ensures event.OnModify? ==> Payload(event, oldJson, newJson) == oldJson.GetOr("") + "\n" + newJson.GetOr("") + "\n"
    ensures event.OnAdd? ==> Payload(event, oldJson, newJson) == newJson.GetOr("") + "\n"
  {
    var o, n := oldJson.GetOr(""), newJson.GetOr("");
    assert Join([""], "\n") == "";
    assert [n, ""][1..] == [""];
    assert Join([n, ""], "\n") == n + "\n" + "";
    if event.OnModify? {
      assert [o, n] + [""] == [o, n, ""];
      assert [o, n, ""][1..] == [n, ""];
    } else {
      assert [n] + [""] == [n, ""];
    }
  }

  /** A hook that reads its input line by line gets the old task (for `on-modify`), then the new
      one, then nothing, as long as the JSON texts are single lines (as compact JSON is). */
  lemma PayloadLines(event: TaskEvent, oldJson: string, newJson: string)
    requires '\n' !in oldJson && '\n' !in newJson
    ensures event.OnModify? ==> Split(Payload(event, Some(oldJson), Some(newJson)), {'\n'}) == [oldJson, newJson, ""]
    ensures event.OnAdd? ==> Split(Payload(event, Some(oldJson), Some(newJson)), {'\n'}) == [newJson, ""]
  {
    if event.OnModify? {
      assert [oldJson, newJson] + [""] == [oldJson, newJson, ""];
      SplitJoin([oldJson, newJson, ""], '\n');
    } else {
      assert [newJson] + [""] == [newJson, ""];
      SplitJoin([newJson, ""], '\n');
    }
  }

  /** One hook invocation as the log records it: the event, the hooks directory and the tasks. */
  datatype HookCall = HookCall(event: TaskEvent, hooksDir: string, before: Option<TaskView>, after: Option<TaskView>)

  /** `execute_hooks` without a hooks directory returns at once; with one, the call is logged (the
      scripts themselves are not part of the model). */
  function ExecuteHooks(hooksDir: Option<string>, event: TaskEvent, before: Option<TaskView>, after: Option<TaskView>,
                        log: seq<HookCall>): (r: seq<HookCall>)
    ensures hooksDir.None? ==> r == log
    ensures hooksDir.Some? ==> r == log + [HookCall(event, hooksDir.value, before, after)]
  {
    match hooksDir
    case None => log
    case Some(dir) => log + [HookCall(event, dir, before, after)]
  }

  // ---------------------------------------------------------------- dates kept as text

  /** `TcDateConverter::convert_to_datetime`: a stored integer is that many seconds after the
      epoch; anything else, or no value, is no date. */
  function ConvertToDatetime(v: Option<string>): (r: Option<int>)
    ensures v.None? ==> r.None?
    ensures v.Some? ==> r == ParseI64(v.value)
  {
    match v
    case None => None
    case Some(s) => ParseI64(s)
  }

  /** A timestamp the front end stores reads back as the same instant. */
  lemma StoredTimestampRoundTrip(t: int)
    requires I64_MIN <= t < I64_LIMIT
    ensures ConvertToDatetime(Some(IntToString(t))) == Some(t)
  {
    IntStringRoundTrip(t);
  }

  // ---------------------------------------------------------------- the task the pages show

  datatype Annotation = Annotation(entry: int, description: string)

  /** The derived order on annotations: by time, then by text. */
  predicate AnnLess(a: Annotation, b: Annotation) {
    a.entry < b.entry || (a.entry == b.entry && LexLess(a.description, b.description))
  }

  lemma AnnOrder(a: Annotation, b: Annotation, c: Annotation)
    ensures !AnnLess(a, a)
    ensures a == b || AnnLess(a, b) || AnnLess(b, a)
    ensures AnnLess(a, b) && AnnLess(b, c) ==> AnnLess(a, c)
  {
    LexIrreflexive(a.description);
    LexTotal(a.description, b.description);
    if AnnLess(a, b) && AnnLess(b, c) && a.entry == b.entry == c.entry {
      LexTransitive(a.description, b.description, c.description);
    }
  }

  /** Every non-empty finite set of annotations has a greatest element. */
  lemma {:induction false} GreatestExists(s: set<Annotation>)
    requires s != {}
    ensures exists m :: IsGreatest(m, s)
    decreases |s|
  {
    var y :| y in s;
    AnnOrder(y, y, y);
    if s - {y} != {} {
      GreatestExists(s - {y});
      var m :| IsGreatest(m, s - {y});
      if AnnLess(m, y) {
        forall x | x in s ensures !AnnLess(y, x) {
          AnnOrder(m, y, x);
        }
        assert IsGreatest(y, s);
      } else {
        assert IsGreatest(m, s);
      }
    } else {
      assert s == {y};
      assert IsGreatest(y, s);
    }
  }

  predicate IsGreatest(m: Annotation, s: set<Annotation>) {
    m in s && forall x :: x in s ==> !AnnLess(m, x)
  }

  lemma GreatestUnique(s: set<Annotation>)
    ensures forall m1, m2 :: IsGreatest(m1, s) && IsGreatest(m2, s) ==> m1 == m2
  {
    forall m1, m2 | IsGreatest(m1, s) && IsGreatest(m2, s) ensures m1 == m2 {
      AnnOrder(m1, m2, m2);
    }
  }

  predicate Descending(r: seq<Annotation>) {
    forall i, j :: 0 <= i < j < |r| ==> AnnLess(r[j], r[i])
  }

  /** `sort` then `reverse`: the annotations, newest (and then greatest text) first. */
  function SortDescending(s: set<Annotation>): (r: seq<Annotation>)
    ensures Descending(r)
    ensures forall a :: a in r <==> a in s
    ensures |r| == |s|
    decreases |s|
  {
    if s == {} then []
    else
      GreatestExists(s);
      GreatestUnique(s);
      var m :| IsGreatest(m, s);
      var rest := SortDescending(s - {m});
      forall j | 0 <= j < |rest| ensures AnnLess(rest[j], m) {
        assert rest[j] in s - {m};
        AnnOrder(rest[j], m, m);
      }
      [m] + rest
  }

  /** The annotations of a stored task: `annotation_<seconds>` properties whose suffix is an
      integer. */
  function AnnotationsOf(data: TaskMap): set<Annotation> {
    set k | k in data && StartsWith(k, "annotation_") && ParseI64(k[11..]).Some? ::
      Annotation(ParseI64(k[11..]).value, data[k])
  }

  /** The user tags of a stored task: `tag_<name>` properties whose name is a valid user tag. */
  function UserTagsOf(data: TaskMap): set<string> {
    set k | k in data && StartsWith(k, "tag_") && ParseTag(k[4..]) == Ok(User(k[4..])) :: k[4..]
  }

  /** The dependencies of a stored task: `dep_<uuid>` properties whose suffix is a UUID. */
  function DependenciesOf(data: TaskMap): set<Uuid> {
    set k | k in data && StartsWith(k, "dep_") && ParseUuid(k[4..]).Some? :: ParseUuid(k[4..]).value
  }

  /** The task the pages show (the `urgency`, `imask` and user-defined-attribute fields are not
      modelled). */
  datatype TaskView = TaskView(
    id: Option<int>,
    uuid: Uuid,
    description: string,
    end: Option<string>,
    project: Option<string>,
    entry: Option<int>,
    start: Option<int>,
    until: Option<int>,
    scheduled: Option<int>,
    due: Option<int>,
    modified: Option<int>,
    wait: Option<int>,
    status: Store.Status,
    tags: set<string>,
    depends: set<Uuid>,
    annotations: seq<Annotation>,
    priority: string,
    recur: Option<string>,
    mask: Option<string>,
    parent: Option<string>)

  /** `From<taskchampion::Task>` with the `end` field read from `end` (see `ViewAsWritten`): no
      working-set number, only user tags, annotations newest first, and every other field read
      from the property of the same name. */
  function ToView(t: Task): (r: TaskView)
    ensures r.id.None? && r.uuid == t.uuid
    ensures forall x :: x in r.tags ==> ParseTag(x) == Ok(User(x)) && "tag_" + x in t.data
    ensures forall x :: "tag_" + x in t.data && ParseTag(x) == Ok(User(x)) ==> x in r.tags
    ensures Descending(r.annotations) && forall a :: a in r.annotations <==> a in AnnotationsOf(t.data)
    ensures r.end == Get(t.data, "end") && r.project == Get(t.data, "project")
    ensures r.status == GetStatus(t)
  {
    var d := t.data;
    var r := TaskView(
      None, t.uuid, Get(d, "description").GetOr(""), Get(d, "end"), Get(d, "project"),
      ConvertToDatetime(Get(d, "entry")), ConvertToDatetime(Get(d, "start")),
      ConvertToDatetime(Get(d, "until")), ConvertToDatetime(Get(d, "scheduled")),
      ConvertToDatetime(Get(d, "due")), ConvertToDatetime(Get(d, "modified")),
      ConvertToDatetime(Get(d, "wait")), GetStatus(t), UserTagsOf(d), DependenciesOf(d),
      SortDescending(AnnotationsOf(d)), Get(d, "priority").GetOr(""), Get(d, "recur"),
      Get(d, "mask"), Get(d, "parent"));
    forall x | "tag_" + x in d && ParseTag(x) == Ok(User(x)) ensures x in r.tags {
      var k := "tag_" + x;
      assert k[4..] == x && StartsWith(k, "tag_");
    }
    forall x | x in r.tags ensures "tag_" + x in d {
      var k :| k in d && StartsWith(k, "tag_") && ParseTag(k[4..]) == Ok(User(k[4..])) && k[4..] == x;
      assert k == "tag_" + x;
    }
    r
  }

  /** The conversion as written: `end` is filled from the `start` property. */
  function ViewAsWritten(t: Task): (r: TaskView)
    ensures r.end == Get(t.data, "start")
  {
    ToView(t).(end := Get(t.data, "start"))
  }

  /** A completed task that was never started shows no end as written, and its end time once
      `end` is read from `end`. */
  lemma ViewEndDiscrepancy()
    ensures var t := Task("u", map["end" := "1748736000"]);
      ViewAsWritten(t).end == None && ToView(t).end == Some("1748736000")
  {
  }

  // ---------------------------------------------------------------- project list

  predicate Ascending(r: seq<string>) {
    forall i, j :: 0 <= i < j < |r| ==> LexLess(r[i], r[j])
  }

  /** Every non-empty finite set of names has a least element. */
  lemma {:induction false} LeastExists(s: set<string>)
    requires s != {}
    ensures exists m :: IsLeast(m, s)
    decreases |s|
  {
    var y :| y in s;
    LexIrreflexive(y);
    if s - {y} != {} {
      LeastExists(s - {y});
      var m :| IsLeast(m, s - {y});
      if LexLess(y, m) {
        forall x | x in s ensures !LexLess(x, y) {
          if LexLess(x, y) { LexTransitive(x, y, m); }
        }
        assert IsLeast(y, s);
      } else {
        assert IsLeast(m, s);
      }
    } else {
      assert s == {y};
      assert IsLeast(y, s);
    }
  }

  predicate IsLeast(m: string, s: set<string>) {
    m in s && forall x :: x in s ==> !LexLess(x, m)
  }

  lemma LeastUnique(s: set<string>)
    ensures forall m1, m2 :: IsLeast(m1, s) && IsLeast(m2, s) ==> m1 == m2
  {
    forall m1, m2 | IsLeast(m1, s) && IsLeast(m2, s) ensures m1 == m2 {
      LexTotal(m1, m2);
    }
  }

  /** `sort` followed by `dedup`: the distinct names in ascending order. */
  function SortDedup(s: set<string>): (r: seq<string>)
    ensures Ascending(r)
    ensures forall x :: x in r <==> x in s
    decreases |s|
  {
    if s == {} then []
    else
      LeastExists(s);
      LeastUnique(s);
      var m :| IsLeast(m, s);
      var rest := SortDedup(s - {m});
      forall j | 0 <= j < |rest| ensures LexLess(m, rest[j]) {
        assert rest[j] in s - {m};
        LexTotal(m, rest[j]);
      }
      [m] + rest
  }

  /** The non-empty projects of the tasks in `all`, in the order met. */
  function ProjectsOf(all: seq<TaskMap>): seq<string> {
    if all == [] then []
    else
      var p := Get(all[|all| - 1], "project");
      ProjectsOf(all[..|all| - 1]) + (if p.Some? && p.value != "" then [p.value] else [])
  }

  lemma {:induction false} ProjectsOfMembers(all: seq<TaskMap>, x: string)
    ensures x in ProjectsOf(all) <==> x != "" && exists i :: 0 <= i < |all| && Get(all[i], "project") == Some(x)
  {
    if all != [] {
      var init := all[..|all| - 1];
      ProjectsOfMembers(init, x);
      if exists i :: 0 <= i < |all| && Get(all[i], "project") == Some(x) {
        var i :| 0 <= i < |all| && Get(all[i], "project") == Some(x);
        if i < |init| { assert init[i] == all[i]; }
      }
      if exists i :: 0 <= i < |init| && Get(init[i], "project") == Some(x) {
        var i :| 0 <= i < |init| && Get(init[i], "project") == Some(x);
        assert all[i] == init[i];
      }
    }
  }

  /** `get_project_list` over the stored tasks: every non-empty project name once, in ascending
      order. */
  method GetProjectList(all: seq<TaskMap>) returns (r: seq<string>)
    ensures Ascending(r)
    ensures forall x :: x in r <==> x != "" && exists i :: 0 <= i < |all| && Get(all[i], "project") == Some(x)
  {
    var x: seq<string> := [];
    var i := 0;
    while i < |all|
      invariant 0 <= i <= |all|
      invariant x == ProjectsOf(all[..i])
    {
      var p := Get(all[i], "project");
      if p.Some? && p.value != "" {
        x := x + [p.value];
      }
      assert all[..i + 1][..i] == all[..i];
      i := i + 1;
    }
    assert all[..i] == all;
    r := SortDedup(set k | k in x);
    forall y ensures y in r <==> y != "" && exists j :: 0 <= j < |all| && Get(all[j], "project") == Some(y) {
      ProjectsOfMembers(all, y);
    }
  }

  lemma SameMembersEmpty(a: seq<string>, b: seq<string>)
    requires forall x :: x in a <==> x in b
    ensures a == [] <==> b == []
  {
    if a != [] { assert a[0] in a; }
    if b != [] { assert b[0] in b; }
  }

  /** Two ascending lists with the same names are the same list: the project list does not depend
      on the order the store yields its tasks in. */
  lemma {:induction false} AscendingUnique(a: seq<string>, b: seq<string>)
    requires Ascending(a) && Ascending(b)
    requires forall x :: x in a <==> x in b
    ensures a == b
    decreases |a|
  {
    if a != [] && b != [] {
      if a[0] != b[0] {
        assert b[0] in a && a[0] in b;
        var i :| 0 <= i < |a| && a[i] == b[0];
        var j :| 0 <= j < |b| && b[j] == a[0];
        assert LexLess(a[0], b[0]) by { assert i > 0; }
        assert LexLess(b[0], a[0]) by { assert j > 0; }
        LexAsymmetric(a[0], b[0]);
      }
      forall x ensures x in a[1..] <==> x in b[1..] {
        LexIrreflexive(x);
        if x in a[1..] {
          var i :| 0 <= i < |a[1..]| && a[1..][i] == x;
          assert LexLess(a[0], a[i + 1]);
          assert x in a && x in b;
          var j :| 0 <= j < |b| && b[j] == x;
          assert j != 0;
          assert b[1..][j - 1] == x;
        }
        if x in b[1..] {
          var j :| 0 <= j < |b[1..]| && b[1..][j] == x;
          assert LexLess(b[0], b[j + 1]);
          assert x in b && x in a;
          var i :| 0 <= i < |a| && a[i] == x;
          assert i != 0;
          assert a[1..][i - 1] == x;
        }
      }
      AscendingUnique(a[1..], b[1..]);
      assert a == [a[0]] + a[1..] && b == [b[0]] + b[1..];
    } else {
      SameMembersEmpty(a, b);
    }
  }

  // ---------------------------------------------------------------- undo log

  /** An entry of the undo page. */
  datatype TaskOperation = TaskOperation(
    operation: string,
    uuid: Uuid,
    property: Option<string>,
    oldValue: Option<string>,
    value: Option<string>,
    timestamp: Option<int>,
    oldTask: Option<TaskMap>,
    isTagChange: bool)

  function OpUuid(op: Op): Uuid requires !op.UndoPoint? {
    match op
    case Create(u) => u
    case Delete(u, _) => u
    case Update(u, _, _, _, _) => u
  }

  /** The undo-page entry for one operation; undo points have none. A change to `tag_<name>` is
      shown as a change to `<name>` marked as a tag change. */
  function ConvertOp(op: Op): (r: Option<TaskOperation>)
    ensures r.None? <==> op.UndoPoint?
    ensures r.Some? ==> r.value.uuid == OpUuid(op)
    ensures op.Update? ==> r.value.isTagChange == StartsWith(op.property, "tag_")
    ensures op.Update? ==>
      r.value.property == Some(if StartsWith(op.property, "tag_") then op.property[4..] else op.property)
    ensures op.Update? ==> "tag_" + r.value.property.value == op.property || !r.value.isTagChange
  {
    match op
    case UndoPoint => None
    case Create(u) => Some(TaskOperation("Create", u, None, None, None, None, None, false))
    case Delete(u, oldTask) => Some(TaskOperation("Delete", u, None, None, None, None, Some(oldTask), false))
    case Update(u, p, oldValue, value, ts) =>
      var tag := StartsWith(p, "tag_");
      var name := if tag then p[4..] else p;
      assert tag ==> "tag_" + name == p;
      Some(TaskOperation("Modified", u, Some(name), oldValue, value, Some(ts), None, tag))
  }

  /** The undo log grouped by task. */
  function Grouped(ops: seq<Op>): map<Uuid, seq<TaskOperation>> {
    if ops == [] then map[]
    else
      var g := Grouped(ops[..|ops| - 1]);
      var op := ops[|ops| - 1];
      match ConvertOp(op)
      case None => g
      case Some(t) => g[t.uuid := (if t.uuid in g then g[t.uuid] else []) + [t]]
  }

  /** `get_undo_operations`: the undo log's entries, grouped by task in a map. */
  method GetUndoOperations(ops: seq<Op>) returns (converted: map<Uuid, seq<TaskOperation>>)
    ensures converted == Grouped(ops)
  {
    converted := map[];
    for i := 0 to |ops|
      invariant converted == Grouped(ops[..i])
    {
      assert ops[..i + 1][..i] == ops[..i] && ops[..i + 1][i] == ops[i];
      var entry := ConvertOp(ops[i]);
      if entry.Some? {
        var t := entry.value;
        if t.uuid in converted {
          converted := converted[t.uuid := converted[t.uuid] + [t]];
        } else {
          assert [] + [t] == [t];
          converted := converted[t.uuid := [t]];
        }
      }
      assert converted == Grouped(ops[..i + 1]);
    }
    assert ops[..|ops|] == ops;
  }

  /** The entries of one task, in log order. */
  function EntriesFor(ops: seq<Op>, u: Uuid): seq<TaskOperation> {
    if ops == [] then []
    else
      var e := ConvertOp(ops[|ops| - 1]);
      EntriesFor(ops[..|ops| - 1], u) + (if e.Some? && e.value.uuid == u then [e.value] else [])
  }

  /** A task has a group exactly when it has an operation other than an undo point, and its group
      is its entries in the order of the log. */
  lemma {:induction false} GroupedByTask(ops: seq<Op>, u: Uuid)
    ensures u in Grouped(ops) <==> exists i :: 0 <= i < |ops| && !ops[i].UndoPoint? && OpUuid(ops[i]) == u
    ensures u in Grouped(ops) ==> Grouped(ops)[u] == EntriesFor(ops, u)
    ensures u !in Grouped(ops) ==> EntriesFor(ops, u) == []
  {
    if ops != [] {
      var init := ops[..|ops| - 1];
      GroupedByTask(init, u);
      if exists i :: 0 <= i < |init| && !init[i].UndoPoint? && OpUuid(init[i]) == u {
        var i :| 0 <= i < |init| && !init[i].UndoPoint? && OpUuid(init[i]) == u;
        assert ops[i] == init[i];
      }
      if exists i :: 0 <= i < |ops| && !ops[i].UndoPoint? && OpUuid(ops[i]) == u {
        var i :| 0 <= i < |ops| && !ops[i].UndoPoint? && OpUuid(ops[i]) == u;
        if i < |init| { assert init[i] == ops[i]; }
      }
    }
  }
}
