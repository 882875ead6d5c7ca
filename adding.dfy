/** The add form (`task_add`): the new task is created under a fresh UUID, its description,
    status `pending` and entry time are set, the tag field is split into tags, the project is set
    and the "additional" line goes through the directive language. Each step files its complaints
    under a form field of its own and none of them stops the ones after it. The functions here
    specify what the steps do; the methods at the end run them on an `Editor`. */
module Adding {
  import opened Wrappers
  import opened Strings
  import opened Store
  import opened Errors
  import D = Directives
  import Editing
  import ShellWords

  /** What the add form sends: the description, and optionally the tags, the project and a line
      of directives. */
  datatype NewTask = NewTask(description: string, tags: Option<string>, project: Option<string>,
                             additional: Option<string>)

  const MANDATORY: string := "Description field is mandatory"

  /** The tag field is split on each of these characters. */
  const TAG_SEPARATORS: set<char> := {' ', '+', '-'}

  /** A setter's answer, a refusal filed under `field`. */
  function Filed(st: Staged, r: Result<Staged, string>, field: string): D.Outcome {
    match r
    case Ok(s) => D.Outcome(s, [])
    case Err(p) => D.Outcome(st, [FieldError(field, p)])
  }

  /** A fresh task: an undo point, then its creation. */
  function Created(u: Uuid): Staged {
    Staged(Task(u, map[]), [UndoPoint, Create(u)])
  }

  /** `set_description`; once it succeeded, a blank description is still a complaint. */
  function DescriptionStep(env: Env, st: Staged, description: string): (o: D.Outcome)
    ensures o.errs != [] <==> "description" in env.refused || Trim(description) == []
    ensures forall e :: e in o.errs ==> e.field == "description"
  {
    match SetValue(env, st, "description", Some(description))
    case Err(p) => D.Outcome(st, [FieldError("description", p)])
    case Ok(s) => D.Outcome(s, if Trim(description) == [] then [FieldError("description", MANDATORY)] else [])
  }

  /** `set_status(Pending)`. */
  function StatusStep(env: Env, st: Staged): D.Outcome {
    Filed(st, SetStatus(env, st, Pending), "status")
  }

  /** `set_entry` with the current time. */
  function EntryStep(env: Env, st: Staged): D.Outcome {
    Filed(st, SetTimestamp(env, st, "entry", Some(env.now)), "entry")
  }

  /** One piece of the tag field: a blank piece is skipped, a piece that is not a tag and a tag
      the store refuses are complaints under `tags`. */
  function TagPiece(env: Env, st: Staged, piece: string): D.Outcome {
    if Trim(piece) == [] then D.Outcome(st, [])
    else match ParseTag(piece)
      case Err(m) => D.Outcome(st, [FieldError("tags", m)])
      case Ok(tag) => Filed(st, SetTag(env, st, tag, true), "tags")
  }

  /** The pieces in order. */
  function TagPieces(env: Env, st: Staged, pieces: seq<string>): D.Outcome
    decreases |pieces|
  {
    if pieces == [] then D.Outcome(st, [])
    else
      var o := TagPieces(env, st, pieces[..|pieces| - 1]);
      var p := TagPiece(env, o.st, pieces[|pieces| - 1]);
      D.Outcome(p.st, o.errs + p.errs)
  }

  /** The pieces of the tag field: none when it is missing or blank. */
  function PiecesOf(tags: Option<string>): seq<string> {
    if tags.Some? && Trim(tags.value) != [] then Split(tags.value, TAG_SEPARATORS) else []
  }

  /** `set_value("project", …)` when a project was given. */
  function ProjectStep(env: Env, st: Staged, project: Option<string>): D.Outcome {
    match project
    case None => D.Outcome(st, [])
    case Some(p) => Filed(st, SetValue(env, st, "project", Some(p)), "project")
  }

  /** `parse_apply_additions` when a directive line was given. */
  function AdditionalStep(env: Env, st: Staged, additional: Option<string>): D.Outcome {
    match additional
    case None => D.Outcome(st, [])
    case Some(line) => D.Additions(env, st, line)
  }

  /** The three setters every new task goes through. */
  function Basics(env: Env, st: Staged, description: string): D.Outcome {
    var o1 := DescriptionStep(env, st, description);
    var o2 := StatusStep(env, o1.st);
    var o3 := EntryStep(env, o2.st);
    D.Outcome(o3.st, o1.errs + o2.errs + o3.errs)
  }

  /** The optional fields: tags, project and directive line. */
  function Extras(env: Env, st: Staged, task: NewTask): D.Outcome {
    var o4 := TagPieces(env, st, PiecesOf(task.tags));
    var o5 := ProjectStep(env, o4.st, task.project);
    var o6 := AdditionalStep(env, o5.st, task.additional);
    D.Outcome(o6.st, o4.errs + o5.errs + o6.errs)
  }

  /** Everything `task_add` stages before it decides whether to commit: the task and operations
      after the last step, and every complaint of every step in order. */
  function AddStaging(env: Env, task: NewTask, u: Uuid): D.Outcome {
    var b := Basics(env, Created(u), task.description);
    var x := Extras(env, b.st, task);
    D.Outcome(x.st, b.errs + x.errs)
  }

  // ---------------------------------------------------------------- properties

  lemma CarriesTransitive(tasks: Tasks, a: Staged, b: Staged, c: Staged)
    requires D.Carries(tasks, a, b) && D.Carries(tasks, b, c)
    ensures D.Carries(tasks, a, c)
  {
    assert a.ops == b.ops[..|a.ops|] && b.ops == c.ops[..|b.ops|];
    assert c.ops[..|b.ops|][..|a.ops|] == c.ops[..|a.ops|];
  }

  lemma BasicsCarries(env: Env, st: Staged, description: string, tasks: Tasks)
    ensures D.Carries(tasks, st, Basics(env, st, description).st)
  {
    var o1 := DescriptionStep(env, st, description);
    D.SetCarries(env, st, "description", Some(description), tasks);
    var o2 := StatusStep(env, o1.st);
    D.SetCarries(env, o1.st, "status", Some("pending"), tasks);
    CarriesTransitive(tasks, st, o1.st, o2.st);
    D.SetCarries(env, o2.st, "entry", Some(IntToString(env.now)), tasks);
    CarriesTransitive(tasks, st, o2.st, Basics(env, st, description).st);
  }

  lemma {:induction false} TagPiecesCarries(env: Env, st: Staged, pieces: seq<string>, tasks: Tasks)
    ensures D.Carries(tasks, st, TagPieces(env, st, pieces).st)
    decreases |pieces|
  {
    if pieces != [] {
      var o := TagPieces(env, st, pieces[..|pieces| - 1]);
      TagPiecesCarries(env, st, pieces[..|pieces| - 1], tasks);
      var piece := pieces[|pieces| - 1];
      if Trim(piece) != [] && ParseTag(piece).Ok? && ParseTag(piece).value.User? {
        D.SetCarries(env, o.st, "tag_" + ParseTag(piece).value.name, Some(""), tasks);
      }
      CarriesTransitive(tasks, st, o.st, TagPieces(env, st, pieces).st);
    }
  }

  lemma ExtrasCarries(env: Env, st: Staged, task: NewTask, tasks: Tasks)
    ensures D.Carries(tasks, st, Extras(env, st, task).st)
  {
    var o4 := TagPieces(env, st, PiecesOf(task.tags));
    TagPiecesCarries(env, st, PiecesOf(task.tags), tasks);
    var o5 := ProjectStep(env, o4.st, task.project);
    if task.project.Some? {
      D.SetCarries(env, o4.st, "project", task.project, tasks);
    }
    CarriesTransitive(tasks, st, o4.st, o5.st);
    if task.additional.Some? {
      D.AdditionsCarries(env, o5.st, task.additional.value, tasks);
    }
    CarriesTransitive(tasks, st, o5.st, Extras(env, st, task).st);
  }

  /** Committing what `task_add` staged on a store without the new UUID gives the store with
      exactly the new task added, and the operation list starts with the undo point and the
      creation. */
  lemma AddStagingTracks(env: Env, task: NewTask, u: Uuid, tasks: Tasks)
    requires u !in tasks
    ensures var o := AddStaging(env, task, u);
      o.st.task.uuid == u && ApplyOps(tasks, o.st.ops) == tasks[u := o.st.task.data] &&
      |o.st.ops| >= 2 && o.st.ops[..2] == [UndoPoint, Create(u)]
  {
    var s0 := Created(u);
    CreateStartTracks(tasks, u);
    var b := Basics(env, s0, task.description);
    BasicsCarries(env, s0, task.description, tasks);
    ExtrasCarries(env, b.st, task, tasks);
    CarriesTransitive(tasks, s0, b.st, AddStaging(env, task, u).st);
  }

  lemma {:induction false} TagPiecesFiled(env: Env, st: Staged, pieces: seq<string>)
    ensures forall e :: e in TagPieces(env, st, pieces).errs ==> e.field == "tags"
    decreases |pieces|
  {
    if pieces != [] {
      var init, last := pieces[..|pieces| - 1], pieces[|pieces| - 1];
      TagPiecesFiled(env, st, init);
      var o := TagPieces(env, st, init);
      if Trim(last) != [] && ParseTag(last).Ok? {
        FiledUnder(o.st, SetTag(env, o.st, ParseTag(last).value, true), "tags");
      }
      assert TagPieces(env, st, pieces).errs == o.errs + TagPiece(env, o.st, last).errs;
    }
  }

  /** A refusal is filed under the field named. */
  lemma FiledUnder(st: Staged, r: Result<Staged, string>, field: string)
    ensures forall e :: e in Filed(st, r, field).errs ==> e.field == field
  {
  }

  /** Among the first three steps, only the description step files under `description`. */
  lemma BasicsDescription(env: Env, st: Staged, description: string)
    ensures OnField(Basics(env, st, description).errs, "description") == DescriptionStep(env, st, description).errs
  {
    var o1 := DescriptionStep(env, st, description);
    var o2 := StatusStep(env, o1.st);
    var o3 := EntryStep(env, o2.st);
    OnFieldAll(o1.errs, "description");
    FiledUnder(o1.st, SetStatus(env, o1.st, Pending), "status");
    FiledUnder(o2.st, SetTimestamp(env, o2.st, "entry", Some(env.now)), "entry");
    OnFieldNone(o2.errs, "description");
    OnFieldNone(o3.errs, "description");
    OnFieldAppend(o1.errs, o2.errs, "description");
    OnFieldAppend(o1.errs + o2.errs, o3.errs, "description");
  }

  lemma BasicsFiled(env: Env, st: Staged, description: string)
    ensures forall e :: e in Basics(env, st, description).errs ==> e.field in {"description", "status", "entry"}
  {
    var o1 := DescriptionStep(env, st, description);
    var o2 := StatusStep(env, o1.st);
    FiledUnder(o1.st, SetStatus(env, o1.st, Pending), "status");
    FiledUnder(o2.st, SetTimestamp(env, o2.st, "entry", Some(env.now)), "entry");
  }

  /** The optional fields file under their own names. */
  lemma ExtrasFiled(env: Env, st: Staged, task: NewTask)
    ensures forall e :: e in Extras(env, st, task).errs ==> e.field in {"tags", "project", D.ADDITIONAL}
  {
    var o4 := TagPieces(env, st, PiecesOf(task.tags));
    TagPiecesFiled(env, st, PiecesOf(task.tags));
    var o5 := ProjectStep(env, o4.st, task.project);
    if task.additional.Some? {
      D.AdditionsFiled(env, o5.st, task.additional.value);
    }
  }

  /** Every complaint of the add form is filed under the field it is about: the description, the
      status, the entry time, the tags, the project or the directive line. */
  lemma AddFieldsFiled(env: Env, task: NewTask, u: Uuid)
    ensures forall e :: e in AddStaging(env, task, u).errs ==>
      e.field in {"description", "status", "entry", "tags", "project", D.ADDITIONAL}
  {
    var b := Basics(env, Created(u), task.description);
    BasicsFiled(env, Created(u), task.description);
    ExtrasFiled(env, b.st, task);
  }

  /** The add form has a complaint about its description exactly when the description is blank
      or the store refused it. */
  lemma MandatoryDescription(env: Env, task: NewTask, u: Uuid)
    ensures OnField(AddStaging(env, task, u).errs, "description") != [] <==>
      Trim(task.description) == [] || "description" in env.refused
  {
    var b := Basics(env, Created(u), task.description);
    BasicsDescription(env, Created(u), task.description);
    var x := Extras(env, b.st, task);
    ExtrasFiled(env, b.st, task);
    OnFieldNone(x.errs, "description");
    OnFieldAppend(b.errs, x.errs, "description");
  }

  /** A form with only a description, on a store that refuses none of the three first setters,
      stages the creation and three updates and nothing else: the new task holds exactly the
      description, the status `pending` and the entry time. */
  lemma PlainAdd(env: Env, description: string, u: Uuid)
    requires Trim(description) != []
    requires "description" !in env.refused && "status" !in env.refused && "entry" !in env.refused
    ensures AddStaging(env, NewTask(description, None, None, None), u) ==
      D.Outcome(Staged(Task(u, map["description" := description, "status" := "pending", "entry" := IntToString(env.now)]),
                       [UndoPoint, Create(u),
                        Update(u, "description", None, Some(description), env.now),
                        Update(u, "status", None, Some("pending"), env.now),
                        Update(u, "entry", None, Some(IntToString(env.now)), env.now)]), [])
  {
    var b := Basics(env, Created(u), description);
    PlainBasics(env, description, u);
    assert Extras(env, b.st, NewTask(description, None, None, None)) == D.Outcome(b.st, []);
    assert b.errs + [] == b.errs;
  }

  lemma PlainBasics(env: Env, description: string, u: Uuid)
    requires Trim(description) != []
    requires "description" !in env.refused && "status" !in env.refused && "entry" !in env.refused
    ensures Basics(env, Created(u), description) ==
      D.Outcome(Staged(Task(u, map["description" := description, "status" := "pending", "entry" := IntToString(env.now)]),
                       [UndoPoint, Create(u),
                        Update(u, "description", None, Some(description), env.now),
                        Update(u, "status", None, Some("pending"), env.now),
                        Update(u, "entry", None, Some(IntToString(env.now)), env.now)]), [])
  {
  }

  /** The failing form of the add tests: whatever else it holds, a directive line with an open
      quote leaves a complaint under `additional`, so nothing is committed. */
  lemma AddMissingQuote(env: Env, task: NewTask, u: Uuid)
    requires task.additional == Some("priority:H" + " " + ("due:" + "\""))
    ensures OnField(AddStaging(env, task, u).errs, D.ADDITIONAL) != []
  {
    var b := Basics(env, Created(u), task.description);
    var o4 := TagPieces(env, b.st, PiecesOf(task.tags));
    var o5 := ProjectStep(env, o4.st, task.project);
    D.MissingQuoteAdditions(env, o5.st);
    var c := D.Complaint(ShellWords.MISSING_QUOTE);
    var front := b.errs + (o4.errs + o5.errs);
    assert AddStaging(env, task, u).errs == front + [c];
    OnFieldAppend(front, [c], D.ADDITIONAL);
  }

  // ---------------------------------------------------------------- the steps on an editor

  method StageDescription(e: Editing.Editor, description: string, v: FormValidation)
    modifies e, v
    requires v.Valid()
    ensures e.staged == DescriptionStep(e.env, old(e.staged), description).st
    ensures v.State() == Log(old(v.State()), DescriptionStep(e.env, old(e.staged), description).errs) && v.Valid()
  {
    var r := SetValue(e.env, e.staged, "description", Some(description));
    match r {
      case Err(p) =>
        v.PushEach([FieldError("description", p)]);
      case Ok(s) =>
        e.staged := s;
        if Trim(description) == [] {
          v.PushEach([FieldError("description", MANDATORY)]);
        }
    }
  }

  method StageStatus(e: Editing.Editor, v: FormValidation)
    modifies e, v
    requires v.Valid()
    ensures e.staged == StatusStep(e.env, old(e.staged)).st
    ensures v.State() == Log(old(v.State()), StatusStep(e.env, old(e.staged)).errs) && v.Valid()
  {
    var r := SetStatus(e.env, e.staged, Pending);
    match r {
      case Err(p) => v.PushEach([FieldError("status", p)]);
      case Ok(s) => e.staged := s;
    }
  }

  method StageEntry(e: Editing.Editor, v: FormValidation)
    modifies e, v
    requires v.Valid()
    ensures e.staged == EntryStep(e.env, old(e.staged)).st
    ensures v.State() == Log(old(v.State()), EntryStep(e.env, old(e.staged)).errs) && v.Valid()
  {
    var r := SetTimestamp(e.env, e.staged, "entry", Some(e.env.now));
    match r {
      case Err(p) => v.PushEach([FieldError("entry", p)]);
      case Ok(s) => e.staged := s;
    }
  }

  method StageTagPiece(e: Editing.Editor, piece: string, v: FormValidation)
    modifies e, v
    requires v.Valid()
    ensures e.staged == TagPiece(e.env, old(e.staged), piece).st
    ensures v.State() == Log(old(v.State()), TagPiece(e.env, old(e.staged), piece).errs) && v.Valid()
  {
    if Trim(piece) != [] {
      match ParseTag(piece) {
        case Err(m) =>
          v.PushEach([FieldError("tags", m)]);
        case Ok(tag) =>
          var r := SetTag(e.env, e.staged, tag, true);
          match r {
            case Err(p) => v.PushEach([FieldError("tags", p)]);
            case Ok(s) => e.staged := s;
          }
      }
    }
  }

  lemma TagPiecesStep(env: Env, st: Staged, pieces: seq<string>, i: nat)
    requires i < |pieces|
    ensures var done := TagPieces(env, st, pieces[..i]);
      var step := TagPiece(env, done.st, pieces[i]);
      TagPieces(env, st, pieces[..i + 1]) == D.Outcome(step.st, done.errs + step.errs)
  {
    assert pieces[..i + 1][..i] == pieces[..i];
  }

  /** One more piece, as the loop of `StageTags` sees it: the staged task and the log. */
  lemma TagPiecesLog(env: Env, st: Staged, r0: Report, pieces: seq<string>, i: nat)
    requires i < |pieces|
    ensures var done := TagPieces(env, st, pieces[..i]);
      var step := TagPiece(env, done.st, pieces[i]);
      TagPieces(env, st, pieces[..i + 1]).st == step.st &&
      Log(r0, TagPieces(env, st, pieces[..i + 1]).errs) == Log(Log(r0, done.errs), step.errs)
  {
    var done := TagPieces(env, st, pieces[..i]);
    TagPiecesStep(env, st, pieces, i);
    LogAppend(r0, done.errs, TagPiece(env, done.st, pieces[i]).errs);
  }

  /** The tag field, piece by piece. */
  method StageTags(e: Editing.Editor, tags: Option<string>, v: FormValidation)
    modifies e, v
    requires v.Valid()
    ensures e.staged == TagPieces(e.env, old(e.staged), PiecesOf(tags)).st
    ensures v.State() == Log(old(v.State()), TagPieces(e.env, old(e.staged), PiecesOf(tags)).errs) && v.Valid()
  {
    if tags.Some? && Trim(tags.value) != [] {
      var pieces := Split(tags.value, TAG_SEPARATORS);
      StagePieces(e, pieces, v);
    }
  }

  /** The pieces of the tag field, one after the other. */
  method StagePieces(e: Editing.Editor, pieces: seq<string>, v: FormValidation)
    modifies e, v
    requires v.Valid()
    ensures e.staged == TagPieces(e.env, old(e.staged), pieces).st
    ensures v.State() == Log(old(v.State()), TagPieces(e.env, old(e.staged), pieces).errs) && v.Valid()
  {
    ghost var st0, r0 := e.staged, v.State();
    var i := 0;
    while i < |pieces|
      invariant 0 <= i <= |pieces|
      invariant e.staged == TagPieces(e.env, st0, pieces[..i]).st
      invariant v.State() == Log(r0, TagPieces(e.env, st0, pieces[..i]).errs) && v.Valid()
    {
      StageTagPiece(e, pieces[i], v);
      TagPiecesLog(e.env, st0, r0, pieces, i);
      i := i + 1;
    }
    assert pieces[..i] == pieces;
  }

  method StageProject(e: Editing.Editor, project: Option<string>, v: FormValidation)
    modifies e, v
    requires v.Valid()
    ensures e.staged == ProjectStep(e.env, old(e.staged), project).st
    ensures v.State() == Log(old(v.State()), ProjectStep(e.env, old(e.staged), project).errs) && v.Valid()
  {
    if project.Some? {
      var r := SetValue(e.env, e.staged, "project", Some(project.value));
      match r {
        case Err(p) => v.PushEach([FieldError("project", p)]);
        case Ok(s) => e.staged := s;
      }
    }
  }

  method StageAdditional(e: Editing.Editor, additional: Option<string>, v: FormValidation)
    modifies e, v
    requires v.Valid()
    ensures e.staged == AdditionalStep(e.env, old(e.staged), additional).st
    ensures v.State() == Log(old(v.State()), AdditionalStep(e.env, old(e.staged), additional).errs) && v.Valid()
  {
    if additional.Some? {
      e.ParseApplyAdditions(additional.value, v);
    }
  }

  method StageBasics(e: Editing.Editor, description: string, v: FormValidation)
    modifies e, v
    requires v.Valid()
    ensures e.staged == Basics(e.env, old(e.staged), description).st
    ensures v.State() == Log(old(v.State()), Basics(e.env, old(e.staged), description).errs) && v.Valid()
  {
    ghost var r0 := v.State();
    ghost var o1 := DescriptionStep(e.env, e.staged, description);
    StageDescription(e, description, v);
    ghost var o2 := StatusStep(e.env, e.staged);
    StageStatus(e, v);
    LogAppend(r0, o1.errs, o2.errs);
    ghost var o3 := EntryStep(e.env, e.staged);
    StageEntry(e, v);
    LogAppend(r0, o1.errs + o2.errs, o3.errs);
  }

  method StageExtras(e: Editing.Editor, task: NewTask, v: FormValidation)
    modifies e, v
    requires v.Valid()
    ensures e.staged == Extras(e.env, old(e.staged), task).st
    ensures v.State() == Log(old(v.State()), Extras(e.env, old(e.staged), task).errs) && v.Valid()
  {
    ghost var r0 := v.State();
    ghost var o4 := TagPieces(e.env, e.staged, PiecesOf(task.tags));
    StageTags(e, task.tags, v);
    ghost var o5 := ProjectStep(e.env, e.staged, task.project);
    StageProject(e, task.project, v);
    LogAppend(r0, o4.errs, o5.errs);
    ghost var o6 := AdditionalStep(e.env, e.staged, task.additional);
    StageAdditional(e, task.additional, v);
    LogAppend(r0, o4.errs + o5.errs, o6.errs);
  }

  /** All the steps of `task_add` before the commit decision, on an editor holding a fresh
      task. */
  method StageAdd(e: Editing.Editor, task: NewTask, u: Uuid, v: FormValidation)
    modifies e, v
    requires v.Valid() && e.staged == Created(u)
    ensures e.staged == AddStaging(e.env, task, u).st
    ensures v.State() == Log(old(v.State()), AddStaging(e.env, task, u).errs) && v.Valid()
  {
    ghost var r0 := v.State();
    StageBasics(e, task.description, v);
    ghost var b := Basics(e.env, Created(u), task.description);
    StageExtras(e, task, v);
    LogAppend(r0, b.errs, Extras(e.env, b.st, task).errs);
  }
}
