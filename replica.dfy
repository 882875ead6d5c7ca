/** The pipelines that read the store, stage an edit and commit it: adding a task, modifying it
    with a directive line, changing its status and toggling its timer. The store is a map from
    UUID to task; a commit applies the staged operations all at once, or fails as a whole and
    changes nothing. Hooks run only after a successful commit, and the hook calls are kept in an
    append-only log. */
module Replicas {
  import opened Wrappers
  import opened Store
  import opened Errors
  import opened Backend
  import D = Directives
  import Editing
  import Adding
  import Timers

  /** The store: its tasks, the properties whose setters it refuses, its working set, the hooks
      directory, and the answer it gives to a commit (`None` when the commit succeeds). */
  class Replica {
    var tasks: Tasks
    var hooks: seq<HookCall>
    const refused: set<string>
    const workingSet: map<nat, Uuid>
    const hooksDir: Option<string>
    const commitError: Option<string>

    constructor (tasks: Tasks, refused: set<string>, workingSet: map<nat, Uuid>, hooksDir: Option<string>,
                 commitError: Option<string>)
      ensures this.tasks == tasks && this.hooks == [] && this.refused == refused
      ensures this.workingSet == workingSet && this.hooksDir == hooksDir && this.commitError == commitError
    {
      this.tasks := tasks;
      this.hooks := [];
      this.refused := refused;
      this.workingSet := workingSet;
      this.hooksDir := hooksDir;
      this.commitError := commitError;
    }

    /** `commit_operations`: all operations applied in order, or none. */
    method Commit(ops: seq<Op>) returns (r: Result<(), string>)
      modifies this`tasks
      ensures commitError.None? ==> r == Ok(()) && tasks == ApplyOps(old(tasks), ops)
      ensures commitError.Some? ==> r == Err(commitError.value) && tasks == old(tasks)
    {
      if commitError.Some? {
        return Err(commitError.value);
      }
      tasks := ApplyOps(tasks, ops);
      r := Ok(());
    }

    /** The tail both form pipelines share: the staged operations committed and, only after a
        successful commit, the hook run; a failed commit becomes the form's message. */
    method CommitThenHook(ops: seq<Op>, event: TaskEvent, before: Option<TaskView>, after: TaskView)
      returns (r: Result<(), FormValidation>)
      modifies this`tasks, this`hooks
      ensures commitError.None? ==>
        r.Ok? && tasks == ApplyOps(old(tasks), ops) && hooks == ExecuteHooks(hooksDir, event, before, Some(after), old(hooks))
      ensures commitError.Some? ==>
        r.Err? && tasks == old(tasks) && hooks == old(hooks) && fresh(r.error) && r.error.Valid() &&
        r.error.State() == Report(map[], false, commitError)
    {
      var c := Commit(ops);
      if c.Ok? {
        hooks := ExecuteHooks(hooksDir, event, before, Some(after), hooks);
        r := Ok(());
      } else {
        var w := new FormValidation.FromError(c.error);
        r := Err(w);
      }
    }

    /** `task_add` under the fresh UUID `u` at time `now`: the form is staged in full; only when
        no step complained is it committed, and only after the commit succeeded does the add hook
        run. A failed commit answers with the store's error as the form's message. */
    method TaskAdd(task: Adding.NewTask, u: Uuid, now: int) returns (r: Result<(), FormValidation>)
      modifies this
      requires u !in tasks
      ensures var o := Adding.AddStaging(Env(now, refused, workingSet), task, u);
        (r.Ok? <==> o.errs == [] && commitError.None?) &&
        (r.Ok? ==> tasks == old(tasks)[u := o.st.task.data] &&
                   hooks == ExecuteHooks(hooksDir, OnAdd, None, Some(ViewAsWritten(o.st.task)), old(hooks))) &&
        (r.Err? ==> tasks == old(tasks) && hooks == old(hooks) && fresh(r.error) && r.error.Valid()) &&
        (o.errs != [] ==> r.Err? && r.error.State() == Log(Report(map[], true, None), o.errs)) &&
        (o.errs == [] && commitError.Some? ==> r.Err? && r.error.State() == Report(map[], false, commitError))
    {
      var env := Env(now, refused, workingSet);
      var e := new Editing.Editor(env, Adding.Created(u));
      var v := new FormValidation();
      Adding.StageAdd(e, task, u, v);
      ghost var o := Adding.AddStaging(env, task, u);
      LogEffect(Report(map[], true, None), o.errs, "");
      if v.IsSuccess() {
        Adding.AddStagingTracks(env, task, u, tasks);
        r := CommitThenHook(e.staged.ops, OnAdd, None, ViewAsWritten(e.staged.task));
      } else {
        r := Err(v);
      }
    }

    /** `run_modify_command` on a stored task: the directive line is applied after an undo point;
        only when no directive complained is it committed, and only after the commit succeeded
        does the modify hook run with the task before and after. */
    method RunModifyCommand(u: Uuid, line: string, now: int) returns (r: Result<(), FormValidation>)
      modifies this
      requires u in tasks
      ensures var o := D.Additions(Env(now, refused, workingSet), Staged(Task(u, old(tasks)[u]), [UndoPoint]), line);
        (r.Ok? <==> o.errs == [] && commitError.None?) &&
        (r.Ok? ==> tasks == old(tasks)[u := o.st.task.data] &&
                   hooks == ExecuteHooks(hooksDir, OnModify, Some(ViewAsWritten(Task(u, old(tasks)[u]))), Some(ViewAsWritten(o.st.task)), old(hooks))) &&
        (r.Err? ==> tasks == old(tasks) && hooks == old(hooks) && fresh(r.error) && r.error.Valid()) &&
        (o.errs != [] ==> r.Err? && r.error.State() == Log(Report(map[], true, None), o.errs)) &&
        (o.errs == [] && commitError.Some? ==> r.Err? && r.error.State() == Report(map[], false, commitError))
    {
      var env := Env(now, refused, workingSet);
      var oldTask := Task(u, tasks[u]);
      var start := Staged(oldTask, [UndoPoint]);
      var st, v := StageModify(env, start, line);
      ghost var o := D.Additions(env, start, line);
      LogEffect(Report(map[], true, None), o.errs, "");
      if v.IsSuccess() {
        ModifyStartTracks(tasks, u);
        D.AdditionsCarries(env, start, line, tasks);
        r := CommitThenHook(st.ops, OnModify, Some(ViewAsWritten(oldTask)), ViewAsWritten(st.task));
      } else {
        r := Err(v);
      }
    }

    /** `change_task_status`: a running timer is stopped, the status is set to the converted
        name, and the change is committed; a refusal or a failed commit changes nothing. */
    method ChangeTaskStatus(u: Uuid, status: string, now: int) returns (r: Result<(), string>)
      modifies this
      requires u in tasks
      ensures var sc := Timers.StatusChange(Env(now, refused, workingSet), Staged(Task(u, old(tasks)[u]), [UndoPoint]), status);
        (r.Ok? <==> sc.Ok? && commitError.None?) &&
        (r.Ok? ==> tasks == old(tasks)[u := sc.value.task.data] &&
                   hooks == ExecuteHooks(hooksDir, OnModify, Some(ViewAsWritten(Task(u, old(tasks)[u]))), Some(ViewAsWritten(sc.value.task)), old(hooks))) &&
        (r.Err? ==> tasks == old(tasks) && hooks == old(hooks))
    {
      var env := Env(now, refused, workingSet);
      var oldTask := Task(u, tasks[u]);
      var sc := StageStatusChange(env, Staged(oldTask, [UndoPoint]), status);
      if sc.Err? {
        return Err(sc.error);
      }
      var st := sc.value;
      Timers.StatusChangeTracks(env, tasks, u, status);
      var c := Commit(st.ops);
      if c.Err? {
        return Err(c.error);
      }
      hooks := ExecuteHooks(hooksDir, OnModify, Some(ViewAsWritten(oldTask)), Some(ViewAsWritten(st.task)), hooks);
      r := Ok(());
    }

    /** `toggle_task_active` with the store listing its tasks in `order`: the target is stopped
        when asked to, every running stored task is stopped and recorded (all but the target when
        `skipTarget`; the target too as written), the target is started when asked to, and the
        whole is committed; then the modify hook runs for every recorded pair, the target last.
        The answer is whether the target, as kept in memory, runs. */
    method ToggleTaskActive(u: Uuid, status: string, order: seq<Uuid>, now: int, skipTarget: bool)
      returns (r: Result<bool, string>)
      modifies this
      requires u in tasks
      requires forall x :: x in tasks <==> x in order
      requires forall i, j :: 0 <= i < j < |order| ==> order[i] != order[j]
      ensures r.Err? ==> tasks == old(tasks) && hooks == old(hooks)
      ensures "start" !in refused && commitError.None? ==> r.Ok?
      ensures commitError.Some? ==> r.Err?
      ensures r.Ok? ==> tasks == Timers.ToggledStore(old(tasks), u, status, now, skipTarget) &&
                        r.value == Timers.ToggleAnswer(old(tasks)[u], status, now)
      ensures r.Ok? ==> hooks == Timers.FireAll(hooksDir,
                          Timers.SweepPairs(old(tasks), order, if skipTarget then Some(u) else None) +
                          [(Task(u, old(tasks)[u]), Task(u, Timers.TargetAfter(old(tasks)[u], status, now)))], old(hooks))
    {
      var env := Env(now, refused, workingSet);
      var staged := Timers.StageToggle(env, tasks, u, status, order, skipTarget);
      if staged.Err? {
        return Err(staged.error);
      }
      var (ops, changed, t) := staged.value;
      var c := Commit(ops);
      if c.Err? {
        return Err(c.error);
      }
      FireHooks(changed);
      r := Ok(IsActive(t));
    }

    /** The modify hook for each (before, after) pair, in order. */
    method FireHooks(changed: seq<(Task, Task)>)
      modifies this`hooks
      ensures hooks == Timers.FireAll(hooksDir, changed, old(hooks))
    {
      var k := 0;
      ghost var log0 := hooks;
      while k < |changed|
        invariant 0 <= k <= |changed|
        invariant hooks == Timers.FireAll(hooksDir, changed[..k], log0)
      {
        assert changed[..k + 1][..k] == changed[..k];
        hooks := ExecuteHooks(hooksDir, OnModify, Some(ViewAsWritten(changed[k].0)), Some(ViewAsWritten(changed[k].1)), hooks);
        k := k + 1;
      }
      assert changed[..k] == changed;
    }
  }

  /** The staging half of `run_modify_command`: the directive line applied in an editor, its
      complaints collected in a fresh validation. */
  method StageModify(env: Env, start: Staged, line: string) returns (st: Staged, v: FormValidation)
    ensures st == D.Additions(env, start, line).st
    ensures fresh(v) && v.Valid() && v.State() == Log(Report(map[], true, None), D.Additions(env, start, line).errs)
  {
    var e := new Editing.Editor(env, start);
    v := new FormValidation();
    e.ParseApplyAdditions(line, v);
    st := e.staged;
  }

  /** The staging half of `change_task_status`: a running timer stopped, then the status set. */
  method StageStatusChange(env: Env, st: Staged, status: string) returns (r: Result<Staged, string>)
    ensures r == Timers.StatusChange(env, st, status)
  {
    var cur := st;
    if IsActive(cur.task) {
      var s := Stop(env, cur);
      if s.Err? {
        return Err(s.error);
      }
      cur := s.value;
    }
    r := SetStatus(env, cur, ConvertTaskStatus(status));
  }
}
