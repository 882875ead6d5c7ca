/** The timer rules of the task list: a status change stops a running timer first
    (`change_task_status`), and starting or stopping a task's timer stops every other running
    timer (`toggle_task_active`). A task's timer runs while it has a `start` property. */
module Timers {
  import opened Wrappers
  import opened Strings
  import opened Store
  import opened Backend
  import D = Directives

  /** A stored task with its timer stopped. */
  function Stopped(m: TaskMap): (r: TaskMap)
    ensures "start" !in r
    ensures forall p :: p != "start" ==> Get(r, p) == Get(m, p)
  {
    Assign(m, "start", None)
  }

  // ---------------------------------------------------------------- change_task_status

  /** The edit `change_task_status` stages: the timer is stopped when it runs, then the status
      is set to the converted name; the first refusal ends it. */
  function StatusChange(env: Env, st: Staged, status: string): Result<Staged, string> {
    var stopped := if IsActive(st.task) then Stop(env, st) else Ok(st);
    match stopped
    case Err(p) => Err(p)
    case Ok(s) => SetStatus(env, s, ConvertTaskStatus(status))
  }

  /** A status change leaves the task with its timer stopped and the status asked for, touches
      no other property, and is refused exactly when the store refuses the status or, for a
      running task, the stop. */
  lemma StatusChangeStopsTimer(env: Env, st: Staged, status: string)
    ensures var r := StatusChange(env, st, status);
      (r.Ok? <==> "status" !in env.refused && (IsActive(st.task) ==> "start" !in env.refused)) &&
      (r.Ok? ==> !IsActive(r.value.task) && r.value.task.uuid == st.task.uuid &&
                 Get(r.value.task.data, "status") == Some(StatusToTaskmap(ConvertTaskStatus(status))) &&
                 forall p :: p != "start" && p != "status" ==> Get(r.value.task.data, p) == Get(st.task.data, p))
  {
    var stopped := if IsActive(st.task) then Stop(env, st) else Ok(st);
    if stopped.Ok? {
      var s := stopped.value;
      assert !IsActive(s.task);
      assert forall p :: p != "start" ==> Get(s.task.data, p) == Get(st.task.data, p);
    }
  }

  /** Committing a status change on the store the task was read from writes exactly the
      changed task. */
  lemma StatusChangeTracks(env: Env, tasks: Tasks, u: Uuid, status: string)
    requires u in tasks
    ensures var st := Staged(Task(u, tasks[u]), [UndoPoint]);
      var r := StatusChange(env, st, status);
      r.Ok? ==> r.value.task.uuid == u && ApplyOps(tasks, r.value.ops) == tasks[u := r.value.task.data] &&
                r.value.ops[0] == UndoPoint
  {
    var st := Staged(Task(u, tasks[u]), [UndoPoint]);
    ModifyStartTracks(tasks, u);
    if IsActive(st.task) {
      D.SetCarries(env, st, "start", None, tasks);
      if Stop(env, st).Ok? {
        var s := Stop(env, st).value;
        D.SetCarries(env, s, "status", Some(StatusToTaskmap(ConvertTaskStatus(status))), tasks);
        assert st.ops[0] == s.ops[0];
      }
    } else {
      D.SetCarries(env, st, "status", Some(StatusToTaskmap(ConvertTaskStatus(status))), tasks);
    }
  }

  // ---------------------------------------------------------------- toggle_task_active

  /** The target task as `toggle_task_active` keeps it in memory: `stop` stops it, `start`
      starts it unless it already runs, any other request leaves it. */
  function TargetAfter(m: TaskMap, status: string, now: int): (r: TaskMap)
    ensures status == "stop" ==> "start" !in r
    ensures status == "start" ==> "start" in r
    ensures status != "stop" && status != "start" ==> r == m
  {
    if status == "stop" then Stopped(m)
    else if status == "start" && "start" !in m then Assign(m, "start", Some(IntToString(now)))
    else m
  }

  /** The answer of `toggle_task_active`: whether the in-memory target runs. */
  function ToggleAnswer(m: TaskMap, status: string, now: int): bool {
    "start" in TargetAfter(m, status, now)
  }

  /** The store after the toggle. Every task but the target is stopped. With `skipTarget` the
      sweep leaves the target alone and the target is stored as kept in memory; as written, the
      sweep stops the target too, and only a start of a target that was not running is stored
      on top of that. */
  function ToggledStore(tasks: Tasks, u: Uuid, status: string, now: int, skipTarget: bool): Tasks
    requires u in tasks
  {
    map x | x in tasks ::
      if x != u then Stopped(tasks[x])
      else if skipTarget || (status == "start" && "start" !in tasks[u]) then TargetAfter(tasks[u], status, now)
      else Stopped(tasks[u])
  }

  /** As written, the answer matches the stored target exactly when the request was `stop` or
      the target was not running: starting a running task answers that it runs while the store
      keeps it stopped. */
  lemma ToggleAsWrittenAnswer(tasks: Tasks, u: Uuid, status: string, now: int)
    requires u in tasks
    ensures ToggleAnswer(tasks[u], status, now) == ("start" in ToggledStore(tasks, u, status, now, false)[u]) <==>
      status == "stop" || "start" !in tasks[u]
  {
  }

  /** The evident intent: the answer is the stored state of the target, the target is the only
      task that can be running afterwards, it runs after `start` and not after `stop`. */
  lemma ToggleIntended(tasks: Tasks, u: Uuid, status: string, now: int)
    requires u in tasks
    ensures var r := ToggledStore(tasks, u, status, now, true);
      r.Keys == tasks.Keys &&
      ToggleAnswer(tasks[u], status, now) == ("start" in r[u]) &&
      (forall x :: x in r && x != u ==> "start" !in r[x]) &&
      (status == "start" ==> "start" in r[u]) && (status == "stop" ==> "start" !in r[u])
  {
  }

  /** A concrete store that shows the discrepancy: one running task, started again. */
  lemma ToggleStaleStart()
    ensures var tasks := map["t" := map["start" := "1"]];
      ToggleAnswer(tasks["t"], "start", 2) && "start" !in ToggledStore(tasks, "t", "start", 2, false)["t"] &&
      "start" in ToggledStore(tasks, "t", "start", 2, true)["t"]
  {
    var tasks := map["t" := map["start" := "1"]];
    assert "start" in tasks["t"];
    ToggleAsWrittenAnswer(tasks, "t", "start", 2);
    ToggleIntended(tasks, "t", "start", 2);
  }

  /** The tasks in `done` that the sweep stops, all others as they were. */
  function Swept(m: Tasks, done: seq<Uuid>, keep: Option<Uuid>): Tasks {
    map x | x in m :: if x in done && keep != Some(x) then Stopped(m[x]) else m[x]
  }

  /** The (before, after) pairs the sweep records: every running stored task in `order` except
      the kept one, before and after its stop. */
  function SweepPairs(tasks: Tasks, order: seq<Uuid>, keep: Option<Uuid>): seq<(Task, Task)>
    requires forall i :: 0 <= i < |order| ==> order[i] in tasks
  {
    if order == [] then []
    else
      var x := order[|order| - 1];
      SweepPairs(tasks, order[..|order| - 1], keep) +
        (if keep != Some(x) && "start" in tasks[x] then [(Task(x, tasks[x]), Task(x, Stopped(tasks[x])))] else [])
  }

  /** The modify hook run for each recorded pair, in order, with both tasks in the view the
      source builds (`end` filled from `start`). */
  function FireAll(hooksDir: Option<string>, pairs: seq<(Task, Task)>, log: seq<HookCall>): (r: seq<HookCall>)
    ensures hooksDir.None? ==> r == log
    ensures hooksDir.Some? ==> |r| == |log| + |pairs|
  {
    if pairs == [] then log
    else
      var p := pairs[|pairs| - 1];
      ExecuteHooks(hooksDir, OnModify, Some(ViewAsWritten(p.0)), Some(ViewAsWritten(p.1)), FireAll(hooksDir, pairs[..|pairs| - 1], log))
  }

  /** One modify call, with both tasks in the view the source builds. */
  function ModifyCall(dir: string, p: (Task, Task)): HookCall {
    HookCall(OnModify, dir, Some(ViewAsWritten(p.0)), Some(ViewAsWritten(p.1)))
  }

  lemma FireAllSnoc(dir: string, pairs: seq<(Task, Task)>, log: seq<HookCall>)
    requires pairs != []
    ensures FireAll(Some(dir), pairs, log) ==
      FireAll(Some(dir), pairs[..|pairs| - 1], log) + [ModifyCall(dir, pairs[|pairs| - 1])]
  {
  }

  lemma SnocKeeps<T>(prev: seq<T>, last: T, n: nat)
    requires n <= |prev|
    ensures (prev + [last])[..n] == prev[..n]
    ensures forall i :: 0 <= i < |prev| ==> (prev + [last])[i] == prev[i]
  {
  }

  /** The log keeps its old calls and gains one modify call per pair, in the pairs' order. */
  lemma {:induction false} FireAllCalls(dir: string, pairs: seq<(Task, Task)>, log: seq<HookCall>)
    ensures var r := FireAll(Some(dir), pairs, log);
      r[..|log|] == log && forall i :: 0 <= i < |pairs| ==> r[|log| + i] == ModifyCall(dir, pairs[i])
    decreases |pairs|
  {
    if pairs != [] {
      var rest := pairs[..|pairs| - 1];
      FireAllCalls(dir, rest, log);
      FireAllSnoc(dir, pairs, log);
      var prev := FireAll(Some(dir), rest, log);
      var r := FireAll(Some(dir), pairs, log);
      SnocKeeps(prev, ModifyCall(dir, pairs[|pairs| - 1]), |log|);
      forall i | 0 <= i < |pairs| ensures r[|log| + i] == ModifyCall(dir, pairs[i]) {
        if i < |rest| {
          assert r[|log| + i] == prev[|log| + i] && rest[i] == pairs[i];
        }
      }
    }
  }

  lemma ApplyOpsSnoc(tasks: Tasks, ops: seq<Op>, op: Op)
    ensures ApplyOps(tasks, ops + [op]) == ApplyOp(ApplyOps(tasks, ops), op)
  {
    assert (ops + [op])[..|ops|] == ops;
  }

  /** One more task swept. */
  lemma SweptStep(m: Tasks, order: seq<Uuid>, i: nat, keep: Option<Uuid>)
    requires i < |order| && order[i] in m
    requires forall j :: 0 <= j < i ==> order[j] != order[i]
    ensures var x := order[i];
      Swept(m, order[..i + 1], keep) ==
        if keep == Some(x) then Swept(m, order[..i], keep) else Swept(m, order[..i], keep)[x := Stopped(m[x])]
  {
    var x := order[i];
    assert order[..i + 1] == order[..i] + [x];
    assert x !in order[..i];
  }

  lemma StoppedIdle(m: TaskMap)
    requires "start" !in m
    ensures Stopped(m) == m
  {
  }

  lemma SweptNone(m: Tasks, keep: Option<Uuid>)
    ensures Swept(m, [], keep) == m
  {
  }

  /** Stopping a running task that the sweep has not reached yet. */
  lemma SweepStop(env: Env, tasks: Tasks, base: Tasks, order: seq<Uuid>, i: nat, keep: Option<Uuid>, out: seq<Op>)
    requires i < |order| && order[i] in tasks && base.Keys == tasks.Keys
    requires forall j :: 0 <= j < i ==> order[j] != order[i]
    requires keep != Some(order[i]) && "start" in tasks[order[i]]
    requires ApplyOps(tasks, out) == Swept(base, order[..i], keep)
    requires Stop(env, Staged(Task(order[i], tasks[order[i]]), out)).Ok?
    ensures var s := Stop(env, Staged(Task(order[i], tasks[order[i]]), out)).value;
      ApplyOps(tasks, s.ops) == Swept(base, order[..i + 1], keep) &&
      |out| <= |s.ops| && s.ops[..|out|] == out && s.task == Task(order[i], Stopped(tasks[order[i]]))
  {
    var x := order[i];
    var s := Stop(env, Staged(Task(x, tasks[x]), out)).value;
    var op := Update(x, "start", Get(tasks[x], "start"), None, env.now);
    assert s.ops == out + [op];
    ApplyOpsSnoc(tasks, out, op);
    SweptStep(base, order, i, keep);
    assert x !in order[..i];
  }

  /** Passing over a kept or idle task. */
  lemma SweepPass(tasks: Tasks, base: Tasks, order: seq<Uuid>, i: nat, keep: Option<Uuid>)
    requires i < |order| && order[i] in tasks && base.Keys == tasks.Keys
    requires forall j :: 0 <= j < i ==> order[j] != order[i]
    requires keep == Some(order[i]) || "start" !in base[order[i]]
    ensures Swept(base, order[..i + 1], keep) == Swept(base, order[..i], keep)
  {
    SweptStep(base, order, i, keep);
    var x := order[i];
    if keep != Some(x) {
      assert Stopped(base[x]) == base[x];
    }
    assert x !in order[..i];
  }

  lemma SweepPairsStep(tasks: Tasks, order: seq<Uuid>, i: nat, keep: Option<Uuid>)
    requires i < |order| && forall k :: 0 <= k < |order| ==> order[k] in tasks
    ensures var x := order[i];
      SweepPairs(tasks, order[..i + 1], keep) == SweepPairs(tasks, order[..i], keep) +
        (if keep != Some(x) && "start" in tasks[x] then [(Task(x, tasks[x]), Task(x, Stopped(tasks[x])))] else [])
  {
    assert order[..i + 1][..i] == order[..i];
  }

  /** The store the toggle commits: the target stopped first when asked to stop, then the sweep,
      then the start of a target that was not running when asked to start. */
  lemma ToggleCommitted(tasks: Tasks, u: Uuid, status: string, now: int, skipTarget: bool, order: seq<Uuid>)
    requires u in tasks && forall x :: x in tasks <==> x in order
    ensures var base := if status == "stop" then tasks[u := Stopped(tasks[u])] else tasks;
      var s := Swept(base, order, if skipTarget then Some(u) else None);
      u in s &&
      ToggledStore(tasks, u, status, now, skipTarget) ==
        if status == "start" && "start" !in tasks[u] then s[u := Assign(s[u], "start", Some(IntToString(now)))] else s
  {
    if status == "start" && "start" !in tasks[u] {
      ToggleStartsIdle(tasks, u, status, now, skipTarget, order);
    } else {
      ToggleStartsNothing(tasks, u, status, now, skipTarget, order);
    }
  }

  lemma ToggleStartsIdle(tasks: Tasks, u: Uuid, status: string, now: int, skipTarget: bool, order: seq<Uuid>)
    requires u in tasks && forall x :: x in tasks <==> x in order
    requires status == "start" && "start" !in tasks[u]
    ensures var s := Swept(tasks, order, if skipTarget then Some(u) else None);
      u in s && ToggledStore(tasks, u, status, now, skipTarget) == s[u := Assign(s[u], "start", Some(IntToString(now)))]
  {
    var s := Swept(tasks, order, if skipTarget then Some(u) else None);
    assert s.Keys == tasks.Keys;
    assert s[u] == tasks[u] by {
      if !skipTarget {
        assert Stopped(tasks[u]) == tasks[u];
      }
    }
  }

  lemma ToggleStartsNothing(tasks: Tasks, u: Uuid, status: string, now: int, skipTarget: bool, order: seq<Uuid>)
    requires u in tasks && forall x :: x in tasks <==> x in order
    requires !(status == "start" && "start" !in tasks[u])
    ensures var base := if status == "stop" then tasks[u := Stopped(tasks[u])] else tasks;
      var s := Swept(base, order, if skipTarget then Some(u) else None);
      u in s && ToggledStore(tasks, u, status, now, skipTarget) == s
  {
    var base := if status == "stop" then tasks[u := Stopped(tasks[u])] else tasks;
    var s := Swept(base, order, if skipTarget then Some(u) else None);
    assert s.Keys == tasks.Keys;
    if status == "stop" {
      assert Stopped(Stopped(tasks[u])) == Stopped(tasks[u]);
    }
  }

  /** `toggle_task_active`'s sweep over the store's tasks in the order the store lists them:
      every running task except `keep` is stopped and recorded; a refused stop ends it. The
      operations are appended to `ops`, which on `tasks` gave `base`, a store whose tasks run
      only if they ran in `tasks`. */
  method Sweep(env: Env, tasks: Tasks, order: seq<Uuid>, keep: Option<Uuid>, ops: seq<Op>)
    returns (r: Result<(seq<Op>, seq<(Task, Task)>), string>)
    requires forall x :: x in tasks <==> x in order
    requires forall i, j :: 0 <= i < j < |order| ==> order[i] != order[j]
    requires ApplyOps(tasks, ops).Keys == tasks.Keys
    requires forall x :: x in tasks && "start" !in tasks[x] ==> "start" !in ApplyOps(tasks, ops)[x]
    ensures r.Err? ==> "start" in env.refused
    ensures "start" !in env.refused ==> r.Ok?
    ensures r.Ok? ==> ApplyOps(tasks, r.value.0) == Swept(ApplyOps(tasks, ops), order, keep)
    ensures r.Ok? ==> |ops| <= |r.value.0| && r.value.0[..|ops|] == ops
    ensures r.Ok? ==> r.value.1 == SweepPairs(tasks, order, keep)
  {
    ghost var base := ApplyOps(tasks, ops);
    var out := ops;
    var changed: seq<(Task, Task)> := [];
    var i := 0;
    assert forall k :: 0 <= k < |order| ==> order[k] in tasks;
    SweptNone(base, keep);
    assert order[..0] == [];
    assert SweptUpTo(tasks, base, order[..0], keep, ops, out, changed);
    while i < |order|
      invariant 0 <= i <= |order|
      invariant SweptUpTo(tasks, base, order[..i], keep, ops, out, changed)
    {
      var step := SweepOne(env, tasks, base, order, i, keep, ops, out, changed);
      if step.Err? {
        assert "start" in env.refused;
        r := Err(step.error);
        return;
      }
      out, changed := step.value.0, step.value.1;
      i := i + 1;
    }
    assert order[..i] == order;
    r := Ok((out, changed));
  }

  /** The sweep's progress over the prefix `done` of the order: the operations so far stop the
      tasks swept, extend `ops`, and the recorded pairs are those of `done`. */
  ghost predicate SweptUpTo(tasks: Tasks, base: Tasks, done: seq<Uuid>, keep: Option<Uuid>,
                            ops: seq<Op>, out: seq<Op>, changed: seq<(Task, Task)>)
    requires forall k :: 0 <= k < |done| ==> done[k] in tasks
  {
    ApplyOps(tasks, out) == Swept(base, done, keep) &&
    |ops| <= |out| && out[..|ops|] == ops &&
    changed == SweepPairs(tasks, done, keep)
  }

  /** One task of the sweep: stopped unless it is the kept one or idle. */
  method SweepOne(env: Env, tasks: Tasks, ghost base: Tasks, order: seq<Uuid>, i: nat, keep: Option<Uuid>,
                  ghost ops: seq<Op>, out: seq<Op>, changed: seq<(Task, Task)>)
    returns (r: Result<(seq<Op>, seq<(Task, Task)>), string>)
    requires i < |order| && forall x :: x in tasks <==> x in order
    requires forall a, b :: 0 <= a < b < |order| ==> order[a] != order[b]
    requires base.Keys == tasks.Keys
    requires forall x :: x in tasks && "start" !in tasks[x] ==> "start" !in base[x]
    requires SweptUpTo(tasks, base, order[..i], keep, ops, out, changed)
    ensures r.Err? ==> "start" in env.refused
    ensures "start" !in env.refused ==> r.Ok?
    ensures r.Ok? ==> SweptUpTo(tasks, base, order[..i + 1], keep, ops, r.value.0, r.value.1)
  {
    var x := order[i];
    var single := Task(x, tasks[x]);
    SweepPairsStep(tasks, order, i, keep);
    if keep != Some(x) && IsActive(single) {
      var s := Stop(env, Staged(single, out));
      if s.Err? {
        return Err(s.error);
      }
      SweepStop(env, tasks, base, order, i, keep, out);
      r := Ok((s.value.ops, changed + [(single, s.value.task)]));
    } else {
      SweepPass(tasks, base, order, i, keep);
      r := Ok((out, changed));
    }
  }

  /** What `toggle_task_active` stages before its commit: the operations, the recorded (before,
      after) pairs with the target last, and the target as kept in memory. */
  method StageToggle(env: Env, tasks: Tasks, u: Uuid, status: string, order: seq<Uuid>, skipTarget: bool)
    returns (r: Result<(seq<Op>, seq<(Task, Task)>, Task), string>)
    requires u in tasks
    requires forall x :: x in tasks <==> x in order
    requires forall i, j :: 0 <= i < j < |order| ==> order[i] != order[j]
    ensures r.Err? ==> "start" in env.refused
    ensures "start" !in env.refused ==> r.Ok?
    ensures r.Ok? ==> ApplyOps(tasks, r.value.0) == ToggledStore(tasks, u, status, env.now, skipTarget)
    ensures r.Ok? ==> r.value.2 == Task(u, TargetAfter(tasks[u], status, env.now))
    ensures r.Ok? ==> r.value.1 == SweepPairs(tasks, order, if skipTarget then Some(u) else None) +
                                   [(Task(u, tasks[u]), r.value.2)]
  {
    var oldTask := Task(u, tasks[u]);
    var first := StopFirst(env, tasks, u, status);
    if first.Err? {
      return Err(first.error);
    }
    var (t, ops) := first.value;
    var keep := if skipTarget then Some(u) else None;
    var sw := Sweep(env, tasks, order, keep, ops);
    if sw.Err? {
      return Err(sw.error);
    }
    ops := sw.value.0;
    ToggleCommitted(tasks, u, status, env.now, skipTarget, order);
    ghost var swept := ApplyOps(tasks, ops);
    var last := StartLast(env, tasks, t, ops, status);
    if last.Err? {
      return Err(last.error);
    }
    t, ops := last.value.0, last.value.1;
    r := Ok((ops, sw.value.1 + [(oldTask, t)], t));
  }

  /** The target started when asked to start, on top of `ops`. */
  method StartLast(env: Env, ghost tasks: Tasks, t: Task, ops: seq<Op>, status: string)
    returns (r: Result<(Task, seq<Op>), string>)
    requires t.uuid in ApplyOps(tasks, ops)
    ensures r.Err? ==> "start" in env.refused
    ensures "start" !in env.refused ==> r.Ok?
    ensures r.Ok? && (status != "start" || "start" in t.data) ==> r.value == (t, ops)
    ensures r.Ok? && status == "start" && "start" !in t.data ==>
      var s := ApplyOps(tasks, ops);
      r.value.0 == Task(t.uuid, Assign(t.data, "start", Some(IntToString(env.now)))) &&
      ApplyOps(tasks, r.value.1) == s[t.uuid := Assign(s[t.uuid], "start", Some(IntToString(env.now)))]
  {
    if status != "start" {
      return Ok((t, ops));
    }
    var s := Store.Start(env, Staged(t, ops));
    if s.Err? {
      return Err(s.error);
    }
    if !IsActive(t) {
      ApplyOpsSnoc(tasks, ops, s.value.ops[|ops|]);
      assert s.value.ops == ops + [s.value.ops[|ops|]];
    }
    r := Ok((s.value.task, s.value.ops));
  }

  /** The undo point, then the target stopped when asked to stop. */
  method StopFirst(env: Env, tasks: Tasks, u: Uuid, status: string) returns (r: Result<(Task, seq<Op>), string>)
    requires u in tasks
    ensures r.Err? ==> "start" in env.refused
    ensures "start" !in env.refused ==> r.Ok?
    ensures r.Ok? ==> r.value.0 == Task(u, if status == "stop" then Stopped(tasks[u]) else tasks[u])
    ensures r.Ok? ==> ApplyOps(tasks, r.value.1) == (if status == "stop" then tasks[u := Stopped(tasks[u])] else tasks)
  {
    var t := Task(u, tasks[u]);
    var ops := [UndoPoint];
    assert ApplyOps(tasks, ops) == tasks by { assert ops[..0] == []; }
    if status == "stop" {
      var s := Stop(env, Staged(t, ops));
      if s.Err? {
        return Err(s.error);
      }
      if IsActive(t) {
        ApplyOpsSnoc(tasks, ops, s.value.ops[1]);
        assert s.value.ops == ops + [s.value.ops[1]];
      } else {
        StoppedIdle(tasks[u]);
        assert tasks[u := Stopped(tasks[u])] == tasks;
      }
      t, ops := s.value.task, s.value.ops;
    }
    r := Ok((t, ops));
  }
}