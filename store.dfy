/** The task store the web front end works on (a taskchampion replica), kept abstract: a task is a
    UUID with a string-to-string property map, every change made through a setter is both applied
    to the in-memory task and appended to a list of operations, and a commit applies that list to
    the stored tasks in one step. A setter may be refused by the store; which properties it refuses
    is a parameter. */
module Store {
  import opened Wrappers
  import opened Strings

  /** A UUID in its canonical form: 36 characters, lower-case hex digits and hyphens at 8, 13, 18, 23. */
  type Uuid = string

  type TaskMap = map<string, string>

  datatype Status = Pending | Completed | Deleted | Recurring | Unknown(raw: string)

  /** The value the store keeps under `status`. */
  function StatusToTaskmap(s: Status): string {
    match s
    case Pending => "pending"
    case Completed => "completed"
    case Deleted => "deleted"
    case Recurring => "recurring"
    case Unknown(raw) => raw
  }

  /** Reading `status` back: the four known words, case-sensitively, and anything else kept as is. */
  function StatusFromTaskmap(s: string): (r: Status)
    ensures StatusToTaskmap(r) == s
  {
    match s
    case "pending" => Pending
    case "completed" => Completed
    case "deleted" => Deleted
    case "recurring" => Recurring
    case _ => Unknown(s)
  }

  // ---------------------------------------------------------------- UUIDs

  predicate IsHex(c: char) { '0' <= c <= '9' || 'a' <= c <= 'f' || 'A' <= c <= 'F' }

  predicate IsHyphenPos(i: int) { i == 8 || i == 13 || i == 18 || i == 23 }

  predicate IsCanonicalUuid(s: string) {
    |s| == 36 && forall i :: 0 <= i < 36 ==>
      if IsHyphenPos(i) then s[i] == '-' else IsHex(s[i]) && !('A' <= s[i] <= 'F')
  }

  predicate AllHex(s: string) {
    forall i :: 0 <= i < |s| ==> IsHex(s[i])
  }

  /** The 32 hex digits of a UUID written with hyphens in the usual places. */
  predicate IsHyphenated(s: string) {
    |s| == 36 && forall i :: 0 <= i < 36 ==> if IsHyphenPos(i) then s[i] == '-' else IsHex(s[i])
  }

  function Hyphenate(h: string): (r: string)
    requires |h| == 32
    ensures |r| == 36
  {
    h[..8] + "-" + h[8..12] + "-" + h[12..16] + "-" + h[16..20] + "-" + h[20..]
  }

  /** `Uuid::try_parse`: the simple (32 hex digits), hyphenated, braced `{...}` and `urn:uuid:`
      forms, in either case; the result is the canonical form. */
  function ParseUuid(s: string): (r: Option<Uuid>)
    ensures r.Some? ==> IsCanonicalUuid(r.value)
  {
    var body :=
      if |s| == 38 && s[0] == '{' && s[37] == '}' then s[1..37]
      else if |s| == 45 && s[..9] == "urn:uuid:" then s[9..]
      else s;
    if |body| == 32 && AllHex(body) then Some(CanonicalOf(Hyphenate(body)))
    else if IsHyphenated(body) then Some(CanonicalOf(body))
    else None
  }

  function CanonicalOf(s: string): (r: string)
    requires |s| == 36 && forall i :: 0 <= i < 36 ==> if IsHyphenPos(i) then s[i] == '-' else IsHex(s[i])
    ensures IsCanonicalUuid(r)
  {
    var r := ToLower(s);
    forall i | 0 <= i < 36
      ensures if IsHyphenPos(i) then r[i] == '-' else IsHex(r[i]) && !('A' <= r[i] <= 'F')
    {
      assert r[i] == LowerChar(s[i]);
      assert if IsHyphenPos(i) then s[i] == '-' else IsHex(s[i]);
      if 'A' <= s[i] <= 'F' {
        assert r[i] as int == s[i] as int + 32;
        assert 'a' as int == 'A' as int + 32 && 'f' as int == 'F' as int + 32;
        assert 'a' <= r[i] <= 'f';
      }
    }
    r
  }

  /** A canonical UUID parses to itself. */
  lemma ParseCanonicalUuid(u: Uuid)
    requires IsCanonicalUuid(u)
    ensures ParseUuid(u) == Some(u)
  {
    assert u[0] != '{' && u[..9] != "urn:uuid:" by { assert u[0] == u[..9][0]; }
    assert !AllHex(u) by { assert !IsHex(u[8]); }
    assert ToLower(u) == u;
  }

  /** A run of decimal digits is never taken for a UUID unless it is exactly 32 digits long, so a
      working-set number always reaches the working set. */
  lemma NumberIsNotUuid(s: string)
    requires AllDigits(s) && |s| != 32
    ensures ParseUuid(s).None?
  {
    if |s| == 36 {
      assert s[8] != '-';
    }
  }

  // ---------------------------------------------------------------- tags

  datatype Tag = User(name: string) | Synthetic(name: string)

  /** The synthetic tags the store derives from a task's state. */
  const SYNTHETIC_TAGS: set<string> :=
    {"WAITING", "ACTIVE", "PENDING", "COMPLETED", "DELETED", "BLOCKED", "UNBLOCKED", "BLOCKING"}

  /** Characters no tag may contain (and no tag may start with). */
  const INVALID_TAG_CHARACTERS: set<char> := {'+', '-', '*', '/', '(', '<', '>', '^', '!', ' ', '%', '=', '~'}

  predicate AllUpper(s: string) {
    forall i :: 0 <= i < |s| ==> 'A' <= s[i] <= 'Z'
  }

  function InvalidTag(s: string): string {
    "invalid tag \"" + s + "\""
  }

  const SYNTHETIC_TAG_ERROR: string := "Synthetic tags cannot be modified"

  predicate BadFirst(c: char) { IsWhitespace(c) || IsDigit(c) || c in INVALID_TAG_CHARACTERS }

  predicate BadLater(c: char) { IsWhitespace(c) || c == ':' || c in INVALID_TAG_CHARACTERS }

  /** `Tag::from_str`: all-upper-case names must be synthetic tags; anything else is a user tag
      when it is non-empty, does not start with whitespace, a digit or an invalid character, and
      contains no whitespace, `:` or invalid character. */
  function ParseTag(s: string): (r: Result<Tag, string>)
    ensures r.Ok? ==> r.value.name == s
    ensures r.Ok? && r.value.Synthetic? <==> s in SYNTHETIC_TAGS
    ensures r.Err? ==> r.error == InvalidTag(s)
  {
    SyntheticAllUpper(s);
    if AllUpper(s) then
      if s in SYNTHETIC_TAGS then Ok(Synthetic(s)) else Err(InvalidTag(s))
    else if BadFirst(s[0]) then Err(InvalidTag(s))
    else if exists i :: 1 <= i < |s| && BadLater(s[i]) then Err(InvalidTag(s))
    else Ok(User(s))
  }

  /** Every synthetic tag name is written in capitals. */
  lemma SyntheticAllUpper(s: string)
    ensures s in SYNTHETIC_TAGS ==> AllUpper(s)
  {
  }

  /** A user tag is exactly a name that is not all capitals and has no forbidden character. */
  lemma UserTagIff(s: string)
    ensures ParseTag(s) == Ok(User(s)) <==>
      s != [] && !AllUpper(s) && !BadFirst(s[0]) && forall i :: 1 <= i < |s| ==> !BadLater(s[i])
  {
  }

  /** The tags the modification tests use: names with a slash are rejected, upper-case names are
      synthetic when they are one of the store's own, and plain words are user tags. */
  lemma TagExamplesRejected()
    ensures ParseTag("d/c").Err? && ParseTag("e/b").Err? && ParseTag("").Err? && ParseTag("TWK").Err?
  {
    assert "d/c"[0] == 'd' && "d/c"[1] == '/';
    assert "e/b"[0] == 'e' && "e/b"[1] == '/';
    assert AllUpper("TWK");
  }

  lemma TagExamplesSynthetic()
    ensures ParseTag("WAITING") == Ok(Synthetic("WAITING")) && ParseTag("PENDING") == Ok(Synthetic("PENDING"))
  {
    assert AllUpper("WAITING");
    assert AllUpper("PENDING");
  }

  lemma TagExampleUser()
    ensures ParseTag("concert") == Ok(User("concert"))
  {
    var c := "concert";
    assert !AllUpper(c) by { assert c[0] == 'c'; }
    assert forall i :: 1 <= i < |c| ==> !BadLater(c[i]);
  }

  /** A word of lower-case letters is a user tag. */
  lemma LowerWordTag(w: string)
    requires w != [] && forall i :: 0 <= i < |w| ==> 'a' <= w[i] <= 'z'
    ensures ParseTag(w) == Ok(User(w))
  {
    assert !AllUpper(w) by { assert !('A' <= w[0] <= 'Z'); }
  }

  // ---------------------------------------------------------------- tasks and operations

  datatype Task = Task(uuid: Uuid, data: TaskMap)

  /** The operations a change is recorded as; `Update` carries the previous and the new value. */
  datatype Op =
    | UndoPoint
    | Create(uuid: Uuid)
    | Delete(uuid: Uuid, oldTask: TaskMap)
    | Update(uuid: Uuid, property: string, oldValue: Option<string>, value: Option<string>, timestamp: int)

  /** A task being edited and the operations recorded so far. */
  datatype Staged = Staged(task: Task, ops: seq<Op>)

  /** What a handler needs from the outside: the clock, the properties whose setters the store
      refuses, and the working set (working-set number to UUID). */
  datatype Env = Env(now: int, refused: set<string>, workingSet: map<nat, Uuid>)

  function Get(m: TaskMap, p: string): Option<string> {
    if p in m then Some(m[p]) else None
  }

  function Assign(m: TaskMap, p: string, v: Option<string>): (r: TaskMap)
    ensures Get(r, p) == v
    ensures forall q :: q != p ==> Get(r, q) == Get(m, q)
  {
    match v
    case Some(x) => m[p := x]
    case None => m - {p}
  }

  function Refusal(p: string): string {
    "the store refused to update " + p
  }

  /** `set_value`: changes one property of the in-memory task and records the change. */
  function SetValue(env: Env, st: Staged, p: string, v: Option<string>): (r: Result<Staged, string>)
    ensures r.Err? <==> p in env.refused
    ensures r.Err? ==> r.error == Refusal(p)
    ensures r.Ok? ==> r.value.task == Task(st.task.uuid, Assign(st.task.data, p, v))
    ensures r.Ok? ==> r.value.ops == st.ops + [Update(st.task.uuid, p, Get(st.task.data, p), v, env.now)]
  {
    if p in env.refused then Err(Refusal(p))
    else Ok(Staged(Task(st.task.uuid, Assign(st.task.data, p, v)),
                   st.ops + [Update(st.task.uuid, p, Get(st.task.data, p), v, env.now)]))
  }

  function SetStatus(env: Env, st: Staged, s: Status): Result<Staged, string> {
    SetValue(env, st, "status", Some(StatusToTaskmap(s)))
  }

  /** Timestamps are stored as decimal seconds since the epoch. */
  function SetTimestamp(env: Env, st: Staged, p: string, t: Option<int>): Result<Staged, string> {
    SetValue(env, st, p, match t case Some(x) => Some(IntToString(x)) case None => None)
  }

  /** Adding or removing a tag: synthetic tags are refused, user tags live under `tag_<name>`. */
  function SetTag(env: Env, st: Staged, t: Tag, add: bool): (r: Result<Staged, string>)
    ensures t.Synthetic? ==> r == Err(SYNTHETIC_TAG_ERROR)
  {
    if t.Synthetic? then Err(SYNTHETIC_TAG_ERROR)
    else SetValue(env, st, "tag_" + t.name, if add then Some("") else None)
  }

  /** Adding or removing a dependency, kept under `dep_<uuid>`. */
  function SetDependency(env: Env, st: Staged, u: Uuid, add: bool): Result<Staged, string> {
    SetValue(env, st, "dep_" + u, if add then Some("") else None)
  }

  predicate IsActive(t: Task) {
    "start" in t.data
  }

  /** `start`: nothing to do for an active task, otherwise the start time becomes now. */
  function Start(env: Env, st: Staged): (r: Result<Staged, string>)
    ensures r.Ok? ==> IsActive(r.value.task)
    ensures IsActive(st.task) ==> r == Ok(st)
  {
    if IsActive(st.task) then Ok(st) else SetTimestamp(env, st, "start", Some(env.now))
  }

  /** `stop`: nothing to do for an inactive task, otherwise the start time is removed. */
  function Stop(env: Env, st: Staged): (r: Result<Staged, string>)
    ensures r.Ok? ==> !IsActive(r.value.task)
    ensures !IsActive(st.task) ==> r == Ok(st)
  {
    if !IsActive(st.task) then Ok(st) else SetTimestamp(env, st, "start", None)
  }

  function GetStatus(t: Task): Status {
    match Get(t.data, "status")
    case Some(s) => StatusFromTaskmap(s)
    case None => Pending
  }

  // ---------------------------------------------------------------- commit

  type Tasks = map<Uuid, TaskMap>

  /** One operation applied to the stored tasks. */
  function ApplyOp(tasks: Tasks, op: Op): Tasks {
    match op
    case UndoPoint => tasks
    case Create(u) => if u in tasks then tasks else tasks[u := map[]]
    case Delete(u, _) => tasks - {u}
    case Update(u, p, _, v, _) => if u in tasks then tasks[u := Assign(tasks[u], p, v)] else tasks
  }

  /** A committed operation list, applied in order. */
  function ApplyOps(tasks: Tasks, ops: seq<Op>): Tasks {
    if ops == [] then tasks else ApplyOp(ApplyOps(tasks, ops[..|ops| - 1]), ops[|ops| - 1])
  }

  /** The staged operations, committed on top of `tasks`, give exactly the in-memory task. */
  ghost predicate Tracks(tasks: Tasks, st: Staged) {
    ApplyOps(tasks, st.ops) == tasks[st.task.uuid := st.task.data]
  }

  /** A successful setter keeps the recorded operations in step with the in-memory task. */
  lemma SetValueTracks(env: Env, st: Staged, p: string, v: Option<string>, tasks: Tasks)
    requires Tracks(tasks, st) && SetValue(env, st, p, v).Ok?
    ensures Tracks(tasks, SetValue(env, st, p, v).value)
  {
    var st' := SetValue(env, st, p, v).value;
    assert st'.ops[..|st'.ops| - 1] == st.ops;
  }

  /** The start of an edit of a stored task: an undo point and the task as stored. */
  lemma ModifyStartTracks(tasks: Tasks, u: Uuid)
    requires u in tasks
    ensures Tracks(tasks, Staged(Task(u, tasks[u]), [UndoPoint]))
  {
    assert [UndoPoint][..0] == [];
  }

  /** The start of a new task: an undo point, then its creation under an unused UUID. */
  lemma CreateStartTracks(tasks: Tasks, u: Uuid)
    requires u !in tasks
    ensures Tracks(tasks, Staged(Task(u, map[]), [UndoPoint, Create(u)]))
  {
    var ops := [UndoPoint, Create(u)];
    assert ops[..1] == [UndoPoint] && ops[..1][..0] == [];
    assert ApplyOps(tasks, [UndoPoint]) == tasks;
    assert ApplyOps(tasks, ops) == ApplyOp(tasks, Create(u));
  }
}
