/** The task detail page's list of dependencies, and the tag keywords of the filter bar. The
    dependencies are looked up one by one in the store, in the order the task lists them, and
    then sorted: open tasks first by working-set number (a task without one counts as 9999999),
    completed tasks last. */
module Details {
  import opened Wrappers
  import opened Strings
  import opened Store
  import opened Backend

  // ---------------------------------------------------------------- the comparator

  datatype Ordering = Less | Equal | Greater

  /** The number a task without a working-set number sorts under. */
  const NO_ID: int := 9999999

  /** Whether the status prints as `completed`. */
  predicate IsCompleted(t: TaskView) {
    StatusToTaskmap(t.status) == StatusToTaskmap(Completed)
  }

  /** The comparator handed to `sort_by`, branch for branch. */
  function DepCompare(a: TaskView, b: TaskView): Ordering {
    if IsCompleted(a) && IsCompleted(b) then Equal
    else if IsCompleted(a) && !IsCompleted(b) then Greater
    else if !IsCompleted(a) && IsCompleted(b) then Less
    else if a.id.GetOr(NO_ID) < b.id.GetOr(NO_ID) then Less
    else if a.id.GetOr(NO_ID) > b.id.GetOr(NO_ID) then Greater
    else Equal
  }

  /** The key a task sorts under: its rank (0 open, 1 completed) and, for open tasks, its number. */
  function Key(t: TaskView): (int, int) {
    if IsCompleted(t) then (1, 0) else (0, t.id.GetOr(NO_ID))
  }

  predicate KeyLess(a: (int, int), b: (int, int)) {
    a.0 < b.0 || (a.0 == b.0 && a.1 < b.1)
  }

  /** The comparator is the lexicographic comparison of the keys: so it is a total preorder
      (reflexive, transitive, and `Less` one way exactly when `Greater` the other). */
  lemma CompareByKey(a: TaskView, b: TaskView)
    ensures DepCompare(a, b) == Less <==> KeyLess(Key(a), Key(b))
    ensures DepCompare(a, b) == Greater <==> KeyLess(Key(b), Key(a))
    ensures DepCompare(a, b) == Equal <==> Key(a) == Key(b)
  {
  }

  lemma CompareAntisymmetric(a: TaskView, b: TaskView)
    ensures DepCompare(a, b) == Less <==> DepCompare(b, a) == Greater
    ensures DepCompare(a, b) == Equal <==> DepCompare(b, a) == Equal
  {
    CompareByKey(a, b);
    CompareByKey(b, a);
  }

  lemma CompareTransitive(a: TaskView, b: TaskView, c: TaskView)
    requires DepCompare(a, b) != Greater && DepCompare(b, c) != Greater
    ensures DepCompare(a, c) != Greater
    ensures DepCompare(a, b) == Less || DepCompare(b, c) == Less ==> DepCompare(a, c) == Less
  {
    CompareByKey(a, b);
    CompareByKey(b, c);
    CompareByKey(a, c);
  }

  /** A completed task never sorts before an open one, whatever their numbers. */
  lemma CompletedLast(a: TaskView, b: TaskView)
    requires IsCompleted(a) && !IsCompleted(b)
    ensures DepCompare(a, b) == Greater && DepCompare(b, a) == Less
  {
  }

  // ---------------------------------------------------------------- the stable sort

  predicate Leq(a: TaskView, b: TaskView) {
    DepCompare(a, b) != Greater
  }

  predicate Sorted(s: seq<TaskView>) {
    forall i, j :: 0 <= i < j < |s| ==> Leq(s[i], s[j])
  }

  /** The elements of `s` that sort under key `k`, in their order in `s`. */
  function WithKey(s: seq<TaskView>, k: (int, int)): seq<TaskView> {
    if s == [] then []
    else WithKey(s[..|s| - 1], k) + (if Key(s[|s| - 1]) == k then [s[|s| - 1]] else [])
  }

  /** `x` placed after every element that does not sort after it. */
  function Insert(s: seq<TaskView>, x: TaskView): (r: seq<TaskView>)
    ensures multiset(r) == multiset(s) + multiset{x}
    decreases |s|
  {
    if s == [] then [x]
    else
      assert s == s[..|s| - 1] + [s[|s| - 1]];
      if DepCompare(x, s[|s| - 1]) == Less then Insert(s[..|s| - 1], x) + [s[|s| - 1]]
      else s + [x]
  }

  /** `sort_by` with `DepCompare`, a stable sort: each element is inserted, left to right. */
  function SortBy(s: seq<TaskView>): (r: seq<TaskView>)
    ensures multiset(r) == multiset(s)
    decreases |s|
  {
    if s == [] then []
    else
      assert s == s[..|s| - 1] + [s[|s| - 1]];
      Insert(SortBy(s[..|s| - 1]), s[|s| - 1])
  }

  lemma {:induction false} InsertSorted(s: seq<TaskView>, x: TaskView)
    requires Sorted(s)
    ensures Sorted(Insert(s, x))
    ensures forall i :: 0 <= i < |Insert(s, x)| ==> Insert(s, x)[i] in s || Insert(s, x)[i] == x
    decreases |s|
  {
    if s == [] {
    } else {
      var init, last := s[..|s| - 1], s[|s| - 1];
      if DepCompare(x, last) == Less {
        InsertSorted(init, x);
        var t := Insert(init, x);
        forall i | 0 <= i < |t| ensures Leq(t[i], last) {
          if t[i] == x {
            CompareAntisymmetric(x, last);
          } else {
            var j :| 0 <= j < |init| && init[j] == t[i];
            assert s[j] == init[j];
          }
        }
        forall i | 0 <= i < |t| ensures t[i] in s || t[i] == x {
          if t[i] != x {
            var j :| 0 <= j < |init| && init[j] == t[i];
            assert s[j] == init[j];
          }
        }
      } else {
        forall i | 0 <= i < |s| ensures Leq(s[i], x) {
          if i < |s| - 1 {
            CompareTransitive(s[i], last, x);
          }
          CompareAntisymmetric(x, last);
        }
      }
    }
  }

  lemma {:induction false} SortBySorted(s: seq<TaskView>)
    ensures Sorted(SortBy(s))
    decreases |s|
  {
    if s != [] {
      SortBySorted(s[..|s| - 1]);
      InsertSorted(SortBy(s[..|s| - 1]), s[|s| - 1]);
    }
  }

  lemma WithKeySnoc(s: seq<TaskView>, x: TaskView, k: (int, int))
    ensures WithKey(s + [x], k) == WithKey(s, k) + (if Key(x) == k then [x] else [])
  {
    assert (s + [x])[..|s + [x]| - 1] == s;
  }

  /** Two appended pieces commute when one of them is empty. */
  lemma SwapEmpty<T>(w: seq<T>, a: seq<T>, b: seq<T>)
    requires a == [] || b == []
    ensures w + a + b == w + b + a
  {
    if a == [] {
      assert w + a == w;
      assert w + b + a == w + b;
    } else {
      assert w + b == w;
      assert w + a + b == w + a;
    }
  }

  /** Inserting `x` into a sorted list appends it to the elements of its own key. */
  lemma {:induction false} InsertWithKey(s: seq<TaskView>, x: TaskView, k: (int, int))
    ensures WithKey(Insert(s, x), k) == WithKey(s, k) + (if Key(x) == k then [x] else [])
    decreases |s|
  {
    if s == [] {
      assert Insert(s, x) == [] + [x];
      WithKeySnoc([], x, k);
    } else {
      var init, last := s[..|s| - 1], s[|s| - 1];
      assert s == init + [last];
      if DepCompare(x, last) == Less {
        InsertWithKey(init, x, k);
        WithKeySnoc(Insert(init, x), last, k);
        CompareByKey(x, last);
        assert Key(x) != Key(last);
        WithKeySnoc(init, last, k);
        assert Insert(s, x) == Insert(init, x) + [last];
        SwapEmpty(WithKey(init, k), if Key(x) == k then [x] else [], if Key(last) == k then [last] else []);
      } else {
        assert Insert(s, x) == s + [x];
        WithKeySnoc(s, x, k);
      }
    }
  }

  /** Stability: the elements of each key keep their order. */
  lemma {:induction false} SortByStable(s: seq<TaskView>, k: (int, int))
    ensures WithKey(SortBy(s), k) == WithKey(s, k)
    decreases |s|
  {
    if s != [] {
      SortByStable(s[..|s| - 1], k);
      InsertWithKey(SortBy(s[..|s| - 1]), s[|s| - 1], k);
    }
  }

  // ---------------------------------------------------------------- the dependency list

  /** `get_task`: the stored task as the pages show it, numbered from the working set's index
      (`ids`, UUID to number); `None` when the store does not hold it. */
  function GetTask(tasks: Tasks, ids: map<Uuid, nat>, u: Uuid): (r: Option<TaskView>)
    ensures r.Some? <==> u in tasks
    ensures r.Some? ==> r.value.uuid == u && r.value.status == GetStatus(Task(u, tasks[u]))
    ensures r.Some? ==> r.value.id == (if u in ids then Some(ids[u] as int) else None)
  {
    if u in tasks then
      Some(ViewAsWritten(Task(u, tasks[u])).(id := if u in ids then Some(ids[u] as int) else None))
    else None
  }

  /** The dependencies the store holds, in the order the task lists them. */
  function Found(tasks: Tasks, ids: map<Uuid, nat>, deps: seq<Uuid>): (r: seq<TaskView>)
    ensures |r| <= |deps|
    ensures forall i :: 0 <= i < |r| ==> r[i].uuid in tasks && r[i].uuid in deps
    decreases |deps|
  {
    if deps == [] then []
    else
      var init, u := deps[..|deps| - 1], deps[|deps| - 1];
      var rest := Found(tasks, ids, init);
      assert forall v :: v in init ==> v in deps;
      match GetTask(tasks, ids, u)
      case None => rest
      case Some(t) => rest + [t]
  }

  /** No held dependency is missing from the list. */
  lemma {:induction false} FoundComplete(tasks: Tasks, ids: map<Uuid, nat>, deps: seq<Uuid>, u: Uuid)
    requires u in deps && u in tasks
    ensures exists i :: 0 <= i < |Found(tasks, ids, deps)| && Found(tasks, ids, deps)[i].uuid == u
    decreases |deps|
  {
    var init, last := deps[..|deps| - 1], deps[|deps| - 1];
    var rest := Found(tasks, ids, init);
    if last == u {
      var r := Found(tasks, ids, deps);
      assert r == rest + [GetTask(tasks, ids, u).value];
      assert r[|rest|].uuid == u;
    } else {
      assert deps == init + [last];
      assert u in init;
      FoundComplete(tasks, ids, init, u);
      var i :| 0 <= i < |rest| && rest[i].uuid == u;
      var r := Found(tasks, ids, deps);
      assert r[i] == rest[i];
    }
  }

  /** The dependency half of `get_task_details_form`: every listed dependency the store holds,
      sorted with `DepCompare` (open tasks by number, completed ones last). */
  method DependencyList(tasks: Tasks, ids: map<Uuid, nat>, deps: seq<Uuid>) returns (r: seq<TaskView>)
    ensures r == SortBy(Found(tasks, ids, deps))
    ensures Sorted(r) && multiset(r) == multiset(Found(tasks, ids, deps))
  {
    var found: seq<TaskView> := [];
    var i := 0;
    while i < |deps|
      invariant 0 <= i <= |deps|
      invariant found == Found(tasks, ids, deps[..i])
    {
      assert deps[..i + 1][..i] == deps[..i];
      var t := GetTask(tasks, ids, deps[i]);
      if t.Some? {
        found := found + [t.value];
      }
      i := i + 1;
    }
    assert deps[..i] == deps;
    r := SortBy(found);
    SortBySorted(found);
  }

  // ---------------------------------------------------------------- tag keywords

  const TAG_KEYWORDS: seq<string> := ["next", "pending", "completed", "new"]

  /** `is_tag_keyword`: one of the report and status names the filter bar shows as tags. */
  predicate IsTagKeyword(tag: string) {
    tag in TAG_KEYWORDS
  }

  /** `is_a_tag`: a keyword, or a word with a leading `+`. */
  predicate IsATag(tag: string) {
    IsTagKeyword(tag) || StartsWith(tag, "+")
  }

  /** The keywords and the `+`-words are disjoint, so a tag is a keyword exactly when it has no
      `+`; a `project:` or `priority:` filter is neither. */
  lemma TagKinds(tag: string)
    ensures IsTagKeyword(tag) ==> !StartsWith(tag, "+") && tag != []
    ensures IsATag(tag) && !StartsWith(tag, "+") ==> IsTagKeyword(tag)
    ensures StartsWith(tag, "project:") || StartsWith(tag, "priority:") ==> !IsATag(tag)
  {
    if IsTagKeyword(tag) {
      assert tag == "next" || tag == "pending" || tag == "completed" || tag == "new";
      assert tag[0] != '+';
    }
    if StartsWith(tag, "project:") || StartsWith(tag, "priority:") {
      assert tag[0] == 'p';
      assert tag[..1] != "+";
    }
  }
}
