/** The directive handlers as the source runs them: each one changes the task being edited and
    its operation list in place and pushes its complaints onto a `FormValidation`. Every method is
    proved to leave exactly the state, and to push exactly the complaints, that the function of
    the same name in `Directives` specifies; what those functions promise is proved there. */
module Editing {
  import opened Wrappers
  import opened Strings
  import opened Store
  import opened Errors
  import D = Directives
  import Backend
  import ShellWords

  /** The task `t` being edited and the operation list `ops`, with what the handlers read from the
      store (the clock, the properties it refuses and the working set). */
  class Editor {
    const env: Env
    var staged: Staged

    constructor (env: Env, staged: Staged)
      ensures this.env == env && this.staged == staged
    {
      this.env := env;
      this.staged := staged;
    }

    /** `task_apply_tag_add` (`add`) and `task_apply_tag_remove` on the name after the sign. */
    method ApplyTag(name: string, add: bool, v: FormValidation)
      modifies this, v
      requires v.Valid()
      ensures staged == D.ApplyTag(env, old(staged), name, add).st
      ensures v.State() == Log(old(v.State()), D.ApplyTag(env, old(staged), name, add).errs) && v.Valid()
    {
      match ParseTag(name) {
        case Err(m) =>
          v.PushEach([D.Complaint(m)]);
        case Ok(tag) =>
          var r := SetTag(env, staged, tag, add);
          match r {
            case Ok(s) => staged := s;
            case Err(p) => v.PushEach([D.Complaint(p)]);
          }
      }
    }

    /** `task_apply_recur`: three setters in a row, the first refusal ending the chain. */
    method ApplyRecur(value: Option<string>, v: FormValidation)
      modifies this, v
      requires v.Valid()
      ensures staged == D.ApplyRecur(env, old(staged), value).st
      ensures v.State() == Log(old(v.State()), D.ApplyRecur(env, old(staged), value).errs) && v.Valid()
    {
      var r1 := SetValue(env, staged, "recur", value);
      if r1.Err? {
        v.PushEach([D.Complaint(D.RECUR_FAILED + r1.error)]);
        return;
      }
      staged := r1.value;
      var r2 := SetStatus(env, staged, Recurring);
      if r2.Err? {
        v.PushEach([D.Complaint(D.RECURRING_FAILED + r2.error)]);
        return;
      }
      staged := r2.value;
      var r3 := SetValue(env, staged, "rtype", Some("periodic"));
      if r3.Err? {
        v.PushEach([D.Complaint(D.RECURRING_FAILED + r3.error + "")]);
      } else {
        staged := r3.value;
      }
    }

    /** `task_apply_status`. */
    method ApplyStatus(value: Option<string>, v: FormValidation)
      modifies this, v
      requires v.Valid()
      ensures staged == D.ApplyStatus(env, old(staged), value).st
      ensures v.State() == Log(old(v.State()), D.ApplyStatus(env, old(staged), value).errs) && v.Valid()
    {
      if value.Some? {
        var val := value.value;
        var r := SetStatus(env, staged, Backend.ConvertTaskStatus(val));
        match r {
          case Ok(s) => staged := s;
          case Err(p) => v.PushEach([D.Complaint("Invalid status " + val + " (" + p + ").")]);
        }
      }
    }

    /** `task_apply_timestamps`: the value is parsed first; only `entry`, `wait` and `due` are set. */
    method ApplyTimestamp(key: string, value: Option<string>, v: FormValidation)
      modifies this, v
      requires v.Valid()
      ensures staged == D.ApplyTimestamp(env, old(staged), key, value).st
      ensures v.State() == Log(old(v.State()), D.ApplyTimestamp(env, old(staged), key, value).errs) && v.Valid()
    {
      match D.TimestampValue(value) {
        case Err(p) =>
          v.PushEach([D.Complaint(D.ParseFailed(key, p))]);
        case Ok(t) =>
          var f := D.Folded(key);
          if f in D.TIMESTAMP_KEYS {
            var r := SetTimestamp(env, staged, f, t);
            match r {
              case Ok(s) => staged := s;
              case Err(p) => v.PushEach([D.Complaint("Failed setting timestamp for " + key + " (" + p + ").")]);
            }
          }
      }
    }

    /** `task_apply_description` and `task_apply_priority`. */
    method ApplyText(property: string, value: Option<string>, before: string, v: FormValidation)
      modifies this, v
      requires v.Valid()
      ensures staged == D.ApplyText(env, old(staged), property, value, before).st
      ensures v.State() == Log(old(v.State()), D.ApplyText(env, old(staged), property, value, before).errs) && v.Valid()
    {
      var r := SetValue(env, staged, property, Some(value.GetOr("")));
      match r {
        case Ok(s) => staged := s;
        case Err(p) => v.PushEach([D.Complaint(before + p)]);
      }
    }

    /** One item of a `depends` value. */
    method DependencyStep(item: string, v: FormValidation)
      modifies this, v
      requires item != [] && v.Valid()
      ensures staged == D.DependencyStep(env, old(staged), item).st
      ensures v.State() == Log(old(v.State()), D.DependencyStep(env, old(staged), item).errs) && v.Valid()
    {
      var (add, reference) := D.Signed(item);
      match D.Resolve(env, reference) {
        case None =>
          v.PushEach([D.Complaint(D.NotFound(reference))]);
        case Some(u) =>
          var r := SetDependency(env, staged, u, add);
          match r {
            case Ok(s) => staged := s;
            case Err(p) => v.PushEach([D.Complaint(D.DependencyFailed(u) + p + "")]);
          }
      }
    }

    /** `task_apply_depends`. */
    method ApplyDepends(value: Option<string>, v: FormValidation)
      modifies this, v
      requires v.Valid()
      ensures staged == D.ApplyDepends(env, old(staged), value).st
      ensures v.State() == Log(old(v.State()), D.ApplyDepends(env, old(staged), value).errs) && v.Valid()
    {
      var items := D.DependencyItems(value);
      DependsFold(items, v);
    }

    /** The items of a `depends` value in order. */
    method DependsFold(items: seq<string>, v: FormValidation)
      modifies this, v
      requires v.Valid() && forall i :: 0 <= i < |items| ==> items[i] != []
      ensures staged == D.DependsFold(env, old(staged), items).st
      ensures v.State() == Log(old(v.State()), D.DependsFold(env, old(staged), items).errs) && v.Valid()
    {
      ghost var st0, r0 := staged, v.State();
      var i := 0;
      while i < |items|
        invariant 0 <= i <= |items|
        invariant staged == D.DependsFold(env, st0, items[..i]).st
        invariant v.State() == Log(r0, D.DependsFold(env, st0, items[..i]).errs) && v.Valid()
      {
        ghost var done := D.DependsFold(env, st0, items[..i]);
        DependencyStep(items[i], v);
        D.DependsFoldStep(env, st0, items, i);
        LogAppend(r0, done.errs, D.DependencyStep(env, done.st, items[i]).errs);
        i := i + 1;
      }
      assert items[..i] == items;
    }

    /** One directive, to the handler `Classify` picks. */
    method Apply(d: D.Directive, v: FormValidation)
      modifies this, v
      requires v.Valid()
      ensures staged == D.Apply(env, old(staged), d).st
      ensures v.State() == Log(old(v.State()), D.Apply(env, old(staged), d).errs) && v.Valid()
    {
      var k := D.Classify(d);
      Route(d, k, v);
    }

    /** One directive, to the handler of kind `k`. */
    method Route(d: D.Directive, k: D.Kind, v: FormValidation)
      modifies this, v
      requires v.Valid() && D.Routable(d, k)
      ensures staged == D.Route(env, old(staged), d, k).st
      ensures v.State() == Log(old(v.State()), D.Route(env, old(staged), d, k).errs) && v.Valid()
    {
      match k {
        case TagAddition => ApplyTag(d.key[1..], true, v);
        case TagRemoval => ApplyTag(d.key[1..], false, v);
        case Dependencies => ApplyDepends(d.value, v);
        case DescriptionChange => ApplyText("description", d.value, D.DESCRIPTION_FAILED, v);
        case PriorityChange => ApplyText("priority", d.value, D.PRIORITY_FAILED, v);
        case TimestampChange => ApplyTimestamp(d.key, d.value, v);
        case StatusChange => ApplyStatus(d.value, v);
        case Recurrence => ApplyRecur(d.value, v);
        case ForbiddenField => v.PushEach([D.Complaint(D.ForbiddenMessage(d.key))]);
        case ReservedProperty =>
          var r := SetValue(env, staged, d.key, d.value);
          match r {
            case Ok(s) => staged := s;
            case Err(p) => v.PushEach([D.Complaint(p)]);
          }
        case UserAttribute =>
          var r := SetValue(env, staged, d.key, Some(d.value.GetOr("")));
          match r {
            case Ok(s) => staged := s;
            case Err(p) => v.PushEach([D.Complaint(p)]);
          }
      }
    }

    /** `parse_apply_additions`: the line split into shell words, each word a directive applied in
        order; a line that does not split files one complaint and changes nothing. */
    method ParseApplyAdditions(line: string, v: FormValidation)
      modifies this, v
      requires v.Valid()
      ensures staged == D.Additions(env, old(staged), line).st
      ensures v.State() == Log(old(v.State()), D.Additions(env, old(staged), line).errs) && v.Valid()
    {
      match ShellWords.Split(line) {
        case Err(m) =>
          v.PushEach([D.Complaint(m)]);
        case Ok(words) =>
          ghost var st0, r0 := staged, v.State();
          var i := 0;
          while i < |words|
            invariant 0 <= i <= |words|
            invariant staged == D.ApplyAll(env, st0, D.Tokens(words[..i])).st
            invariant v.State() == Log(r0, D.ApplyAll(env, st0, D.Tokens(words[..i])).errs) && v.Valid()
          {
            var d := D.Tokenize(words[i]);
            Apply(d, v);
            WordsLog(env, st0, r0, words, i);
            i := i + 1;
          }
          assert words[..i] == words;
      }
    }
  }

  /** One more word of the line: its directive is applied to what the words before it staged,
      and its complaints are logged after theirs. */
  lemma WordsLog(env: Env, st: Staged, r0: Report, words: seq<string>, i: nat)
    requires i < |words|
    ensures var done := D.ApplyAll(env, st, D.Tokens(words[..i]));
      var step := D.Apply(env, done.st, D.Tokenize(words[i]));
      D.ApplyAll(env, st, D.Tokens(words[..i + 1])).st == step.st &&
      Log(r0, D.ApplyAll(env, st, D.Tokens(words[..i + 1])).errs) == Log(Log(r0, done.errs), step.errs)
  {
    assert words[..i + 1][..i] == words[..i];
    ApplyAllLog(env, st, r0, D.Tokens(words[..i]), D.Tokenize(words[i]));
  }

  lemma ApplyAllLog(env: Env, st: Staged, r0: Report, ds: seq<D.Directive>, d: D.Directive)
    ensures var done := D.ApplyAll(env, st, ds);
      var step := D.Apply(env, done.st, d);
      D.ApplyAll(env, st, ds + [d]).st == step.st &&
      Log(r0, D.ApplyAll(env, st, ds + [d]).errs) == Log(Log(r0, done.errs), step.errs)
  {
    var done := D.ApplyAll(env, st, ds);
    D.ApplyAllSnoc(env, st, ds, d);
    LogAppend(r0, done.errs, D.Apply(env, done.st, d).errs);
  }
}
