/** The per-field error accumulator of the web forms (`FieldError`, `FormValidation`). */
module Errors {
  import opened Wrappers

  /** One complaint about one form field. */
  datatype FieldError = FieldError(field: string, message: string)

  /** The `fields` map: field name to the complaints pushed for it, oldest first. */
  type FieldMap = map<string, seq<FieldError>>

  /** The complaints recorded under `k`, the empty list when there are none. */
  function ErrorsOf(f: FieldMap, k: string): seq<FieldError> {
    if k in f then f[k] else []
  }

  /** The complaints of `errs` that concern field `k`, in order. */
  function OnField(errs: seq<FieldError>, k: string): (r: seq<FieldError>)
    ensures |r| <= |errs|
    ensures forall i :: 0 <= i < |r| ==> r[i].field == k && r[i] in errs
  {
    if errs == [] then []
    else OnField(errs[..|errs| - 1], k) + (if errs[|errs| - 1].field == k then [errs[|errs| - 1]] else [])
  }

  /** Complaints none of which concern `k`. */
  lemma {:induction false} OnFieldNone(errs: seq<FieldError>, k: string)
    requires forall e :: e in errs ==> e.field != k
    ensures OnField(errs, k) == []
  {
    if errs != [] {
      assert errs[..|errs| - 1] <= errs;
      OnFieldNone(errs[..|errs| - 1], k);
    }
  }

  /** Complaints all of which concern `k`. */
  lemma {:induction false} OnFieldAll(errs: seq<FieldError>, k: string)
    requires forall e :: e in errs ==> e.field == k
    ensures OnField(errs, k) == errs
  {
    if errs != [] {
      assert errs[..|errs| - 1] <= errs;
      OnFieldAll(errs[..|errs| - 1], k);
    }
  }

  /** Selecting the complaints of one field distributes over concatenation. */
  lemma {:induction false} OnFieldAppend(a: seq<FieldError>, b: seq<FieldError>, k: string)
    ensures OnField(a + b, k) == OnField(a, k) + OnField(b, k)
    decreases |b|
  {
    if b == [] {
      assert a + b == a;
    } else {
      assert (a + b)[..|a + b| - 1] == a + b[..|b| - 1];
      assert (a + b)[|a + b| - 1] == b[|b| - 1];
      OnFieldAppend(a, b[..|b| - 1], k);
    }
  }

  function FieldsOf(errs: seq<FieldError>): set<string> {
    set i | 0 <= i < |errs| :: errs[i].field
  }

  /** What `push` does to the map. */
  function Pushed(f: FieldMap, e: FieldError): FieldMap {
    f[e.field := ErrorsOf(f, e.field) + [e]]
  }

  /** The map after pushing `errs` one after the other. */
  function PushAll(f: FieldMap, errs: seq<FieldError>): FieldMap {
    if errs == [] then f else Pushed(PushAll(f, errs[..|errs| - 1]), errs[|errs| - 1])
  }

  /** A well-formed map: every listed field has at least one complaint, filed under its own name. */
  predicate WellFiled(f: FieldMap) {
    forall k :: k in f ==> f[k] != [] && forall i :: 0 <= i < |f[k]| ==> f[k][i].field == k
  }

  /** Pushing appends the complaint to its own field's list and leaves every other field as it was. */
  lemma PushEffect(f: FieldMap, e: FieldError)
    ensures ErrorsOf(Pushed(f, e), e.field) == ErrorsOf(f, e.field) + [e]
    ensures forall k :: k != e.field ==> ErrorsOf(Pushed(f, e), k) == ErrorsOf(f, k)
    ensures Pushed(f, e).Keys == f.Keys + {e.field}
    ensures WellFiled(f) ==> WellFiled(Pushed(f, e))
  {
  }

  /** After a sequence of pushes, each field holds its old complaints followed by the new ones for it. */
  lemma {:induction false} PushAllErrorsOf(f: FieldMap, errs: seq<FieldError>, k: string)
    ensures ErrorsOf(PushAll(f, errs), k) == ErrorsOf(f, k) + OnField(errs, k)
  {
    if errs != [] {
      PushAllErrorsOf(f, errs[..|errs| - 1], k);
      PushEffect(PushAll(f, errs[..|errs| - 1]), errs[|errs| - 1]);
    }
  }

  /** The fields with complaints after a sequence of pushes are the old ones and those pushed to. */
  lemma {:induction false} PushAllKeys(f: FieldMap, errs: seq<FieldError>)
    ensures PushAll(f, errs).Keys == f.Keys + FieldsOf(errs)
    ensures WellFiled(f) ==> WellFiled(PushAll(f, errs))
  {
    if errs != [] {
      var init := errs[..|errs| - 1];
      PushAllKeys(f, init);
      PushEffect(PushAll(f, init), errs[|errs| - 1]);
      assert FieldsOf(errs) == FieldsOf(init) + {errs[|errs| - 1].field} by {
        forall x | x in FieldsOf(errs) ensures x in FieldsOf(init) + {errs[|errs| - 1].field} {
          var i :| 0 <= i < |errs| && errs[i].field == x;
          if i < |errs| - 1 { assert init[i] == errs[i]; }
        }
        forall x | x in FieldsOf(init) ensures x in FieldsOf(errs) {
          var i :| 0 <= i < |init| && init[i].field == x;
          assert errs[i] == init[i];
        }
      }
    }
  }

  /** Pushing two batches is pushing their concatenation. */
  lemma {:induction false} PushAllAppend(f: FieldMap, a: seq<FieldError>, b: seq<FieldError>)
    ensures PushAll(PushAll(f, a), b) == PushAll(f, a + b)
    decreases |b|
  {
    if b == [] {
      assert a + b == a;
    } else {
      PushAllAppend(f, a, b[..|b| - 1]);
      assert (a + b)[..|a + b| - 1] == a + b[..|b| - 1];
    }
  }

  /** `has_error(k)` after pushes holds exactly when `k` already had complaints or one of the pushed
      complaints names `k`. */
  lemma HasErrorAfterPushes(f: FieldMap, errs: seq<FieldError>, k: string)
    ensures k in PushAll(f, errs) <==> k in f || exists i :: 0 <= i < |errs| && errs[i].field == k
  {
    PushAllKeys(f, errs);
  }

  /** `set_error` as written: the new `success` flag and message. With no message it sets `success`
      to "some field has a complaint", the opposite of what the flag means everywhere else. */
  function SetErrorAsWritten(fields: FieldMap, m: Option<string>): (bool, Option<string>) {
    match m
    case Some(text) => (false, Some(text))
    case None => (fields != map[], None)
  }

  /** Clearing the message of a fresh accumulator with `set_error` as written reports failure
      although nothing was pushed; after one push it reports success. */
  lemma SetErrorAsWrittenInverted(e: FieldError)
    ensures SetErrorAsWritten(map[], None).0 == false
    ensures SetErrorAsWritten(Pushed(map[], e), None).0 == true
  {
  }

  /** `set_error` as evidently intended: clearing the message leaves `success` meaning "no field
      has a complaint". */
  function SetErrorIntended(fields: FieldMap, m: Option<string>): (r: (bool, Option<string>))
    ensures r.1 == m
    ensures r.0 <==> m.None? && fields == map[]
  {
    match m
    case Some(text) => (false, Some(text))
    case None => (fields == map[], None)
  }

  /** The contents of an accumulator: complaints per field, success flag, message. */
  datatype Report = Report(fields: FieldMap, success: bool, msg: Option<string>)

  /** An accumulator after a batch of pushes: the complaints filed by field, success only if the
      batch was empty, the message untouched. */
  function Log(r: Report, errs: seq<FieldError>): Report {
    Report(PushAll(r.fields, errs), r.success && errs == [], r.msg)
  }

  /** Two batches logged one after the other are their concatenation logged at once. */
  lemma LogAppend(r: Report, a: seq<FieldError>, b: seq<FieldError>)
    ensures Log(Log(r, a), b) == Log(r, a + b)
  {
    PushAllAppend(r.fields, a, b);
    assert a + b == [] <==> a == [] && b == [] by {
      assert |a + b| == |a| + |b|;
    }
  }

  /** A logged batch of complaints leaves the report failed exactly when the batch is non-empty,
      lists exactly the complaints it had plus those of the batch for each field, and keeps it
      well filed. */
  lemma LogEffect(r: Report, errs: seq<FieldError>, k: string)
    requires WellFiled(r.fields)
    ensures Log(r, errs).success <==> r.success && errs == []
    ensures ErrorsOf(Log(r, errs).fields, k) == ErrorsOf(r.fields, k) + OnField(errs, k)
    ensures WellFiled(Log(r, errs).fields)
  {
    PushAllErrorsOf(r.fields, errs, k);
    PushAllKeys(r.fields, errs);
  }

  /** `FormValidation`: the complaints per field, an optional overall message and the success flag. */
  class FormValidation {
    var fields: FieldMap
    var msg: Option<string>
    var success: bool

    /** Success is only claimed while no field has a complaint, and complaints are filed by field. */
    ghost predicate Valid()
      reads this
    {
      WellFiled(fields) && (success ==> fields == map[])
    }

    /** `Default`: success, no complaints, no message. */
    constructor ()
      ensures fields == map[] && msg == None && success
      ensures Valid()
    {
      fields := map[];
      msg := None;
      success := true;
    }

    /** The conversions from a store or a generic error: a default accumulator whose message is the
        error's text. */
    constructor FromError(text: string)
      ensures fields == map[] && msg == Some(text) && !success
      ensures Valid()
    {
      fields := map[];
      msg := None;
      success := true;
      new;
      SetError(Some(text));
    }

    /** Records one complaint under its own field and marks the form as failed. */
    method Push(e: FieldError)
      modifies this
      requires Valid()
      ensures fields == Pushed(old(fields), e) && msg == old(msg) && !success
      ensures Valid()
    {
      success := false;
      PushEffect(fields, e);
      if e.field in fields {
        fields := fields[e.field := fields[e.field] + [e]];
      } else {
        assert ErrorsOf(fields, e.field) + [e] == [e];
        fields := fields[e.field := [e]];
      }
    }

    /** `is_success`: when it answers true, no field has a complaint. */
    function IsSuccess(): (r: bool)
      reads this
      ensures Valid() && r ==> fields == map[]
      ensures r == success
    {
      success
    }

    /** `has_error(f)`: whether at least one complaint was recorded for `f`. */
    function HasError(f: string): (r: bool)
      reads this
      ensures Valid() ==> (r <==> ErrorsOf(fields, f) != [])
    {
      f in fields
    }

    /** `set_error`, with the flag computed as evidently intended (see `SetErrorAsWritten`). */
    method SetError(m: Option<string>)
      modifies this
      requires WellFiled(fields)
      ensures fields == old(fields)
      ensures (success, msg) == SetErrorIntended(old(fields), m)
      ensures Valid()
    {
      match m {
        case Some(text) =>
          success := false;
          msg := Some(text);
        case None =>
          success := fields == map[];
          msg := None;
      }
    }

    /** The three parts of the accumulator together. */
    function State(): Report
      reads this
    {
      Report(fields, success, msg)
    }

    /** Pushes a batch of complaints in order. */
    method PushEach(errs: seq<FieldError>)
      modifies this
      requires Valid()
      ensures State() == Log(old(State()), errs)
      ensures Valid()
    {
      ghost var r0 := State();
      var i := 0;
      while i < |errs|
        invariant 0 <= i <= |errs|
        invariant State() == Log(r0, errs[..i])
        invariant Valid()
      {
        Push(errs[i]);
        assert errs[..i + 1][..i] == errs[..i];
        i := i + 1;
      }
      assert errs[..i] == errs;
    }
  }
}
