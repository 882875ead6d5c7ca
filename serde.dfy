/** The JSON field formats of the task the pages show: the status as a lower-case word and the
    dates in the ISO 8601 basic UTC form `YYYYMMDDTHHMMSSZ`. */
module Serde {
  import opened Wrappers
  import opened Strings
  import opened Store
  import opened Calendar

  // ---------------------------------------------------------------- status

  /** `task_status_serde::serialize`: the word for a known status, the kept text for any other,
      nothing for no status. */
  function SerializeStatus(s: Option<Status>): (r: Option<string>)
    ensures r.None? <==> s.None?
  {
    match s
    case None => None
    case Some(Pending) => Some("pending")
    case Some(Completed) => Some("completed")
    case Some(Deleted) => Some("deleted")
    case Some(Recurring) => Some("recurring")
    case Some(Unknown(v)) => Some(v)
  }

  /** `task_status_serde::deserialize`: the text is lower-cased first, so an unknown status keeps
      its lower-case form. */
  function DeserializeStatus(s: Option<string>): (r: Option<Status>)
    ensures r.None? <==> s.None?
    ensures r.Some? ==> SerializeStatus(r) == Some(ToLower(s.value))
    ensures r.Some? ==> (r.value.Unknown? <==> ToLower(s.value) !in STATUS_WORDS)
  {
    match s
    case None => None
    case Some(text) => Some(StatusWord(ToLower(text)))
  }

  /** The status a lower-cased text names. */
  function StatusWord(t: string): (r: Status)
    ensures SerializeStatus(Some(r)) == Some(t)
    ensures r.Unknown? <==> t !in STATUS_WORDS
  {
    match t
    case "pending" => Pending
    case "completed" => Completed
    case "deleted" => Deleted
    case "recurring" => Recurring
    case _ => Unknown(t)
  }

  const STATUS_WORDS: set<string> := {"pending", "completed", "deleted", "recurring"}

  /** A known status written out reads back as itself. */
  lemma KnownStatusRoundTrip(s: Status)
    requires !s.Unknown?
    ensures DeserializeStatus(SerializeStatus(Some(s))) == Some(s)
  {
    match s {
      case Pending => PendingRoundTrip();
      case Completed => CompletedRoundTrip();
      case Deleted => DeletedRoundTrip();
      case Recurring => RecurringRoundTrip();
    }
  }

  lemma PendingRoundTrip() ensures DeserializeStatus(Some("pending")) == Some(Pending) {
    assert ToLower("pending") == "pending";
  }

  lemma CompletedRoundTrip() ensures DeserializeStatus(Some("completed")) == Some(Completed) {
    assert ToLower("completed") == "completed";
  }

  lemma DeletedRoundTrip() ensures DeserializeStatus(Some("deleted")) == Some(Deleted) {
    assert ToLower("deleted") == "deleted";
  }

  lemma RecurringRoundTrip() ensures DeserializeStatus(Some("recurring")) == Some(Recurring) {
    assert ToLower("recurring") == "recurring";
  }

  /** An unknown status reads back as itself exactly when its text is lower case and is not one of
      the four status words. */
  lemma UnknownStatusRoundTrip(v: string)
    ensures DeserializeStatus(SerializeStatus(Some(Unknown(v)))) == Some(Unknown(v)) <==>
      ToLower(v) == v && v !in STATUS_WORDS
  {
    if ToLower(v) == v && v !in STATUS_WORDS {
      assert StatusWord(v).Unknown?;
    }
  }

  /** Reading a status ignores letter case. */
  lemma DeserializeIgnoresCase(text: string)
    ensures DeserializeStatus(Some(text)) == DeserializeStatus(Some(ToLower(text)))
  {
    LowerIdempotent(text);
  }

  lemma LowerIdempotent(s: string)
    ensures ToLower(ToLower(s)) == ToLower(s)
  {
    var l := ToLower(s);
    forall i | 0 <= i < |s| ensures LowerChar(l[i]) == l[i] {
      if 'A' <= s[i] <= 'Z' {
        assert l[i] as int == s[i] as int + 32;
      }
    }
  }

  // ---------------------------------------------------------------- dates

  /** `task_date_format::serialize`: the basic UTC form, or nothing. */
  function SerializeDate(d: Option<int>): (r: Option<string>)
    requires d.Some? ==> MIN_INSTANT <= d.value <= MAX_INSTANT
    ensures r.None? <==> d.None?
    ensures r.Some? ==> |r.value| == 16 && r.value[8] == 'T' && r.value[15] == 'Z'
  {
    match d
    case None => None
    case Some(t) => Some(FormatBasic(t))
  }

  /** `task_date_format::deserialize`: a missing date and a date that does not parse are both
      "no date"; it never fails. */
  function DeserializeDate(s: Option<string>): (r: Option<int>)
    ensures s.None? ==> r.None?
    ensures s.Some? ==> r == ParseBasic(s.value)
  {
    match s
    case None => None
    case Some(text) => ParseBasic(text)
  }

  /** The text of the error for a date that does not parse. */
  const DATE_PARSE_ERROR: string := "input is not a date in the %Y%m%dT%H%M%SZ format"

  /** `task_date_format_mandatory::deserialize`: a date that does not parse is an error. */
  function DeserializeDateMandatory(s: string): (r: Result<int, string>)
    ensures r.Ok? <==> ParseBasic(s).Some?
    ensures r.Ok? ==> r.value == ParseBasic(s).value
  {
    match ParseBasic(s)
    case Some(t) => Ok(t)
    case None => Err(DATE_PARSE_ERROR)
  }

  /** The optional reading turns exactly the mandatory reading's errors into "no date" and agrees
      with it otherwise. */
  lemma OptionalVersusMandatory(s: string)
    ensures DeserializeDate(Some(s)).None? <==> DeserializeDateMandatory(s).Err?
    ensures DeserializeDateMandatory(s).Ok? ==> DeserializeDate(Some(s)) == Some(DeserializeDateMandatory(s).value)
  {
  }

  /** Writing a date and reading it back gives the same second. */
  lemma DateRoundTrip(d: Option<int>)
    requires d.Some? ==> MIN_INSTANT <= d.value <= MAX_INSTANT
    ensures DeserializeDate(SerializeDate(d)) == d
  {
    if d.Some? { BasicRoundTrip(d.value); }
  }

  /** The same for the mandatory form used by annotations. */
  lemma MandatoryDateRoundTrip(t: int)
    requires MIN_INSTANT <= t <= MAX_INSTANT
    ensures DeserializeDateMandatory(FormatBasic(t)) == Ok(t)
  {
    BasicRoundTrip(t);
  }
}
