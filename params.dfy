/** The query-string parameters of the older task list pages, the filter list they build, the
    helper that reads an empty form value as absent, and the link to a project's ancestor. */
module LegacyParams {
  import opened Wrappers
  import opened Strings

  // ---------------------------------------------------------------- parameters

  /** `Params`: the current filter (`query`), the word clicked (`q`), and a status change. */
  datatype Params = Params(query: Option<string>, q: Option<string>, status: Option<string>,
                           uuid: Option<string>)

  /** `Params::default`: the pending tasks, nothing clicked. */
  const DEFAULT_PARAMS: Params := Params(Some("status:pending"), None, None, None)

  datatype TaskUpdateStatus = TaskUpdateStatus(status: string, uuid: string)

  /** `Params::task`: a status change, present exactly when both its parts are. */
  function Task(p: Params): (r: Option<TaskUpdateStatus>)
    ensures r.Some? <==> p.uuid.Some? && p.status.Some?
    ensures r.Some? ==> r.value.status == p.status.value && r.value.uuid == p.uuid.value
  {
    if p.uuid.Some? && p.status.Some? then Some(TaskUpdateStatus(p.status.value, p.uuid.value))
    else None
  }

  // ---------------------------------------------------------------- retain

  /** The two tests `retain_mut` is given: drop the words with a prefix, or drop one word. */
  datatype Keep = NotPrefixed(prefix: string) | NotEqual(word: string)

  predicate Keeps(k: Keep, w: string) {
    match k
    case NotPrefixed(prefix) => !StartsWith(w, prefix)
    case NotEqual(word) => w != word
  }

  /** The words of `s` that pass `k`, in their order in `s`. */
  function Filter(s: seq<string>, k: Keep): (r: seq<string>)
    ensures |r| <= |s|
    ensures forall i :: 0 <= i < |r| ==> Keeps(k, r[i]) && r[i] in s
    ensures forall w :: w in s && Keeps(k, w) ==> w in r
  {
    if s == [] then []
    else
      var init, last := s[..|s| - 1], s[|s| - 1];
      assert s == init + [last];
      Filter(init, k) + (if Keeps(k, last) then [last] else [])
  }

  lemma FilterSnoc(s: seq<string>, w: string, k: Keep)
    ensures Filter(s + [w], k) == Filter(s, k) + (if Keeps(k, w) then [w] else [])
  {
    assert (s + [w])[..|s + [w]| - 1] == s;
  }

  /** A filter that every word passes changes nothing. */
  lemma {:induction false} FilterKeepsAll(s: seq<string>, k: Keep)
    requires forall i :: 0 <= i < |s| ==> Keeps(k, s[i])
    ensures Filter(s, k) == s
  {
    if s != [] {
      var init := s[..|s| - 1];
      assert s == init + [s[|s| - 1]];
      FilterKeepsAll(init, k);
    }
  }

  /** `Vec::retain_mut` with the test `k`. */
  method Retain(s: seq<string>, k: Keep) returns (r: seq<string>)
    ensures r == Filter(s, k)
  {
    r := [];
    var i := 0;
    while i < |s|
      invariant 0 <= i <= |s|
      invariant r == Filter(s[..i], k)
    {
      assert s[..i + 1] == s[..i] + [s[i]];
      FilterSnoc(s[..i], s[i], k);
      if Keeps(k, s[i]) {
        r := r + [s[i]];
      }
      i := i + 1;
    }
    assert s[..i] == s;
  }

  // ---------------------------------------------------------------- the filter list

  const ALL: string := "[ALL]"
  const PRIORITY: string := "priority="
  const STATUS: string := "status:"

  /** Each piece trimmed. */
  function TrimAll(pieces: seq<string>): (r: seq<string>)
    ensures |r| == |pieces|
    ensures forall i :: 0 <= i < |r| ==> r[i] == Trim(pieces[i])
  {
    seq(|pieces|, i requires 0 <= i < |pieces| => Trim(pieces[i]))
  }

  /** The filter list before the click: none for a missing query or `[ALL]`, otherwise the
      query's words between single spaces, each trimmed. The empty words that runs of spaces
      produce are kept: the source's filter on them accepts every word. */
  function Initial(query: Option<string>): (r: seq<string>)
    ensures query.None? || query == Some(ALL) ==> r == []
    ensures query.Some? && query != Some(ALL) ==>
      |r| >= 1 && forall i :: 0 <= i < |r| ==> ' ' !in r[i] && Trim(r[i]) == r[i]
  {
    if query.None? || query.value == ALL then []
    else
      var r := TrimAll(Split(Trim(query.value), {' '}));
      assert forall i :: 0 <= i < |r| ==> ' ' !in r[i] && Trim(r[i]) == r[i] by {
        forall i | 0 <= i < |r| ensures ' ' !in r[i] && Trim(r[i]) == r[i] {
          var piece := Split(Trim(query.value), {' '})[i];
          assert NoneIn(piece, {' '});
          assert r[i] == TrimStart(TrimEnd(piece));
          assert ' ' !in r[i];
          TrimIdempotent(piece);
        }
      }
      r
  }

  /** The click `q` applied to the filter list. */
  function Apply(f: seq<string>, q: string): seq<string> {
    if StartsWith(q, PRIORITY) then Filter(f, NotPrefixed(PRIORITY)) + [q]
    else if StartsWith(q, STATUS) then Filter(f, NotPrefixed(STATUS)) + [q]
    else if q in f then Filter(f, NotEqual(q))
    else f + [q]
  }

  /** What `Params::query` returns. */
  function QueryOf(p: Params): seq<string> {
    var f := Initial(p.query);
    if p.q.None? then f else Apply(f, p.q.value)
  }

  lemma StatusNotPriority(q: string)
    requires StartsWith(q, STATUS)
    ensures !StartsWith(q, PRIORITY)
  {
    assert q[..7][0] == q[0];
  }

  /** A `priority=` or `status:` click replaces every word of its kind: afterwards the clicked
      word is the last one and the only one of its kind, and the words of other kinds are kept. */
  lemma PrefixReplaces(f: seq<string>, q: string, prefix: string)
    requires prefix == PRIORITY || prefix == STATUS
    requires StartsWith(q, prefix)
    ensures var r := Apply(f, q);
      |r| >= 1 && r[|r| - 1] == q &&
      (forall i :: 0 <= i < |r| - 1 ==> !StartsWith(r[i], prefix)) &&
      (forall w :: !StartsWith(w, prefix) ==> (w in r <==> w in f))
  {
    if prefix == STATUS {
      StatusNotPriority(q);
    }
    var g := Filter(f, NotPrefixed(prefix));
    assert Apply(f, q) == g + [q];
  }

  /** Any other click toggles its word: present afterwards exactly when absent before, every
      other word untouched. */
  lemma ClickToggles(f: seq<string>, q: string, w: string)
    requires !StartsWith(q, PRIORITY) && !StartsWith(q, STATUS)
    ensures q in Apply(f, q) <==> q !in f
    ensures w != q ==> (w in Apply(f, q) <==> w in f)
  {
  }

  /** Clicking the same word twice, when it was absent, gives the list back. */
  lemma ClickTwice(f: seq<string>, q: string)
    requires !StartsWith(q, PRIORITY) && !StartsWith(q, STATUS)
    requires q !in f
    ensures Apply(Apply(f, q), q) == f
  {
    FilterSnoc(f, q, NotEqual(q));
    FilterKeepsAll(f, NotEqual(q));
  }

  /** Clicking the same `priority=` or `status:` word again changes nothing. */
  lemma PrefixClickIdempotent(f: seq<string>, q: string, prefix: string)
    requires prefix == PRIORITY || prefix == STATUS
    requires StartsWith(q, prefix)
    ensures Apply(Apply(f, q), q) == Apply(f, q)
  {
    if prefix == STATUS {
      StatusNotPriority(q);
    }
    var g := Filter(f, NotPrefixed(prefix));
    FilterSnoc(g, q, NotPrefixed(prefix));
    FilterKeepsAll(g, NotPrefixed(prefix));
  }

  /** A query of one word with no whitespace in it is that word. */
  lemma SingleWord(w: string)
    requires w != [] && w != ALL && forall i :: 0 <= i < |w| ==> !IsWhitespace(w[i])
    ensures Initial(Some(w)) == [w]
  {
    TrimNoop(w);
    assert IndexOfAny(w, {' '}).None? by {
      forall i | 0 <= i < |w| ensures w[i] !in {' '} {
        assert !IsWhitespace(w[i]);
      }
    }
    assert Split(w, {' '}) == [w];
    assert TrimAll([w]) == [w];
  }

  /** The default parameters list the pending tasks. */
  lemma DefaultQuery()
    ensures QueryOf(DEFAULT_PARAMS) == ["status:pending"]
  {
    SingleWord("status:pending");
  }

  /** `Params::query`. */
  method Query(p: Params) returns (filters: seq<string>)
    ensures filters == QueryOf(p)
  {
    filters := Initial(p.query);
    if p.q.Some? {
      var q := p.q.value;
      if StartsWith(q, PRIORITY) {
        filters := Retain(filters, NotPrefixed(PRIORITY));
        filters := filters + [q];
      } else if StartsWith(q, STATUS) {
        filters := Retain(filters, NotPrefixed(STATUS));
        filters := filters + [q];
      } else if q in filters {
        filters := Retain(filters, NotEqual(q));
      } else {
        filters := filters + [q];
      }
    }
  }

  // ---------------------------------------------------------------- form values

  /** `empty_string_as_none`: a missing or empty value is `None`; any other is parsed, and a
      parse failure is the error. */
  function EmptyStringAsNone<T>(opt: Option<string>, parse: string -> Result<T, string>): (r: Result<Option<T>, string>)
    ensures opt.None? || opt == Some("") ==> r == Ok(None)
    ensures opt.Some? && opt.value != "" ==>
      (r.Ok? <==> parse(opt.value).Ok?) &&
      (r.Ok? ==> r.value == Some(parse(opt.value).value)) &&
      (r.Err? ==> r.error == parse(opt.value).error)
  {
    if opt.None? || opt.value == "" then Ok(None)
    else match parse(opt.value)
      case Ok(v) => Ok(Some(v))
      case Err(e) => Err(e)
  }

  /** A `usize` parser in the shape the helper takes. */
  function ParseNumber(s: string): Result<nat, string> {
    match ParseUsize(s)
    case Some(n) => Ok(n)
    case None => Err("invalid digit found in string")
  }

  /** A number written out reads back through the helper; an empty value reads as absent. */
  lemma NumberFormValue(n: nat)
    requires n < U64_LIMIT
    ensures EmptyStringAsNone(Some(NatToString(n)), ParseNumber) == Ok(Some(n))
    ensures EmptyStringAsNone(Some(""), ParseNumber) == Ok(None)
  {
    UsizeStringRoundTrip(n);
    assert ParseUsize("").None?;
  }

  // ---------------------------------------------------------------- project links

  /** The first `index` dot-separated components of a project name, joined with dots. */
  function ProjectLink(name: string, index: nat): string {
    var parts := Split(name, {'.'});
    Join(parts[..if index < |parts| then index else |parts|], ".")
  }

  lemma PrefixConcat(a: string, b: string, c: string)
    requires StartsWith(b, c)
    ensures StartsWith(a + b, a + c)
  {
    assert (a + b)[..|a + c|] == a + b[..|c|];
  }

  /** The join of the first `k` parts is a prefix of the join of them all. */
  lemma {:induction false} JoinPrefix(parts: seq<string>, k: nat, sep: string)
    requires k <= |parts|
    ensures StartsWith(Join(parts, sep), Join(parts[..k], sep))
    decreases k
  {
    if k == 0 {
      assert Join(parts[..k], sep) == [];
    } else if k == 1 {
      assert parts[..k] == [parts[0]];
      assert Join(parts, sep)[..|parts[0]|] == parts[0];
    } else {
      var head, rest := parts[0], parts[1..];
      assert parts[..k][1..] == rest[..k - 1];
      JoinPrefix(rest, k - 1, sep);
      assert Join(parts[..k], sep) == head + sep + Join(rest[..k - 1], sep);
      assert Join(parts, sep) == head + sep + Join(rest, sep);
      PrefixConcat(head + sep, Join(rest, sep), Join(rest[..k - 1], sep));
    }
  }

  /** The link is a prefix of the name; it is the whole name once `index` reaches the number of
      components, and otherwise it has exactly the first `index` components. */
  lemma ProjectLinkPrefix(name: string, index: nat)
    ensures StartsWith(name, ProjectLink(name, index))
    ensures index >= |Split(name, {'.'})| ==> ProjectLink(name, index) == name
    ensures 1 <= index < |Split(name, {'.'})| ==>
      Split(ProjectLink(name, index), {'.'}) == Split(name, {'.'})[..index]
  {
    var parts := Split(name, {'.'});
    var k := if index < |parts| then index else |parts|;
    JoinSplit(name, '.');
    JoinPrefix(parts, k, ".");
    if index >= |parts| {
      assert parts[..k] == parts;
    }
    if 1 <= index < |parts| {
      forall j | 0 <= j < k ensures '.' !in parts[..k][j] {
        assert NoneIn(parts[j], {'.'});
      }
      SplitJoin(parts[..k], '.');
    }
  }
}
