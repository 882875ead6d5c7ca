/** The application settings: the custom queries of the configuration file, each with an
    optional fixed two-byte shortcut. Settings are accepted only when no shortcut has the wrong
    length and no shortcut is given twice; the accepted shortcuts are then written into the
    mnemonic cache. */
module Config {
  import opened Wrappers
  import opened Errors
  import Cache

  datatype CustomQuery = CustomQuery(query: string, description: string, fixedKey: Option<string>)

  /** The settings: custom queries by name. */
  datatype AppSettings = AppSettings(customQueries: map<string, CustomQuery>)

  /** `AppSettings::default`: no custom queries. */
  const DEFAULT_SETTINGS: AppSettings := AppSettings(map[])

  /** The length of `s` in UTF-8 bytes, which is what `String::len` counts. */
  function Utf8Len(s: string): (r: nat)
    ensures |s| <= r <= 4 * |s|
  {
    if s == [] then 0
    else
      var c := s[0] as int;
      (if c < 0x80 then 1 else if c < 0x800 then 2 else if c < 0x10000 then 3 else 4) + Utf8Len(s[1..])
  }

  const FIXED_KEY: string := "fixed_key"

  /** The message for a shortcut of the wrong length (the shortcut in debug form, then the
      query's description). */
  function WrongLength(key: string, description: string): string {
    "Fixed key must be 2 unique characters. Currently assigned Some(" + DebugStr(key) + ") for " + description + "!"
  }

  /** A character `Debug` writes as an escape inside a quoted string. */
  predicate Escaped(c: char) {
    c == '\\' || c == '"' || c == '\0' || c == '\t' || c == '\n' || c == '\r'
  }

  /** The characters of a string as `Debug` writes them between its quotes: a backslash before
      `\\` and `"`, and `\0`, `\t`, `\n`, `\r` for those control characters. */
  function EscapeDebug(s: string): (r: string)
    ensures |r| == |s| + |Specials(s)|
  {
    if s == [] then []
    else
      var c := s[0];
      var e := if c == '\0' then "\\0" else if c == '\t' then "\\t" else if c == '\n' then "\\n"
               else if c == '\r' then "\\r" else if c == '\\' || c == '"' then ['\\', c] else [c];
      assert s[1..] + [] == s[1..];
      e + EscapeDebug(s[1..])
  }

  /** The characters of `s` that need an escape, in order. */
  function Specials(s: string): seq<char> {
    if s == [] then [] else (if Escaped(s[0]) then [s[0]] else []) + Specials(s[1..])
  }

  /** `{:?}` of a string: the escaped text between double quotes. */
  function DebugStr(s: string): string {
    "\"" + EscapeDebug(s) + "\""
  }

  /** Text with nothing to escape is written as it is. */
  lemma {:induction false} EscapePlain(s: string)
    requires forall i :: 0 <= i < |s| ==> !Escaped(s[i])
    ensures EscapeDebug(s) == s
  {
    if s != [] {
      EscapePlain(s[1..]);
      assert [s[0]] + s[1..] == s;
    }
  }

  /** A double quote inside the text gets a backslash before it. */
  lemma EscapeQuote()
    ensures DebugStr("a\"b") == "\"a\\\"b\""
  {
    assert "a\"b"[1..] == "\"b" && "\"b"[1..] == "b" && "b"[1..] == [];
  }

  function Duplicate(key: string, name: string): string {
    "Duplicate shortcut " + key + " asssigned to query " + name
  }

  predicate BadLength(q: CustomQuery) {
    q.fixedKey.Some? && Utf8Len(q.fixedKey.value) != 2
  }

  /** `CustomQuery::validate`: one `fixed_key` error when the shortcut is not two bytes long, none
      when it is, or when there is no shortcut. */
  function QueryErrors(q: CustomQuery): (r: seq<FieldError>)
    ensures |r| <= 1 && (r != [] <==> BadLength(q))
    ensures forall i :: 0 <= i < |r| ==> r[i].field == FIXED_KEY
  {
    if BadLength(q) then [FieldError(FIXED_KEY, WrongLength(q.fixedKey.value, q.description))] else []
  }

  // ---------------------------------------------------------------- the map's validation

  /** One query of the map, in the order the map is iterated: its own errors, then a duplicate
      error when its shortcut was seen before; an unseen shortcut is remembered. */
  function Step(queries: map<string, CustomQuery>, name: string, seen: seq<string>): (seq<FieldError>, seq<string>)
    requires name in queries
  {
    var q := queries[name];
    match q.fixedKey
    case None => (QueryErrors(q), seen)
    case Some(k) =>
      if k in seen then (QueryErrors(q) + [FieldError(FIXED_KEY, Duplicate(k, name))], seen)
      else (QueryErrors(q), seen + [k])
  }

  predicate Names(queries: map<string, CustomQuery>, order: seq<string>) {
    forall i :: 0 <= i < |order| ==> order[i] in queries
  }

  /** The map's `validate` over the names in `order`: the errors of each query in turn, and the
      shortcuts seen. */
  function Validation(queries: map<string, CustomQuery>, order: seq<string>): (seq<FieldError>, seq<string>)
    requires Names(queries, order)
    decreases |order|
  {
    if order == [] then ([], [])
    else
      var (errs, seen) := Validation(queries, order[..|order| - 1]);
      var (more, seen2) := Step(queries, order[|order| - 1], seen);
      (errs + more, seen2)
  }

  /** The shortcuts among the first `n` names, and how many of those names have one. */
  function KeysOf(queries: map<string, CustomQuery>, order: seq<string>): set<string>
    requires Names(queries, order)
  {
    set i | 0 <= i < |order| && queries[order[i]].fixedKey.Some? :: queries[order[i]].fixedKey.value
  }

  function CountWith(queries: map<string, CustomQuery>, order: seq<string>): nat
    requires Names(queries, order)
    decreases |order|
  {
    if order == [] then 0
    else CountWith(queries, order[..|order| - 1]) + (if queries[order[|order| - 1]].fixedKey.Some? then 1 else 0)
  }

  function CountBad(queries: map<string, CustomQuery>, order: seq<string>): nat
    requires Names(queries, order)
    decreases |order|
  {
    if order == [] then 0
    else CountBad(queries, order[..|order| - 1]) + (if BadLength(queries[order[|order| - 1]]) then 1 else 0)
  }

  predicate NoRepeats(s: seq<string>) {
    forall i, j :: 0 <= i < j < |s| ==> s[i] != s[j]
  }

  lemma KeysOfSnoc(queries: map<string, CustomQuery>, order: seq<string>)
    requires Names(queries, order) && order != []
    ensures var last := queries[order[|order| - 1]];
      KeysOf(queries, order) ==
        KeysOf(queries, order[..|order| - 1]) + (if last.fixedKey.Some? then {last.fixedKey.value} else {})
  {
    var init := order[..|order| - 1];
    forall x | x in KeysOf(queries, order)
      ensures x in KeysOf(queries, init) || (queries[order[|order| - 1]].fixedKey == Some(x))
    {
      var i :| 0 <= i < |order| && queries[order[i]].fixedKey.Some? && queries[order[i]].fixedKey.value == x;
      if i < |init| { assert init[i] == order[i]; }
    }
    forall x | x in KeysOf(queries, init) ensures x in KeysOf(queries, order) {
      var i :| 0 <= i < |init| && queries[init[i]].fixedKey.Some? && queries[init[i]].fixedKey.value == x;
      assert order[i] == init[i];
    }
  }

  /** The seen list holds each shortcut of the names so far, once. */
  lemma {:induction false} ValidationSeen(queries: map<string, CustomQuery>, order: seq<string>)
    requires Names(queries, order)
    ensures NoRepeats(Validation(queries, order).1)
    ensures forall k :: k in Validation(queries, order).1 <==> k in KeysOf(queries, order)
    decreases |order|
  {
    if order != [] {
      var init, name := order[..|order| - 1], order[|order| - 1];
      ValidationSeen(queries, init);
      KeysOfSnoc(queries, order);
      var seen := Validation(queries, init).1;
      match queries[name].fixedKey
      case None =>
      case Some(k) =>
        if k !in seen {
          var seen2 := seen + [k];
          assert NoRepeats(seen2) by {
            forall i, j | 0 <= i < j < |seen2| ensures seen2[i] != seen2[j] {
              if j == |seen| { assert seen2[i] in seen; }
            }
          }
        }
    }
  }

  /** One error per shortcut of the wrong length plus one per repeat of a shortcut already
      given: the count does not depend on the iteration order. */
  lemma {:induction false} ValidationCount(queries: map<string, CustomQuery>, order: seq<string>)
    requires Names(queries, order)
    ensures |Validation(queries, order).0| ==
      CountBad(queries, order) + CountWith(queries, order) - |KeysOf(queries, order)|
    ensures CountWith(queries, order) >= |KeysOf(queries, order)|
    decreases |order|
  {
    if order != [] {
      var init, name := order[..|order| - 1], order[|order| - 1];
      ValidationCount(queries, init);
      ValidationSeen(queries, init);
      KeysOfSnoc(queries, order);
      var seen := Validation(queries, init).1;
      var keys := KeysOf(queries, init);
      match queries[name].fixedKey
      case None =>
      case Some(k) =>
        if k in seen {
          assert KeysOf(queries, order) == keys;
        } else {
          assert KeysOf(queries, order) == keys + {k};
        }
    }
  }

  /** Every error of the validation is filed under `fixed_key`. */
  lemma {:induction false} ValidationFiled(queries: map<string, CustomQuery>, order: seq<string>)
    requires Names(queries, order)
    ensures forall i :: 0 <= i < |Validation(queries, order).0| ==> Validation(queries, order).0[i].field == FIXED_KEY
    decreases |order|
  {
    if order != [] {
      ValidationFiled(queries, order[..|order| - 1]);
    }
  }

  /** There are never more distinct shortcuts than names carrying one. */
  lemma {:induction false} KeysBound(queries: map<string, CustomQuery>, order: seq<string>)
    requires Names(queries, order)
    ensures |KeysOf(queries, order)| <= CountWith(queries, order)
    decreases |order|
  {
    if order != [] {
      KeysBound(queries, order[..|order| - 1]);
      KeysOfSnoc(queries, order);
    }
  }

  /** As many names with a shortcut as distinct shortcuts exactly when no two of them share one. */
  lemma CountWithKeys(queries: map<string, CustomQuery>, order: seq<string>)
    requires Names(queries, order)
    ensures CountWith(queries, order) == |KeysOf(queries, order)| <==> DistinctAt(queries, order)
  {
    if DistinctAt(queries, order) {
      DistinctCount(queries, order);
    } else {
      RepeatCount(queries, order);
    }
  }

  lemma {:induction false} DistinctCount(queries: map<string, CustomQuery>, order: seq<string>)
    requires Names(queries, order) && DistinctAt(queries, order)
    ensures CountWith(queries, order) == |KeysOf(queries, order)|
    decreases |order|
  {
    if order != [] {
      var init, last := order[..|order| - 1], order[|order| - 1];
      assert DistinctAt(queries, init) by {
        forall i, j | 0 <= i < j < |init| && queries[init[i]].fixedKey.Some? && queries[init[j]].fixedKey.Some?
          ensures queries[init[i]].fixedKey != queries[init[j]].fixedKey
        {
          assert init[i] == order[i] && init[j] == order[j];
        }
      }
      DistinctCount(queries, init);
      KeysOfSnoc(queries, order);
      var lk := queries[last].fixedKey;
      if lk.Some? {
        assert lk.value !in KeysOf(queries, init);
      }
    }
  }

  lemma {:induction false} RepeatCount(queries: map<string, CustomQuery>, order: seq<string>)
    requires Names(queries, order) && !DistinctAt(queries, order)
    ensures CountWith(queries, order) > |KeysOf(queries, order)|
    decreases |order|
  {
    var init := order[..|order| - 1];
    var i, j :| 0 <= i < j < |order| && queries[order[i]].fixedKey.Some? && queries[order[j]].fixedKey.Some? &&
      queries[order[i]].fixedKey == queries[order[j]].fixedKey;
    if j < |init| {
      assert !DistinctAt(queries, init) by {
        assert init[i] == order[i] && init[j] == order[j];
      }
      RepeatCount(queries, init);
      KeysOfSnoc(queries, order);
    } else {
      RepeatAtLast(queries, order, i);
    }
  }

  /** The last shortcut repeats an earlier one: it adds to the count but not to the keys. */
  lemma RepeatAtLast(queries: map<string, CustomQuery>, order: seq<string>, i: nat)
    requires Names(queries, order) && i < |order| - 1
    requires queries[order[i]].fixedKey.Some? && queries[order[i]].fixedKey == queries[order[|order| - 1]].fixedKey
    ensures CountWith(queries, order) > |KeysOf(queries, order)|
  {
    var init := order[..|order| - 1];
    KeysOfSnoc(queries, order);
    assert queries[order[i]].fixedKey.value in KeysOf(queries, init) by {
      assert init[i] == order[i];
    }
    KeysBound(queries, init);
  }

  lemma {:induction false} CountBadZero(queries: map<string, CustomQuery>, order: seq<string>)
    requires Names(queries, order)
    ensures CountBad(queries, order) == 0 <==> forall i :: 0 <= i < |order| ==> !BadLength(queries[order[i]])
    decreases |order|
  {
    if order != [] {
      var init := order[..|order| - 1];
      CountBadZero(queries, init);
      forall i | 0 <= i < |init| ensures init[i] == order[i] { }
    }
  }

  /** No two positions of `order` hold the same shortcut. */
  predicate DistinctAt(queries: map<string, CustomQuery>, order: seq<string>)
    requires Names(queries, order)
  {
    forall i, j :: (0 <= i < j < |order| && queries[order[i]].fixedKey.Some? && queries[order[j]].fixedKey.Some?) ==>
      queries[order[i]].fixedKey != queries[order[j]].fixedKey
  }

  /** The map validates cleanly exactly when every shortcut is two bytes long and no two names
      share one. */
  lemma ValidIff(queries: map<string, CustomQuery>, order: seq<string>)
    requires Names(queries, order)
    ensures Validation(queries, order).0 == [] <==>
      (forall i :: 0 <= i < |order| ==> !BadLength(queries[order[i]])) && DistinctAt(queries, order)
  {
    ValidationCount(queries, order);
    CountWithKeys(queries, order);
    CountBadZero(queries, order);
  }

  /** The map's `validate`, as the source runs it: the seen list threaded through the names. */
  method ValidateQueries(queries: map<string, CustomQuery>, order: seq<string>) returns (errs: seq<FieldError>)
    requires Names(queries, order)
    ensures errs == Validation(queries, order).0
  {
    var shortcuts: seq<string> := [];
    errs := [];
    var i := 0;
    while i < |order|
      invariant 0 <= i <= |order|
      invariant (errs, shortcuts) == Validation(queries, order[..i])
    {
      assert order[..i + 1][..i] == order[..i];
      var q := queries[order[i]];
      var validations := QueryErrors(q);
      if q.fixedKey.Some? {
        var k := q.fixedKey.value;
        if k in shortcuts {
          validations := validations + [FieldError(FIXED_KEY, Duplicate(k, order[i]))];
        } else {
          shortcuts := shortcuts + [k];
        }
      }
      errs := errs + validations;
      i := i + 1;
    }
    assert order[..i] == order;
  }

  /** `AppSettings::validate`: the errors of its one map, flattened. The settings are clean
      exactly when every shortcut is two bytes long and no two queries share one; otherwise
      there is one `fixed_key` complaint per wrong length and one per repeat. */
  function SettingsErrors(s: AppSettings, order: seq<string>): (r: seq<FieldError>)
    requires Names(s.customQueries, order)
    ensures r == [] <==>
      (forall i :: 0 <= i < |order| ==> !BadLength(s.customQueries[order[i]])) && DistinctAt(s.customQueries, order)
    ensures |r| == CountBad(s.customQueries, order) + CountWith(s.customQueries, order) - |KeysOf(s.customQueries, order)|
    ensures forall i :: 0 <= i < |r| ==> r[i].field == FIXED_KEY
  {
    var perMap := [Validation(s.customQueries, order).0];
    ValidIff(s.customQueries, order);
    ValidationCount(s.customQueries, order);
    ValidationFiled(s.customQueries, order);
    assert perMap[0] + [] == perMap[0];
    perMap[0] + []
  }

  /** The gate of `AppSettings::new`: a configuration that could not be read is an error as it
      is; one that was read is accepted exactly when it validates cleanly. */
  function SettingsNew(parsed: Result<AppSettings, string>, order: seq<string>): (r: Result<AppSettings, string>)
    requires parsed.Ok? ==> Names(parsed.value.customQueries, order)
    ensures parsed.Err? ==> r == parsed
    ensures parsed.Ok? ==> (r.Ok? <==> SettingsErrors(parsed.value, order) == []) && (r.Ok? ==> r == parsed)
  {
    match parsed
    case Err(e) => Err(e)
    case Ok(s) =>
      var validation := SettingsErrors(s, order);
      if |validation| == 0 then Ok(s)
      else Err("Configuration file couldn't be read. Following error came up: " + ShowErrors(validation))
  }

  /** `{:?}` of a `Vec<FieldError>`: the derived form of each complaint, between brackets and
      separated by a comma and a blank. */
  function ShowErrors(errs: seq<FieldError>): string {
    "[" + ShowItems(errs) + "]"
  }

  function ShowItems(errs: seq<FieldError>): string {
    if errs == [] then []
    else ShowError(errs[0]) + (if |errs| == 1 then "" else ", ") + ShowItems(errs[1..])
  }

  /** The derived `Debug` form of one complaint. */
  function ShowError(e: FieldError): string {
    "FieldError { field: " + DebugStr(e.field) + ", message: " + DebugStr(e.message) + " }"
  }

  /** No complaints show as `[]`; a single one shows without a separator. */
  lemma ShowOneError(e: FieldError)
    ensures ShowErrors([]) == "[]"
    ensures ShowErrors([e]) == "[" + ShowError(e) + "]"
  {
    assert [e][1..] == [];
    assert ShowItems([e]) == ShowError(e) + "" + "";
  }

  // ---------------------------------------------------------------- shortcuts into the cache

  /** One query's shortcut written into the cache: a different cached shortcut is removed first,
      then the insert is tried (and refused when the shortcut is in use). */
  function RegisterOne(t: Cache.Table, name: string, key: string): Cache.Table {
    var t1 := if name in t.customs && t.customs[name] != key then Cache.TableRemove(t, Cache.CustomQuery, name) else t;
    if Cache.Used(t1, key) then t1 else Cache.TableInsert(t1, Cache.CustomQuery, name, key)
  }

  function RegisterAll(t: Cache.Table, queries: map<string, CustomQuery>, order: seq<string>): Cache.Table
    requires Names(queries, order)
    decreases |order|
  {
    if order == [] then t
    else
      var t0 := RegisterAll(t, queries, order[..|order| - 1]);
      var name := order[|order| - 1];
      match queries[name].fixedKey
      case None => t0
      case Some(k) => RegisterOne(t0, name, k)
  }

  /** The names in `order` that have a shortcut. */
  predicate HasFixed(queries: map<string, CustomQuery>, order: seq<string>, name: string)
    requires Names(queries, order)
  {
    name in order && queries[name].fixedKey.Some?
  }

  /** Each shortcut is unused in the cache except, perhaps, by its own query's entry. */
  predicate FreeFor(t: Cache.Table, queries: map<string, CustomQuery>, order: seq<string>)
    requires Names(queries, order)
  {
    forall i, kind, k :: (0 <= i < |order| && queries[order[i]].fixedKey.Some? &&
      k in Cache.MapOf(t, kind) && Cache.MapOf(t, kind)[k] == queries[order[i]].fixedKey.value) ==>
        kind == Cache.CustomQuery && k == order[i]
  }

  /** No two names share a shortcut. */
  predicate DistinctKeys(queries: map<string, CustomQuery>, order: seq<string>)
    requires Names(queries, order)
  {
    forall i, j :: (0 <= i < |order| && 0 <= j < |order| && order[i] != order[j] &&
      queries[order[i]].fixedKey.Some? && queries[order[j]].fixedKey.Some?) ==>
        queries[order[i]].fixedKey != queries[order[j]].fixedKey
  }

  /** Registration maps every query with a shortcut to exactly that shortcut, and leaves the
      tags, the projects and every other custom query's entry as they were; provided the
      shortcuts are distinct and not used elsewhere in the cache. */
  lemma {:induction false} RegisterAllEffect(t: Cache.Table, queries: map<string, CustomQuery>, order: seq<string>)
    requires Names(queries, order) && NoRepeats(order)
    requires FreeFor(t, queries, order) && DistinctKeys(queries, order)
    ensures var r := RegisterAll(t, queries, order);
      r.tags == t.tags && r.projects == t.projects &&
      (forall n :: HasFixed(queries, order, n) ==> n in r.customs && Some(r.customs[n]) == queries[n].fixedKey) &&
      (forall n :: !HasFixed(queries, order, n) ==>
        (n in r.customs <==> n in t.customs) && (n in t.customs ==> r.customs[n] == t.customs[n]))
    decreases |order|
  {
    if order != [] {
      var init, name := order[..|order| - 1], order[|order| - 1];
      assert Names(queries, init) && NoRepeats(init);
      assert FreeFor(t, queries, init) by {
        forall i, kind, k | 0 <= i < |init| && queries[init[i]].fixedKey.Some? &&
          k in Cache.MapOf(t, kind) && Cache.MapOf(t, kind)[k] == queries[init[i]].fixedKey.value
          ensures kind == Cache.CustomQuery && k == init[i]
        {
          assert init[i] == order[i];
        }
      }
      assert DistinctKeys(queries, init) by {
        forall i, j | 0 <= i < |init| && 0 <= j < |init| && init[i] != init[j] &&
          queries[init[i]].fixedKey.Some? && queries[init[j]].fixedKey.Some?
          ensures queries[init[i]].fixedKey != queries[init[j]].fixedKey
        {
          assert init[i] == order[i] && init[j] == order[j];
        }
      }
      RegisterAllEffect(t, queries, init);
      var t0 := RegisterAll(t, queries, init);
      assert name !in init;
      forall n | HasFixed(queries, init, n) ensures HasFixed(queries, order, n) { }
      forall n | HasFixed(queries, order, n) && n != name ensures HasFixed(queries, init, n) {
        var i :| 0 <= i < |order| && order[i] == n;
        assert init[i] == n;
      }
      match queries[name].fixedKey
      case None =>
      case Some(key) =>
        RegisterStep(t, t0, queries, order, name, key);
    }
  }

  /** The last step of `RegisterAllEffect`: the shortcut `key` of the last name `name` is free in
      the table so far except at that name's entry, so the name ends up mapped to it. */
  lemma RegisterStep(t: Cache.Table, t0: Cache.Table, queries: map<string, CustomQuery>, order: seq<string>, name: string, key: string)
    requires Names(queries, order) && order != [] && name == order[|order| - 1]
    requires queries[name].fixedKey == Some(key)
    requires FreeFor(t, queries, order) && DistinctKeys(queries, order)
    requires t0.tags == t.tags && t0.projects == t.projects
    requires forall n :: HasFixed(queries, order, n) && n != name ==> n in t0.customs && Some(t0.customs[n]) == queries[n].fixedKey
    requires forall n :: !HasFixed(queries, order, n) || n == name ==>
        (n in t0.customs <==> n in t.customs) && (n in t.customs ==> t0.customs[n] == t.customs[n])
    ensures var r := RegisterOne(t0, name, key);
      r.tags == t.tags && r.projects == t.projects &&
      name in r.customs && r.customs[name] == key &&
      (forall n :: n != name ==> (n in r.customs <==> n in t0.customs) && (n in t0.customs ==> r.customs[n] == t0.customs[n]))
  {
    var last := |order| - 1;
    // In the table so far, `key` can only be the value of `name`'s own entry.
    forall kind, k | k in Cache.MapOf(t0, kind) && Cache.MapOf(t0, kind)[k] == key
      ensures kind == Cache.CustomQuery && k == name
    {
      if kind == Cache.CustomQuery && HasFixed(queries, order, k) && k != name {
        // `k`'s own shortcut, which differs from `key`.
      } else {
        assert k in Cache.MapOf(t, kind) && Cache.MapOf(t, kind)[k] == key;
        assert queries[order[last]].fixedKey.value == key;
      }
    }
    var t1 := if name in t0.customs && t0.customs[name] != key then Cache.TableRemove(t0, Cache.CustomQuery, name) else t0;
    if Cache.Used(t1, key) {
      Cache.UsedAt(t1, key);
      var kind, k :| k in Cache.MapOf(t1, kind) && Cache.MapOf(t1, kind)[k] == key;
      assert k in Cache.MapOf(t0, kind) && Cache.MapOf(t0, kind)[k] == key;
    }
  }

  /** `register_shortcuts`, as the source runs it over the names in `order`; the results of the
      cache calls are dropped. */
  method RegisterShortcuts(settings: AppSettings, order: seq<string>, cache: Cache.FileCache)
    modifies cache
    requires Names(settings.customQueries, order)
    ensures cache.table == RegisterAll(old(cache.table), settings.customQueries, order)
    ensures cache.writable ==> cache.file == Some(cache.table) || (cache.file == old(cache.file) && cache.table == old(cache.table))
    ensures !cache.writable ==> cache.file == old(cache.file)
  {
    var queries := settings.customQueries;
    ghost var t0 := cache.table;
    var i := 0;
    while i < |order|
      invariant 0 <= i <= |order|
      invariant cache.table == RegisterAll(t0, queries, order[..i])
      invariant cache.writable ==> cache.file == Some(cache.table) || (cache.file == old(cache.file) && cache.table == t0)
      invariant !cache.writable ==> cache.file == old(cache.file)
    {
      assert order[..i + 1][..i] == order[..i];
      var name := order[i];
      var q := queries[name];
      if q.fixedKey.Some? {
        var key := q.fixedKey.value;
        var cached := cache.Get(Cache.CustomQuery, name);
        if cached.Some? && cached.value != key {
          var _ := cache.Remove(Cache.CustomQuery, name);
        }
        var _ := cache.Insert(Cache.CustomQuery, name, key);
      }
      i := i + 1;
    }
    assert order[..i] == order;
  }

  // ---------------------------------------------------------------- the documented examples

  /** Two queries sharing the shortcut `ni` give one error; a third with the one-byte shortcut
      `n` gives a second. */
  lemma SharedShortcut(ni: string, n: string)
    requires ni == "ni" && n == "n"
    ensures var q := map["two_query" := CustomQuery("limit:1", "report of another thing", Some(ni)),
                         "third_query" := CustomQuery("limit:10", "Simple query", Some(ni))];
      |Validation(q, ["two_query", "third_query"]).0| == 1 &&
      |Validation(q["fourth_query" := CustomQuery("project:TWK", "Simple query #4", Some(n))],
                  ["two_query", "third_query", "fourth_query"]).0| == 2
  {
    var q := map["two_query" := CustomQuery("limit:1", "report of another thing", Some(ni)),
                 "third_query" := CustomQuery("limit:10", "Simple query", Some(ni))];
    var q3 := q["fourth_query" := CustomQuery("project:TWK", "Simple query #4", Some(n))];
    var o2, o3 := ["two_query", "third_query"], ["two_query", "third_query", "fourth_query"];
    SharedPair(q, ni);
    SharedPair(q3, ni);
    assert o3[..2] == o2;
    assert n[1..] == [] && Utf8Len(n) == 1;
    assert |Validation(q3, o3).0| == 2;
  }

  /** The first two queries of the example, wherever they sit in a map: one duplicate error, and
      `ni` seen once. */
  lemma SharedPair(q: map<string, CustomQuery>, ni: string)
    requires ni == "ni"
    requires "two_query" in q && q["two_query"] == CustomQuery("limit:1", "report of another thing", Some(ni))
    requires "third_query" in q && q["third_query"] == CustomQuery("limit:10", "Simple query", Some(ni))
    ensures |Validation(q, ["two_query", "third_query"]).0| == 1
    ensures Validation(q, ["two_query", "third_query"]).1 == [ni]
  {
    assert ni[1..][1..] == [] && Utf8Len(ni) == 2;
    var o1, o2 := ["two_query"], ["two_query", "third_query"];
    assert o2[..1] == o1 && o1[..0] == [];
    assert !BadLength(q["two_query"]) && QueryErrors(q["two_query"]) == [];
    var none: seq<string> := [];
    assert none + [ni] == [ni];
    assert Step(q, "two_query", []) == ([], [ni]);
    var e: seq<FieldError> := [];
    assert e + e == [];
    assert Validation(q, o1) == ([], [ni]);
  }

  /** A cached mnemonic `ad` for `two_query` is replaced by its fixed shortcut `ni`; a query
      without a shortcut gets no entry. */
  lemma RegisterReplaces(ad: string, ni: string)
    requires ad == "ad" && ni == "ni"
    ensures var q := map["two_query" := CustomQuery("limit:1", "report of another thing", Some(ni)),
                         "third_query" := CustomQuery("limit:10", "Simple query", None)];
      var r := RegisterAll(Cache.Table(map[], map[], map["two_query" := ad]), q, ["two_query", "third_query"]);
      "two_query" in r.customs && r.customs["two_query"] == ni && "third_query" !in r.customs
  {
    var q := map["two_query" := CustomQuery("limit:1", "report of another thing", Some(ni)),
                 "third_query" := CustomQuery("limit:10", "Simple query", None)];
    var t := Cache.Table(map[], map[], map["two_query" := ad]);
    var order := ["two_query", "third_query"];
    assert ad[0] != ni[0];
    assert FreeFor(t, q, order);
    RegisterAllEffect(t, q, order);
    assert HasFixed(q, order, "two_query");
    assert !HasFixed(q, order, "third_query");
  }
}
