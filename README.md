# taskwarrior-web, modelled in Dafny

taskwarrior-web is a web front end for a Taskwarrior task list stored in a taskchampion replica.
This project models its core and proves properties of that model.

The centre of the core is the **directive engine**. The add and modify forms accept a line of
space-separated `key[:value]` directives, such as `+tag -tag due:2025-06-01 depends:3,-7
status:completed recur:monthly`. The engine works as follows:

- it splits the line into shell words and turns each word into a directive (a trimmed key and an
  optional trimmed value);
- it routes each directive to a handler in a fixed order of precedence;
- each handler changes the in-memory task and records the change as a store operation;
- every complaint goes into a per-field accumulator (`FormValidation`) without stopping the
  directives after it.

The pipelines built on the engine follow one rule. The staged operation list starts with one undo
point. It is committed only when nothing complained. The hooks run only after a successful commit.

Two timer rules sit beside the pipelines:

- a status change stops a running timer first;
- the timer toggle stops every running task before it starts the target.

The smaller cores are these:

- the reserved-property and status tables, the hook payload, the project list and the grouping of
  the undo log (`src/backend/task.rs`);
- the JSON status and date formats (`src/backend/serde.rs`);
- the filter-bar state machine `TaskQuery` (`src/endpoints/tasks/task_query_builder.rs`);
- the older page parameters `Params` (`src/lib.rs`);
- the validation of the custom queries in the configuration (`src/core/config.rs`);
- the mnemonic cache (`src/core/cache.rs`).

The store is abstract. It is a map from UUID to a task, which is a map from property names to
values. It has a working set (working-set number to UUID) and a set of property names whose setters
it refuses, which stands for a store that can fail. A commit applies the operations all at once or
fails as a whole (`Replicas.Replica`). The hook calls go into an append-only log.

Modules, one per file:

- `Wrappers`: Option and Result.
- `Strings`: `trim`, `to_lowercase`, `split`, integer printing and parsing.
- `Errors`: `FieldError`, `FormValidation`.
- `Store`: the abstract replica, taskchampion's tag and UUID rules, and the setters.
- `Backend`: `src/backend/task.rs`.
- `Serde`: `src/backend/serde.rs`.
- `Calendar`: UTC instants, the `%Y%m%dT%H%M%SZ` form, and the date-time and full-date forms of
  section 5.6 of RFC 3339.
- `ShellWords`: POSIX-style word splitting.
- `Directives`: the classifier and the handlers, as functions that specify them.
- `Editing`: the handlers run in place on an `Editor`.
- `Adding`: `task_add`'s steps.
- `Timers`: `change_task_status` and `toggle_task_active`.
- `Replicas`: the store and the four pipelines.
- `Details`: the dependency list of the detail page and the tag keywords.
- `QueryBuilder`: `TaskQuery`.
- `Config`: the custom-query settings.
- `Cache`: the mnemonic cache.
- `LegacyParams`: `src/lib.rs`.

Where the code is imperative (the handlers, the pipelines, `FormValidation`, `TaskQuery`, the
cache), the model is a class or a method with loops. Each is proved against a function that
specifies it. The properties are proved about those functions.

## Model

| member | source | states |
|---|---|---|
| Errors.FormValidation.constructor | src/core/errors.rs:52-59 | a new accumulator reports success, with no complaints and no message |
| Errors.FormValidation.FromError | src/core/errors.rs:86-96 | a converted store or generic error fails, carries the error's text as its message and has no field complaints |
| Errors.FormValidation.Push | src/core/errors.rs:99-106 | the complaint is appended to its own field's list; other fields and the message are unchanged; success becomes false and the class invariant (success only while no field has a complaint) is kept |
| Errors.PushEffect | src/core/errors.rs:99-106 | one push appends to exactly the complaint's field and adds that field to the keys; well-filed maps stay well filed |
| Errors.PushAllErrorsOf | src/core/errors.rs:99-106 | after any sequence of pushes, each field holds its old complaints followed by the pushed ones for that field, in order |
| Errors.PushAllKeys | src/core/errors.rs:101-105 | the fields with complaints after pushes are the old ones plus those pushed to |
| Errors.PushAllAppend | src/core/errors.rs:99-106 | pushing two batches one after the other equals pushing their concatenation |
| Errors.FormValidation.IsSuccess | src/core/errors.rs:110-112 | `is_success` answers the flag, and a true answer means no field has a complaint |
| Errors.FormValidation.HasError | src/core/errors.rs:129-131 | `has_error(f)` holds exactly when at least one complaint is recorded for `f` |
| Errors.HasErrorAfterPushes | src/core/errors.rs:129-131 | after pushes, `has_error(k)` holds exactly when `k` had complaints before or some pushed complaint names `k` |
| Errors.SetErrorAsWrittenInverted | src/core/errors.rs:114-124 | as written, `set_error(None)` on a fresh accumulator reports failure, and after one push it reports success (see Findings) |
| Errors.SetErrorIntended | src/core/errors.rs:114-124 | with a message, the form fails and keeps the message; without one, the message is cleared and success means that no field has a complaint |
| Errors.FormValidation.SetError | src/core/errors.rs:114-124 | `set_error` leaves the complaints alone and sets flag and message as `SetErrorIntended` says |
| Errors.FormValidation.PushEach | src/core/errors.rs:99-106 | pushing a batch in a loop gives the logged report of the batch |
| Errors.LogEffect | src/core/errors.rs:99-112 | a logged batch fails the report exactly when it is non-empty (or the report had already failed) and files each complaint under its field |
| Errors.LogAppend | src/core/errors.rs:99-106 | logging two batches equals logging their concatenation |
| Strings.TrimEmptyIffBlank | src/endpoints/tasks/mod.rs:152-154 | `trim` gives the empty text exactly for blank text |
| Strings.TrimIdempotent | src/endpoints/tasks/mod.rs:152-154 | trimming twice equals trimming once |
| Strings.SplitOnce | src/endpoints/tasks/mod.rs:152 | `split_once` cuts at the first separator: the head has no separator and head, separator and tail rebuild the text |
| Strings.JoinSplit | src/lib.rs:153-154 | splitting on a separator and joining with it gives the text back |
| Strings.IntStringRoundTrip | src/backend/task.rs:130 | a printed integer parses back as `i64` to the same value |
| Strings.UsizeStringRoundTrip | src/endpoints/tasks/task_modify.rs:132 | a printed natural number parses back as `usize` to the same value |
| Strings.LexTransitive | src/backend/task.rs:426 | the string order `sort` uses is transitive |
| Strings.LexTotal | src/backend/task.rs:426 | any two different strings are ordered one way or the other |
| Store.StatusFromTaskmap | src/backend/task.rs:88-96 | the status read from the store's `status` value is stored back as the same text |
| Store.ParseUuid | src/endpoints/tasks/task_modify.rs:128 | `Uuid::try_parse` yields a UUID in canonical form or nothing |
| Store.ParseCanonicalUuid | src/endpoints/tasks/task_modify.rs:128 | a canonical UUID parses to itself |
| Store.NumberIsNotUuid | src/endpoints/tasks/task_modify.rs:128-136 | a run of digits that is not 32 long is never a UUID, so a working-set number always reaches the working set |
| Store.ParseTag | src/endpoints/tasks/task_modify.rs:26-39 | `Tag::from_str` keeps the name; a successful result is synthetic exactly for the store's synthetic names; a failure carries the invalid-tag message |
| Store.UserTagIff | src/endpoints/tasks/task_modify.rs:26-39 | a name is a user tag exactly when it is not all capitals and has no forbidden first or later character |
| Store.TagExamplesRejected | src/endpoints/tasks/mod.rs:984-1011 | `d/c`, `e/b`, the empty name and an upper-case non-synthetic name are rejected |
| Store.TagExamplesSynthetic | src/endpoints/tasks/mod.rs:984-1011 | `WAITING` and `PENDING` are synthetic tags |
| Store.TagExampleUser | src/endpoints/tasks/mod.rs:984-990 | `concert` is a user tag |
| Store.LowerWordTag | src/endpoints/tasks/task_modify.rs:27-48 | any non-empty word of lower-case letters is a user tag |
| Store.SetValue | src/endpoints/tasks/mod.rs:183-190 | a setter fails exactly for a refused property; on success it changes only that property of the in-memory task and appends one update operation with the old and new values |
| Store.SetTag | src/endpoints/tasks/task_modify.rs:27-70 | adding or removing a synthetic tag is refused |
| Store.Start | src/endpoints/tasks/mod.rs:536 | a successful start leaves the task running, and starting a running task changes nothing |
| Store.Stop | src/endpoints/tasks/mod.rs:452 | a successful stop leaves the task idle, and stopping an idle task changes nothing |
| Store.SetValueTracks | src/endpoints/tasks/mod.rs:357-361 | after a successful setter, committing the recorded operations still gives exactly the in-memory task |
| Store.ModifyStartTracks | src/endpoints/tasks/mod.rs:344-348 | an undo point plus the stored task is a consistent start for an edit |
| Store.CreateStartTracks | src/endpoints/tasks/mod.rs:218-222 | an undo point plus a creation under an unused UUID is a consistent start for a new task |
| Backend.PropertyFrom | src/backend/task.rs:61-85 | `try_from` names the property whose key equals the lower-cased input, or fails with the "not a reserved property" message |
| Backend.PropertyFromIff | src/backend/task.rs:61-85 | `try_from` succeeds exactly when the lower-cased input is one of the ten reserved names |
| Backend.PropertyRoundTrip | src/backend/task.rs:44-85 | every property's name reads back as that property |
| Backend.PropertyCaseExample | src/backend/task.rs:65 | reading is case-insensitive: `DUE` is `due` |
| Backend.NamesDistinct | src/backend/task.rs:44-59 | no two properties share a name |
| Backend.ConvertTaskStatus | src/backend/task.rs:88-96 | exactly the four words are known statuses (case-sensitive); any other text is `Unknown` of the same text |
| Backend.ConvertThenStore | src/backend/task.rs:88-96 | a status the front end writes reads back from the store as the same status |
| Backend.EventNamesDisjoint | src/backend/task.rs:110-117 | no script name starts with both `on-add` and `on-modify` |
| Backend.BuildPayload | src/backend/task.rs:333-342 | the `push_str` sequence builds exactly the payload |
| Backend.PayloadText | src/backend/task.rs:333-342 | `on-modify` sends the old task, a line end, the new task and a line end; `on-add` sends the new task and a line end |
| Backend.PayloadLines | src/backend/task.rs:324-342 | a hook reading lines gets the old task then the new one (modify), or the new one alone (add) |
| Backend.ExecuteHooks | src/backend/task.rs:314-322 | without a hooks directory nothing happens; with one, exactly one call is logged |
| Backend.ConvertToDatetime | src/backend/task.rs:128-152 | a stored value is the instant of its `i64` reading; a value that is not an integer and a missing value give none |
| Backend.StoredTimestampRoundTrip | src/backend/task.rs:128-152 | a stored integer timestamp reads back as the same instant |
| Backend.AnnOrder | src/backend/task.rs:155-160 | the derived order on annotations (time, then text) is a strict total order |
| Backend.GreatestUnique | src/backend/task.rs:233-238 | a set of annotations has at most one newest, so the order after sorting is fixed |
| Backend.SortDescending | src/backend/task.rs:233-238 | sorting then reversing lists every annotation once, newest first |
| Backend.ToView | src/backend/task.rs:225-281 | the view has no id and keeps the UUID; its tags are exactly the user tags; its annotations are exactly the task's, newest first; end, project and status are read from the store |
| Backend.ViewAsWritten | src/backend/task.rs:250 | as written, the view's `end` is the task's `start` value (see Findings) |
| Backend.ViewEndDiscrepancy | src/backend/task.rs:250 | a completed, never started task shows no end as written and its end time when corrected |
| Backend.ProjectsOfMembers | src/backend/task.rs:419-425 | the collected names are exactly the non-empty projects of the tasks |
| Backend.SortDedup | src/backend/task.rs:426-427 | `sort` then `dedup` gives strictly ascending names with the same members |
| Backend.GetProjectList | src/backend/task.rs:417-430 | the project list is strictly ascending (so free of duplicates) and holds exactly the non-empty project names |
| Backend.AscendingUnique | src/backend/task.rs:426-427 | two strictly ascending lists with the same members are equal, so the list does not depend on the store's order |
| Backend.ConvertOp | src/backend/task.rs:456-503 | undo points give no entry; an update of `tag_x` becomes property `x` marked as a tag change; every entry keeps its task's UUID |
| Backend.GetUndoOperations | src/backend/task.rs:451-514 | the loop builds exactly the grouped map |
| Backend.GroupedByTask | src/backend/task.rs:505-511 | a task has a group exactly when it has an operation other than an undo point, and its group is its entries in log order |
| Serde.SerializeStatus | src/backend/serde.rs:6-21 | a present status gives a word and a missing one gives none |
| Serde.DeserializeStatus | src/backend/serde.rs:23-40 | reading lower-cases first: the result written back is the lower-cased text, and it is `Unknown` exactly when that text is not a known word |
| Serde.KnownStatusRoundTrip | src/backend/serde.rs:6-40 | each of the four known statuses reads back as itself |
| Serde.UnknownStatusRoundTrip | src/backend/serde.rs:6-40 | `Unknown(v)` reads back as itself exactly when `v` is lower case and not a known word |
| Serde.DeserializeIgnoresCase | src/backend/serde.rs:29 | reading a status ignores letter case |
| Serde.SerializeDate | src/backend/serde.rs:56-66 | a present date is written in the 16-character basic form, with `T` and `Z` in place |
| Serde.DeserializeDate | src/backend/serde.rs:75-88 | a missing date and a date that does not parse both read as no date |
| Serde.DeserializeDateMandatory | src/backend/serde.rs:119-127 | the mandatory form is an error exactly when the text does not parse |
| Serde.OptionalVersusMandatory | src/backend/serde.rs:75-127 | the optional reading turns exactly the mandatory reading's errors into no date, and otherwise agrees with it |
| Serde.DateRoundTrip | src/backend/serde.rs:47-88 | writing an optional date and reading it back gives the same second |
| Serde.MandatoryDateRoundTrip | src/backend/serde.rs:104-127 | the same for the mandatory form used by annotations |
| Calendar.FromEpoch | src/backend/serde.rs:61 | the calendar fields of an instant are a valid UTC date-time that converts back to the instant |
| Calendar.FormatBasic | src/backend/serde.rs:47-66 | `%Y%m%dT%H%M%SZ` is 16 characters with `T` and `Z` in place |
| Calendar.ParseBasic | src/backend/serde.rs:81 | a parsed basic-form text is an instant within the four-digit years |
| Calendar.BasicRoundTrip | src/backend/serde.rs:47-88 | formatting an instant and parsing it back gives the same second |
| Calendar.ParseFullDate | src/endpoints/tasks/task_modify.rs:209-215 | a full-date is `YYYY-MM-DD`, taken at midnight UTC |
| Calendar.FullDateExample | src/endpoints/tasks/task_modify.rs:209-215 | `2025-06-01` is 1748736000 seconds after the epoch |
| Calendar.DateTimeExample | src/endpoints/tasks/task_modify.rs:205-207 | the same instant as an RFC 3339 date-time in UTC |
| Calendar.DateTimeOffsetExample | src/endpoints/tasks/task_modify.rs:205-207 | the same instant with a two-hour offset and a dropped fraction of a second |
| Calendar.Rfc3339Parts | src/endpoints/tasks/task_modify.rs:205-207 | a date-time made of a full-date, a `T`, `t` or blank separator, a time, a fraction and an offset is the day plus the time minus the offset |
| Calendar.FormsDisjoint | src/endpoints/tasks/task_modify.rs:205-216 | a full-date is never an RFC 3339 date-time, so the order of the two attempts does not matter |
| ShellWords.SplitSimpleWords | src/endpoints/tasks/mod.rs:144 | simple words separated by single blanks split back into those words |
| ShellWords.UnterminatedDoubleQuote | src/endpoints/tasks/mod.rs:144-147 | an input that ends inside a double quote is refused, whatever came before |
| ShellWords.OpenQuoteAtEnd | src/endpoints/tasks/mod.rs:144-147 | a word that opens a double quote and never closes it is refused |
| ShellWords.MissingQuoteExample | src/endpoints/tasks/mod.rs:841 | `priority:H due:"` is a quoting error |
| ShellWords.OnlyQuoteError | src/endpoints/tasks/mod.rs:144-147 | the splitter's only failure is the missing closing quote |
| Directives.Tokenize | src/endpoints/tasks/mod.rs:152-154 | a word without `:` is its trimmed self with no value; a word with `:` has a value |
| Directives.TokenizeAt | src/endpoints/tasks/mod.rs:152-154 | a word is cut at its first `:` into the trimmed key and the trimmed value |
| Directives.Tokens | src/endpoints/tasks/mod.rs:151-154 | every word of the line becomes one directive, in order |
| Directives.Classify | src/endpoints/tasks/mod.rs:157-201 | the handler picked is the first test that matches: tag add or remove only for a signed key without value, then depends, description, priority, the three dates, status, recur, the forbidden keys, the reserved properties, and otherwise a user-defined attribute |
| Directives.ClassifyForbidden | src/endpoints/tasks/mod.rs:173-182 | a key is forbidden exactly when its lower-cased, trimmed form is `start`, `stop`, `done`, `end` or `modified`, whatever its value |
| Directives.ReservedIsProject | src/endpoints/tasks/mod.rs:183-190 | the only reserved property that reaches the generic setter is `project` |
| Directives.ApplyTag | src/endpoints/tasks/task_modify.rs:21-71 | a tag directive files nothing exactly when the name is a user tag the store accepts; otherwise it files one complaint and changes nothing; on success only that tag changes |
| Directives.ApplyRecur | src/endpoints/tasks/task_modify.rs:73-102 | recurrence, status Recurring and `rtype` `periodic` are set in that order; the first refusal ends the chain with exactly one complaint |
| Directives.ApplyStatus | src/endpoints/tasks/task_modify.rs:245-261 | no value changes nothing; any value is stored as given, known word or not; only a refusal complains |
| Directives.TimestampValue | src/endpoints/tasks/task_modify.rs:204-224 | a missing or blank value clears; a value that is neither an RFC 3339 date-time nor a full-date is an error; otherwise the parsed instant |
| Directives.ApplyTimestamp | src/endpoints/tasks/task_modify.rs:198-243 | a bad date files one complaint naming the key and changes nothing; otherwise `entry`, `wait` or `due` is set or cleared |
| Directives.ApplyText | src/endpoints/tasks/task_modify.rs:164-196 | description and priority store the value or the empty text; a refusal files one complaint and changes nothing |
| Directives.DependencyItems | src/endpoints/tasks/task_modify.rs:111-116 | the items of a `depends` value are non-empty |
| Directives.DependencyItemsTrimmed | src/endpoints/tasks/task_modify.rs:114 | every item is already trimmed |
| Directives.Resolve | src/endpoints/tasks/task_modify.rs:128-138 | a reference is a UUID first; failing that it is a working-set number looked up in the working set; otherwise nothing |
| Directives.DependencyStep | src/endpoints/tasks/task_modify.rs:117-159 | an unresolved reference files exactly the not-found complaint; a resolved one adds or removes that dependency |
| Directives.DependsFold | src/endpoints/tasks/task_modify.rs:112-161 | the items in order file at most one complaint each |
| Directives.ErrorsIndependent | src/endpoints/tasks/mod.rs:151-202 | a directive's complaints do not depend on the task it is applied to |
| Directives.AllErrorsIndependent | src/endpoints/tasks/mod.rs:151-202 | the same for a list of directives |
| Directives.ApplyAllEach | src/endpoints/tasks/mod.rs:151-202 | the complaints of a run are each directive's own, in order: a failing directive never stops or changes the later ones |
| Directives.ApplyCarries | src/endpoints/tasks/mod.rs:157-201 | whatever a handler does, complaints or not, the recorded operations still commit to exactly the edited task |
| Directives.ApplyAllCarries | src/endpoints/tasks/mod.rs:151-202 | the same for a list of directives |
| Directives.AdditionsCarries | src/endpoints/tasks/mod.rs:137-206 | the same for a whole line |
| Directives.ApplyFiled | src/endpoints/tasks/mod.rs:157-201 | every complaint of a directive is filed under `additional` |
| Directives.ApplyAllFiled | src/endpoints/tasks/mod.rs:151-202 | the same for a list |
| Directives.AdditionsFiled | src/endpoints/tasks/mod.rs:144-204 | every complaint about a line, including a quoting error, is filed under `additional` |
| Directives.ForbiddenOneError | src/endpoints/tasks/mod.rs:173-182 | a forbidden key, in any case and with any value, files exactly one complaint and changes nothing |
| Directives.ShellErrorOneError | src/endpoints/tasks/mod.rs:144-204 | a line the splitter refuses files exactly one complaint and applies no directive |
| Directives.MissingQuoteAdditions | src/endpoints/tasks/mod.rs:841-847 | `priority:H due:"` files one `additional` complaint and changes nothing |
| Directives.PlusKey | src/endpoints/tasks/mod.rs:157-158 | a `+` key without value adds the tag named by the rest of the key |
| Directives.MinusKey | src/endpoints/tasks/mod.rs:159-160 | a `-` key without value removes the tag named by the rest of the key |
| Directives.TimestampRejected | src/endpoints/tasks/mod.rs:167-168 | a date key with text that is no date files the parse complaint for that key |
| Directives.DescriptionKey | src/endpoints/tasks/mod.rs:163-164 | `description` goes to the description handler |
| Directives.ProjectKey | src/endpoints/tasks/mod.rs:183-190 | `project` goes to the generic setter under that key |
| Directives.StartKey | src/endpoints/tasks/mod.rs:173-182 | `start` is refused with the forbidden-field complaint |
| Directives.DependsOnUuid | src/endpoints/tasks/mod.rs:161-162 | a dependency on one UUID that the store accepts files nothing |
| Directives.Breakit | src/endpoints/tasks/mod.rs:984-1019 | the modify test's twelve directives file exactly seven `additional` complaints: wait, due, the two malformed tags, the two synthetic tags and `start` |
| BreakitLine.SplitLine | src/endpoints/tasks/mod.rs:984-990 | the modify test's command line splits into its twelve words, the double-quoted description as one word without its quotes |
| BreakitLine.TokenizeWords | src/endpoints/tasks/mod.rs:984-990 | tokenizing those words gives the twelve directives `Directives.Breakit` is stated over |
| BreakitLine.LineComplaints | src/endpoints/tasks/mod.rs:984-1001 | the command line itself, split and tokenized, files exactly the seven complaints |
| Editing.Editor.constructor | src/endpoints/tasks/mod.rs:344-348 | an editor starts from the given task and operation list |
| Editing.Editor.ApplyTag | src/endpoints/tasks/task_modify.rs:21-71 | the in-place tag handlers change the task and the accumulator as `Directives.ApplyTag` specifies |
| Editing.Editor.ApplyRecur | src/endpoints/tasks/task_modify.rs:73-102 | the in-place recur handler does what `Directives.ApplyRecur` specifies |
| Editing.Editor.ApplyStatus | src/endpoints/tasks/task_modify.rs:245-261 | the in-place status handler does what `Directives.ApplyStatus` specifies |
| Editing.Editor.ApplyTimestamp | src/endpoints/tasks/task_modify.rs:198-243 | the in-place timestamp handler does what `Directives.ApplyTimestamp` specifies |
| Editing.Editor.ApplyText | src/endpoints/tasks/task_modify.rs:164-196 | the in-place description and priority handlers do what `Directives.ApplyText` specifies |
| Editing.Editor.DependencyStep | src/endpoints/tasks/task_modify.rs:117-160 | one item, in place, as `Directives.DependencyStep` specifies |
| Editing.Editor.DependsFold | src/endpoints/tasks/task_modify.rs:112-161 | the loop over the items gives the task and the complaints of `Directives.DependsFold` |
| Editing.Editor.ApplyDepends | src/endpoints/tasks/task_modify.rs:104-162 | the in-place depends handler does what `Directives.ApplyDepends` specifies |
| Editing.Editor.Route | src/endpoints/tasks/mod.rs:157-201 | one directive sent to the handler of the given kind, in place |
| Editing.Editor.Apply | src/endpoints/tasks/mod.rs:157-201 | one directive sent to the handler `Classify` picks, in place |
| Editing.Editor.ParseApplyAdditions | src/endpoints/tasks/mod.rs:137-206 | the loop over the shell words gives the task, the operations and the complaints of `Directives.Additions` |
| Adding.DescriptionStep | src/endpoints/tasks/mod.rs:223-239 | the description step complains exactly when the store refuses it or the description is blank, and only under `description` |
| Adding.AddStagingTracks | src/endpoints/tasks/mod.rs:218-305 | committing what `task_add` staged on a store without the new UUID adds exactly the new task |
| Adding.AddFieldsFiled | src/endpoints/tasks/mod.rs:223-303 | every complaint of the add form is filed under description, status, entry, tags, project or additional |
| Adding.MandatoryDescription | src/endpoints/tasks/mod.rs:223-239 | the add form has a description complaint exactly when the description is blank or refused |
| Adding.PlainAdd | src/endpoints/tasks/mod.rs:218-257 | a plain form stages an undo point, the creation, the description, status `pending` and the entry time, and nothing else |
| Adding.AddMissingQuote | src/endpoints/tasks/mod.rs:831-847 | a directive line with an open quote always gives an `additional` complaint |
| Adding.StageDescription | src/endpoints/tasks/mod.rs:223-239 | the description step in place, as `DescriptionStep` specifies |
| Adding.StageStatus | src/endpoints/tasks/mod.rs:240-248 | the status is set to `pending`, in place |
| Adding.StageEntry | src/endpoints/tasks/mod.rs:249-257 | the entry is set to the current time, in place |
| Adding.StageTagPiece | src/endpoints/tasks/mod.rs:262-277 | one piece of the tag field: blank skipped, a bad tag or a refusal filed under `tags` |
| Adding.StageTags | src/endpoints/tasks/mod.rs:258-278 | the tag field is split on blank, `+` and `-`, and each piece is handled in order |
| Adding.StagePieces | src/endpoints/tasks/mod.rs:258-278 | the loop over the tag pieces gives the task and complaints of `TagPieces` |
| Adding.StageProject | src/endpoints/tasks/mod.rs:279-293 | a given project is set, and a refusal is filed under `project` |
| Adding.StageAdditional | src/endpoints/tasks/mod.rs:295-303 | a given directive line is applied |
| Adding.StageBasics | src/endpoints/tasks/mod.rs:223-257 | description, status and entry, in place |
| Adding.StageExtras | src/endpoints/tasks/mod.rs:258-303 | tags, project and directive line, in place |
| Adding.StageAdd | src/endpoints/tasks/mod.rs:218-303 | every step of `task_add` before the commit decision, in place |
| Timers.StatusChangeStopsTimer | src/endpoints/tasks/mod.rs:448-455 | a status change leaves the task idle with the status asked for, and records at most the stop and the status update |
| Timers.StatusChangeTracks | src/endpoints/tasks/mod.rs:443-458 | committing a status change on the store the task came from writes exactly the changed task |
| Timers.TargetAfter | src/endpoints/tasks/mod.rs:519-537 | in memory, `stop` stops the target, `start` leaves it running, and any other request leaves it as it was |
| Timers.ToggleAsWrittenAnswer | src/endpoints/tasks/mod.rs:525-553 | as written, the answer matches the stored target exactly when the request was `stop` or the target was idle (see Findings) |
| Timers.ToggleIntended | src/endpoints/tasks/mod.rs:502-564 | with the target left out of the sweep, the answer is the stored state, no other task runs, the target runs after `start` and is idle after `stop` |
| Timers.ToggleStaleStart | src/endpoints/tasks/mod.rs:525-553 | a running task started again answers "running" while the store keeps it stopped as written, and running when corrected |
| Timers.FireAll | src/endpoints/tasks/mod.rs:545-552 | without a hooks directory the log is unchanged; with one, one call is logged per recorded pair |
| Timers.FireAllCalls | src/endpoints/tasks/mod.rs:545-552 | with a hooks directory the log keeps its old calls and gains, in the pairs' order, one modify call per pair whose before and after are the as-written views (`end` filled from `start`) |
| Timers.Sweep | src/endpoints/tasks/mod.rs:524-532 | the loop stops every running stored task except the kept one, records each (before, after) pair in store order, and fails only on a refused stop |
| Timers.SweepOne | src/endpoints/tasks/mod.rs:526-531 | one task of the sweep keeps the sweep's invariant |
| Timers.ToggleCommitted | src/endpoints/tasks/mod.rs:519-537 | the committed operations give the store with the target stopped when asked, then the sweep, then the start |
| Timers.ToggleStartsIdle | src/endpoints/tasks/mod.rs:519-537 | starting an idle task commits the swept store with the target started at the current time |
| Timers.ToggleStartsNothing | src/endpoints/tasks/mod.rs:519-537 | any other request commits the swept store (after stopping the target on `stop`) and starts nothing |
| Timers.StageToggle | src/endpoints/tasks/mod.rs:507-538 | the staged operations commit to `ToggledStore`, the recorded pairs are the sweep's with the target last, and the target is kept in memory as `TargetAfter` |
| Timers.StartLast | src/endpoints/tasks/mod.rs:534-537 | the target is started after the sweep only when asked to start and it was idle in memory |
| Timers.StopFirst | src/endpoints/tasks/mod.rs:508-522 | the undo point, then the target stopped when asked to stop |
| Replicas.Replica.constructor | src/backend/task.rs:302-311 | a store with the given tasks and settings and an empty hook log |
| Replicas.Replica.Commit | src/endpoints/tasks/mod.rs:360 | a commit applies all operations in order, or fails and changes nothing |
| Replicas.Replica.CommitThenHook | src/endpoints/tasks/mod.rs:305-332 | the hook runs only after a successful commit; a failed commit becomes the form's message and changes nothing |
| Replicas.Replica.TaskAdd | src/endpoints/tasks/mod.rs:212-333 | the form succeeds exactly when no step complained and the commit succeeded; then the new task is stored and the add hook logged with the as-written view of the staged task (`end` filled from `start`); otherwise nothing changes and the complaints or the store error are returned |
| Replicas.Replica.RunModifyCommand | src/endpoints/tasks/mod.rs:336-385 | the modification succeeds exactly when no directive complained and the commit succeeded; then the edited task is stored and the modify hook logged with the as-written views (`end` filled from `start`) of the task before and after; otherwise nothing changes |
| Replicas.StageModify | src/endpoints/tasks/mod.rs:341-355 | the staging half of a modification is the directive line's `Directives.Additions`: its staged task, and its complaints logged in a fresh validation |
| Replicas.StageStatusChange | src/endpoints/tasks/mod.rs:448-455 | the staging half of a status change is `Timers.StatusChange` |
| Replicas.Replica.ChangeTaskStatus | src/endpoints/tasks/mod.rs:437-481 | a refusal or a failed commit changes nothing; otherwise the task is stored idle with the new status and the modify hook logged with the as-written views of the task before and after |
| Replicas.Replica.ToggleTaskActive | src/endpoints/tasks/mod.rs:502-564 | on success the store is `ToggledStore`, the answer is the target's in-memory state, and one modify hook is logged per recorded pair, the target last, each with the as-written views (`FireAllCalls`); on failure nothing changes |
| Replicas.Replica.FireHooks | src/endpoints/tasks/mod.rs:545-552 | the modify hook for each recorded pair, in order, with the as-written views of before and after |
| Details.CompareByKey | src/endpoints/tasks/mod.rs:606-652 | the comparator orders by (completed last, then working-set number with 9999999 for none) |
| Details.CompareAntisymmetric | src/endpoints/tasks/mod.rs:606-652 | swapping the arguments swaps less and greater |
| Details.CompareTransitive | src/endpoints/tasks/mod.rs:606-652 | the comparator is transitive, so it is a total preorder |
| Details.CompletedLast | src/endpoints/tasks/mod.rs:617-644 | a completed task always sorts after an open one |
| Details.SortBy | src/endpoints/tasks/mod.rs:606 | the insertion sort that models `sort_by` is a permutation of its input |
| Details.SortBySorted | src/endpoints/tasks/mod.rs:606 | `sort_by` gives a sorted permutation |
| Details.SortByStable | src/endpoints/tasks/mod.rs:606 | `sort_by` is stable: the tasks of each key keep their order |
| Details.GetTask | src/backend/task.rs:516-529 | a task is found exactly when stored, shown in the as-written view (`end` filled from `start`) with its UUID, status and working-set number |
| Details.FoundComplete | src/endpoints/tasks/mod.rs:597-605 | every listed dependency the store holds is in the list |
| Details.DependencyList | src/endpoints/tasks/mod.rs:586-654 | the dependency list is a sorted permutation of the held dependencies |
| Details.TagKinds | src/endpoints/tasks/mod.rs:755-763 | the keywords and the `+` words are disjoint, and project and priority words are never tags |
| QueryBuilder.ReportRoundTrip | src/endpoints/tasks/task_query_builder.rs:24-46 | every report reads back from its name, and a name that reads as a report is that report's name |
| QueryBuilder.PriorityRoundTrip | src/endpoints/tasks/task_query_builder.rs:57-80 | every priority reads back from its prefixed name; a text that reads as a priority is the bare letter or the prefixed name |
| QueryBuilder.StatusRoundTrip | src/endpoints/tasks/task_query_builder.rs:90-113 | the same for statuses |
| QueryBuilder.Without | src/endpoints/tasks/task_query_builder.rs:174 | `retain_mut` drops every occurrence of the tag and keeps every other one |
| QueryBuilder.UpdateFrame | src/endpoints/tasks/task_query_builder.rs:148-189 | an update never touches the stored filter, always replaces the entry word, and leaves the fields whose parameters are absent |
| QueryBuilder.ReportSelects | src/endpoints/tasks/task_query_builder.rs:149-152 | a report parameter selects that report and clears the status |
| QueryBuilder.StatusToggles | src/endpoints/tasks/task_query_builder.rs:154-163 | the shown status toggles off and restores `next`; another status is shown with no report |
| QueryBuilder.TagToggles | src/endpoints/tasks/task_query_builder.rs:172-177 | a `+tag` word flips that tag's membership and keeps every other tag; twice from absent gives the list back |
| QueryBuilder.ProjectToggles | src/endpoints/tasks/task_query_builder.rs:166-171 | a `project:` word sets the project or clears it when it is the one shown |
| QueryBuilder.PriorityToggles | src/endpoints/tasks/task_query_builder.rs:178-185 | a known `priority:` word sets the priority or clears it when it is the one shown |
| QueryBuilder.ExportPlacement | src/endpoints/tasks/task_query_builder.rs:191-231 | `export` appears only when asked for, with at most the report after it |
| QueryBuilder.ReportLast | src/endpoints/tasks/task_query_builder.rs:198-229 | a set report is the last word; otherwise no report word is added |
| QueryBuilder.TaskQuery.constructor | src/endpoints/tasks/task_query_builder.rs:127-139 | the default query: the `next` report and nothing else |
| QueryBuilder.TaskQuery.FromParams | src/endpoints/tasks/task_query_builder.rs:142-146 | `new` is the default followed by one update |
| QueryBuilder.TaskQuery.Update | src/endpoints/tasks/task_query_builder.rs:148-189 | the in-place update gives the query `Updated` specifies |
| QueryBuilder.TaskQuery.PrefixWords | src/endpoints/tasks/task_query_builder.rs:195-224 | filter, priority, project, tags, status and entry, in that order |
| QueryBuilder.TaskQuery.GetQuery | src/endpoints/tasks/task_query_builder.rs:191-231 | the prefix words, `export` when asked, then the report |
| QueryBuilder.TaskQuery.AsFilterText | src/endpoints/tasks/task_query_builder.rs:233-235 | the words without `export` |
| QueryBuilder.PriorityThenStatus | src/endpoints/tasks/task_query_builder/tests.rs:16-32 | `priority:H`, then `pending`, reads `priority:H status:pending` |
| QueryBuilder.PriorityWithStatus | src/endpoints/tasks/task_query_builder/tests.rs:34-47 | both in one request read the same |
| QueryBuilder.PriorityAlone | src/endpoints/tasks/task_query_builder/tests.rs:49-58 | `priority:H` alone reads `priority:H next` |
| QueryBuilder.NoParams | src/endpoints/tasks/task_query_builder/tests.rs:60-68 | no parameters read `next` |
| QueryBuilder.CompletedStatus | src/endpoints/tasks/task_query_builder/tests.rs:70-79 | the `completed` status reads `status:completed` |
| Config.QueryErrors | src/core/config.rs:72-88 | a query has one `fixed_key` complaint exactly when its shortcut is present and not two bytes long, and none otherwise |
| Config.Utf8Len | src/core/config.rs:75 | the byte length `len` reports lies between the number of characters and four times it |
| Config.ValidationSeen | src/core/config.rs:90-116 | the seen list holds each shortcut of the names so far exactly once |
| Config.ValidationCount | src/core/config.rs:90-116 | the number of complaints is the number of wrong-length shortcuts plus the number of repeats |
| Config.ValidationFiled | src/core/config.rs:90-116 | every complaint is filed under `fixed_key` |
| Config.ValidIff | src/core/config.rs:90-116 | the map validates cleanly exactly when every shortcut is two bytes long and no two queries share one |
| Config.ValidateQueries | src/core/config.rs:90-116 | the loop threading the seen list gives the complaints of `Validation` |
| Config.SettingsErrors | src/core/config.rs:119-129 | the settings are clean exactly when every shortcut is two bytes long and no two queries share one; otherwise there is one `fixed_key` complaint per wrong length and one per repeated shortcut |
| Config.SettingsNew | src/core/config.rs:32-47 | a read error is passed on; read settings are accepted exactly when they validate cleanly |
| Config.EscapeDebug | src/core/config.rs:78-82 | `{:?}` of a string adds exactly one backslash per backslash, double quote, NUL, tab, line feed or carriage return |
| Config.EscapePlain | src/core/config.rs:78-82 | text with nothing to escape is written unchanged between the quotes |
| Config.EscapeQuote | src/core/config.rs:78-82 | a double quote inside the shortcut is written with a backslash before it |
| Config.ShowOneError | src/core/config.rs:38-41 | the rejection lists the complaints in `Debug` form: none as `[]`, a single one as `[FieldError { field: …, message: … }]` |
| Config.SharedShortcut | src/core/config.rs:194-216 | two queries sharing a shortcut give one complaint, and a third with a one-byte shortcut gives a second |
| Config.SharedPair | src/core/config.rs:194-208 | the first two queries of the example, in either order, give one duplicate complaint |
| Config.RegisterAllEffect | src/core/config.rs:60-69 | registration maps every query with a shortcut to exactly that shortcut and leaves queries without one untouched |
| Config.RegisterShortcuts | src/core/config.rs:60-69 | the loop over the queries leaves the cache table as `RegisterAll` says |
| Config.RegisterReplaces | src/core/config.rs:219-245 | a cached `ad` for a query is replaced by its fixed `ni`, and a query without a shortcut stays uncached |
| Cache.TableInsert | src/core/cache.rs:43-48 | insert sets the entry in the map of its kind and touches no other kind |
| Cache.TableRemove | src/core/cache.rs:50-55 | remove drops the entry from the map of its kind and touches no other kind |
| Cache.InsertKeepsUnique | src/core/cache.rs:97-114 | inserting an unused mnemonic keeps all mnemonics pairwise distinct |
| Cache.RemoveKeepsUnique | src/core/cache.rs:119-122 | a removal keeps all mnemonics pairwise distinct |
| Cache.InsertThenGet | src/core/cache.rs:114-127 | after an insert the entry reads back, and every other entry reads as before |
| Cache.RemoveThenGet | src/core/cache.rs:119-127 | after a removal the entry is gone, and every other entry reads as before |
| Cache.FileCache.constructor | src/core/cache.rs:65-70 | a new cache has an empty table and does not touch the file |
| Cache.FileCache.Save | src/core/cache.rs:129-135 | a writable file receives the whole table; otherwise an error and nothing written |
| Cache.FileCache.Get | src/core/cache.rs:125-127 | a mnemonic is found exactly when the key is in the map of its kind |
| Cache.FileCache.Insert | src/core/cache.rs:90-117 | an insert of a mnemonic already used by any entry is refused with the table unchanged; otherwise the entry is set and the table saved; uniqueness is preserved |
| Cache.FileCache.Remove | src/core/cache.rs:119-123 | the entry is dropped and the table saved; uniqueness is preserved |
| Cache.CacheSession | src/core/cache.rs:147-190 | the documented session: insert, a refused duplicate, remove, a re-insert under another kind, a refused duplicate |
| LegacyParams.Task | src/lib.rs:87-95 | a status change is present exactly when both the UUID and the status are |
| LegacyParams.Filter | src/lib.rs:115-121 | `retain_mut` keeps exactly the words that pass its test, in order |
| LegacyParams.FilterKeepsAll | src/lib.rs:115-121 | a test every word passes changes nothing |
| LegacyParams.Retain | src/lib.rs:115-121 | the in-place `retain_mut` gives `Filter` |
| LegacyParams.Initial | src/lib.rs:99-111 | `[ALL]` and a missing query give no words; otherwise the trimmed query split on single blanks, empty pieces kept; `Query` starts from these words |
| LegacyParams.PrefixReplaces | src/lib.rs:114-119 | a `priority=` or `status:` click replaces every word of its kind with itself |
| LegacyParams.ClickToggles | src/lib.rs:120-124 | any other click toggles its word and keeps every other word |
| LegacyParams.ClickTwice | src/lib.rs:120-124 | clicking an absent word twice gives the list back |
| LegacyParams.PrefixClickIdempotent | src/lib.rs:114-119 | clicking the same `priority=` or `status:` word again changes nothing |
| LegacyParams.SingleWord | src/lib.rs:103-107 | a one-word query is that word |
| LegacyParams.DefaultQuery | src/lib.rs:70-78 | the default parameters list `status:pending` |
| LegacyParams.Query | src/lib.rs:97-127 | `query` in place gives `QueryOf` |
| LegacyParams.EmptyStringAsNone | src/lib.rs:131-142 | a missing or empty value is none; any other is the parser's result |
| LegacyParams.NumberFormValue | src/lib.rs:131-142 | a written number reads back through the helper, and an empty value reads as absent |
| LegacyParams.ProjectLinkPrefix | src/lib.rs:144-156 | the link is a prefix of the project name, the whole name once the index reaches the number of parts, and a proper dotted prefix below that |

## Left out

- Rendering, routing and HTTP responses (`src/main.rs`, the Tera helpers, the `display_*` handlers) are not modelled. They hold no logic of the core.
- Calls to the `task` command-line program are not modelled: `fetch_task_from_cmd`, `task_undo`, `run_annotate_command`, `run_denotate_command`, `fetch_active_task`, `TaskQuery::build`, `read_task_file`, `get_task_details`.
- `denotate_task` is not modelled. It removes an annotation through a store call that is not part of this model.
- Running the hook scripts is not modelled: the directory scan, the permission bits and the process spawning. A hook run is one entry in a log.
- The JSON text of a task given to a hook is not modelled. The log keeps the views themselves.
- The taskchampion store is not modelled itself: `get_replica`, storage and commit internals. The store is a map, its setters fail exactly for the property names in `refused`, and the error texts are symbolic.
- The `shell_words`, `chrono`, `uuid` and taskchampion `Tag` crates are modelled from their documented behaviour, not from their code. Whitespace is the Unicode White_Space set; letter case is the ASCII subset only. Date fields have fixed width. UUIDs come in the simple, hyphenated, braced and URN forms.
- The clock, the fresh UUID of a new task and the store's iteration order (`all_tasks`, `HashMap` iteration) are parameters.
- Store.SetValue: records only the property it is given. Taskchampion's setters also write the `modified` timestamp, which is not modelled. `Adding.PlainAdd` and `Timers.StatusChangeStopsTimer` therefore speak of this abstract store, where nothing else is recorded.
- Store.SetStatus: records only the status. Taskchampion also sets `end` when a task becomes completed or deleted and clears it when the task becomes pending or recurring; neither that nor `modified` is modelled.
- Backend.ConvertToDatetime: every `i64` reading gives an instant. The source reaches `unreachable!` when `chrono` rejects the value as out of its range; that panic is not modelled.
- Backend.BuildPayload: the line ending is `"\n"`. On Windows the source uses `"\r\n"`; that build is not modelled.
- Backend.ToView: the hooks and the task detail page receive the as-written view (`Backend.ViewAsWritten`, `end` filled from `start`), as in the source; `ToView` is the corrected view, proved on its own.
- Directives.TimestampValue: a bad date's complaint has a fixed stand-in text, because `chrono`'s message wording is not modelled.
- The `urgency` and `imask` floating-point fields and the user-defined-attribute map of the view are not modelled.
- Replicas.Replica.RunModifyCommand: the source panics when the task is missing; the model requires the task to be stored. The same holds for `ChangeTaskStatus` and `ToggleTaskActive`.
- Config.Utf8Len: the contract states only the bounds (one to four bytes per character); the body counts the UTF-8 bytes of each character from its code point.
- The mnemonic cache has a third map, for custom queries. `src/core/config.rs` uses that kind, but `src/core/cache.rs` defines only tags and projects. Uniqueness is proved across all three maps.
- Cache.FileCache.Insert: the duplicate check also looks in the custom-query map, which the two-kind `insert` of `src/core/cache.rs` cannot have.
- Cache.FileCache.Insert: the fourth argument of `insert` used by `register_shortcuts` is not modelled. Its meaning does not appear in the cache's source.
- Cache.FileCache.Save: the file holds the table itself, not its TOML text. Loading the cache (`load`) and the TOML format are not modelled.
- LegacyParams.EmptyStringAsNone: a parse error is the parser's own error text, not serde's custom error.
- Config.SettingsNew: the rejection message is the `Debug` text of the complaint list. `Config.DebugStr` escapes only backslash, double quote, NUL, tab, line feed and carriage return; the `\u{…}` escapes Rust also writes for other non-printable and grapheme-extending characters are not modelled. The same holds for the shortcut inside `Config.WrongLength`.
- The add form (`NewTask`) and the query parameters (`QueryBuilder.Params`, the source's `TWGlobalState`) are defined outside the modelled files. The model reads their fields directly where the source calls `tags()`, `project()` and `additional()`, and it takes `TWGlobalState::default()` to leave every field absent, which is what `NO_PARAMS` and the query builder's test lemmas assume.
- `AppSettings::new` is modelled only as its validation gate (`Config.SettingsNew`). Reading the file and the environment is not modelled.
- The random shortcut generation (`src/core/utils.rs`), application bootstrapping (`src/core/app.rs`), `get_date_proper` (local time zone), the front end scripts, `build.rs` and `src/endpoints/tasks.rs` are not modelled.

## Findings

| source | as written | input that shows it | evidently intended | confidence | as-written member | corrected member |
|---|---|---|---|---|---|---|
| src/core/errors.rs:119 | `set_error(None)` sets `success` to `!fields.is_empty()`, true when some field has a complaint | a fresh accumulator: `set_error(None)` makes `is_success()` false although nothing was pushed | success exactly when no field has a complaint (`fields.is_empty()`) | medium, not executed | Errors.SetErrorAsWrittenInverted | Errors.SetErrorIntended |
| src/backend/task.rs:250 | the view's `end` is read from the `start` property | a completed task with `end` set and never started shows no end | `end` read from the `end` property | medium, not executed | Backend.ViewEndDiscrepancy | Backend.ToView |
| src/endpoints/tasks/mod.rs:525-553 | the sweep also stops the stored target, and `start` on the in-memory target does nothing when it was already running | one running task toggled with `start`: the answer is "running" but the committed store has it stopped | the target left out of the sweep, so the answer matches the store and the target keeps running | medium, not executed | Timers.ToggleStaleStart | Timers.ToggleIntended |
