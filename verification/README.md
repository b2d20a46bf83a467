# Poker results tracker — a Dafny model of the store and the views' logic

The application records poker sessions and notes on opponents. A store holds:

- the sessions, players, stakes, formats and table ratings;
- the session being played;
- a net total.

The store changes only through a closed set of commands (`appReducer`). It loads its record from browser storage at start-up. After every change it writes the state back, but only while the state holds a session or a player. Four views compute over the store:

- the session-entry form: start and end a session, derived figures, carrying values forward;
- the reports: a filtered list and summary statistics, editing and deleting;
- the player notes: colour tags, a stake checklist, expandable rows, add and update;
- the table ratings: labels and colours, and a record built from the chosen players.

This project models those pieces and proves what they promise.

Layout, one module per file:

- `js_semantics.dfy` — `JsSemantics`: the JavaScript semantics the code relies on. It covers optional values, the truthiness of numbers and strings, the `||` fallback, `Math.round`, `String.prototype.trim`, and integer division as date-fns truncates it and as `%` computes it.
- `lists.dfy` — `Lists`: the array operations the store and views use, each defined once with its laws. These are `filter`, replace-by-key (`map`), remove-by-key (`filter`), `find` and the projection of every element to its key.
- `poker_types.dfy` — `PokerTypes`: the records. `Player` has an optional `stakes` list, which the notes view writes. `HasNet` is the "both account figures present and nonzero" test.
- `app_context.dfy` — `AppContext`: the state, the commands, `Reduce` (the reducer) and what each command may write. It also holds the persistence bridge and the class `AppStore`, which owns the state and the stored record and saves under the code's guard.
- `reports_tab.dfy` — `ReportsTab`: the filter, the statistics, and the edit and delete commands.
- `session_tab.dfy` — `SessionTab`: the session form's pure logic and the class `SessionView`. Its methods send their two commands through an `AppStore`.
- `notes_tab.dfy` — `NotesTab`: the tag legend, the stake checklist, the save command and the class `NotesView`.
- `table_selection_tab.dfy` — `TableSelectionTab`: the rating bands, the player selection and the class `TableSelectionView`. The class's save builds a record and never touches the store.

Numbers:

- Money and hand counts are `int`.
- Points in time are `int` milliseconds.
- Hours, averages and rates are exact `real`s.
- A `NaN` in the reports (the sum of hands when a counted session has no end count) is `None`.

Behaviour of the code that the model keeps and proves:

- An account start of 0 is falsy, so a session that started from 0 never counts in any total (`ReportsTab.ZeroStartIsNotCounted`).
- A hand counter start of 0, the form's default, makes the form show 0 total hands while the reports count every hand (`SessionTab.ZeroHandsStartShowsNoHands`).
- The straddle filter `"false"` keeps unstraddled sessions. It is an exact boolean match, as is `"true"`.
- Saving a player drops any `aiSummary`, and an edited id that is empty is replaced by a fresh one.

## Model

| member | source | states |
|---|---|---|
| JsSemantics.OrInt | src/components/SessionTab.tsx:57 | `o \|\| d` on a number: the value when present and nonzero, else the default |
| JsSemantics.OrString | src/components/SessionTab.tsx:58-59 | `o \|\| d` on a string: the value when present and non-empty, else the default |
| JsSemantics.OrFalse | src/components/SessionTab.tsx:60 | `o \|\| false` is true exactly when the value is present and true |
| JsSemantics.TruncDiv | src/components/SessionTab.tsx:108 | the quotient rounds toward zero, bounded on both sides for either sign |
| JsSemantics.JsRem | src/components/SessionTab.tsx:110 | `%` takes the dividend's sign, is below the divisor in size, and completes the truncated quotient to the dividend |
| JsSemantics.Round | src/components/SessionTab.tsx:128 | `Math.round` lies within a half of its argument, with halves going up |
| JsSemantics.TrimStart | src/components/NotesTab.tsx:93 | the result is a suffix that starts with a non-space, and everything cut off is white space |
| JsSemantics.TrimEnd | src/components/NotesTab.tsx:93 | the result is a prefix that ends with a non-space, and everything cut off is white space |
| JsSemantics.Trim | src/components/NotesTab.tsx:93 | `s.trim()`, both ends cut as `TrimStart` and `TrimEnd` state; `TrimEmptyIffBlank` states the test the save uses |
| JsSemantics.TrimEmptyIffBlank | src/components/NotesTab.tsx:93 | `trim()` is empty exactly when every character is white space |
| Lists.Filter | src/components/ReportsTab.tsx:59-67 | the result is no longer than the input and every element passes the test |
| Lists.FilterMembers | src/components/ReportsTab.tsx:59-67 | an element is in the result iff it is in the input and passes the test |
| Lists.FilterCounts | src/components/NotesTab.tsx:129 | each passing element is kept as often as it occurs; failing elements are gone |
| Lists.FilterIsSubsequence | src/context/AppContext.tsx:57 | the result is the input with elements deleted, in the original order |
| Lists.FilterAppend | src/components/ReportsTab.tsx:71 | filtering a concatenation concatenates the filtered parts |
| Lists.FilterKeepsAll | src/components/ReportsTab.tsx:59-67 | a test every element passes returns the input unchanged |
| Lists.Keys | src/components/TableSelectionTab.tsx:42 | `map(x => x.id)` has one key per element, in order |
| Lists.KeysAppend | src/components/TableSelectionTab.tsx:42 | the keys of a concatenation are the concatenated keys |
| Lists.ReplaceByKey | src/context/AppContext.tsx:52 | same length; every element with the payload's key becomes the payload, every other stays |
| Lists.ReplaceKeepsKeys | src/context/AppContext.tsx:52 | replacing by key keeps the list of keys |
| Lists.ReplaceAbsentIsIdentity | src/context/AppContext.tsx:52 | replacing by a key nobody has changes nothing |
| Lists.ReplaceIdempotent | src/context/AppContext.tsx:52 | replacing twice with the same payload equals replacing once |
| Lists.ReplaceLast | src/context/AppContext.tsx:52 | when the key is only at the end, only the last element changes |
| Lists.ReplaceBySelf | src/context/AppContext.tsx:52 | replacing by an element that already sits under its key changes nothing |
| Lists.RemoveByKey | src/context/AppContext.tsx:57 | no element with the key is left; the result is a subsequence; every element with another key is kept |
| Lists.RemoveByKeyCounts | src/context/AppContext.tsx:57 | every element with another key is kept as often as before |
| Lists.RemoveAbsentIsIdentity | src/context/AppContext.tsx:57 | removing a key nobody has changes nothing |
| Lists.RemoveAfterAppend | src/context/AppContext.tsx:48-57 | appending under a fresh key and removing that key restores the list |
| Lists.FindByKey | src/components/NotesTab.tsx:146 | `find` succeeds iff the key occurs, and returns an element of the list with that key |
| Lists.FindFirst | src/components/NotesTab.tsx:146 | `find` returns the element at the first position that has the key |
| Lists.FindAfterAppend | src/context/AppContext.tsx:48 | after appending under a fresh key, a lookup of that key finds the appended element |
| Lists.FindAfterReplace | src/context/AppContext.tsx:52 | after replacing under a present key, a lookup of that key finds the payload |
| AppContext.InitialState | src/context/AppContext.tsx:25-43 | `initialState`: no sessions, players or ratings, the six stakes and two formats exactly as listed, nothing current, a zero net; `PristineStateIsNotSaved` states that it is never written |
| AppContext.Reduce | src/context/AppContext.tsx:45-77 | `appReducer`; its cases are stated by `ReduceWritesOnly` and the command lemmas below |
| AppContext.ReduceWritesOnly | src/context/AppContext.tsx:45-77 | each command leaves every field outside its write set unchanged; an unrecognised command writes nothing |
| AppContext.AddSessionAppends | src/context/AppContext.tsx:47-48 | ADD_SESSION grows the list by exactly one, the payload, at the end; a fresh id then finds it |
| AppContext.UpdateSessionReplaces | src/context/AppContext.tsx:49-53 | UPDATE_SESSION keeps length, order and ids and replaces every session with the id, duplicates included; an unknown id changes nothing; it is idempotent |
| AppContext.DeleteSessionRemoves | src/context/AppContext.tsx:54-58 | DELETE_SESSION removes every session with the id and keeps the rest in order; an unknown id changes nothing |
| AppContext.AddThenDeleteSession | src/context/AppContext.tsx:47-58 | adding a session under a fresh id and deleting it restores the whole state |
| AppContext.SetCurrentSessionOnlyMovesPointer | src/context/AppContext.tsx:59-60 | SET_CURRENT_SESSION changes only the current session |
| AppContext.AddPlayerAppends | src/context/AppContext.tsx:61-62 | ADD_PLAYER appends exactly the payload; a fresh id then finds it |
| AppContext.UpdatePlayerReplaces | src/context/AppContext.tsx:63-67 | UPDATE_PLAYER keeps ids and order and replaces every player with the id; an unknown id changes nothing |
| AppContext.OnlyLoadDataWritesTotalNetAndRatings | src/context/AppContext.tsx:45-77 | no command but LOAD_DATA changes `totalNet` or the table ratings, and none removes a player |
| AppContext.AddStakeAndFormatAppend | src/context/AppContext.tsx:68-71 | ADD_STAKE and ADD_FORMAT each append exactly their payload |
| AppContext.LoadDataMerges | src/context/AppContext.tsx:72-75 | LOAD_DATA overwrites exactly the fields the payload carries, and is idempotent; the default case returns the state unchanged |
| AppContext.Serialize | src/context/AppContext.tsx:116 | `JSON.stringify(state)`, dates written as text; `SaveThenLoad` states that loading reverses it |
| AppContext.RevivePartial | src/context/AppContext.tsx:92-103 | the parsed record as a `LOAD_DATA` payload with every session revived; unlike the code it also revives the current session's dates (see Left out) |
| AppContext.ReviveSession | src/context/AppContext.tsx:95-101 | dates are parsed; `endTime` stays absent iff it was missing or empty; every other field is kept |
| AppContext.ReviveSessions | src/context/AppContext.tsx:95-101 | each loaded session is revived, in order |
| AppContext.Hydrate | src/context/AppContext.tsx:87-111 | nothing stored, or text that does not parse, dispatches nothing; a parsed record is dispatched as LOAD_DATA |
| AppContext.ReviveStoredSession | src/context/AppContext.tsx:96-101 | a stored and then revived session is the same session, with or without an end time |
| AppContext.SaveThenLoad | src/context/AppContext.tsx:87-119 | loading the record the save effect wrote gives back the saved state, the current session's dates included only because `RevivePartial` revives them, which the code does not |
| AppContext.SaveGuard | src/context/AppContext.tsx:115 | the save condition, a session or a player present; `SaveAsWritten`, `PristineStateIsNotSaved` and `DeletedLastSessionComesBack` state its effect |
| AppContext.SaveAsWritten | src/context/AppContext.tsx:113-119 | the record is written iff the state has a session or a player; otherwise storage keeps what it had |
| AppContext.PristineStateIsNotSaved | src/context/AppContext.tsx:113-119 | the initial state is never written, so it cannot overwrite a stored record |
| AppContext.DeletedLastSessionComesBack | src/context/AppContext.tsx:113-119 | deleting the only session, with no players, is never written; the next load brings the session back |
| AppContext.SaveWhenHydrated | src/context/AppContext.tsx:113-119 | before the first load nothing is written; after it, every state is |
| AppContext.HydratedSaveMirrorsState | src/context/AppContext.tsx:113-119 | after the first load, storage always reloads to the current state, deletions included |
| AppContext.AppStore.constructor | src/context/AppContext.tsx:85 | the store starts from the initial state with storage as it was, which agrees with the save guard |
| AppContext.AppStore.Load | src/context/AppContext.tsx:87-119 | nothing stored, or unparseable text, leaves state and storage alone; a parsed record is loaded and then saved under the guard as written; storage keeps agreeing with the state wherever the guard writes |
| AppContext.AppStore.Dispatch | src/context/AppContext.tsx:113-119 | the state becomes the reducer's result; the save effect writes it only while it has a session or a player, so storage then agrees with every state the guard lets through |
| ReportsTab.Matches | src/components/ReportsTab.tsx:59-67 | the filter's test, the conjunction of the set criteria; `StraddleCriterion` and `LimitIncludesItself` state its cases |
| ReportsTab.FilteredSessions | src/components/ReportsTab.tsx:58-68 | `filteredSessions`; `FilteredSessionsSpec` states it |
| ReportsTab.FilteredSessionsSpec | src/components/ReportsTab.tsx:58-68 | the filtered list is a subsequence in the original order; a session is in it iff it meets every set criterion; multiplicities are kept |
| ReportsTab.NoFiltersKeepAll | src/components/ReportsTab.tsx:58-68 | with no criterion set, every session is listed unchanged |
| ReportsTab.LimitIncludesItself | src/components/ReportsTab.tsx:60 | a stake criterion equal to a session's limit selects it, since the criterion is substring containment |
| ReportsTab.StraddleCriterion | src/components/ReportsTab.tsx:62-65 | `"true"` keeps exactly the straddled sessions and `"false"` exactly the others |
| ReportsTab.CompletedSessions | src/components/ReportsTab.tsx:71 | every counted session has both account figures present and nonzero |
| ReportsTab.SessionStatsOf | src/components/ReportsTab.tsx:70-90 | `getSessionStats` over the filtered, completed sessions; the step lemmas below fix it for every appended session |
| ReportsTab.StatsOver | src/components/ReportsTab.tsx:72-89 | the statistics over the completed sessions; `AverageAndRate` and `StatsAppendOne` state them |
| ReportsTab.SumNet | src/components/ReportsTab.tsx:73 | the net fold over counted sessions; `SumNetAppend` and `StatsAppendOne` state it |
| ReportsTab.SumHands | src/components/ReportsTab.tsx:74 | the hand fold with `NaN` as `None`; `SumHandsAppend` and `SumHandsNaN` state it |
| ReportsTab.HoursOf | src/components/ReportsTab.tsx:75-79 | a session's hours from start to end, 0 without an end time; `StatsAppendOne` adds it per session |
| ReportsTab.SumHours | src/components/ReportsTab.tsx:75-80 | the hour fold; `SumHoursAppend` states it |
| ReportsTab.SumNetAppend | src/components/ReportsTab.tsx:73 | the net sum distributes over concatenation |
| ReportsTab.SumHandsAppend | src/components/ReportsTab.tsx:74 | the hand sum distributes over concatenation, and `NaN` absorbs |
| ReportsTab.SumHoursAppend | src/components/ReportsTab.tsx:75-80 | the hour sum distributes over concatenation |
| ReportsTab.SumHandsNaN | src/components/ReportsTab.tsx:74 | the hand sum is `NaN` iff some session lacks an end count |
| ReportsTab.TotalHandsNaNIff | src/components/ReportsTab.tsx:74 | `totalHands` is `NaN` iff some counted session lacks an end count |
| ReportsTab.AverageAndRate | src/components/ReportsTab.tsx:87-88 | the average times the count is the net, or the average is 0 with nothing counted; the rate times the hours is the hands, 0 when the hours are not positive, `NaN` with `NaN` hands |
| ReportsTab.CompletedAppend | src/components/ReportsTab.tsx:71 | the counted sessions of a concatenation are those of each part, concatenated |
| ReportsTab.UncountedSessionAddsNothing | src/components/ReportsTab.tsx:58-80 | a session without both account figures, or one the filter rejects, changes no statistic |
| ReportsTab.CompletedSessionAddsItself | src/components/ReportsTab.tsx:71-80 | a counted session that passes the filter adds one to the count and its net, hands and hours to the totals |
| ReportsTab.CompletedGrows | src/components/ReportsTab.tsx:71 | the statistics after such a session are those over the old counted sessions plus it |
| ReportsTab.CompletedSingleton | src/components/ReportsTab.tsx:71 | a single counted session that passes the filter is counted |
| ReportsTab.StatsAppendOne | src/components/ReportsTab.tsx:72-80 | one more counted session adds one to the count and its figures to each total |
| ReportsTab.ZeroStartIsNotCounted | src/components/ReportsTab.tsx:71 | an account start of 0 keeps a session out of the count and the net, whatever its end |
| ReportsTab.EditFormFor | src/components/ReportsTab.tsx:105-120 | the dialog shows every field of the session (date, times, hand counters, limit, format, straddle, account figures), with a missing end time as now and missing end figures as 0 |
| ReportsTab.SaveEdit | src/components/ReportsTab.tsx:128-148 | nothing is sent without a session under edit; otherwise UPDATE_SESSION keeps its id and active flag and takes every other field from the dialog |
| ReportsTab.EditWithoutChanges | src/components/ReportsTab.tsx:105-148 | saving a finished, uniquely identified session unchanged changes nothing; an unfinished one gets now as its end; a missing account end stays uncounted |
| ReportsTab.DeleteRequest | src/components/ReportsTab.tsx:122-126 | DELETE_SESSION is sent iff the user confirms |
| SessionTab.InitialDraft | src/components/SessionTab.tsx:25-35 | the form's defaults (also the reset at 88-98); `StartFromInitialDraft` states the session they start |
| SessionTab.NewSession | src/components/SessionTab.tsx:53-63 | the new session is active, has no end figures and has the given id; date and start time are the form's or now, hand counter and account start the form's or 0, limit the form's or empty, format the form's or heads-up, straddle only when set |
| SessionTab.StartFromInitialDraft | src/components/SessionTab.tsx:25-63 | the untouched form starts a heads-up session without straddle, now, from hand counter 0, account 0 and no limit |
| SessionTab.StartCommands | src/components/SessionTab.tsx:64-65 | ADD_SESSION then SET_CURRENT_SESSION with the same record; `StartAppendsAndSelects` states their effect |
| SessionTab.EndCommands | src/components/SessionTab.tsx:71-82 | nothing without a current session, else UPDATE_SESSION with the ended record then a cleared current session; `EndReplacesAndClears` states their effect |
| SessionTab.EndedSession | src/components/SessionTab.tsx:73-79 | the ended copy keeps every field of the current session (id, date, start time, start figures, limit, format, straddle) except the end time (the form's, or now), the end figures (the form's) and the active flag (off) |
| SessionTab.StartAppendsAndSelects | src/components/SessionTab.tsx:52-68 | starting appends exactly one active session with the id, makes that same session current, and changes nothing else |
| SessionTab.EndReplacesAndClears | src/components/SessionTab.tsx:70-84 | ending does nothing without a current session; otherwise it replaces the sessions with the current id by the ended copy, keeping length and ids, and clears the current session |
| SessionTab.StartThenEnd | src/components/SessionTab.tsx:52-84 | a session started under a fresh id and then ended is the ended record at the end of the list, with nothing current |
| SessionTab.TotalHands | src/components/SessionTab.tsx:114-117 | 0 when either hand counter is missing or zero; otherwise the end counter minus the start counter |
| SessionTab.FormHandsAreRecordedHands | src/components/SessionTab.tsx:70-84 | with a nonzero start counter, the form's hand total is the hands the ended record adds to the reports |
| SessionTab.SessionNet | src/components/SessionTab.tsx:119-122 | 0 when either account figure is missing or zero; otherwise the end figure minus the start figure |
| SessionTab.SessionNetIsRecordedNet | src/components/SessionTab.tsx:70-84 | the net the form shows is the net the ended record contributes to every total, and the record counts iff both figures are nonzero |
| SessionTab.ZeroHandsStartShowsNoHands | src/components/SessionTab.tsx:114-117 | from a hand counter of 0 the form shows 0 hands while the reports count them all |
| SessionTab.ElapsedMinutes | src/components/SessionTab.tsx:108 | the whole minutes between two times, truncated toward zero |
| SessionTab.SplitMinutesAsWritten | src/components/SessionTab.tsx:109-110 | the code's split: hours are the minutes over 60 rounded down, minutes keep the sign of the duration; they add back only for a nonnegative duration |
| SessionTab.SplitMinutes | src/components/SessionTab.tsx:109-110 | the corrected split: hours times 60 plus minutes is the elapsed minutes; minutes are in [0, 60) for a nonnegative duration |
| SessionTab.SplitsAgreeWhenNonnegative | src/components/SessionTab.tsx:109-110 | for nonnegative minutes, the code's floor and `%` split equals `div` and `mod` |
| SessionTab.NegativeSplitAsWritten | src/components/SessionTab.tsx:109-110 | at -61 minutes the code's split gives -2 h -1 m, which does not add back to -61 |
| SessionTab.SessionDurationAsWritten | src/components/SessionTab.tsx:105-112 | `getSessionDuration`: "0h 0m" without a start time; otherwise the elapsed hours rounded down and the same minutes as the corrected duration, equal to it when the end is not before the start |
| SessionTab.SessionDuration | src/components/SessionTab.tsx:105-112 | the corrected duration: "0h 0m" without a start time; otherwise hours and minutes that add back to the elapsed minutes |
| SessionTab.HandsPerHour | src/components/SessionTab.tsx:124-129 | 0 without a start time, without a nonzero end count, or with no elapsed minute; otherwise the form's hands per hour, rounded to within a half |
| SessionTab.RoundedRate | src/components/SessionTab.tsx:127-128 | the rounded rate is within a half of the hands over the elapsed hours |
| SessionTab.TotalNet | src/components/SessionTab.tsx:131-138 | `getTotalNet`, a left fold; `TotalNetSumsCompleted` states it |
| SessionTab.TotalNetSumsCompleted | src/components/SessionTab.tsx:131-138 | the running total is the sum of the nets of the sessions with both figures nonzero |
| SessionTab.TotalNetIsUnfilteredReportNet | src/components/SessionTab.tsx:131-138 | the form's total net equals the unfiltered reports' total net |
| SessionTab.CarriedForward | src/components/SessionTab.tsx:39-50 | the carry-forward effect's update; the three lemmas below state its cases |
| SessionTab.NextSessionContinues | src/components/SessionTab.tsx:39-50 | after a session ending at hand count h and account a, the next session starts at h and a, and every other field is as before |
| SessionTab.CarryForwardWithoutAccountEnd | src/components/SessionTab.tsx:39-50 | a last session with a hand counter but a missing or zero account end carries the counter, and the account starts from 0 |
| SessionTab.NothingToCarry | src/components/SessionTab.tsx:39-50 | without a last session, or when its end count is missing or zero, the form is kept |
| SessionTab.WithFormat | src/components/SessionTab.tsx:220-226 | the format selector's update; `FormatSetsStraddle` states it |
| SessionTab.FormatSetsStraddle | src/components/SessionTab.tsx:220-226 | after choosing a format, straddle is on iff it is "8-max with ante", and a session started then has that format and straddle |
| SessionTab.SessionView.constructor | src/components/SessionTab.tsx:25-37 | the form starts from its defaults, not editing |
| SessionTab.SessionView.StartSession | src/components/SessionTab.tsx:52-68 | the store receives ADD_SESSION then SET_CURRENT_SESSION; sessions grow by the new session, which becomes current; editing starts |
| SessionTab.SessionView.EndSession | src/components/SessionTab.tsx:70-84 | without a current session nothing changes; otherwise the store receives UPDATE_SESSION then a cleared current session, and editing stops |
| SessionTab.SessionView.StartNewSession | src/components/SessionTab.tsx:86-103 | the form is reset, editing stops, the current session is cleared |
| SessionTab.SessionView.CarryForward | src/components/SessionTab.tsx:39-50 | the form becomes the carried-forward form for the store's sessions |
| SessionTab.SessionView.ChooseFormat | src/components/SessionTab.tsx:220-226 | the form takes the format and the straddle it implies |
| NotesTab.ColorTagOptions | src/components/NotesTab.tsx:32-38 | the five tags with their labels and colours, in order; `ColorTagInfoFindsOwnOption` and `ColorTagsDistinct` state them |
| NotesTab.ColorTagInfo | src/components/NotesTab.tsx:145-147 | the option found for the tag, or the first option when none has it |
| NotesTab.ColorTagInfoFindsOwnOption | src/components/NotesTab.tsx:32-38 | every tag has its own option, at its position, so the fallback is never taken |
| NotesTab.ColorTagsDistinct | src/components/NotesTab.tsx:32-38 | different tags have different labels and colours |
| NotesTab.Prefill | src/components/NotesTab.tsx:58-85 | `handleOpen`'s form: the player's fields (`FormFor`) or a blank form; `OpenThenSaveUnchanged` states that saving it unchanged is a no-op |
| NotesTab.FormFor | src/components/NotesTab.tsx:58-70 | a player without stakes opens with an empty checklist |
| NotesTab.StakesAfterChange | src/components/NotesTab.tsx:124-131 | `handleStakeChange`'s update; `StakeChangeSpec` and `CheckThenUncheck` state it |
| NotesTab.StakeChangeSpec | src/components/NotesTab.tsx:124-131 | a check appends the stake; an uncheck removes every occurrence and keeps the others in order and multiplicity |
| NotesTab.CheckThenUncheck | src/components/NotesTab.tsx:124-131 | checking an unlisted stake and unchecking it restores the list |
| NotesTab.SaveCommand | src/components/NotesTab.tsx:92-117 | nothing is sent iff the name is blank; UPDATE_PLAYER iff editing, under the edited id (or the fresh id when the edited id is empty), else ADD_PLAYER under the fresh id; the record is the form's fields, stakes included, without a summary |
| NotesTab.OpenThenSaveUnchanged | src/components/NotesTab.tsx:58-117 | opening a uniquely identified player and saving it unchanged leaves the store as it was |
| NotesTab.AddedPlayerIsFound | src/components/NotesTab.tsx:98-114 | a player added under a fresh id is what a lookup of that id finds |
| NotesTab.HasLongNote | src/components/NotesTab.tsx:183 | a note longer than 50 characters; `NotesView.ClickRow` states its use |
| NotesTab.Toggled | src/components/NotesTab.tsx:133-143 | the set after a toggle; `ToggleFlipsOnlyThatRow` states it |
| NotesTab.ToggleFlipsOnlyThatRow | src/components/NotesTab.tsx:133-143 | a toggle flips one id's membership and no other; toggling twice restores the set |
| NotesTab.NotesView.constructor | src/components/NotesTab.tsx:44-56 | the dialog is closed, the form blank, no row expanded |
| NotesTab.NotesView.Open | src/components/NotesTab.tsx:58-85 | the dialog opens on the player's form, or a blank one |
| NotesTab.NotesView.ChangeStake | src/components/NotesTab.tsx:124-131 | only the form's stakes change, as the stake change prescribes |
| NotesTab.NotesView.Save | src/components/NotesTab.tsx:92-117 | a blank name sends nothing and keeps the dialog; otherwise the store applies the command and the dialog closes |
| NotesTab.NotesView.Delete | src/components/NotesTab.tsx:119-122 | the store is unchanged |
| NotesTab.NotesView.ToggleRow | src/components/NotesTab.tsx:133-143 | the expanded set becomes the toggled set |
| NotesTab.NotesView.ClickRow | src/components/NotesTab.tsx:183-193 | a click toggles the row only when the note is longer than 50 characters |
| TableSelectionTab.RatingLabel | src/components/TableSelectionTab.tsx:85-90 | `getRatingLabel`; `LabelAndColorAgree` and `LabelIsMonotone` state it |
| TableSelectionTab.RatingColorOf | src/components/TableSelectionTab.tsx:79-83 | `getRatingColor`; `LabelAndColorAgree` states it |
| TableSelectionTab.LabelAndColorAgree | src/components/TableSelectionTab.tsx:79-90 | "Excellent Table" iff success, "Good Table" iff warning, and both lower labels are shown in the error colour |
| TableSelectionTab.LabelIsMonotone | src/components/TableSelectionTab.tsx:85-90 | a higher rating never gets a lower label |
| TableSelectionTab.Prefill | src/components/TableSelectionTab.tsx:35-54 | an existing table preselects its players' ids, in order; otherwise the form is blank |
| TableSelectionTab.SelectPlayers | src/components/TableSelectionTab.tsx:62-64 | the selection's filter; `SelectionIsStoreOrderSubsequence` and `SelectAll` state it |
| TableSelectionTab.SelectionIsStoreOrderSubsequence | src/components/TableSelectionTab.tsx:61-64 | the chosen players are exactly the store's players with a selected id, in store order; selected ids with no player add nothing |
| TableSelectionTab.SelectAll | src/components/TableSelectionTab.tsx:62-64 | selecting every id selects every player, in order |
| TableSelectionTab.SaveTable | src/components/TableSelectionTab.tsx:61-72 | the record keeps the edited table's id, else takes the fresh id; it holds the form's fields and the selection |
| TableSelectionTab.ReopenAndSaveUnchanged | src/components/TableSelectionTab.tsx:35-72 | reopening a table and saving it unchanged, while the store's players are exactly the table's, rebuilds the same record |
| TableSelectionTab.RatingsKeepPlayerCopies | src/context/AppContext.tsx:63-67 | updating a player leaves every rating and its copied players as they were |
| TableSelectionTab.TableSelectionView.constructor | src/components/TableSelectionTab.tsx:26-33 | the dialog is closed, the form blank |
| TableSelectionTab.TableSelectionView.Open | src/components/TableSelectionTab.tsx:35-54 | the dialog opens on the table's form, or a blank one |
| TableSelectionTab.TableSelectionView.Save | src/components/TableSelectionTab.tsx:61-77 | returns the record built from the store's current players and closes the dialog; the store is unchanged |

## Left out

- Rendering, dialogs, tabs, theme switching, `alert` and `window.confirm` are left out. A confirmation is an input of `ReportsTab.DeleteRequest`.
- Storage and JSON are reduced to a `Blob` (nothing, unparseable text, or a parsed record). Dates are written and read by a codec (`show`, `parse`) that is assumed to round-trip. The ISO text format itself is not modelled.
- The reports' saved filters (stored under their own key) are not modelled.
- Wall-clock reads and `Date.now()` ids are parameters (`now`, `id`, `freshId`).
- Floating point is not modelled: money and hand counts are integers and hours are exact reals. `parseInt`/`parseFloat` in the input handlers is left out, and so are the typing handlers other than the format selector. The state a handler reads is the form's state.
- Display formatting is left out: `toFixed`, date formatting, and the text of the duration (the model returns hours and minutes).
- React scheduling is not modelled. Each dispatch applies at once, and the save effect runs after each one. In the code, the effect runs once after a handler's dispatches, and only when the reducer returns a new object. The view methods state storage after both of their dispatches as the guarded save of the final state, which is what the single run of the effect writes.
- The carry-forward effect is the method `SessionView.CarryForward`, which a caller runs after the session list changes.
- The button enable conditions are left out: Start needs a limit, End needs both end figures. They live in the markup, and the handlers do not check them.
- `AppContext.RevivePartial` also turns the stored current session's dates back into times. The code revives only the `sessions` list and leaves text dates in a loaded current session. A `Session` here holds times, so that text is not representable.
- A stored record with keys beyond the seven state fields merges them into the state in the code. The model carries only the seven fields.
- Tag values outside the five, such as from an edited stored record, are not representable. The fallback of `NotesTab.ColorTagInfo` is therefore never taken in the model.
- `NotesTab.HasLongNote` counts characters, while JavaScript counts UTF-16 units. They differ only for characters outside the Basic Multilingual Plane.
- Integer overflow and the `Number` range are not modelled.

## Findings

| source | as written | input that shows it | evidently intended | confidence | as-written member | corrected member |
|---|---|---|---|---|---|---|
| src/context/AppContext.tsx:115 | the save effect writes only while the state has a session or a player | one session and no players: delete the session, then reload | skip the write only before the stored record has been loaded, and mirror every later state | not executed; the comment at line 114 states the intent | AppContext.DeletedLastSessionComesBack | AppContext.HydratedSaveMirrorsState |
| src/components/SessionTab.tsx:109-110 | hours use `Math.floor`, while minutes use `%`, which truncates toward zero | an end time 61 minutes before the start: the code shows "-2h -1m" | "-1h -1m", so that hours and minutes add back to the elapsed minutes | not executed | SessionTab.NegativeSplitAsWritten | SessionTab.SplitMinutes |

How each finding is modelled:

- Save guard: `AppContext.SaveAsWritten` models the guard as written, and `AppContext.AppStore` saves with it, as the code does. `AppContext.SaveWhenHydrated` is the corrected save, with its property proved by `AppContext.HydratedSaveMirrorsState`.
- Duration split: `SessionTab.SplitMinutesAsWritten` and `SessionTab.SessionDurationAsWritten` model the split as written. `SessionTab.SessionDuration` is built on the corrected `SessionTab.SplitMinutes`, and it agrees with the code whenever the end is not before the start.
