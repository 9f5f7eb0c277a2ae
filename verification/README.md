# Dashboard state transitions in Dafny

This project models the logic of a personal and business productivity dashboard (a Next.js
app). Its state is one `DashboardData` record. The record holds:

- the current month label and a day counter;
- the personal data: five free-text progress fields, a task list and a per-day completion map;
- two business units: "BestFlightAlerts", a newsletter with three metrics, and "WebTailors", a
  web agency with four metrics. Each unit has its own task list.

The model covers every pure transition of that record:

- the first-run state and the monthly reset (`Storage`);
- the business handlers for metrics and tasks (`Business`);
- the personal text-field and day-grid handlers (`Personal`);
- the tab container's sub-record replacement (`Tabs`);
- the page's day increment and month reset, together with the saved blob they write through (`Page`);
- the archive view's per-month counts and month selection (`Archive`);
- the click-to-edit field as an event-driven state machine (`EditableField`).

Shared pieces:

- `Tasks` holds the list operations the handlers and the reset have in common.
- `Text` holds JavaScript's `trim`, which the add-task guard uses.
- `Types` and `Optional` hold the records.

All state is immutable. Each handler is a function from the current value to the value it
passes to its `onUpdate` callback, or the value it stores. The lemmas relate each operation to
a partner:

- toggling twice restores the data;
- deleting undoes an add that used a fresh identifier;
- a reset is idempotent, and a first-run state is already a reset state;
- text, metric and sub-record updates obey get/set laws;
- every business handler keeps task identifiers unique;
- Escape discards an edit, while Enter or blur delivers the last text typed.

Things the source takes from its environment are parameters of the model:

- month labels, which come from the clock;
- task identifiers, which come from `crypto.randomUUID()`;
- the saved blob, which comes from `localStorage`;
- numeric metric values, which come from `Number(...)` applied to the field text.

## Model

| member | source | states |
|---|---|---|
| `Types.ParseDifficulty` | src/components/business-dashboard.tsx:178-186 | The difficulty select yields a difficulty only for the labels "easy", "medium" and "hard", and each label reads back as the difficulty written with it. |
| `Types.DifficultyRoundTrip` | src/lib/types.ts:1 | Every one of the three difficulties reads back from its own label, so the three labels are distinct. |
| `Text.TrimStart` | src/components/business-dashboard.tsx:45 | Leading trim returns a suffix of the input that does not start with white space. Everything it removed is white space. The result is empty exactly when the input is blank. |
| `Text.TrimEnd` | src/components/business-dashboard.tsx:45 | Trailing trim returns a prefix of the input that does not end with white space. Everything it removed is white space. The result is empty exactly when the input is blank. |
| `Text.Trim` | src/components/business-dashboard.tsx:45 | `trim` never lengthens its input, what it leaves neither starts nor ends with white space, and it leaves nothing exactly when the input is blank. |
| `Tasks.Toggle` | src/components/business-dashboard.tsx:37-39 | Toggling keeps length, order and every task's id, name and difficulty. It negates `completed` on exactly the tasks whose id matches. |
| `Tasks.Remove` | src/components/business-dashboard.tsx:70 | Deleting keeps exactly the tasks whose id differs and never grows the list. Deleting an absent id returns the list unchanged. |
| `Tasks.ClearCompleted` | src/lib/storage.ts:86 | Clearing completions gives the same tasks in the same order, with the same ids, names and difficulties, and none of them completed. |
| `Tasks.CompletedCount` | src/components/monthly-archive.tsx:61 | The completed count is at most the list length. It is zero exactly when no task is completed, and equals the length exactly when every task is. |
| `Tasks.CompletedCountConcat` | src/components/monthly-archive.tsx:61-64 | The completed count of two lists joined is the sum of their counts. |
| `Tasks.CompletedCountSingle` | src/components/monthly-archive.tsx:61 | A one-task list counts 1 when its task is completed and 0 otherwise. With the sum rule, this makes the count exactly the number of completed tasks. |
| `Tasks.ToggleTwice` | src/components/business-dashboard.tsx:38 | Toggling the same id twice restores the list. |
| `Tasks.ToggleAbsent` | src/components/business-dashboard.tsx:37-39 | Toggling an id that no task carries changes nothing. |
| `Tasks.ToggleConcat` | src/components/business-dashboard.tsx:37-39 | Toggling two joined lists is toggling each and joining the results. |
| `Tasks.RemoveConcat` | src/components/business-dashboard.tsx:70 | Deletion distributes over concatenation, so the survivors keep their relative order. |
| `Tasks.RemoveSingle` | src/components/business-dashboard.tsx:70 | A single task survives deletion exactly when its id differs. |
| `Tasks.ClearCompletedIdempotent` | src/lib/storage.ts:86 | Clearing completions twice is the same as clearing them once. |
| `Tasks.ToggleKeepsUnique` | src/components/business-dashboard.tsx:37-39 | Toggling keeps task ids unique. |
| `Tasks.ClearKeepsUnique` | src/lib/storage.ts:86 | Clearing completions keeps task ids unique. |
| `Tasks.RemoveKeepsUnique` | src/components/business-dashboard.tsx:70 | Deleting keeps task ids unique. |
| `Tasks.AppendKeepsUnique` | src/components/business-dashboard.tsx:58 | Appending a task with a new id keeps task ids unique. |
| `Tasks.ClearedCountIsZero` | src/lib/storage.ts:86 | After completions are cleared, the completed count is zero. |
| `Tasks.ToggleMovesCountByOne` | src/components/monthly-archive.tsx:61 | In a list with unique ids, toggling leaves the completed count alone when the id is absent. When a task carries the id, the count goes up by one if that task was open and down by one if it was completed. |
| `Tasks.ToggleMovesCountAt` | src/components/business-dashboard.tsx:37-39 | For the task at a given position carrying the id, the toggle moves the completed count by one, in the direction its flag goes. |
| `Storage.InitialData` | src/lib/storage.ts:5-45 | The first-run state has the given month, day counter 1 and empty personal data. Its targets are 1000 subscribers and 5 clients, and every other metric is 0. Each unit has three uncompleted tasks carrying the given ids. |
| `Storage.ResetMonthly` | src/lib/storage.ts:75-106 | A reset sets the new month label and keeps the day counter and the text fields. It empties the day map and clears completion on all three lists, keeping each task's identity and position. It zeroes emailsSent, clients, revenue and websitesCreated, and keeps subscribers, targetSubscribers and targetClients. |
| `Storage.ResetAbsorbs` | src/lib/storage.ts:80-102 | Resetting twice, with any labels, equals one reset with the second label. |
| `Storage.ResetIdempotent` | src/lib/storage.ts:80-102 | For a fixed month label, resetting twice equals resetting once. |
| `Storage.InitialIsResetFixpoint` | src/lib/storage.ts:5-45 | Resetting a first-run state in its own month changes nothing. |
| `Storage.InitialWellFormed` | src/lib/storage.ts:27-40 | Six distinct fresh ids give a first-run state whose task ids are unique. |
| `Storage.ResetWellFormed` | src/lib/storage.ts:83-99 | A reset keeps task ids unique and leaves no task completed in any list. |
| `Business.MetricFieldsAreNumeric` | src/components/business-dashboard.tsx:20-21 | Every metric field's property name is in `numberFields`, so its new value is always converted to a number. No two fields share a name. |
| `Business.FieldsOf` | src/lib/types.ts:20-34 | A unit lists exactly the metric fields that belong to it: three for the newsletter and four for the agency. |
| `Business.WithUnitTasks` | src/components/business-dashboard.tsx:54-57 | Replacing one unit's task list leaves the other unit's list and all seven metrics unchanged. |
| `Business.BusinessExtensionality` | src/lib/types.ts:20-34 | Business data that agrees on all seven metrics and both task lists is equal, so the handlers' frame conditions are complete. |
| `Business.MetricUpdate` | src/components/business-dashboard.tsx:15-30 | A metric update stores the value in exactly the named field. Every other metric, both task lists and the other unit are unchanged. |
| `Business.MetricUpdateLaws` | src/components/business-dashboard.tsx:23-29 | Writing a metric's own value back changes nothing. Of two writes to the same field, the second wins. |
| `Business.TaskToggle` | src/components/business-dashboard.tsx:32-42 | A toggle flips completion on exactly the named unit's tasks with the id and keeps those tasks' identities. The other unit's tasks and every metric are unchanged. |
| `Business.TaskToggleTwice` | src/components/business-dashboard.tsx:32-42 | Toggling the same task of the same unit twice restores the business data. |
| `Business.AddTask` | src/components/business-dashboard.tsx:44-63 | A name made only of white space, so that it trims to empty, issues no update. Otherwise exactly one uncompleted task is appended to the named unit, carrying the name as typed, the chosen difficulty and the new id. Earlier tasks, the other unit and every metric are unchanged. |
| `Business.DeleteTask` | src/components/business-dashboard.tsx:65-73 | The named unit's list becomes its filter by id, so the survivors keep their order. Exactly the tasks whose id differs remain, and deleting an absent id changes nothing. The other unit and every metric are unchanged. |
| `Business.DeleteUndoesAdd` | src/components/business-dashboard.tsx:44-73 | Deleting a task just added under a fresh id restores the business data. |
| `Business.WellFormedByUnit` | src/lib/types.ts:20-34 | Both units have unique task ids exactly when the named unit and the other unit do. |
| `Business.MetricUpdateKeepsWellFormed` | src/components/business-dashboard.tsx:15-30 | A metric update keeps task ids unique in both units. |
| `Business.TaskToggleKeepsWellFormed` | src/components/business-dashboard.tsx:32-42 | A toggle keeps task ids unique in both units. |
| `Business.DeleteTaskKeepsWellFormed` | src/components/business-dashboard.tsx:65-73 | A delete keeps task ids unique in both units. |
| `Business.AddTaskKeepsWellFormed` | src/components/business-dashboard.tsx:44-63 | An add with an id new to its unit keeps task ids unique in both units. |
| `Personal.FieldUpdate` | src/components/personal-dashboard.tsx:10-15 | A field update sets exactly the named text field. The other text fields, the tasks and the day map are unchanged. |
| `Personal.FieldUpdateLaws` | src/components/personal-dashboard.tsx:10-15 | Writing a field's own value back changes nothing. Of two writes to the same field, the second wins. |
| `Personal.GridDays` | src/components/personal-dashboard.tsx:78 | The grid offers 31 days, each a day the map can be keyed by. Every such day appears, in increasing order. |
| `Personal.DayKey` | src/components/personal-dashboard.tsx:79 | A day's key is its decimal numeral: one digit below 10 and two digits otherwise, with no leading zero, and the digits' value is the day. |
| `Personal.ParseDayKey` | src/components/personal-dashboard.tsx:79 | A map key reads back as a grid day only if that day's decimal key is that string. |
| `Personal.DayKeyRoundTrip` | src/components/personal-dashboard.tsx:79 | Every day's `toString()` key reads back as that day. |
| `Personal.DayKeyInjective` | src/components/personal-dashboard.tsx:79 | Distinct days are stored under distinct keys. |
| `Personal.IsDone` | src/components/personal-dashboard.tsx:79 | An absent key reads as not done. A present key reads as the value stored under it. |
| `Personal.DayToggle` | src/components/personal-dashboard.tsx:89-96 | A day toggle negates that day's reading and makes its key present. Every other key, every other day's reading, the tasks and the text fields are unchanged. |
| `Personal.DayToggleTwice` | src/components/personal-dashboard.tsx:79-94 | Toggling a day twice restores its reading. If its key was absent, the key is now present and maps to false, so the state differs from the original. |
| `Personal.AbsentReadsAsFalse` | src/lib/types.ts:17 | An absent key and a key mapped to false read the same, although they are distinct states of the map. |
| `Tabs.PersonalUpdate` | src/components/dashboard-tabs.tsx:15-20 | A personal update replaces only `personal`. Business, month and day counter are unchanged. |
| `Tabs.BusinessUpdate` | src/components/dashboard-tabs.tsx:22-27 | A business update replaces only `business`. Personal, month and day counter are unchanged. |
| `Tabs.MonthUpdate` | src/components/dashboard-tabs.tsx:29-34 | A month update replaces only `currentMonth`. Personal, business and day counter are unchanged. |
| `Tabs.UpdatesIndependent` | src/components/dashboard-tabs.tsx:15-34 | The three updates commute pairwise, and handing up an unchanged part changes nothing. |
| `Page.Load` | src/lib/storage.ts:47-65 | A load returns the saved state when there is one. Otherwise it returns the first-run state for the given month and ids, with day 1, and saves it. |
| `Page.Mount` | src/app/page.tsx:13-18 | After mounting, the page shows what a load returns and agrees with the saved blob. With nothing saved, the first-run state is shown and saved. |
| `Page.DataUpdate` | src/app/page.tsx:20-23 | A data update shows the new state and saves it. |
| `Page.DayIncrement` | src/app/page.tsx:25-34 | With no state loaded, nothing changes. Otherwise the day counter rises by exactly 1, every other field is kept, and the page stays in step with the saved blob. |
| `Page.ResetMonth` | src/app/page.tsx:36-39 | The month reset loads the saved state, resets it into the new month, shows it and saves it. The saved day counter survives. |
| `Page.ResetActsOnShownState` | src/app/page.tsx:36-39 | While the page agrees with the saved blob, the reset acts on exactly what the page shows, so the day counter the user sees survives. |
| `Page.IncrementSurvivesReset` | src/app/page.tsx:25-39 | After mounting, incrementing the day and then resetting the month keeps the incremented counter. |
| `Archive.Summarize` | src/components/monthly-archive.tsx:54-64 | Personal completed is the personal list's completed count. Business completed is the sum of both units' completed counts. The personal total is the personal list length, and the business total is the sum of both units' lengths. Neither completed count exceeds its total. Personal completed equals its total exactly when every personal task is done. Business completed is zero exactly when no business task is done. |
| `Archive.Render` | src/components/monthly-archive.tsx:13-64 | An empty archive renders the empty-state panel. Otherwise there is exactly one card per month key, and each card shows that month's summary. |
| `Archive.RenderAfterArchiving` | src/components/monthly-archive.tsx:13-22 | Storing a month in the archive always gives cards to show, and the cards' keys gain the month's key. |
| `Archive.ArchivedMonthCard` | src/components/monthly-archive.tsx:50-64 | The stored month's card summarises exactly the entry just stored. |
| `Archive.ArchivingKeepsOtherCards` | src/components/monthly-archive.tsx:50-64 | Storing a month leaves every other month's card as it was. |
| `Archive.Select` | src/components/monthly-archive.tsx:72 | Clicking the selected month clears the selection, and clicking any other month selects it. |
| `Archive.SelectionStaysInArchive` | src/components/monthly-archive.tsx:72 | Clicks on cards keep the selection among the archive's keys. A second click on the same card reverses whether anything is selected. |
| `Archive.ResetMonthSummary` | src/lib/storage.ts:80-102 | A month captured right after a reset shows zero completed tasks and the same totals as before the reset. |
| `EditableField.Mount` | src/components/ui/editable-field.tsx:18-19 | A new field is not editing, and its draft equals its value. |
| `EditableField.Next` | src/components/ui/editable-field.tsx:22-63 | Only blur or Enter while editing hands a value to `onChange`. That value is the current draft, and the field just leaves editing. A click on the shown value opens the editor. Typing while editing replaces only the draft. Escape while editing leaves editing and restores the draft to the value. A new value prop replaces the value and the draft, and the same value changes nothing. Every other event changes nothing. |
| `EditableField.Run` | src/components/ui/editable-field.tsx:18-63 | Running a sequence of events hands at most one value to `onChange` per event. |
| `EditableField.CommitsNeedBlurOrEnter` | src/components/ui/editable-field.tsx:32-41 | A run with no blur and no Enter key hands nothing to `onChange`. |
| `EditableField.ValueNeedsValueProp` | src/components/ui/editable-field.tsx:18-24 | A run with no value-prop event leaves the shown value unchanged. |
| `EditableField.RunCons` | src/components/ui/editable-field.tsx:18-63 | A proof step, not behaviour of its own: a non-empty run unfolds into its first event's step followed by the run of the rest. |
| `EditableField.RunConcat` | src/components/ui/editable-field.tsx:18-63 | Running two event sequences one after the other equals running their concatenation. The commits are concatenated too. |
| `EditableField.TypingOnlyChangesDraft` | src/components/ui/editable-field.tsx:56 | While editing, typing commits nothing and changes only the draft, which becomes the last text typed. |
| `EditableField.ClickThenType` | src/components/ui/editable-field.tsx:56-63 | Clicking enters editing mode, and typing then makes the last text typed the draft, without committing. |
| `EditableField.EscapeDiscardsEdit` | src/components/ui/editable-field.tsx:42-45 | Click, any typing, then Escape commits nothing. The field ends not editing, with its value unchanged and the value copied back into the draft. When the draft already equalled the value, the field is exactly as it was before the click. |
| `EditableField.StaleDraftReachable` | src/components/ui/editable-field.tsx:22-24 | The draft can differ from the value outside editing. Committing "07" to an owner that stores 7 re-renders with the same value "7", and the draft keeps "07". |
| `EditableField.CommitDeliversLastTyped` | src/components/ui/editable-field.tsx:32-41 | Click, typing, then Enter or blur commits exactly once, and the field leaves editing with its value unchanged. The committed value is the last text typed, or the draft from before the click when nothing was typed. That draft can be stale. |
| `EditableField.OtherKeysInert` | src/components/ui/editable-field.tsx:37-46 | Keys other than Enter and Escape change nothing and commit nothing. |

## Left out

- Loading and saving use `localStorage`, JSON and the `typeof window` guards. The saved blob is a plain optional value, so a blob that fails to parse, and the fresh state returned without saving in that case, are not modelled.
- The month label comes from `toLocaleString` and `getFullYear`. It is a parameter, because it depends on the clock and the host locale.
- Task identifiers come from `crypto.randomUUID()`. They are parameters. Freshness is a precondition only of the lemmas that need it.
- `Number(value)` turns the edited text into a metric. Metrics are unbounded integers and the converted value is a parameter, so `NaN`, fractions and floating-point rounding are not modelled.
- `Business.MetricUpdate`: the source also takes the unit name, separately from the field name. In the model the field determines its unit, because every call site passes the matching pair. A mismatched pair would add a stray property to the wrong unit, and that is not modelled.
- `Page.DayIncrement`: the day counter is an unbounded integer, so the loss of precision past 2^53 in JavaScript numbers is not modelled.
- The archive sorts month keys with `new Date(...)`, which depends on how the host parses dates. Cards are a map keyed by month, without an order.
- The archive's `MonthlyData` type is imported but never defined in `src/lib/types.ts`. A month entry is modelled as `{month, personal, business}`, as the view's field accesses imply. Its optional task `notes` are only rendered, so they are not modelled.
- The code has no archive insertion, task notes, day or week task buckets, or CSV export, so the model has none either.
- `EditableField.Next`: focus handling and whether a browser fires blur when the input unmounts after Enter or Escape are not modelled. Each event is a separate step.
- Rendering, CSS, tab and section selection, the add form's own input state, and the day counter's animation timeout are UI-only, so they are not modelled.
