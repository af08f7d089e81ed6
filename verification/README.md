# TaskFlow task-list logic in Dafny

TaskFlow is a single-page task manager. Tasks have a title, a description, a
category, a priority (low, medium, high or urgent), an optional due date and
a completion flag. They are grouped into coloured categories. The main page
shows:

- a progress header with the completion percentage;
- a quick-add bar;
- a category sidebar with per-category counts;
- a task list with search, a filter bar, and pending and completed sections;
- modals for creating and editing tasks and categories.

This project models the logic under that page:

- the query helpers over task lists (`taskUtils.js`, `dateUtils.js`);
- the list controller's state and its combined filter;
- the page's counts and refresh counter;
- the sidebar's counts;
- the header's percentages;
- the form state machines of both modals, the quick-add bar and the filter bar;
- the task card's mappings.

Modules:

| module | models |
|---|---|
| `Wrappers` | `Option`, and the outcome of a store call (`Outcome`, `Fetch`) |
| `Text` | `toLowerCase` restricted to ASCII, `String.prototype.trim`, `includes`, `Number.prototype.toString` for ids |
| `Seqs` | order-preserving subsequences |
| `Domain` | task, category and draft records |
| `Numbers` | `Math.round(part / whole * 100)` as exact half-up integer division |
| `Ordering` | a stable sort by an integer key, ascending or descending (what `Array.prototype.sort` does with a difference comparator) |
| `TaskUtils` | `src/utils/taskUtils.js`; filters are a list of `Criterion` values, and `Keep` keeps the tasks meeting all of them |
| `DateUtils` | `isOverdue` and `sortByDate` of `src/utils/dateUtils.js` |
| `TaskCard`, `FilterBar`, `ProgressHeader`, `QuickAddBar` | the molecules of the same names |
| `TaskList`, `CategorySidebar`, `TaskModal`, `CategoryModal` | the organisms of the same names |
| `TaskPage` | `src/components/pages/TaskPage.jsx` |

How the source maps onto the model:

- A component whose state the code updates step by step is a class. Its
  fields are the `useState` variables, and its methods are the handlers.
- A remote store call is a parameter, not a side effect: `Outcome` (success
  or failure) or `Fetch<T>` (the data, or a failure).
- "Now" is a parameter, as an instant in milliseconds. Due dates keep both
  the instant and the ISO text the edit form cuts.
- A task's day is `(instant + offset) / 86400000` for a fixed zone offset.

After a successful toggle, `TaskList` stores the task it computed locally, not one
returned by the store (`TaskList.jsx:64`).

## Model

| member | source | states |
|---|---|---|
| TaskUtils.PriorityWeight | src/utils/taskUtils.js:1-9 | urgent, high and medium weigh 4, 3 and 2; every other string, "low" included, weighs 1; the weight is always in 1..4 |
| TaskUtils.SortTasksByPriority | src/utils/taskUtils.js:11-22 | the result is a permutation of the input. Weights are non-increasing by default and non-decreasing when `ascending`. The input is a value, so it is not modified. |
| TaskUtils.SortTasksByPriorityStable | src/utils/taskUtils.js:11-22 | for each weight, the tasks of that weight appear in the result in their input order |
| Ordering.StableSortCorrect | src/utils/taskUtils.js:12-21 | the sort underlying both sorts returns a sorted permutation of the same length that keeps input order among equal keys |
| Ordering.InsertSorted | src/utils/taskUtils.js:12-21 | inserting into a sorted list before the first element the new one may precede keeps the list sorted |
| Ordering.InsertWithKey | src/utils/taskUtils.js:12-21 | insertion appends the new element after the earlier elements with its key, and leaves the other keys' order untouched |
| Ordering.InsertPermutes | src/utils/taskUtils.js:12 | insertion adds exactly one occurrence of the new element |
| TaskUtils.Keep | src/utils/taskUtils.js:24-54 | a filter pass keeps exactly the tasks meeting all criteria, with their multiplicities and in order; the result is no longer than the input |
| TaskUtils.KeepKeep | src/components/organisms/TaskList.jsx:91-125 | filtering twice equals filtering once by both criteria lists |
| TaskUtils.KeepNothing | src/utils/taskUtils.js:36-37 | filtering by no criterion returns the input itself |
| TaskUtils.KeepCommutes | src/components/organisms/TaskList.jsx:91-125 | the order of two filter passes does not matter |
| TaskUtils.KeepMonotone | src/utils/taskUtils.js:59-64 | a filter whose criteria imply another's keeps no more tasks |
| TaskUtils.KeepSame | src/utils/taskUtils.js:24-54 | two criteria lists that hold for the same tasks filter identically |
| TaskUtils.HoldsSingle | src/utils/taskUtils.js:24-54 | a filter with one criterion checks exactly that criterion |
| TaskUtils.StatusPartition | src/utils/taskUtils.js:26-29 | "completed" and "pending" are disjoint and together give back the input (multisets and lengths) |
| TaskUtils.FilterTasksByStatus | src/utils/taskUtils.js:24-39 | "completed" keeps exactly the completed tasks and "pending" the rest. "overdue" keeps exactly the pending tasks with a due date before now. Any other status returns the input. Every kept task appears as often as in the input, and the order is preserved. |
| TaskUtils.FilterTasksByCategory | src/utils/taskUtils.js:41-44 | a falsy id (absent, "" or 0) returns the input; otherwise it keeps exactly the tasks whose category is the id's string form, each as often as in the input, in order |
| TaskUtils.SearchTasks | src/utils/taskUtils.js:46-54 | an empty term returns the input; otherwise it keeps, in order, exactly the tasks whose lower-cased title or description contains the lower-cased term, each as often as in the input |
| TaskUtils.MatchesSearch | src/utils/taskUtils.js:49-53 | a task matches exactly when the lower-cased term occurs at some index of its lower-cased title or description; every task matches the empty term |
| TaskUtils.SearchIgnoresTermCase | src/utils/taskUtils.js:49 | two terms that lower-case alike give the same result |
| TaskUtils.CountCompleted | src/utils/taskUtils.js:58 | the number of completed tasks: the length of what `filterTasksByStatus` keeps for "completed", at most the number of tasks |
| TaskUtils.GetTaskStats | src/utils/taskUtils.js:56-75 | pending + completed = total; overdue is the number of tasks `filterTasksByStatus` keeps for "overdue" (pending, due before now), so 0 <= overdue <= pending; all zero for no tasks; the rate is in 0..100 and is completed·100/total rounded half up |
| Numbers.NearestBounds | src/utils/taskUtils.js:66 | the rounded quotient is within half a step of 100·part/whole, and in 0..100 when 0 <= part <= whole |
| Numbers.RoundedPercent | src/utils/taskUtils.js:66 | 0 for a non-positive whole; otherwise the integer nearest to 100·part/whole, halves up, and in 0..100 when 0 <= part <= whole |
| Numbers.RoundedPercentExtremes | src/components/molecules/ProgressHeader.jsx:10 | the whole gives 100 and nothing gives 0 |
| Text.Lower | src/utils/taskUtils.js:49-52 | lower-casing keeps the length and maps each character |
| Text.LowerIdempotent | src/utils/taskUtils.js:49-52 | lower-casing twice is lower-casing once |
| Text.Trim | src/components/organisms/TaskModal.jsx:69 | the result is an infix of the input with only white space cut from either end; it neither starts nor ends with white space, and is empty exactly when the input is all white space |
| Text.TrimIdempotent | src/components/organisms/CategoryModal.jsx:65 | trimming twice is trimming once |
| Text.ContainsIffOccurs | src/utils/taskUtils.js:51-52 | `includes` holds exactly when the needle occurs at some index |
| Text.IdStringInjective | src/components/organisms/CategorySidebar.jsx:42 | distinct ids have distinct string forms |
| Text.IdStringSign | src/components/pages/TaskPage.jsx:92 | an id prints with a leading minus exactly when it is negative |
| Text.NatStringInjective | src/components/pages/TaskPage.jsx:92 | distinct naturals print differently |
| Text.IdString | src/components/organisms/CategorySidebar.jsx:42 | a non-empty string of decimal digits, with a leading minus exactly when the id is negative |
| DateUtils.IsOverdue | src/utils/dateUtils.js:32-42 | false when completed and false without a due date; otherwise true exactly when the due instant is strictly before now |
| DateUtils.OverdueAgreesWithStatusFilter | src/utils/taskUtils.js:30-35 | the "overdue" status filter and `isOverdue` agree on a due date given as a full ISO timestamp, the text the task form writes |
| DateUtils.SortByDate | src/utils/dateUtils.js:44-54 | a permutation, non-decreasing on the field by default (created date, ascending) and non-increasing when not ascending; an absent date counts as the epoch |
| DateUtils.SortByDateStable | src/utils/dateUtils.js:44-54 | items with equal timestamps keep their input order |
| TaskCard.PriorityColor | src/components/molecules/TaskCard.jsx:28-36 | low/medium/high/urgent map to success/warning/accent/error; anything else maps to "default" |
| TaskCard.PriorityClass | src/components/molecules/TaskCard.jsx:38-46 | the four priorities map to "priority-" followed by the priority; anything else maps to "" |
| TaskCard.PriorityMappingsAgree | src/components/molecules/TaskCard.jsx:28-46 | the badge and the class fall back on the same strings, which also weigh 1; the four badge variants are distinct |
| TaskCard.CardIsOverdue | src/components/molecules/TaskCard.jsx:48 | a flagged task is pending and has a due date |
| TaskCard.CardOverdueAgrees | src/components/molecules/TaskCard.jsx:48 | the card's flag equals `isOverdue(dueDate, completed)` on a due date given as a full ISO timestamp, the text the task form writes |
| TaskCard.HandleToggleComplete | src/components/molecules/TaskCard.jsx:20-26 | the task's id is always forwarded; confetti is raised exactly when the task was pending |
| FilterBar.With | src/components/molecules/FilterBar.jsx:37 | the named key gets the value and the others are unchanged |
| FilterBar.Initial | src/components/molecules/FilterBar.jsx:12-17 | every key is "" unless the current filters give it |
| FilterBar.ActiveIffSomeKeySet | src/components/molecules/FilterBar.jsx:48 | filters are active exactly when some key is non-empty |
| FilterBar.Active | src/components/molecules/FilterBar.jsx:48 | filters are active exactly when they differ from the cleared set |
| FilterBar.FilterBar.HasActiveFilters | src/components/molecules/FilterBar.jsx:48 | the bar has active filters exactly when some key of its state is non-empty |
| FilterBar.FilterBar.constructor | src/components/molecules/FilterBar.jsx:12-17 | the bar starts from the initial filters |
| FilterBar.FilterBar.HandleFilterChange | src/components/molecules/FilterBar.jsx:36-40 | only the named key changes, and exactly the new set is reported |
| FilterBar.FilterBar.ClearFilters | src/components/molecules/FilterBar.jsx:42-46 | all keys become "", that set is reported, and no filter is active afterwards |
| TaskList.Toggled | src/components/organisms/TaskList.jsx:57-61 | completion is negated; the completion time is now when the task becomes completed and absent otherwise; no other field changes |
| TaskList.ToggleTwice | src/components/organisms/TaskList.jsx:57-61 | toggling a pending task twice gives it back without a completion time |
| TaskList.ConfettiWhenCompleting | src/components/molecules/TaskCard.jsx:20-26 | the card's confetti goes up exactly when the list's toggle completes the task |
| TaskList.FindById | src/components/organisms/TaskList.jsx:54 | returns the first task with the id, or none when no task has it |
| TaskList.ReplaceById | src/components/organisms/TaskList.jsx:64 | the same length; every task with the id is replaced and the others stay in place |
| TaskList.RemoveById | src/components/organisms/TaskList.jsx:82 | exactly the tasks with the id are removed; the rest keep their multiplicities and order |
| TaskList.ActiveCriteriaMeaning | src/components/organisms/TaskList.jsx:94-122 | a task meets the view's criteria exactly when it passes every active check: route category, search, priority, status and filter category |
| TaskList.CombinedFilterMeaning | src/components/organisms/TaskList.jsx:91-125 | the filtered list keeps, in order, exactly the tasks passing every active check, and is the task list itself when no check is active |
| TaskList.StatusFilterAgreement | src/components/organisms/TaskList.jsx:112-118 | for the offered statuses this view's status pass equals `filterTasksByStatus`; any other status, "overdue" included, filters nothing |
| TaskList.StatusCriteria | src/components/organisms/TaskList.jsx:112-118 | at most one check, and one exactly when the status is one of those offered ("completed", "pending") |
| TaskList.StatusCriteriaMeaning | src/components/organisms/TaskList.jsx:112-118 | a task meets the status pass exactly when it is completed for "completed" and pending for "pending"; any other status admits every task |
| TaskList.ActiveCriteria | src/components/organisms/TaskList.jsx:91-125 | at most five checks, and none exactly when the route category, the search term, the priority and the filter category are empty and the status is not an offered one |
| TaskList.Admits | src/components/organisms/TaskList.jsx:91-125 | with nothing set every task is admitted; an admitted task meets the status check; with a route category and a filter category set, only equal ones admit anything |
| TaskList.Narrow | src/components/organisms/TaskList.jsx:95-122 | one more pass over the filtered list equals filtering the snapshot by all criteria so far |
| TaskList.NarrowByStatus | src/components/organisms/TaskList.jsx:112-118 | the status pass narrows the filtered list by the status check only for "completed" and "pending", staying equal to the snapshot filtered by all checks so far |
| TaskList.SplitByStatus | src/components/organisms/TaskList.jsx:127-129 | the pending and completed sections are disjoint and order-preserving, and together hold exactly the filtered tasks |
| TaskList.TaskList.constructor | src/components/organisms/TaskList.jsx:19-28 | an empty snapshot, loading, no error, no search and cleared filters |
| TaskList.TaskList.BeginLoad | src/components/organisms/TaskList.jsx:36-37 | loading turns on and the error is cleared |
| TaskList.TaskList.CompleteLoad | src/components/organisms/TaskList.jsx:38-49 | loading ends off. Both collections are replaced only when both reads succeeded; otherwise they stay as they were and the error is the fixed message. |
| TaskList.TaskList.LoadData | src/components/organisms/TaskList.jsx:34-50 | loading ends off; the error is empty exactly when both reads succeeded, in which case both collections are replaced; a failure leaves them untouched |
| TaskList.TaskList.HandleToggleComplete | src/components/organisms/TaskList.jsx:52-77 | no store call for an unknown id. Otherwise the store gets the locally toggled task. Only after a successful update is that task put in place (nothing else changes) and `onTaskUpdate` called. |
| TaskList.TaskList.HandleDeleteTask | src/components/organisms/TaskList.jsx:79-89 | a successful delete removes the id's tasks and notifies; a failed one changes nothing |
| TaskList.TaskList.SetSearchTerm | src/components/organisms/TaskList.jsx:23 | the search term becomes the typed text |
| TaskList.TaskList.SetFilters | src/components/organisms/TaskList.jsx:24-28 | the filters become the reported set |
| TaskList.TaskList.GetFilteredTasks | src/components/organisms/TaskList.jsx:91-125 | the sequential passes compute the snapshot filtered by the view's active criteria (see CombinedFilterMeaning for what that keeps) |
| TaskPage.LocalDay | src/components/pages/TaskPage.jsx:86-88 | the day number d with d·86400000 <= instant + offset < (d + 1)·86400000, which `toDateString` compares |
| TaskPage.SameDayIsWithinADay | src/components/pages/TaskPage.jsx:86-88 | two instants on the same day are less than a day apart |
| TaskPage.PageTasks | src/components/pages/TaskPage.jsx:76-80 | all tasks without a route category; otherwise exactly that category's tasks, each as often as in the input, in order |
| TaskPage.PageTasksAgree | src/components/pages/TaskPage.jsx:76-80 | the page's filter equals `filterTasksByCategory` with the route text, and the list view's filter with no search and cleared filters |
| TaskPage.CreatedToday | src/components/pages/TaskPage.jsx:85-89 | keeps, in order, every copy of exactly the tasks created on the day of now, each less than a day from now |
| TaskPage.Counts | src/components/pages/TaskPage.jsx:82-89 | total, completed and today counts over the page's tasks; completed <= total and today <= total |
| TaskPage.HeaderFiguresBounded | src/components/pages/TaskPage.jsx:103-107 | with the page's counts the header's overall percentage is in 0..100, and "Remaining" is the number of pending tasks shown |
| TaskPage.CurrentCategory | src/components/pages/TaskPage.jsx:91-93 | none without a route id; otherwise the first category whose id prints as the route id, or none when no id does |
| TaskPage.FindCategory | src/components/pages/TaskPage.jsx:92 | the first category whose id prints as the text, or none when none does |
| TaskPage.CurrentCategoryUnique | src/components/pages/TaskPage.jsx:91-93 | with distinct ids, any category the route names is the current category |
| TaskPage.ActiveCardIsCurrentCategory | src/components/organisms/CategorySidebar.jsx:110 | with distinct ids, the sidebar highlights a listed category exactly when the page shows it as the current category |
| TaskPage.TaskPage.constructor | src/components/pages/TaskPage.jsx:16-22 | empty collections and a zero refresh counter |
| TaskPage.TaskPage.LoadData | src/components/pages/TaskPage.jsx:28-39 | both collections are replaced when both reads succeed; a failure leaves them unchanged |
| TaskPage.TaskPage.TriggerRefresh | src/components/pages/TaskPage.jsx:24-26 | the counter goes up by exactly one and the snapshot is reloaded |
| TaskPage.TaskPage.HandleAddTask | src/components/pages/TaskPage.jsx:41-50 | a successful create refreshes (counter + 1, reload); a failed one leaves the counter and the snapshot unchanged |
| TaskPage.TaskPage.Summary | src/components/pages/TaskPage.jsx:82-89 | the total is the number of the page's tasks, total minus completed is the number of its pending tasks, and completed and today are within the total |
| CategorySidebar.TaskCount | src/components/organisms/CategorySidebar.jsx:41-43 | the length of what `filterTasksByCategory` keeps for the id's string form; at most the total |
| CategorySidebar.CompletedTasks | src/components/organisms/CategorySidebar.jsx:46 | the number of completed tasks, at most the total |
| CategorySidebar.TotalTasks | src/components/organisms/CategorySidebar.jsx:45 | the total is the number of tasks, and equals the completed count plus the pending count |
| CategorySidebar.TaskCountMatchesCategoryFilter | src/components/organisms/CategorySidebar.jsx:41-43 | for a non-zero id the count is the length of `filterTasksByCategory`'s result for the numeric id; for id 0 that filter returns every task (0 is falsy), while the count is that of the tasks whose category is the text "0" |
| CategorySidebar.TaskCountCons | src/components/organisms/CategorySidebar.jsx:42 | a task adds one to its category's count |
| CategorySidebar.NoRouteNoActiveCard | src/components/organisms/CategorySidebar.jsx:110 | without a route category no card is active |
| CategorySidebar.IsActive | src/components/organisms/CategorySidebar.jsx:110 | an active card implies a route id, whose leading minus matches the sign of the card's id |
| CategorySidebar.AtMostOneActiveCard | src/components/organisms/CategorySidebar.jsx:105-112 | with distinct ids, at most one card is active |
| CategorySidebar.SumOfCountsBounded | src/components/organisms/CategorySidebar.jsx:105-112 | with distinct ids the listed counts add up to at most the total |
| CategorySidebar.HitsAtMostOne | src/components/organisms/CategorySidebar.jsx:105-112 | with distinct ids a task is counted under at most one category |
| CategorySidebar.SumCountsCons | src/components/organisms/CategorySidebar.jsx:105-112 | a task adds to the counts of exactly the categories it is counted under |
| CategorySidebar.NoHits | src/components/organisms/CategorySidebar.jsx:42 | a task whose category matches no listed id is counted under none |
| CategorySidebar.ZeroCounts | src/components/organisms/CategorySidebar.jsx:42 | with no tasks every count is zero |
| CategorySidebar.CategorySidebar.constructor | src/components/organisms/CategorySidebar.jsx:13-16 | empty collections, loading and no error |
| CategorySidebar.CategorySidebar.BeginLoad | src/components/organisms/CategorySidebar.jsx:25-26 | loading turns on and the error is cleared |
| CategorySidebar.CategorySidebar.CompleteLoad | src/components/organisms/CategorySidebar.jsx:27-38 | loading ends off. Both collections are replaced only when both reads succeeded; otherwise they stay as they were and the error is "Failed to load categories". |
| CategorySidebar.CategorySidebar.LoadData | src/components/organisms/CategorySidebar.jsx:23-39 | loading ends off; both collections are replaced when both reads succeeded, with no error; otherwise they stay as they were and the error is "Failed to load categories" |
| ProgressHeader.CompletionPercentage | src/components/molecules/ProgressHeader.jsx:10 | 0 without tasks; otherwise completed·100/total rounded half up, and in 0..100 when completed <= total |
| ProgressHeader.TodayCompletionPercentage | src/components/molecules/ProgressHeader.jsx:11 | 0 when no task is from today; otherwise completed·100/today rounded half up (bounded by 100 only when completed <= today) |
| ProgressHeader.Remaining | src/components/molecules/ProgressHeader.jsx:75 | remaining + completed = total, and it is non-negative when completed <= total |
| ProgressHeader.CompletionExtremes | src/components/molecules/ProgressHeader.jsx:10 | all done reads 100 and none done reads 0 |
| ProgressHeader.AbsentCountsGiveZero | src/components/molecules/ProgressHeader.jsx:5-7 | the counts default to 0, and so do the figures |
| ProgressHeader.TodayPercentageExceedsHundred | src/components/molecules/ProgressHeader.jsx:11 | with consistent counts (2 total, 2 completed, 1 today) the today percentage is 200 |
| TaskModal.With | src/components/organisms/TaskModal.jsx:115 | only the named field changes |
| TaskModal.DateInputValue | src/components/organisms/TaskModal.jsx:39 | the longest prefix without 'T', followed in the input by a 'T' when shorter |
| TaskModal.DateInputValueOfTimestamp | src/components/organisms/TaskModal.jsx:39 | the date part of an ISO timestamp is exactly the text before its 'T' |
| TaskModal.EditForm | src/components/organisms/TaskModal.jsx:33-40 | copies title, description and category; an empty priority becomes "medium"; the due date keeps its date part, or is "" when absent |
| TaskModal.Payload | src/components/organisms/TaskModal.jsx:89-94 | title and description trimmed; category and priority as entered; no due date exactly when the date input is empty |
| TaskModal.EditThenSaveKeepsFields | src/components/organisms/TaskModal.jsx:33-40 | saving an untouched edit form returns the task's own trimmed title, description, category and priority |
| TaskModal.Validation | src/components/organisms/TaskModal.jsx:66-79 | a title error exactly when the trimmed title is empty, a category error exactly when the category is empty, and no other key |
| TaskModal.TitleErrors | src/components/organisms/TaskModal.jsx:69-71 | a title error, with its message, exactly when the trimmed title is empty, and no other key |
| TaskModal.CheckForm | src/components/organisms/TaskModal.jsx:66-79 | the two checks build exactly the form's errors, and report success exactly when the title is not blank and a category is set |
| TaskModal.ValidIffDraftComplete | src/components/organisms/TaskModal.jsx:66-94 | a form validates exactly when its draft has a title and a category |
| TaskModal.TaskModal.constructor | src/components/organisms/TaskModal.jsx:19-28 | the default form with priority "medium", no categories, not loading, no errors |
| TaskModal.TaskModal.Open | src/components/organisms/TaskModal.jsx:30-64 | edit mode copies the task; create mode resets to the defaults and, once categories load, picks the first category's id; errors are cleared in both modes |
| TaskModal.TaskModal.ValidateForm | src/components/organisms/TaskModal.jsx:66-79 | records the form's errors and succeeds exactly when the title is not blank and a category is set |
| TaskModal.TaskModal.Save | src/components/organisms/TaskModal.jsx:86-111 | update with the task's id in edit mode, otherwise create, with the form's draft; loading ends off |
| TaskModal.TaskModal.HandleSubmit | src/components/organisms/TaskModal.jsx:81-112 | no store call when validation fails; otherwise update or create with the draft, a save notification exactly on success, and loading off afterwards |
| TaskModal.TaskModal.HandleChange | src/components/organisms/TaskModal.jsx:114-119 | sets only the named field; a non-empty error of that field becomes "", other errors stay as they were |
| CategoryModal.With | src/components/organisms/CategoryModal.jsx:87 | only the named field changes |
| CategoryModal.EditForm | src/components/organisms/CategoryModal.jsx:29-33 | copies the name; an empty color becomes "#5B47E0" |
| CategoryModal.Payload | src/components/organisms/CategoryModal.jsx:63-66 | the name trimmed, the color unchanged |
| CategoryModal.EditThenSaveKeepsFields | src/components/organisms/CategoryModal.jsx:29-33 | saving an untouched edit form returns the category's own name and color |
| CategoryModal.PayloadStable | src/components/organisms/CategoryModal.jsx:63-66 | resubmitting a saved name changes nothing |
| CategoryModal.Validation | src/components/organisms/CategoryModal.jsx:44-53 | a name error exactly when the trimmed name is empty, and no color error |
| CategoryModal.ValidIffNamed | src/components/organisms/CategoryModal.jsx:44-66 | a form validates exactly when its draft has a name |
| CategoryModal.CategoryModal.constructor | src/components/organisms/CategoryModal.jsx:15-20 | empty name, default color, not loading, no errors |
| CategoryModal.CategoryModal.Open | src/components/organisms/CategoryModal.jsx:27-42 | edit mode copies the category; create mode resets to the defaults; errors are cleared |
| CategoryModal.CategoryModal.ValidateForm | src/components/organisms/CategoryModal.jsx:44-53 | records the form's errors and succeeds exactly when the name is not blank |
| CategoryModal.CategoryModal.Save | src/components/organisms/CategoryModal.jsx:60-83 | update with the category's id in edit mode, otherwise create, with the form's draft; loading ends off |
| CategoryModal.CategoryModal.HandleSubmit | src/components/organisms/CategoryModal.jsx:55-84 | no store call when validation fails; otherwise a call with a non-empty trimmed name, a save notification exactly on success, and loading off afterwards |
| CategoryModal.CategoryModal.HandleChange | src/components/organisms/CategoryModal.jsx:86-91 | sets only the named field; a non-empty error of that field becomes "" |
| QuickAddBar.FallbackCategory | src/components/molecules/QuickAddBar.jsx:33 | the selected category if any, else the first category's id, else ""; empty exactly when nothing is selected and there are no categories |
| QuickAddBar.NewTask | src/components/molecules/QuickAddBar.jsx:30-37 | trimmed title, empty description, the fallback category, the selected priority, no due date, not completed |
| QuickAddBar.NewTaskComplete | src/components/molecules/QuickAddBar.jsx:28-37 | a task emitted for a non-blank title has a title, and has a category exactly when one was selected or one exists |
| QuickAddBar.QuickAddBar.constructor | src/components/molecules/QuickAddBar.jsx:9-12 | empty title, no category, priority "medium", collapsed |
| QuickAddBar.QuickAddBar.SetTitle | src/components/molecules/QuickAddBar.jsx:66 | the title becomes the typed text |
| QuickAddBar.QuickAddBar.Focus | src/components/molecules/QuickAddBar.jsx:67 | focusing expands the bar |
| QuickAddBar.QuickAddBar.SelectCategory | src/components/molecules/QuickAddBar.jsx:96 | the selected category becomes the chosen one |
| QuickAddBar.QuickAddBar.SelectPriority | src/components/molecules/QuickAddBar.jsx:103 | the selected priority becomes the chosen one |
| QuickAddBar.QuickAddBar.CanSubmit | src/components/molecules/QuickAddBar.jsx:78 | the Add button is enabled exactly when the title has a character that is not white space |
| QuickAddBar.QuickAddBar.Cancel | src/components/molecules/QuickAddBar.jsx:112-115 | collapses and clears the title, leaving the Add button disabled |
| QuickAddBar.QuickAddBar.HandleSubmit | src/components/molecules/QuickAddBar.jsx:26-42 | a blank title changes nothing and emits nothing. Otherwise the new task (with a non-empty title) is emitted, the title is cleared, the bar collapses, and the selections are kept. |
| QuickAddBar.QuickAddBar.HandleKeyDown | src/components/molecules/QuickAddBar.jsx:44-53 | Enter without Shift behaves as submit; Escape collapses and clears the title; other keys do nothing |

## Left out

- The store services (`taskService`, `categoryService`) are not part of this model. Their calls are outcomes passed in, and no id assignment is modelled.
- Date formatting (`formatDate`, `formatRelativeDate`, the card's `format(...)` calls) depends on a date library, locale and time zone.
- Calendar days use a fixed zone offset. Daylight-saving changes within a day are not modelled.
- DateUtils.OverdueAgreesWithStatusFilter: a due date is one instant. The status filter and the card read the text with `new Date`, while `isOverdue` reads it with `parseISO`. For a date-only text such as "2024-06-01", the first gives UTC midnight and the second local midnight, so the flags can disagree for up to the zone offset. This difference is not modelled.
- TaskCard.CardOverdueAgrees: the same single instant; the card's `new Date` reading and `isOverdue`'s `parseISO` reading of a date-only text are not told apart.
- Date texts are not parsed. A task's due date carries both its instant and its ISO text, so an unparsable date (an Invalid Date, which compares false) is not modelled.
- TaskModal.Payload: the form's date text goes into the draft as is; the `new Date(...).toISOString()` conversion, and the exception it throws for an invalid date, are not modelled.
- Numbers.RoundedPercent: computes exactly on integers. The source computes in floating point, which can round differently at an exact .5 (29 of 200 gives 14.499999999999998 before rounding, so 14 where the model gives 15).
- The progress ring's geometry (`Math.PI`) is not modelled.
- `Promise.all` runs both reads in parallel. The model takes both results at once, and reads as a failure any failure of either.
- React's effect and update scheduling is treated as sequential steps, as are the confetti timer and the toasts and console logging.
- Text.Lower: `toLowerCase` is restricted to ASCII letters; Unicode case mapping is not modelled.
- TaskUtils.PriorityWeight: treats every string other than the four priorities as weight 1. A key inherited from `Object.prototype` (such as "constructor") would make the source's lookup return a function; that is not modelled.
- Fields are never `null` or `undefined` here. In the source, a null title or description in search throws, and `task.title || ''` in the edit form maps null to "". Only the empty-string cases are modelled.
- Ids are integers. `toString` of very large or fractional numbers (exponent notation) is not modelled.
- The page's modal open/close state and editing selections (`showTaskModal`, `editingTask`, `handleEditTask`, `handleAddCategory`) only drive rendering. The "saved" handlers are TaskPage.TaskPage.TriggerRefresh.
- FilterBar: the bar reads `currentFilters` only at its first render. Later prop changes are not followed in the source either, so the constructor is the only place they enter.
- The presentation-only components (buttons, badges, inputs, the search bar, loading and error views, layout, sign-up) are not part of this model.
