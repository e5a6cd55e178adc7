# MindNavigator task core in Dafny

A model of the task-list core of MindNavigator, a desktop organizer written in
Python with tkinter, with proofs about it.

- **`Models`** (`task_model.dfy`) models `TaskModel`. It owns the active list
  `tasks` and the archive `completed_tasks`. It can append a task, complete one
  by index, and flip a task's `important` flag. After each change it autosaves
  both lists to a JSON file, and at start-up it loads them back.
  - The file is an object, `SnapshotFile`. Its content is one of: absent,
    malformed, or a parsed JSON object whose `"tasks"` and `"completed"` keys
    may each be missing.
  - Each autosave attempt ends in one of three ways, passed in as a
    `WriteOutcome`: written, failed to open (the file is untouched), or failed
    while writing (the file no longer parses).
- **`TaskViews`** (`task_view.dfy`) models the tkinter task screen. The form
  turns user input into a record: both fields are stripped, a blank title is
  rejected, and the `due` string is `dd.mm.yyyy HH:MM`. The screen shows one
  row per active task, and each row's checkbox and star are bound to that
  row's index.
- **`App`** (`app.dfy`) models the first prototype window, `MultiTabApp`. Its
  add button appends `"HH:MM - text"` to a list of strings, and a listbox
  mirrors that list.
- **`Records`** (`records.dfy`) holds the shared types. A task record is a
  Python dict, modelled as `map<string, Value>`. `Value` is a JSON string,
  boolean or null, and Python truthiness, `dict.get` and f-string rendering
  are written out over it.
- **`PyText`** (`text.dfy`) models `str.strip()`, including Python's full set
  of whitespace characters, and zero-padded decimal formatting.

What the program receives from outside becomes a parameter:
- the entry and selector widgets' contents (`TaskForm`, `entry`);
- the calendar date;
- `datetime.now()` (`Time`);
- how an autosave attempt ends (`WriteOutcome`).

## Model

| member | source | states |
|---|---|---|
| `PyText.Strip` | MindNavigator/views/task/task_view.py:64-65 | the stripped string has no whitespace at either end, and it is empty exactly when the input is all whitespace |
| `PyText.StripSplit` | MindNavigator/views/task/task_view.py:64-65 | every string is some whitespace, then its stripped form, then some whitespace |
| `PyText.StripPadded` | MindNavigator/views/task/task_view.py:64-65 | stripping removes exactly the surrounding whitespace: whitespace + s + whitespace strips to s when s has no whitespace at either end |
| `PyText.StripIgnoresPadding` | MindNavigator/views/task/task_view.py:64-65 | extra whitespace around any input does not change the stripped result |
| `PyText.StripIdempotent` | MindNavigator/views/task/task_view.py:64-65 | stripping twice is the same as stripping once |
| `PyText.Pad2` | MindNavigator/views/task/task_view.py:51 | `f"{n:02d}"` is two decimal digits that read back as n |
| `PyText.Pad4` | MindNavigator/views/task/task_view.py:66 | the `%Y` year is four decimal digits that read back as the year |
| `Models.Snapshot` | MindNavigator/models/task_model.py:30 | the snapshot written is a JSON object that carries both the `tasks` and the `completed` key |
| `Models.AfterAutosave` | MindNavigator/models/task_model.py:27-32 | only a failed `open` leaves the old content. An attempt that opened the file always leaves a file behind, and if that file parses it holds exactly the snapshot of both lists |
| `Models.Loaded` | MindNavigator/models/task_model.py:34-43 | the reference definition of loading, one case per branch, which SaveThenLoad, FailedWriteLoadsEmpty and ReopenAfterAdd build on: an absent file gives back the lists as they were. A malformed file gives two empty lists. A JSON object gives the list under each key, or an empty list for a missing key |
| `Models.SaveThenLoad` | MindNavigator/models/task_model.py:27-40 | after a successful autosave, a load returns exactly the two saved lists |
| `Models.FailedWriteLoadsEmpty` | MindNavigator/models/task_model.py:27-43 | if a write fails after the file was truncated, the next load starts from two empty lists |
| `Models.RemoveAt` | MindNavigator/models/task_model.py:20 | `pop(i)` shortens the list by one and keeps the other elements in their relative order; as a multiset, only element i is gone |
| `Models.MarkDone` | MindNavigator/models/task_model.py:18 | the record gets `done = True`, and every other key keeps its value |
| `Models.ToggledImportant` | MindNavigator/models/task_model.py:24 | the flag, read with a `False` default, is negated and stored as a boolean; every other key keeps its value |
| `Models.ToggleImportantTwice` | MindNavigator/models/task_model.py:24 | toggling twice restores the flag as read with the `False` default; if the record already held a boolean flag, the record itself is restored |
| `Models.ArchiveStaysDone` | MindNavigator/models/task_model.py:18-19 | appending a record marked done keeps "every archived record is done" |
| `Models.TaskModel.constructor` | MindNavigator/models/task_model.py:6-10 | the model starts from two empty lists and then applies the load rules to the file |
| `Models.TaskModel.AddTask` | MindNavigator/models/task_model.py:12-14 | `tasks` becomes `tasks + [d]`, the archive is unchanged, and the file is what the autosave attempt leaves |
| `Models.TaskModel.ToggleDone` | MindNavigator/models/task_model.py:16-21 | an index in range: the task is removed from `tasks` (the rest keep their order) and appended, marked done, to the archive, and the file is autosaved. An index out of range: nothing changes. Either way the combined count is the same, and an all-done archive stays all-done |
| `Models.TaskModel.ToggleImportant` | MindNavigator/models/task_model.py:23-25 | an index in range: only entry i changes, to its toggled form, and the archive and the length are unchanged. An index out of range: nothing changes |
| `Models.TaskModel.Autosave` | MindNavigator/models/task_model.py:27-32 | the file holds the snapshot of both lists, is untouched, or is malformed, depending on how the attempt ends. The lists are never changed |
| `Models.TaskModel.LoadTasks` | MindNavigator/models/task_model.py:34-43 | an absent file leaves both lists as they were. A malformed file empties both. A JSON object supplies each list, and a missing key gives an empty list |
| `Models.ReopenAfterAdd` | MindNavigator/models/task_model.py:6-14 | a model reopened on the file after a successfully saved add sees exactly the extended list and the same archive |
| `TaskViews.Choices` | MindNavigator/views/task/task_view.py:51-53 | the selector values are the n two-digit strings for 0 to n-1, in order |
| `TaskViews.HourChoice` | MindNavigator/views/task/task_view.py:51 | hour choice h is `f"{h:02d}"` |
| `TaskViews.MinuteChoice` | MindNavigator/views/task/task_view.py:53 | minute choice m is `f"{m:02d}"` |
| `TaskViews.InitialForm` | MindNavigator/views/task/task_view.py:49-56 | the form starts at hour "12", minute "00" and the medium priority "Средний", all of which are among the selectors' choices |
| `TaskViews.FormatDate` | MindNavigator/views/task/task_view.py:66 | the `%d.%m.%Y` date is ten characters long |
| `TaskViews.Due` | MindNavigator/views/task/task_view.py:66-68 | the `due` string is the ten-character date, a space, the hour text, a colon and the minute text, in that order |
| `TaskViews.DueLayout` | MindNavigator/views/task/task_view.py:66-68 | in `dd.mm.yyyy HH:MM` each field sits at fixed positions, with the separators `.`, `.`, a space and `:` between them |
| `TaskViews.DueRoundTrip` | MindNavigator/views/task/task_view.py:66-68 | every `due` built from a date and the hour and minute selectors reads back as that date, hour and minute |
| `TaskViews.DueInjective` | MindNavigator/views/task/task_view.py:66-68 | different date or time selections never give the same `due` string |
| `TaskViews.BuildRecord` | MindNavigator/views/task/task_view.py:63-72 | no record exactly when the title is all whitespace. Otherwise the record has exactly the keys task, desc, due, priority, done and important; the title is non-empty with no surrounding whitespace, the description is the typed one stripped, `due` and `priority` come from the selectors, and `done` and `important` are both `False` |
| `TaskViews.BuildIgnoresPadding` | MindNavigator/views/task/task_view.py:64-65 | whitespace typed around the title or the description gives the same record |
| `TaskViews.BuiltTitle` | MindNavigator/views/task/task_view.py:64-72 | the stored title is the typed title, stripped |
| `TaskViews.BuiltIsDisplayable` | MindNavigator/views/task/task_view.py:72-90 | every record the form builds can be displayed: it has all the keys the row list reads, and its `done` is a boolean |
| `TaskViews.TclWord` | MindNavigator/views/task/task_view.py:82 | Tcl reads a string as a boolean only when it is one to five characters long |
| `TaskViews.TclBoolean` | MindNavigator/views/task/task_view.py:82 | what `tk.BooleanVar(value=...)` holds: for a boolean or null `done` it agrees with Python truthiness, a string it can read is a non-empty one, and any other string raises |
| `TaskViews.TclReadsWordsAsFalse` | MindNavigator/views/task/task_view.py:82 | the truthy strings "no" and "Off" give an unchecked box |
| `TaskViews.TclRejectsStrings` | MindNavigator/views/task/task_view.py:82 | "", "x" and the ambiguous "o" cannot be read as a boolean, so building the row raises |
| `TaskViews.RowOf` | MindNavigator/views/task/task_view.py:79-92 | a row built from enumeration index i is bound to model index i; the box shows what `tk.BooleanVar` reads from `done` (a boolean as it is, null as unchecked); the star is filled exactly when the `important` flag, read with a `False` default, is truthy; the label is `"<task> (<due>)"`; the description label is shown exactly when the description is truthy, with a string's own text, and a `true` description shown as "1" as Tcl prints it |
| `TaskViews.DisplayablePrefix` | MindNavigator/views/task/task_view.py:79-92 | the records before the returned position can be displayed, and the record at that position (if any) lacks a key or has an unreadable `done` |
| `TaskViews.Rows` | MindNavigator/views/task/task_view.py:76-93 | one row per task, in list order, exactly up to the first record that lacks a key or holds a `done` value Tcl cannot read. The rows cover the whole list exactly when every record can be displayed |
| `TaskViews.RowBinding` | MindNavigator/views/task/task_view.py:79-90 | displayed row i is bound to model index i and shows that task's title and due string |
| `TaskViews.TaskView.constructor` | MindNavigator/views/task/task_view.py:9-16 | the new view's rows are built from the model's current tasks |
| `TaskViews.TaskView.RefreshTaskList` | MindNavigator/views/task/task_view.py:76-93 | the loop over `enumerate(model.tasks)` leaves exactly `Rows(model.tasks)`, and it reports whether a KeyError or a TclError stopped it |
| `TaskViews.TaskView.AddTask` | MindNavigator/views/task/task_view.py:63-74 | a blank title changes nothing. Otherwise exactly the built record is appended to `model.tasks`, the archive is unchanged, the file is autosaved and the rows are rebuilt; a view in sync with the model stays in sync |
| `TaskViews.TaskView.ClickCheckbox` | MindNavigator/views/task/task_view.py:83-84 | as written: the clicked box flips and every other row is left as it was. The task at the index captured when the row was built is completed and the file autosaved; when that index is now past the end, the lists and the file are unchanged |
| `TaskViews.TaskView.ClickCheckboxAndRefresh` | MindNavigator/views/task/task_view.py:83-84 | with the rows rebuilt after a click: from a view in sync with the model, it completes exactly the task row i shows, the file is autosaved, and the view is in sync again |
| `TaskViews.TaskView.ClickStar` | MindNavigator/views/task/task_view.py:86-88 | toggles the `important` flag of the task at the row's captured index and autosaves, or leaves the lists and the file unchanged when that index is past the end. The rows, and with them the star glyph, are left as they were |
| `TaskViews.StaleRowsAfterCheckbox` | MindNavigator/views/task/task_view.py:83-84 | after row i's checkbox completes task i with no rebuild, each later row k is still bound to index k. That index now holds the task shown on row k+1, and the last row's index is past the end |
| `TaskViews.StaleRowsExample` | MindNavigator/views/task/task_view.py:83-84 | with A, B and C shown, clicking A leaves the row showing B bound to C's index, and the row showing C bound past the end |
| `App.Timestamp` | MindNavigator/__init__.py:241 | `%H:%M` is two digits, a colon and two digits |
| `App.FormatEntry` | MindNavigator/__init__.py:242 | the line is eight characters longer than the entry and ends with the entry unchanged |
| `App.EntryRoundTrip` | MindNavigator/__init__.py:241-242 | every line the add button produces reads back as the time and the text that was typed |
| `App.Accepts` | MindNavigator/__init__.py:240 | the reference definition of the guard: Python truthiness of the entry string, which GuardsCompared and MultiTabApp.AddTask build on |
| `App.GuardsCompared` | MindNavigator/__init__.py:239-240 | the prototype accepts every entry the stripped task form accepts. It also accepts a non-empty whitespace-only entry, which the form rejects |
| `App.MultiTabApp.constructor` | MindNavigator/__init__.py:39 | the list starts empty, and the listbox shows it |
| `App.MultiTabApp.AddTask` | MindNavigator/__init__.py:238-247 | an empty entry only raises a warning and changes nothing. Any other entry, whitespace included, appends exactly one line, `timestamp + " - " + text`, at the end. The listbox keeps showing the list |

## Findings

| source | as written | input that shows it | evidently intended | confidence | as-written member | corrected member |
|---|---|---|---|---|---|---|
| MindNavigator/views/task/task_view.py:83-84 | the checkbox command calls `toggle_done(i)` and does not rebuild the rows, so every later row keeps an index that has shifted | tasks A, B, C are shown. Click A's checkbox, then the checkbox on the row still showing B: C is archived. Clicking the row showing C raises IndexError | after a completion, rebuild the rows so that each row stays bound to the task it shows | medium, not executed | `TaskViews.StaleRowsExample` | `TaskViews.TaskView.ClickCheckboxAndRefresh` |

## Left out

- Python's negative indices in `toggle_done` and `toggle_important`. The indices are `nat`: the rows pass only indices from `enumerate`, which are never negative.
- Widget construction, theming, frame switching, window chrome and the title-bar drag. These are presentation with no effect on tasks.
- The Qt block in `TaskView.__init__` (task_view.py:18-38). It runs on every construction, right after `refresh_task_list()`, and raises NameError at line 18 because `QVBoxLayout` is never imported, so the source's `TaskView.__init__` never returns normally. The model's constructor ends after `refresh_task_list`, as if the block were not there.
- `clear_task_form`. The entry contents are parameters of `TaskView.AddTask` and `MultiTabApp.AddTask`, so clearing them leaves no state to model.
- The drag handlers (`utils/drag_drop.py`). They only move a widget by pixels, then call `refresh_task_list`, which is modelled.
- Real file I/O, `os.path.exists`, JSON text and its `indent`/`ensure_ascii` options, and the console message on a failed autosave. The file is modelled only as the snapshot it holds.
- JSON numbers, lists and objects inside a loaded record, a `"tasks"` or `"completed"` key that holds something other than a list, and a list element that is not a JSON object. For example, `"tasks": ["a"]` makes `refresh_task_list` raise TypeError at `t["done"]`. `seq<Record>` cannot hold such an element.
- `TaskViews.TclBoolean`: the rules are those of Python 3's tkinter, which passes the value through `getboolean`, together with Tcl 8.6's `Tcl_GetBoolean`. Neither library is part of MindNavigator. A string with an embedded NUL raises ValueError rather than TclError; the model records only that it cannot be read.
- `TaskViews.TaskView.RefreshTaskList`: a record missing `"task"`, `"due"` or `"desc"` raises KeyError after its checkbox and star are already packed. That half-built row is not modelled: the rows stop before it.
- `TaskViews.FormatDate`: the year is always padded to four digits. What `%Y` prints for years below 1000 depends on the platform's C library.
- Task ids, `order` numbers, reordering, update and remove, un-completing, filtering, overdue checks and note profiles. The modelled files implement none of them. A blank title is rejected silently, with no error raised.
