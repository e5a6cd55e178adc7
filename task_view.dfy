/**
 * The task screen: the form that turns user input into a task record for
 * the model, and the list of rows built from the model's active tasks, each
 * with a checkbox and a star bound to the row's index.
 */
module TaskViews {
  import opened Records
  import opened PyText
  import Models

  // ----- the form -----

  datatype Date = Date(day: nat, month: nat, year: nat)

  predicate IsLeap(y: nat) {
    y % 4 == 0 && (y % 100 != 0 || y % 400 == 0)
  }

  function DaysInMonth(m: nat, y: nat): nat {
    if m == 2 then (if IsLeap(y) then 29 else 28)
    else if m == 4 || m == 6 || m == 9 || m == 11 then 30
    else 31
  }

  predicate ValidDate(d: Date) {
    1 <= d.year <= 9999 && 1 <= d.month <= 12 && 1 <= d.day <= DaysInMonth(d.month, d.year)
  }

  /** A date the calendar entry can hold (Python's `datetime.date` range). */
  type CalendarDate = d: Date | ValidDate(d) witness Date(1, 1, 1)

  /** The two-digit strings for 0 up to `n - 1`, in order. */
  function Choices(n: nat): (r: seq<string>)
    requires n <= 100
    ensures |r| == n
    ensures forall i :: 0 <= i < n ==> r[i] == Pad2(i)
  {
    if n == 0 then [] else Choices(n - 1) + [Pad2(n - 1)]
  }

  /** The hour selector's values, "00" to "23". */
  const HourChoices: seq<string> := Choices(24)
  /** The minute selector's values, "00" to "59". */
  const MinuteChoices: seq<string> := Choices(60)
  /** Low, medium, high. */
  const PriorityChoices: seq<string> := ["Низкий", "Средний", "Высокий"]

  /**
   * The values the form's entries and read-only selectors hold when the user
   * presses the add button.
   */
  datatype TaskForm = TaskForm(title: string, desc: string, date: CalendarDate, hour: string, minute: string, priority: string)

  /** The form as created: empty entries, today's date, 12:00, medium priority. */
  function InitialForm(today: CalendarDate): (f: TaskForm)
    ensures f.title == "" && f.desc == "" && f.date == today
    ensures f.hour == HourChoices[12] && f.minute == MinuteChoices[0]
    ensures f.priority == PriorityChoices[1]
  {
    TaskForm("", "", today, "12", "00", "Средний")
  }

  /** `strftime("%d.%m.%Y")`. */
  function FormatDate(d: CalendarDate): (r: string)
    ensures |r| == 10
  {
    Pad2(d.day) + "." + Pad2(d.month) + "." + Pad4(d.year)
  }

  /** The `due` string: the date, a space, then `HH:MM` from the two selectors. */
  function Due(date: CalendarDate, hour: string, minute: string): (r: string)
    ensures |r| == 12 + |hour| + |minute|
    ensures r[..10] == FormatDate(date) && r[10] == ' ' && r[11 + |hour|] == ':'
    ensures r[11..11 + |hour|] == hour && r[12 + |hour|..] == minute
  {
    FormatDate(date) + " " + hour + ":" + minute
  }

  /** Reads a `dd.mm.yyyy HH:MM` string back into a date, an hour and a minute. */
  function ParseDue(s: string): Option<(CalendarDate, nat, nat)> {
    if |s| == 16 && s[2] == '.' && s[5] == '.' && s[10] == ' ' && s[13] == ':'
       && IsDigits(s[0..2]) && IsDigits(s[3..5]) && IsDigits(s[6..10])
       && IsDigits(s[11..13]) && IsDigits(s[14..16])
    then
      var date: Date := Date(DigitsValue(s[0..2]), DigitsValue(s[3..5]), DigitsValue(s[6..10]));
      var h, m := DigitsValue(s[11..13]), DigitsValue(s[14..16]);
      if ValidDate(date) && h < 24 && m < 60 then var d: CalendarDate := date; Some((d, h, m)) else None
    else None
  }

  lemma HourChoice(h: nat)
    requires h < 24
    ensures HourChoices[h] == Pad2(h)
  {
  }

  lemma MinuteChoice(m: nat)
    requires m < 60
    ensures MinuteChoices[m] == Pad2(m)
  {
  }

  /** Where each field of a `dd.mm.yyyy HH:MM` string sits. */
  lemma DueLayout(dd: string, mm: string, yyyy: string, hh: string, mi: string)
    requires |dd| == 2 && |mm| == 2 && |yyyy| == 4 && |hh| == 2 && |mi| == 2
    ensures var s := dd + "." + mm + "." + yyyy + " " + hh + ":" + mi;
      && |s| == 16 && s[2] == '.' && s[5] == '.' && s[10] == ' ' && s[13] == ':'
      && s[0..2] == dd && s[3..5] == mm && s[6..10] == yyyy && s[11..13] == hh && s[14..16] == mi
  {
    var s := dd + "." + mm + "." + yyyy + " " + hh + ":" + mi;
    var d1 := dd + "." + mm + ".";
    var d2 := d1 + yyyy + " ";
    assert s == d2 + hh + ":" + mi;
    assert s[..6] == d1;
    assert s[..11] == d2;
    assert d1[0..2] == dd && d1[3..5] == mm;
  }

  lemma ParsePadded(date: CalendarDate, h: nat, m: nat)
    requires h < 24 && m < 60
    ensures ParseDue(Due(date, Pad2(h), Pad2(m))) == Some((date, h, m))
  {
    var dd, mm, yyyy, hh, mi := Pad2(date.day), Pad2(date.month), Pad4(date.year), Pad2(h), Pad2(m);
    DueLayout(dd, mm, yyyy, hh, mi);
    var s := Due(date, hh, mi);
    assert s == dd + "." + mm + "." + yyyy + " " + hh + ":" + mi;
    assert Date(DigitsValue(s[0..2]), DigitsValue(s[3..5]), DigitsValue(s[6..10])) == date;
  }

  /** Every `due` built from the selectors reads back as the date and time chosen. */
  lemma DueRoundTrip(date: CalendarDate, h: nat, m: nat)
    requires h < 24 && m < 60
    ensures ParseDue(Due(date, HourChoices[h], MinuteChoices[m])) == Some((date, h, m))
  {
    HourChoice(h);
    MinuteChoice(m);
    ParsePadded(date, h, m);
  }

  /** Two forms whose date and time selections differ give different `due` strings. */
  lemma DueInjective(d1: CalendarDate, h1: nat, m1: nat, d2: CalendarDate, h2: nat, m2: nat)
    requires h1 < 24 && m1 < 60 && h2 < 24 && m2 < 60
    requires Due(d1, HourChoices[h1], MinuteChoices[m1]) == Due(d2, HourChoices[h2], MinuteChoices[m2])
    ensures d1 == d2 && h1 == h2 && m1 == m2
  {
    DueRoundTrip(d1, h1, m1);
    DueRoundTrip(d2, h2, m2);
  }

  /** The six keys of every record the form builds. */
  const FormKeys: set<string> := {TaskKey, DescKey, DueKey, PriorityKey, DoneKey, ImportantKey}

  /**
   * `add_task`'s record: the title and description stripped, `None` when the
   * stripped title is empty, otherwise a record that is neither done nor
   * important.
   */
  function BuildRecord(f: TaskForm): (r: Option<Record>)
    ensures r.None? <==> AllSpace(f.title)
    ensures r.Some? ==> r.value.Keys == FormKeys
    ensures r.Some? ==> r.value[TaskKey].VStr? && r.value[TaskKey].s != "" && Trimmed(r.value[TaskKey].s)
    ensures r.Some? ==> r.value[DescKey] == VStr(Strip(f.desc))
    ensures r.Some? ==> r.value[DueKey] == VStr(Due(f.date, f.hour, f.minute)) && r.value[PriorityKey] == VStr(f.priority)
    ensures r.Some? ==> r.value[DoneKey] == VBool(false) && r.value[ImportantKey] == VBool(false) && !Important(r.value)
  {
    var task := Strip(f.title);
    var desc := Strip(f.desc);
    var due := Due(f.date, f.hour, f.minute);
    if task == "" then None
    else Some(map[TaskKey := VStr(task), DescKey := VStr(desc), DueKey := VStr(due),
                  PriorityKey := VStr(f.priority), DoneKey := VBool(false), ImportantKey := VBool(false)])
  }

  /** Whitespace typed around the title or the description changes nothing. */
  lemma {:induction false} BuildIgnoresPadding(f: TaskForm, p: string, q: string, p': string, q': string)
    requires AllSpace(p) && AllSpace(q) && AllSpace(p') && AllSpace(q')
    ensures BuildRecord(f.(title := p + f.title + q, desc := p' + f.desc + q')) == BuildRecord(f)
  {
    StripIgnoresPadding(p, f.title, q);
    StripIgnoresPadding(p', f.desc, q');
  }

  /** The stored title is the typed one without its surrounding whitespace. */
  lemma BuiltTitle(f: TaskForm)
    requires !AllSpace(f.title)
    ensures BuildRecord(f).value[TaskKey] == VStr(Strip(f.title))
  {
  }

  // ----- the rows -----

  /**
   * One displayed row: the index its checkbox and star act on, the checkbox
   * state, the star, the label `"<task> (<due>)"` and the description label
   * shown when the description is not empty.
   */
  datatype Row = Row(index: nat, checked: bool, starred: bool, caption: string, descCaption: Option<string>)

  /** `c` with an ASCII capital letter lowered. */
  function AsciiLower(c: char): char {
    if 'A' <= c <= 'Z' then (c as int + 32) as char else c
  }

  /** `s` with its ASCII capitals lowered. */
  function AsciiLowered(s: string): (r: string)
    ensures |r| == |s| && forall k :: 0 <= k < |s| ==> r[k] == AsciiLower(s[k])
  {
    if s == [] then [] else [AsciiLower(s[0])] + AsciiLowered(s[1..])
  }

  /**
   * Tcl 8.6 `Tcl_GetBoolean` on a string: exactly "0", "1" and, ignoring
   * ASCII case, a non-empty prefix of "yes", "no", "true" or "false", or of
   * "on" or "off" two characters or longer; `None` where it raises TclError.
   */
  function TclWord(s: string): (r: Option<bool>)
    ensures r.Some? ==> 1 <= |s| <= 5
  {
    var l := AsciiLowered(s);
    if l == "1" || Abbreviates(l, "yes") || Abbreviates(l, "true") || (|l| >= 2 && Abbreviates(l, "on")) then Some(true)
    else if l == "0" || Abbreviates(l, "no") || Abbreviates(l, "false") || (|l| >= 2 && Abbreviates(l, "off")) then Some(false)
    else None
  }

  /** `s` is a non-empty prefix of `word`. */
  predicate Abbreviates(s: string, word: string) {
    0 < |s| <= |word| && s == word[..|s|]
  }

  /**
   * What `tk.BooleanVar(value=v)` stores, or `None` when it raises. A
   * Python bool is taken as it is; `None` leaves the variable at its default
   * `False`; a string goes through Tcl's boolean parser.
   */
  function TclBoolean(v: Value): (r: Option<bool>)
    ensures !v.VStr? ==> r == Some(Truthy(v))
    ensures v.VStr? && r.Some? ==> 1 <= |v.s| <= 5 && Truthy(v)
  {
    match v
    case VBool(b) => Some(b)
    case VNull => Some(false)
    case VStr(s) => TclWord(s)
  }

  /**
   * Where the checkbox differs from Python truthiness: "no" and "Off" are
   * truthy strings, yet the box shows unchecked.
   */
  lemma TclReadsWordsAsFalse()
    ensures TclBoolean(VStr("no")) == Some(false) && Truthy(VStr("no"))
    ensures TclBoolean(VStr("Off")) == Some(false) && Truthy(VStr("Off"))
  {
    assert AsciiLowered("no") == "no";
    assert AsciiLowered("Off") == "off";
  }

  /** An empty string, and words that abbreviate nothing or two things, cannot be read at all. */
  lemma TclRejectsStrings()
    ensures TclBoolean(VStr("")) == None && TclBoolean(VStr("x")) == None && TclBoolean(VStr("o")) == None
  {
    assert AsciiLowered("x") == "x";
    assert AsciiLowered("o") == "o";
  }

  /**
   * A record `refresh_task_list` can turn into a row: it has every key the
   * loop indexes without a default, and its `done` value is one
   * `tk.BooleanVar` accepts.
   */
  predicate Displayable(t: Record) {
    DoneKey in t && TaskKey in t && DueKey in t && DescKey in t && TclBoolean(t[DoneKey]).Some?
  }

  /**
   * The text a Tk label shows for a value handed to it as it is: a Python
   * bool reaches Tcl as a boolean object, which prints as "1" or "0".
   */
  function LabelText(v: Value): string {
    match v
    case VStr(s) => s
    case VBool(b) => if b then "1" else "0"
    case VNull => ""
  }

  function RowOf(i: nat, t: Record): (row: Row)
    requires Displayable(t)
    ensures row.index == i
    ensures t[DoneKey].VBool? ==> row.checked == t[DoneKey].b
    ensures row.checked == TclBoolean(t[DoneKey]).value && (t[DoneKey] == VNull ==> !row.checked)
    ensures row.starred == Important(t)
    ensures row.caption == Display(t[TaskKey]) + " (" + Display(t[DueKey]) + ")"
    ensures row.descCaption.Some? <==> Truthy(t[DescKey])
    ensures t[DescKey].VStr? && Truthy(t[DescKey]) ==> row.descCaption == Some(t[DescKey].s)
    ensures t[DescKey] == VBool(true) ==> row.descCaption == Some("1")
  {
    Row(i, TclBoolean(t[DoneKey]).value, Important(t),
        Display(t[TaskKey]) + " (" + Display(t[DueKey]) + ")",
        if Truthy(t[DescKey]) then Some(LabelText(t[DescKey])) else None)
  }

  /** How many records, from the front, can be displayed before one that cannot. */
  function DisplayablePrefix(tasks: seq<Record>): (n: nat)
    ensures n <= |tasks|
    ensures forall j :: 0 <= j < n ==> Displayable(tasks[j])
    ensures n < |tasks| ==> !Displayable(tasks[n])
  {
    if tasks == [] || !Displayable(tasks[0]) then 0 else 1 + DisplayablePrefix(tasks[1..])
  }

  /**
   * The rows `refresh_task_list` leaves on screen: one per task in list
   * order, up to the first record lacking a key (where a KeyError stops it)
   * or holding a `done` value Tcl cannot read (where a TclError stops it).
   */
  function Rows(tasks: seq<Record>): (rows: seq<Row>)
    ensures |rows| == DisplayablePrefix(tasks) <= |tasks|
    ensures |rows| < |tasks| ==> !Displayable(tasks[|rows|])
    ensures (|rows| == |tasks|) <==> (forall j :: 0 <= j < |tasks| ==> Displayable(tasks[j]))
    ensures forall j :: 0 <= j < |rows| ==> Displayable(tasks[j]) && rows[j] == RowOf(j, tasks[j])
  {
    var n := DisplayablePrefix(tasks);
    seq(n, j requires 0 <= j < n => RowOf(j, tasks[j]))
  }

  /** A displayable record at the end of a displayable run lies inside the prefix. */
  lemma PrefixGrows(tasks: seq<Record>, i: nat)
    requires i <= DisplayablePrefix(tasks) && i < |tasks| && Displayable(tasks[i])
    ensures i < DisplayablePrefix(tasks)
  {
  }

  /** The rows, built one by one for the displayable prefix, are `Rows(tasks)`. */
  lemma RowsOfPrefix(tasks: seq<Record>, built: seq<Row>)
    requires |built| == DisplayablePrefix(tasks)
    requires forall j :: 0 <= j < |built| ==> built[j] == RowOf(j, tasks[j])
    ensures built == Rows(tasks)
  {
  }

  /** Row `i`'s checkbox and star act on model index `i`, the record the row shows. */
  lemma RowBinding(tasks: seq<Record>, i: nat)
    requires i < |Rows(tasks)|
    ensures Rows(tasks)[i].index == i && i < |tasks|
    ensures Rows(tasks)[i].caption == Display(tasks[i][TaskKey]) + " (" + Display(tasks[i][DueKey]) + ")"
  {
  }

  /** Every record the form builds can be displayed. */
  lemma BuiltIsDisplayable(f: TaskForm)
    requires !AllSpace(f.title)
    ensures Displayable(BuildRecord(f).value)
  {
  }

  class TaskView {
    const model: Models.TaskModel
    /** What the task list frame shows. */
    var rows: seq<Row>

    /** The rows match the model's active list. */
    ghost predicate InSync()
      reads this, model
    {
      rows == Rows(model.tasks) && |rows| == |model.tasks|
    }

    constructor(model: Models.TaskModel)
      ensures this.model == model
      ensures rows == Rows(model.tasks)
    {
      this.model := model;
      rows := [];
      new;
      var _ := RefreshTaskList();
    }

    /**
     * Rebuilds the rows from `model.tasks` in order, the loop stopping with a
     * KeyError or a TclError (`ok == false`) at the first record that cannot
     * be displayed.
     */
    method RefreshTaskList() returns (ok: bool)
      modifies this
      ensures rows == Rows(model.tasks)
      ensures ok <==> |rows| == |model.tasks|
    {
      var tasks := model.tasks;
      var built: seq<Row> := [];
      var i := 0;
      ok := true;
      while i < |tasks|
        invariant i <= DisplayablePrefix(tasks)
        invariant |built| == i
        invariant forall j :: 0 <= j < i ==> built[j] == RowOf(j, tasks[j])
      {
        if !Displayable(tasks[i]) {
          ok := false;
          break;
        }
        PrefixGrows(tasks, i);
        var row := RowOf(i, tasks[i]);
        assert forall j :: 0 <= j < i ==> (built + [row])[j] == built[j];
        built := built + [row];
        i := i + 1;
      }
      assert i == DisplayablePrefix(tasks) && (ok <==> i == |tasks|);
      RowsOfPrefix(tasks, built);
      rows := built;
    }

    /**
     * The add button: nothing happens for a blank title; otherwise exactly the
     * built record is appended to the model, saved, and the rows rebuilt.
     */
    method AddTask(form: TaskForm, w: Models.WriteOutcome) returns (added: bool)
      modifies this, model, model.file
      ensures added <==> !AllSpace(form.title)
      ensures added ==> model.tasks == old(model.tasks) + [BuildRecord(form).value]
      ensures added ==> model.file.content == Models.AfterAutosave(old(model.file.content), w, model.tasks, model.completedTasks)
      ensures added ==> rows == Rows(model.tasks)
      ensures !added ==> model.tasks == old(model.tasks) && rows == old(rows) && model.file.content == old(model.file.content)
      ensures model.completedTasks == old(model.completedTasks)
      ensures old(InSync()) ==> InSync()
    {
      var r := BuildRecord(form);
      if r.None? {
        return false;
      }
      BuiltIsDisplayable(form);
      model.AddTask(r.value, w);
      var _ := RefreshTaskList();
      added := true;
    }

    /**
     * Clicking the checkbox of displayed row `row`: Tk flips the box first,
     * then the command completes the task at the index captured when the row
     * was built. The rows are not rebuilt.
     */
    method ClickCheckbox(row: nat, w: Models.WriteOutcome) returns (ok: bool)
      requires row < |rows|
      modifies this, model, model.file
      ensures rows == old(rows)[row := old(rows)[row].(checked := !old(rows)[row].checked)]
      ensures ok == (rows[row].index < |old(model.tasks)|)
      ensures ok ==> model.tasks == Models.RemoveAt(old(model.tasks), rows[row].index)
      ensures ok ==> model.completedTasks == old(model.completedTasks) + [Models.MarkDone(old(model.tasks)[rows[row].index])]
      ensures ok ==> model.file.content == Models.AfterAutosave(old(model.file.content), w, model.tasks, model.completedTasks)
      ensures !ok ==> model.tasks == old(model.tasks) && model.completedTasks == old(model.completedTasks)
      ensures !ok ==> model.file.content == old(model.file.content)
    {
      rows := rows[row := rows[row].(checked := !rows[row].checked)];
      ok := model.ToggleDone(rows[row].index, w);
    }

    /**
     * The checkbox with the rows rebuilt afterwards: from a view in sync with
     * the model, it completes exactly the task row `row` shows and leaves the
     * view in sync again.
     */
    method ClickCheckboxAndRefresh(row: nat, w: Models.WriteOutcome)
      requires InSync() && row < |rows|
      modifies this, model, model.file
      ensures model.tasks == Models.RemoveAt(old(model.tasks), row)
      ensures model.completedTasks == old(model.completedTasks) + [Models.MarkDone(old(model.tasks)[row])]
      ensures model.file.content == Models.AfterAutosave(old(model.file.content), w, model.tasks, model.completedTasks)
      ensures old(rows)[row] == RowOf(row, old(model.tasks)[row])
      ensures InSync()
    {
      rows := rows[row := rows[row].(checked := !rows[row].checked)];
      var ok := model.ToggleDone(rows[row].index, w);
      var _ := RefreshTaskList();
      forall j | 0 <= j < |model.tasks| ensures Displayable(model.tasks[j]) {
        assert model.tasks[j] == old(model.tasks)[if j < row then j else j + 1];
      }
    }

    /**
     * Clicking the star of displayed row `row`: flips the flag of the task at
     * the captured index. The rows, and so the star glyph, are not rebuilt.
     */
    method ClickStar(row: nat, w: Models.WriteOutcome) returns (ok: bool)
      requires row < |rows|
      modifies model, model.file
      ensures rows == old(rows)
      ensures ok == (rows[row].index < |old(model.tasks)|)
      ensures ok ==> model.tasks == old(model.tasks)[rows[row].index := Models.ToggledImportant(old(model.tasks)[rows[row].index])]
      ensures ok ==> model.file.content == Models.AfterAutosave(old(model.file.content), w, model.tasks, model.completedTasks)
      ensures !ok ==> model.tasks == old(model.tasks) && model.file.content == old(model.file.content)
      ensures model.completedTasks == old(model.completedTasks)
    {
      ok := model.ToggleImportant(rows[row].index, w);
    }
  }

  // ----- stale rows after a checkbox click -----

  function Sample(title: string): (t: Record)
    requires title != ""
    ensures Displayable(t)
  {
    map[TaskKey := VStr(title), DescKey := VStr(""), DueKey := VStr("01.01.2025 10:00"),
        PriorityKey := VStr("Средний"), DoneKey := VBool(false), ImportantKey := VBool(false)]
  }

  /**
   * After the checkbox of row `i` archives task `i` without a rebuild, every
   * later row `k` is still bound to index `k`, which now holds the task shown
   * one row further down, and the last row is bound past the end.
   */
  lemma StaleRowsAfterCheckbox(tasks: seq<Record>, i: nat, k: nat)
    requires forall j :: 0 <= j < |tasks| ==> Displayable(tasks[j])
    requires i < k < |tasks|
    ensures var rows, after := Rows(tasks), Models.RemoveAt(tasks, i);
      && rows[k] == RowOf(k, tasks[k]) && rows[k].index == k
      && (k < |after| ==> after[k] == tasks[k + 1])
      && (k == |tasks| - 1 ==> rows[k].index == |after|)
  {
  }

  /**
   * With tasks A, B, C on screen, clicking A's checkbox archives A but keeps
   * every row's binding: the row still showing B is bound to index 1, which
   * now holds C, and the row showing C is bound to index 2, past the end.
   */
  lemma StaleRowsExample()
    ensures var tasks := [Sample("A"), Sample("B"), Sample("C")];
      var rows, after := Rows(tasks), Models.RemoveAt(tasks, 0);
      && rows[1] == RowOf(1, Sample("B")) && after[1] == Sample("C") && Sample("B") != Sample("C")
      && rows[2].index == |after|
  {
    var tasks := [Sample("A"), Sample("B"), Sample("C")];
    assert Sample("B")[TaskKey] != Sample("C")[TaskKey];
    StaleRowsAfterCheckbox(tasks, 0, 1);
    StaleRowsAfterCheckbox(tasks, 0, 2);
  }
}
