/**
 * The task list model: an active list of task records, an archive of
 * completed ones, and the JSON autosave file both are written to after every
 * change and read from at start-up.
 */
module Models {
  import opened Records

  /** The parsed top-level JSON object of the autosave file; a key may be missing. */
  datatype Document = Document(tasks: Option<seq<Record>>, completed: Option<seq<Record>>)

  /**
   * What the autosave file holds: nothing (no such file), something that
   * `open`/`json.load`/`.get` fail on, or a JSON object.
   */
  datatype FileContent = Absent | Malformed | Parsed(doc: Document)

  /**
   * How one autosave attempt ends: the snapshot is written, `open(..., "w")`
   * fails (the file is untouched), or writing fails after the file was
   * truncated (what is left does not parse).
   */
  datatype WriteOutcome = Saved | OpenFailed | WriteFailed

  /** The snapshot that autosave writes: a JSON object with the keys `tasks` and `completed`. */
  function Snapshot(tasks: seq<Record>, completed: seq<Record>): (c: FileContent)
    ensures c.Parsed? && c.doc.tasks.Some? && c.doc.completed.Some?
  {
    Parsed(Document(Some(tasks), Some(completed)))
  }

  /**
   * The file after one autosave attempt: only a failed `open` leaves the old
   * content; an attempt that opened the file always leaves one behind, and
   * if that file parses it holds exactly the snapshot of both lists.
   */
  function AfterAutosave(before: FileContent, w: WriteOutcome, tasks: seq<Record>, completed: seq<Record>): (c: FileContent)
    ensures w == OpenFailed ==> c == before
    ensures w != OpenFailed ==> c != Absent
    ensures w != OpenFailed && c.Parsed? ==> c == Snapshot(tasks, completed)
  {
    match w
    case Saved => Snapshot(tasks, completed)
    case OpenFailed => before
    case WriteFailed => Malformed
  }

  /** A list read from the document, empty when its key is missing. */
  function OrEmpty(o: Option<seq<Record>>): seq<Record> {
    match o
    case Some(s) => s
    case None => []
  }

  /**
   * The two lists after `load_tasks`, from the file and the lists before the
   * call: a missing file leaves them as they were, an unreadable one empties
   * both, a JSON object supplies each list or an empty one for a missing key.
   */
  function Loaded(c: FileContent, tasks: seq<Record>, completed: seq<Record>): (r: (seq<Record>, seq<Record>))
    ensures c == Absent ==> r == (tasks, completed)
    ensures c.Malformed? ==> r.0 == [] && r.1 == []
    ensures c.Parsed? ==> (c.doc.tasks.Some? ==> r.0 == c.doc.tasks.value) && (c.doc.tasks.None? ==> r.0 == [])
    ensures c.Parsed? ==> (c.doc.completed.Some? ==> r.1 == c.doc.completed.value) && (c.doc.completed.None? ==> r.1 == [])
  {
    match c
    case Absent => (tasks, completed)
    case Malformed => ([], [])
    case Parsed(d) => (OrEmpty(d.tasks), OrEmpty(d.completed))
  }

  /** A load after a successful autosave yields exactly the saved lists. */
  lemma SaveThenLoad(before: FileContent, tasks: seq<Record>, completed: seq<Record>, t0: seq<Record>, c0: seq<Record>)
    ensures Loaded(AfterAutosave(before, Saved, tasks, completed), t0, c0) == (tasks, completed)
  {
  }

  /** A write that failed after truncating the file makes the next load start empty. */
  lemma FailedWriteLoadsEmpty(before: FileContent, tasks: seq<Record>, completed: seq<Record>, t0: seq<Record>, c0: seq<Record>)
    ensures Loaded(AfterAutosave(before, WriteFailed, tasks, completed), t0, c0) == ([], [])
  {
  }

  /** Popping element `i`: the others keep their relative order. */
  function RemoveAt<T>(s: seq<T>, i: nat): (r: seq<T>)
    requires i < |s|
    ensures |r| == |s| - 1
    ensures forall j :: 0 <= j < i ==> r[j] == s[j]
    ensures forall j :: i <= j < |r| ==> r[j] == s[j + 1]
    ensures multiset(r) + multiset{s[i]} == multiset(s)
  {
    assert s == s[..i] + [s[i]] + s[i + 1..];
    s[..i] + s[i + 1..]
  }

  /** The record with its `done` key set to true, in place. */
  function MarkDone(t: Record): (r: Record)
    ensures r.Keys == t.Keys + {DoneKey}
    ensures r[DoneKey] == VBool(true)
    ensures forall k :: k in t && k != DoneKey ==> r[k] == t[k]
  {
    t[DoneKey := VBool(true)]
  }

  /** The record with its `important` flag negated, a missing flag reading as false. */
  function ToggledImportant(t: Record): (r: Record)
    ensures Important(r) == !Important(t)
    ensures r.Keys == t.Keys + {ImportantKey}
    ensures r[ImportantKey] == VBool(!Important(t))
    ensures forall k :: k in t && k != ImportantKey ==> r[k] == t[k]
  {
    t[ImportantKey := VBool(!Important(t))]
  }

  /**
   * Toggling twice restores the flag as read with the `False` default, and
   * restores the record itself when it already held a boolean flag.
   */
  lemma ToggleImportantTwice(t: Record)
    ensures Important(ToggledImportant(ToggledImportant(t))) == Important(t)
    ensures ImportantKey in t && t[ImportantKey].VBool? ==> ToggledImportant(ToggledImportant(t)) == t
  {
  }

  /** Archiving a done record keeps the archive all-done. */
  lemma ArchiveStaysDone(completed: seq<Record>, t: Record)
    requires AllDone(completed)
    ensures AllDone(completed + [MarkDone(t)])
  {
  }

  /** The file `TaskModel` autosaves to and loads from. */
  class SnapshotFile {
    var content: FileContent

    constructor(content: FileContent)
      ensures this.content == content
    {
      this.content := content;
    }
  }

  class TaskModel {
    /** The active tasks, in display order. */
    var tasks: seq<Record>
    /** The archive, oldest completion first. */
    var completedTasks: seq<Record>
    /** The file named by `autosave_file`. */
    const file: SnapshotFile

    /** Starts from two empty lists, then loads the file. */
    constructor(file: SnapshotFile)
      ensures this.file == file
      ensures (tasks, completedTasks) == Loaded(file.content, [], [])
    {
      this.file := file;
      tasks := [];
      completedTasks := [];
      new;
      LoadTasks();
    }

    method AddTask(taskData: Record, w: WriteOutcome)
      modifies this, file
      ensures tasks == old(tasks) + [taskData]
      ensures completedTasks == old(completedTasks)
      ensures file.content == AfterAutosave(old(file.content), w, tasks, completedTasks)
    {
      tasks := tasks + [taskData];
      Autosave(w);
    }

    /**
     * Moves task `index` to the end of the archive, marked done. An index past
     * the end raises IndexError at the lookup, before anything changes; `ok`
     * says whether the call got past it.
     */
    method ToggleDone(index: nat, w: WriteOutcome) returns (ok: bool)
      modifies this, file
      ensures ok == (index < |old(tasks)|)
      ensures ok ==> tasks == RemoveAt(old(tasks), index)
      ensures ok ==> completedTasks == old(completedTasks) + [MarkDone(old(tasks)[index])]
      ensures ok ==> file.content == AfterAutosave(old(file.content), w, tasks, completedTasks)
      ensures !ok ==> tasks == old(tasks) && completedTasks == old(completedTasks) && file.content == old(file.content)
      ensures |tasks| + |completedTasks| == old(|tasks| + |completedTasks|)
      ensures AllDone(old(completedTasks)) ==> AllDone(completedTasks)
    {
      if index >= |tasks| {
        return false;
      }
      var task := tasks[index];
      task := task[DoneKey := VBool(true)];
      completedTasks := completedTasks + [task];
      tasks := tasks[..index] + tasks[index + 1..];
      Autosave(w);
      ok := true;
    }

    /**
     * Flips the `important` flag of task `index`, a missing key counting as
     * `False`. An index past the end raises IndexError and changes nothing.
     */
    method ToggleImportant(index: nat, w: WriteOutcome) returns (ok: bool)
      modifies this, file
      ensures ok == (index < |old(tasks)|)
      ensures ok ==> tasks == old(tasks)[index := ToggledImportant(old(tasks)[index])]
      ensures ok ==> file.content == AfterAutosave(old(file.content), w, tasks, completedTasks)
      ensures !ok ==> tasks == old(tasks) && file.content == old(file.content)
      ensures completedTasks == old(completedTasks)
    {
      if index >= |tasks| {
        return false;
      }
      tasks := tasks[index := tasks[index][ImportantKey := VBool(!Truthy(Get(tasks[index], ImportantKey, VBool(false))))]];
      Autosave(w);
      ok := true;
    }

    /** Writes both lists to the file; a failure is only reported on the console. */
    method Autosave(w: WriteOutcome)
      modifies file
      ensures file.content == AfterAutosave(old(file.content), w, tasks, completedTasks)
      ensures tasks == old(tasks) && completedTasks == old(completedTasks)
    {
      match w
      case Saved =>
        file.content := Parsed(Document(Some(tasks), Some(completedTasks)));
      case OpenFailed =>
      case WriteFailed =>
        file.content := Malformed;
    }

    method LoadTasks()
      modifies this
      ensures (tasks, completedTasks) == Loaded(file.content, old(tasks), old(completedTasks))
    {
      match file.content
      case Absent =>
      case Malformed =>
        tasks := [];
        completedTasks := [];
      case Parsed(data) =>
        tasks := if data.tasks.Some? then data.tasks.value else [];
        completedTasks := if data.completed.Some? then data.completed.value else [];
    }
  }

  /** A model reopened on the file a successful add was saved to sees the new task. */
  method ReopenAfterAdd(m: TaskModel, d: Record) returns (reopened: TaskModel)
    modifies m, m.file
    ensures reopened.tasks == old(m.tasks) + [d]
    ensures reopened.completedTasks == old(m.completedTasks)
  {
    m.AddTask(d, Saved);
    reopened := new TaskModel(m.file);
  }
}
