/**
 * The first prototype window: a single entry, an add button and a listbox.
 * Each added task is a string `"<HH:MM> - <text>"` kept both in the app's own
 * list and in the listbox.
 */
module App {
  import opened Records
  import opened PyText

  datatype Clock = Clock(hour: nat, minute: nat)

  /** A wall-clock reading, as `datetime.now()` supplies it. */
  type Time = c: Clock | c.hour < 24 && c.minute < 60 witness Clock(0, 0)

  /** `strftime("%H:%M")`. */
  function Timestamp(now: Time): (r: string)
    ensures |r| == 5 && r[2] == ':' && IsDigits(r[..2]) && IsDigits(r[3..])
  {
    var r := Pad2(now.hour) + ":" + Pad2(now.minute);
    assert r[..2] == Pad2(now.hour) && r[3..] == Pad2(now.minute);
    r
  }

  /** The listbox line: the timestamp, a spaced dash, then the entry text. */
  function FormatEntry(now: Time, text: string): (r: string)
    ensures |r| == |text| + 8 && r[8..] == text
  {
    Timestamp(now) + " - " + text
  }

  /** Reads a listbox line back into its time and its text. */
  function ParseEntry(line: string): Option<(Time, string)> {
    if |line| >= 8 && line[2] == ':' && line[5..8] == " - " && IsDigits(line[..2]) && IsDigits(line[3..5]) then
      var h, m := DigitsValue(line[..2]), DigitsValue(line[3..5]);
      if h < 24 && m < 60 then var t: Time := Clock(h, m); Some((t, line[8..])) else None
    else None
  }

  /** Every line the add button produces reads back as the time and the text typed. */
  lemma EntryRoundTrip(now: Time, text: string)
    ensures ParseEntry(FormatEntry(now, text)) == Some((now, text))
  {
    var hh, mm := Pad2(now.hour), Pad2(now.minute);
    var line := FormatEntry(now, text);
    assert line == hh + ":" + mm + " - " + text;
    assert line[..2] == hh;
    assert line[3..5] == mm;
    assert line[5..8] == " - ";
  }

  /** The add button's guard is plain truthiness: any non-empty entry is accepted, blank or not. */
  predicate Accepts(entry: string)
    ensures Accepts(entry) <==> Truthy(VStr(entry))
  {
    entry != ""
  }

  /**
   * The prototype accepts everything the task form accepts, and also
   * whitespace-only entries, which the form rejects after stripping.
   */
  lemma GuardsCompared(entry: string)
    ensures !AllSpace(entry) ==> Accepts(entry)
    ensures entry != "" && AllSpace(entry) ==> Accepts(entry) && Strip(entry) == ""
  {
  }

  class MultiTabApp {
    /** `self.tasks`. */
    var tasks: seq<string>
    /** The lines of the task listbox. */
    var taskList: seq<string>

    /** The listbox shows `self.tasks` in order. */
    ghost predicate Valid()
      reads this
    {
      taskList == tasks
    }

    constructor()
      ensures Valid() && tasks == []
    {
      tasks := [];
      taskList := [];
    }

    /**
     * The add button: an empty entry only raises a warning; otherwise the
     * timestamped line is appended to the list and inserted at the end of
     * the listbox.
     */
    method AddTask(entry: string, now: Time) returns (warned: bool)
      requires Valid()
      modifies this
      ensures Valid()
      ensures warned <==> !Accepts(entry)
      ensures !warned ==> tasks == old(tasks) + [FormatEntry(now, entry)]
      ensures warned ==> tasks == old(tasks)
    {
      if entry != "" {
        var formatted := Timestamp(now) + " - " + entry;
        tasks := tasks + [formatted];
        taskList := taskList + [formatted];
        warned := false;
      } else {
        warned := true;
      }
    }
  }
}
