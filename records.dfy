/**
 * Task records as the Python code holds them: dictionaries from string keys
 * to JSON values, built by the task form and read back from the autosave file.
 */
module Records {

  datatype Option<+T> = None | Some(value: T)

  /** The JSON values a task record holds. */
  datatype Value = VStr(s: string) | VBool(b: bool) | VNull

  /** A task record: one Python dict. */
  type Record = map<string, Value>

  const TaskKey: string := "task"
  const DescKey: string := "desc"
  const DueKey: string := "due"
  const PriorityKey: string := "priority"
  const DoneKey: string := "done"
  const ImportantKey: string := "important"

  /** Python truthiness of a value (`if v:`, `not v`). */
  predicate Truthy(v: Value) {
    match v
    case VStr(s) => s != ""
    case VBool(b) => b
    case VNull => false
  }

  /** The value under `k`, or `default` when the key is missing. */
  function Get(r: Record, k: string, default: Value): Value {
    if k in r then r[k] else default
  }

  /** How an f-string renders a value. */
  function Display(v: Value): string {
    match v
    case VStr(s) => s
    case VBool(b) => if b then "True" else "False"
    case VNull => "None"
  }

  /** The truth value of the `important` flag, a missing flag reading as false. */
  predicate Important(r: Record) {
    Truthy(Get(r, ImportantKey, VBool(false)))
  }

  /** Every record of the archive is marked done. */
  ghost predicate AllDone(s: seq<Record>) {
    forall j :: 0 <= j < |s| ==> DoneKey in s[j] && s[j][DoneKey] == VBool(true)
  }
}
