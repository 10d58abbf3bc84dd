/** State that is cached in memory and written through to a file. */
module PersistedState {
  import opened Common

  /** The state file: `Unreadable` is anything that does not parse. */
  datatype File<T> = Missing | Unreadable | Holding(value: T)

  /**
   * How a write ends. Opening the file truncates it, so a failing write leaves something else
   * behind: `left`, if that happens to parse.
   */
  datatype WriteOutcome<T> = Written | OpenFailed | WriteFailed(left: Option<T>)

  /** What a process that has not loaded the state yet gets from the file. */
  function FromFile<T>(file: File<T>, fallback: T): T {
    if file.Holding? then file.value else fallback
  }

  function AfterWrite<T>(file: File<T>, value: T, outcome: WriteOutcome<T>): File<T> {
    match outcome
    case Written => Holding(value)
    case OpenFailed => file
    case WriteFailed(left) => if left.Some? then Holding(left.value) else Unreadable
  }

  class Container<T> {
    const fallback: T
    var state: Option<T>
    var file: File<T>

    constructor (file: File<T>, fallback: T)
      ensures this.fallback == fallback && state == None && this.file == file
    {
      this.fallback := fallback;
      this.state := None;
      this.file := file;
    }

    /** The state as this process sees it. */
    function Current(): T
      reads this
    {
      if state.Some? then state.value else FromFile(file, fallback)
    }

    method LoadOrGet() returns (value: T)
      modifies this`state
      ensures value == old(Current()) && state == Some(value)
    {
      if state.Some? {
        return state.value;
      }
      value := FromFile(file, fallback);
      state := Some(value);
    }

    /** The state in memory changes even if it cannot be written. */
    method Save(value: T, outcome: WriteOutcome<T>) returns (ok: bool)
      modifies this
      ensures ok <==> outcome.Written?
      ensures state == Some(value) && file == AfterWrite(old(file), value, outcome)
    {
      state := Some(value);
      match outcome {
        case Written => file := Holding(value);
        case OpenFailed =>
        case WriteFailed(left) => file := if left.Some? then Holding(left.value) else Unreadable;
      }
      ok := outcome.Written?;
    }
  }
}
