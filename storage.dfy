/**
  The JSON files the servers keep, seen from outside: what a file can hold,
  what loading it yields under each server's recovery policy, what a save does
  to it, and the `{"success": ..., ...}` replies of the tools.
 */
module Storage {
  import opened Wrappers

  /**
    The state of one JSON file. `Unreadable` is a file that exists but cannot
    be opened or decoded (permissions, bad encoding); `Unparsable` is text that
    is not JSON (an empty or truncated file included); `WrongShape` is valid JSON
    that is not an object (a list, a string, a number, `true`, `false` or `null`).
   */
  datatype JsonFile<T> = Missing | Unreadable | Unparsable | WrongShape | Holds(value: T)

  /**
    How a `json.dump` to a file ends: written in full, refused when the file is
    opened (the file is untouched), or interrupted after `open(..., 'w')` has
    truncated it (the file is left holding a prefix of the text, which is not JSON).
   */
  datatype WriteOutcome = Written | OpenFailed | WriteInterrupted

  /** The file after saving `v` to it. */
  function AfterSave<T>(f: JsonFile<T>, v: T, w: WriteOutcome): (f': JsonFile<T>)
    ensures w.Written? ==> f' == Holds(v)
    ensures w.OpenFailed? ==> f' == f
    ensures w.WriteInterrupted? ==> f' == Unparsable
  {
    match w
    case Written => Holds(v)
    case OpenFailed => f
    case WriteInterrupted => Unparsable
  }

  /**
    Loading with silent recovery: a missing file, text that is not JSON, or
    JSON of the wrong kind all read as `empty`; only a file that cannot be read
    at all raises (None), because that error is not among those caught.
   */
  function LoadOrEmpty<T>(f: JsonFile<T>, empty: T): (r: Option<T>)
    ensures r.None? <==> f.Unreadable?
    ensures f.Holds? ==> r == Some(f.value)
    ensures f.Missing? || f.Unparsable? || f.WrongShape? ==> r == Some(empty)
  {
    match f
    case Holds(v) => Some(v)
    case Unreadable => None
    case _ => Some(empty)
  }

  /** Loading without recovery: anything but a well-formed file raises (None). */
  function LoadStrict<T>(f: JsonFile<T>): (r: Option<T>)
    ensures r.Some? <==> f.Holds?
    ensures f.Holds? ==> r.value == f.value
  {
    if f.Holds? then Some(f.value) else None
  }

  /** `json.load` succeeds: the file holds JSON, an object or not. */
  predicate Parses<T>(f: JsonFile<T>) {
    f.Holds? || f.WrongShape?
  }

  /** A saved value loads back unchanged, under either policy. */
  lemma LoadAfterSave<T>(f: JsonFile<T>, v: T, empty: T)
    ensures LoadOrEmpty(AfterSave(f, v, Written), empty) == Some(v)
    ensures LoadStrict(AfterSave(f, v, Written)) == Some(v)
  {
  }

  /**
    Why a tool reports `"success": False`: a save that failed, no memories, no
    memory of the requested type, or an exception (caught by the guarded
    servers and reported with its text; raised out of the tool by the others).
   */
  datatype Reason = SaveFailed | NoMemories | NoMatchingType(memoryType: string) | Raised

  /** A tool's reply: `"success": True` with its payload, or a failure. */
  datatype Reply<T> = Ok(value: T) | Err(reason: Reason)
}
