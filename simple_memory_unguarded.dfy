/**
  The first simple memory server: the same list of numbered entries, without
  error handling. Reading a file that is missing, not JSON, or not a list
  raises, and so does a failed write, after the file has been opened.
 */
module SimpleMemoryUnguarded {
  import opened Wrappers
  import opened Storage
  import opened SimpleMemory

  class Server {
    var memoriesFile: JsonFile<seq<Entry>>

    constructor (memories: JsonFile<seq<Entry>>)
      ensures memoriesFile == memories
    {
      memoriesFile := memories;
    }

    /**
      `save_simple_memory`: read the list, append an entry numbered one past
      the count, write the list back, and report the entry's id. Anything but
      a list in the file, or a write that fails, raises.
     */
    method SaveSimpleMemory(content: string, stamp: string, w: WriteOutcome) returns (r: Reply<int>)
      modifies this
      ensures var es := LoadStrict(old(memoriesFile));
        if es.None? then r == Err(Raised) && memoriesFile == old(memoriesFile)
        else
          && memoriesFile == AfterSave(old(memoriesFile), es.value + [NextEntry(|es.value|, content, stamp)], w)
          && r == if w.Written? then Ok(|es.value| + 1) else Err(Raised)
    {
      var loaded := LoadStrict(memoriesFile);
      if loaded.None? {
        return Err(Raised);
      }
      var memories := loaded.value;
      var memory := Entry(|memories| + 1, content, stamp);
      memories := memories + [memory];
      memoriesFile := AfterSave(memoriesFile, memories, w);
      if !w.Written? {
        return Err(Raised);
      }
      r := Ok(memory.id);
    }

    /** `get_all_memories`: the list as read, and its length; a file that does not hold a list raises. */
    method GetAllMemories() returns (r: Reply<(seq<Entry>, nat)>)
      ensures var es := LoadStrict(memoriesFile);
        r == if es.None? then Err(Raised) else Ok((es.value, |es.value|))
    {
      var loaded := LoadStrict(memoriesFile);
      if loaded.None? {
        return Err(Raised);
      }
      var memories := loaded.value;
      r := Ok((memories, |memories|));
    }
  }

  /**
    The two servers agree wherever the unguarded one succeeds: on a file
    holding a list, a completed save stores the same list and reports the same
    id, and a listing returns the same entries. Where they differ, only the
    guarded one carries on: a missing, unparsable or wrongly shaped file reads
    there as the empty list.
   */
  lemma ServersAgree(f: JsonFile<seq<Entry>>)
    ensures LoadStrict(f).Some? ==> LoadOrEmpty(f, []) == LoadStrict(f)
    ensures LoadStrict(f).None? && !f.Unreadable? ==> LoadOrEmpty(f, []) == Some([])
  {
  }
}
