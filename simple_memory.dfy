/**
  The simple memory server: a JSON list of `{"id", "content", "timestamp"}`
  entries, numbered from 1 in the order they were saved, with tools to append
  one, list them all, and clear the list. This is the guarded variant: a file
  that is missing, not JSON, or not a list reads as the empty list, and every
  other error is reported in the reply rather than raised.
 */
module SimpleMemory {
  import opened Wrappers
  import opened Storage

  /** One saved entry; the timestamp is the `isoformat()` text of the clock at saving. */
  datatype Entry = Entry(id: int, content: string, timestamp: string)

  /** The entry `save_simple_memory` appends to a list of `n` entries: numbered one past the last, from 1. */
  function NextEntry(n: nat, content: string, stamp: string): (e: Entry)
    ensures e.id == n + 1 && e.id >= 1
    ensures e.content == content && e.timestamp == stamp
  {
    Entry(n + 1, content, stamp)
  }

  /** Entry `i` has id `i + 1`: the list was built by saving alone, from empty. */
  ghost predicate Numbered(es: seq<Entry>) {
    forall i :: 0 <= i < |es| ==> es[i].id == i + 1
  }

  /** Numbered entries have pairwise distinct ids. */
  lemma NumberedUnique(es: seq<Entry>)
    requires Numbered(es)
    ensures forall i, j :: 0 <= i < j < |es| ==> es[i].id != es[j].id
  {
  }

  /** Appending the next entry keeps a numbered list numbered, and its id is the new count. */
  lemma NextEntryNumbered(es: seq<Entry>, content: string, stamp: string)
    requires Numbered(es)
    ensures Numbered(es + [NextEntry(|es|, content, stamp)])
    ensures (es + [NextEntry(|es|, content, stamp)])[|es|].id == |es + [NextEntry(|es|, content, stamp)]|
  {
  }

  /**
    The list after saving each `(content, timestamp)` of `saves` in turn, every
    save succeeding, starting from `es`.
   */
  function SaveEach(es: seq<Entry>, saves: seq<(string, string)>): seq<Entry>
    decreases |saves|
  {
    if saves == [] then es
    else SaveEach(es + [NextEntry(|es|, saves[0].0, saves[0].1)], saves[1..])
  }

  /**
    Saving from the empty list (a fresh or cleared store) numbers the entries
    1, 2, 3, ... in saving order, each carrying its own content and timestamp;
    starting from any list, the earlier entries are kept in front.
   */
  lemma {:induction false} SaveEachNumbers(es: seq<Entry>, saves: seq<(string, string)>)
    requires Numbered(es)
    ensures |SaveEach(es, saves)| == |es| + |saves|
    ensures SaveEach(es, saves)[..|es|] == es
    ensures Numbered(SaveEach(es, saves))
    ensures forall k :: 0 <= k < |saves| ==>
      SaveEach(es, saves)[|es| + k] == Entry(|es| + k + 1, saves[k].0, saves[k].1)
    decreases |saves|
  {
    if saves != [] {
      var es' := es + [NextEntry(|es|, saves[0].0, saves[0].1)];
      NextEntryNumbered(es, saves[0].0, saves[0].1);
      SaveEachNumbers(es', saves[1..]);
      var r := SaveEach(es, saves);
      assert r == SaveEach(es', saves[1..]);
      assert r[..|es|] == r[..|es'|][..|es|];
      forall k | 0 <= k < |saves|
        ensures r[|es| + k] == Entry(|es| + k + 1, saves[k].0, saves[k].1)
      {
        if k == 0 {
          assert r[|es|] == r[..|es'|][|es|];
        } else {
          assert r[|es| + k] == r[|es'| + (k - 1)];
          assert saves[1..][k - 1] == saves[k];
        }
      }
    }
  }

  class Server {
    var memoriesFile: JsonFile<seq<Entry>>

    constructor (memories: JsonFile<seq<Entry>>)
      ensures memoriesFile == memories
    {
      memoriesFile := memories;
    }

    /**
      `save_memories`: write the list; true when the write completes, false
      when it fails (the reason is only printed).
     */
    method SaveMemories(es: seq<Entry>, w: WriteOutcome) returns (saved: bool)
      modifies this
      ensures memoriesFile == AfterSave(old(memoriesFile), es, w) && saved == w.Written?
    {
      memoriesFile := AfterSave(memoriesFile, es, w);
      saved := w.Written?;
    }

    /**
      `save_simple_memory`: append an entry numbered one past the count, and
      report its id when the list is saved. Loading recovers as
      `load_memories` does; a file that cannot be read is reported.
     */
    method SaveSimpleMemory(content: string, stamp: string, w: WriteOutcome) returns (r: Reply<int>)
      modifies this
      ensures var es := LoadOrEmpty(old(memoriesFile), []);
        if es.None? then r == Err(Raised) && memoriesFile == old(memoriesFile)
        else
          && memoriesFile == AfterSave(old(memoriesFile), es.value + [NextEntry(|es.value|, content, stamp)], w)
          && r == if w.Written? then Ok(|es.value| + 1) else Err(SaveFailed)
    {
      var loaded := LoadOrEmpty(memoriesFile, []);
      if loaded.None? {
        return Err(Raised);
      }
      var memories := loaded.value;
      var memory := Entry(|memories| + 1, content, stamp);
      memories := memories + [memory];
      var saved := SaveMemories(memories, w);
      if saved {
        r := Ok(memory.id);
      } else {
        r := Err(SaveFailed);
      }
    }

    /** `get_all_memories`: the list as loaded, and its length. */
    method GetAllMemories() returns (r: Reply<(seq<Entry>, nat)>)
      ensures var es := LoadOrEmpty(memoriesFile, []);
        r == if es.None? then Err(Raised) else Ok((es.value, |es.value|))
    {
      var loaded := LoadOrEmpty(memoriesFile, []);
      if loaded.None? {
        return Err(Raised);
      }
      var memories := loaded.value;
      r := Ok((memories, |memories|));
    }

    /** `clear_all_memories`: save the empty list. */
    method ClearAllMemories(w: WriteOutcome) returns (r: Reply<()>)
      modifies this
      ensures memoriesFile == AfterSave(old(memoriesFile), [], w)
      ensures r == if w.Written? then Ok(()) else Err(SaveFailed)
    {
      var saved := SaveMemories([], w);
      if saved {
        r := Ok(());
      } else {
        r := Err(SaveFailed);
      }
    }
  }

  /**
    What the next save sees after a clear or after a failed save: a completed
    clear, or a write cut short, both leave a file that loads as the empty
    list, so the next entry is numbered 1; a save refused at opening leaves
    the list as it was.
   */
  lemma LoadAfterClearOrFailure(f: JsonFile<seq<Entry>>, es: seq<Entry>)
    ensures LoadOrEmpty(AfterSave(f, [], Written), []) == Some([])
    ensures LoadOrEmpty(AfterSave(f, es, WriteInterrupted), []) == Some([])
    ensures LoadOrEmpty(AfterSave(f, es, OpenFailed), []) == LoadOrEmpty(f, [])
  {
  }
}
