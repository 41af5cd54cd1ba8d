/**
  The index file: three dimensions (`notion_imports`, `tags`, `topics`), each
  mapping a key (source database, tag, topic) to the ids filed under it. It is
  append-only: saving a record appends its id, once per key occurrence, and
  never removes or reorders anything.
 */
module MemoryIndex {

  type Index = map<string, map<string, seq<string>>>

  const NotionImports := "notion_imports"
  const Tags := "tags"
  const Topics := "topics"

  /** The ids filed under `key` in dimension `dim`; none when either is absent. */
  function Ids(ix: Index, dim: string, key: string): seq<string> {
    if dim in ix && key in ix[dim] then ix[dim][key] else []
  }

  /** `if dim not in index: index[dim] = {}`. */
  function EnsureDim(ix: Index, dim: string): (r: Index)
    ensures dim in r
  {
    if dim in ix then ix else ix[dim := map[]]
  }

  /** `if key not in index[dim]: index[dim][key] = []`, then `index[dim][key].append(id)`. */
  function AppendId(ix: Index, dim: string, key: string, id: string): (r: Index)
    requires dim in ix
    ensures dim in r && r[dim].Keys == ix[dim].Keys + {key}
  {
    ix[dim := ix[dim][key := Ids(ix, dim, key) + [id]]]
  }

  /** The index after filing `id` under each of `keys` in turn, as the saving tools' loops do. */
  function AppendEach(ix: Index, dim: string, keys: seq<string>, id: string): (r: Index)
    ensures dim in r
  {
    if keys == [] then EnsureDim(ix, dim)
    else AppendId(AppendEach(ix, dim, keys[..|keys| - 1], id), dim, keys[|keys| - 1], id)
  }

  /** `n` copies of `id`. */
  function Repeat(id: string, n: nat): (r: seq<string>)
    ensures |r| == n && forall i :: 0 <= i < n ==> r[i] == id
  {
    seq(n, _ => id)
  }

  /**
    Filing `id` under `keys`: each key's list gains `id` at its end once per
    occurrence of the key in `keys` (a repeated tag files the id twice), and
    the ids already filed keep their order.
   */
  lemma {:induction false} AppendEachIds(ix: Index, dim: string, keys: seq<string>, id: string, key: string)
    ensures Ids(AppendEach(ix, dim, keys, id), dim, key) == Ids(ix, dim, key) + Repeat(id, multiset(keys)[key])
  {
    if keys == [] {
      assert Repeat(id, 0) == [];
    } else {
      var init, last := keys[..|keys| - 1], keys[|keys| - 1];
      assert keys == init + [last];
      AppendEachIds(ix, dim, init, id, key);
      var n := multiset(init)[key];
      if key == last {
        assert multiset(keys)[key] == n + 1;
        assert Repeat(id, n + 1) == Repeat(id, n) + [id];
      } else {
        assert multiset(keys)[key] == n;
      }
    }
  }

  /** After filing, a key is present in the dimension exactly when it was before or occurs in `keys`. */
  lemma {:induction false} AppendEachKeys(ix: Index, dim: string, keys: seq<string>, id: string, key: string)
    ensures key in AppendEach(ix, dim, keys, id)[dim] <==> (dim in ix && key in ix[dim]) || key in keys
  {
    if keys != [] {
      var init := keys[..|keys| - 1];
      assert keys == init + [keys[|keys| - 1]];
      AppendEachKeys(ix, dim, init, id, key);
    }
  }

  /** Filing in one dimension leaves every other dimension as it was. */
  lemma {:induction false} AppendEachOtherDims(ix: Index, dim: string, keys: seq<string>, id: string, d: string)
    requires d != dim
    ensures d in AppendEach(ix, dim, keys, id) <==> d in ix
    ensures d in ix ==> AppendEach(ix, dim, keys, id)[d] == ix[d]
  {
    if keys != [] {
      AppendEachOtherDims(ix, dim, keys[..|keys| - 1], id, d);
    }
  }

  /**
    The loop of the saving tools: create the dimension if it is absent, then
    for each key create its list if it is absent and append `id` to it.
   */
  method FileUnderEach(ix: Index, dim: string, keys: seq<string>, id: string) returns (r: Index)
    ensures r == AppendEach(ix, dim, keys, id)
  {
    r := ix;
    if dim !in r {
      r := r[dim := map[]];
    }
    var i := 0;
    while i < |keys|
      invariant 0 <= i <= |keys|
      invariant r == AppendEach(ix, dim, keys[..i], id)
    {
      var key := keys[i];
      ghost var before := r;
      if key !in r[dim] {
        r := r[dim := r[dim][key := []]];
      }
      assert r[dim][key] == Ids(before, dim, key);
      r := r[dim := r[dim][key := r[dim][key] + [id]]];
      assert r[dim] == before[dim][key := Ids(before, dim, key) + [id]];
      assert r == AppendId(before, dim, key, id);
      assert keys[..i + 1][..i] == keys[..i];
      i := i + 1;
    }
    assert keys[..i] == keys;
  }

  /**
    Filing a notion import: once under its source database, then under each of
    its tags. Both dimensions exist afterwards, the source database among the
    imports' keys, even when there are no tags.
   */
  function IndexNotion(ix: Index, sourceDb: string, tags: seq<string>, id: string): (r: Index)
    ensures NotionImports in r && sourceDb in r[NotionImports] && Tags in r
  {
    var mid := AppendEach(ix, NotionImports, [sourceDb], id);
    AppendEachOtherDims(mid, Tags, tags, id, NotionImports);
    AppendEach(mid, Tags, tags, id)
  }

  /** The index updates of `save_from_notion`: the source database's loop, then the tags' loop. */
  method FileNotion(ix: Index, sourceDb: string, tags: seq<string>, id: string) returns (r: Index)
    ensures r == IndexNotion(ix, sourceDb, tags, id)
  {
    r := FileUnderEach(ix, NotionImports, [sourceDb], id);
    r := FileUnderEach(r, Tags, tags, id);
  }

  /**
    What filing a notion import does: `id` is appended once to its source
    database's list and once per occurrence of a tag to that tag's list; every
    list keeps what it held, and every other dimension (the topics among them)
    is untouched.
   */
  lemma IndexNotionEffect(ix: Index, sourceDb: string, tags: seq<string>, id: string, key: string)
    ensures Ids(IndexNotion(ix, sourceDb, tags, id), NotionImports, key) ==
      Ids(ix, NotionImports, key) + (if key == sourceDb then [id] else [])
    ensures Ids(IndexNotion(ix, sourceDb, tags, id), Tags, key) ==
      Ids(ix, Tags, key) + Repeat(id, multiset(tags)[key])
    ensures Topics in IndexNotion(ix, sourceDb, tags, id) <==> Topics in ix
    ensures Topics in ix ==> IndexNotion(ix, sourceDb, tags, id)[Topics] == ix[Topics]
    ensures forall d :: d != NotionImports && d != Tags ==> (d in IndexNotion(ix, sourceDb, tags, id) <==> d in ix)
    ensures forall d :: d != NotionImports && d != Tags && d in ix ==> IndexNotion(ix, sourceDb, tags, id)[d] == ix[d]
  {
    var mid := AppendEach(ix, NotionImports, [sourceDb], id);
    AppendEachIds(ix, NotionImports, [sourceDb], id, key);
    assert Repeat(id, multiset([sourceDb])[key]) == if key == sourceDb then [id] else [];
    AppendEachOtherDims(mid, Tags, tags, id, NotionImports);
    AppendEachIds(mid, Tags, tags, id, key);
    AppendEachOtherDims(ix, NotionImports, [sourceDb], id, Tags);
    forall d | d != NotionImports && d != Tags
      ensures d in IndexNotion(ix, sourceDb, tags, id) <==> d in ix
      ensures d in ix ==> IndexNotion(ix, sourceDb, tags, id)[d] == ix[d]
    {
      AppendEachOtherDims(ix, NotionImports, [sourceDb], id, d);
      AppendEachOtherDims(mid, Tags, tags, id, d);
    }
  }

  /** Filing a conversation: under each of its topics. */
  function IndexConversation(ix: Index, topics: seq<string>, id: string): (r: Index)
    ensures Topics in r
  {
    AppendEach(ix, Topics, topics, id)
  }

  /**
    What filing a conversation does: `id` is appended once per occurrence of a
    topic to that topic's list; the imports and tags are untouched.
   */
  lemma IndexConversationEffect(ix: Index, topics: seq<string>, id: string, key: string)
    ensures Ids(IndexConversation(ix, topics, id), Topics, key) == Ids(ix, Topics, key) + Repeat(id, multiset(topics)[key])
    ensures forall d :: d != Topics ==> (d in IndexConversation(ix, topics, id) <==> d in ix)
    ensures forall d :: d != Topics && d in ix ==> IndexConversation(ix, topics, id)[d] == ix[d]
  {
    AppendEachIds(ix, Topics, topics, id, key);
    forall d | d != Topics
      ensures d in IndexConversation(ix, topics, id) <==> d in ix
      ensures d in ix ==> IndexConversation(ix, topics, id)[d] == ix[d]
    {
      AppendEachOtherDims(ix, Topics, topics, id, d);
    }
  }

  /** Every id the index mentions is one of `keys`. */
  ghost predicate RefersOnlyTo(ix: Index, keys: seq<string>) {
    forall dim, key, id :: dim in ix && key in ix[dim] && id in ix[dim][key] ==> id in keys
  }

  /** Filing an id of the store keeps the index referring only to the store. */
  lemma AppendEachRefersOnlyTo(ix: Index, dim: string, keys: seq<string>, id: string, ks: seq<string>)
    requires RefersOnlyTo(ix, ks) && id in ks
    ensures RefersOnlyTo(AppendEach(ix, dim, keys, id), ks)
  {
    var r := AppendEach(ix, dim, keys, id);
    forall d, key, x | d in r && key in r[d] && x in r[d][key] ensures x in ks {
      if d == dim {
        AppendEachIds(ix, dim, keys, id, key);
        assert r[d][key] == Ids(r, dim, key);
      } else {
        AppendEachOtherDims(ix, dim, keys, id, d);
      }
    }
  }

  /** Filing a record of the store, under any keys, keeps the index referring only to the store. */
  lemma IndexingRefersOnlyTo(ix: Index, sourceDb: string, keys: seq<string>, id: string, ks: seq<string>)
    requires RefersOnlyTo(ix, ks) && id in ks
    ensures RefersOnlyTo(IndexNotion(ix, sourceDb, keys, id), ks)
    ensures RefersOnlyTo(IndexConversation(ix, keys, id), ks)
  {
    AppendEachRefersOnlyTo(ix, NotionImports, [sourceDb], id, ks);
    AppendEachRefersOnlyTo(AppendEach(ix, NotionImports, [sourceDb], id), Tags, keys, id, ks);
    AppendEachRefersOnlyTo(ix, Topics, keys, id, ks);
  }

  /** An index that refers only to `ks` refers only to any collection holding all of `ks`. */
  lemma RefersOnlyToMore(ix: Index, ks: seq<string>, more: seq<string>)
    requires RefersOnlyTo(ix, ks)
    requires forall k :: k in ks ==> k in more
    ensures RefersOnlyTo(ix, more)
  {
  }
}
