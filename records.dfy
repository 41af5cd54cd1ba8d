/**
  The records the hybrid servers store under their ids in the memories file,
  and the constructors the two saving tools use to build them.
 */
module Records {
  import opened Wrappers
  import opened OrderedMap

  /** The `"content"` object: an imported note or a conversation's key points. */
  datatype Content =
    | NoteContent(original: string, title: string, summary: string)
    | ConversationContent(summary: string, insights: seq<string>, topics: seq<string>)

  /**
    The `"metadata"` object. The timestamp is the ISO-8601 text read back as
    seconds, None when it is absent or does not parse; `tags` reads as empty
    when absent; `accessCount` is None when the key is absent.
   */
  datatype Metadata = Metadata(
    timestamp: Option<int>,
    source: string,
    notionUrl: Option<string>,
    tags: seq<string>,
    accessCount: Option<int>)

  /**
    One stored memory. `kind` is the `"type"` field (None when absent),
    `content` is None when the record has no `"content"` key, and
    `relevanceScore` is the key the search adds to the records it returns.
   */
  datatype Memory = Memory(
    id: string,
    kind: Option<string>,
    content: Option<Content>,
    metadata: Metadata,
    relevanceScore: Option<int>)

  /** The memories file: a JSON object from record id to record. */
  type Memories = Dict<string, Memory>

  const NotionImport := "notion_import"
  const ConversationType := "conversation"
  const SummaryLength := 200
  const Ellipsis := "..."

  /**
    The summary of an imported note: the content itself when it has at most
    200 characters, otherwise its first 200 characters followed by "...".
   */
  function Summary(content: string): (s: string)
    ensures |content| <= SummaryLength ==> s == content
    ensures |content| > SummaryLength ==>
      |s| == SummaryLength + |Ellipsis| && s[..SummaryLength] == content[..SummaryLength] && s[SummaryLength..] == Ellipsis
  {
    if |content| > SummaryLength then content[..SummaryLength] + Ellipsis else content
  }

  /** A summary is its own summary: re-importing a summary leaves it as it is. */
  lemma SummaryIdempotent(content: string)
    ensures Summary(Summary(content)) == Summary(content)
  {
    var s := Summary(content);
    if |content| > SummaryLength {
      assert s[..SummaryLength] + Ellipsis == s;
    }
  }

  /** `tags or []`: no tags given and an empty list both give the empty list. */
  function TagList(tags: Option<seq<string>>): seq<string> {
    tags.GetOr([])
  }

  /** The id of a note imported at the clock reading `stamp` (`%Y%m%d_%H%M%S`). */
  function NotionId(stamp: string): string {
    "notion_" + stamp
  }

  /** The id of a conversation saved at the clock reading `stamp`. */
  function ConversationId(stamp: string): string {
    "conv_" + stamp
  }

  /**
    The record `save_from_notion` stores: a never-accessed `notion_import`
    stamped now, keeping the content and title, summarised to at most 203
    characters, tagged with the given tags or none.
   */
  function NotionRecord(id: string, content: string, title: string, sourceDb: string,
                        notionUrl: Option<string>, tags: Option<seq<string>>, now: int): (m: Memory)
    ensures m.id == id && m.kind == Some(NotionImport)
    ensures m.content.Some? && m.content.value.NoteContent?
    ensures m.content.value.original == content && m.content.value.title == title
    ensures |m.content.value.summary| <= SummaryLength + |Ellipsis|
    ensures m.metadata.timestamp == Some(now) && m.metadata.accessCount == Some(0)
    ensures tags.Some? ==> m.metadata.tags == tags.value
    ensures tags.None? ==> m.metadata.tags == []
  {
    Memory(id, Some(NotionImport), Some(NoteContent(content, title, Summary(content))),
           Metadata(Some(now), "Notion:" + sourceDb, notionUrl, TagList(tags), Some(0)), None)
  }

  /**
    The record `link_claude_conversation` stores: a never-accessed
    `conversation` stamped now, holding the summary, insights and topics as
    given; it has no tags and no URL.
   */
  function ConversationRecord(id: string, summary: string, insights: seq<string>,
                              topics: seq<string>, now: int): (m: Memory)
    ensures m.id == id && m.kind == Some(ConversationType)
    ensures m.content == Some(ConversationContent(summary, insights, topics))
    ensures m.metadata.timestamp == Some(now) && m.metadata.accessCount == Some(0)
    ensures m.metadata.tags == [] && m.metadata.notionUrl.None?
  {
    Memory(id, Some(ConversationType), Some(ConversationContent(summary, insights, topics)),
           Metadata(Some(now), "Claude Conversation", None, [], Some(0)), None)
  }

  /**
    The record after one more access: its count goes up by one, a missing
    count counting as 0, and nothing else about it changes.
   */
  function Accessed(m: Memory): (m': Memory)
    ensures m'.metadata.accessCount == Some(m.metadata.accessCount.GetOr(0) + 1)
    ensures m' == m.(metadata := m.metadata.(accessCount := m'.metadata.accessCount))
  {
    m.(metadata := m.metadata.(accessCount := Some(m.metadata.accessCount.GetOr(0) + 1)))
  }
}
