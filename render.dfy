/**
 * The replies of /list and /status: a header followed by one entry per
 * tracked item, numbered from 1, built up by `message +=` in a forEach.
 */
module Render {
  import opened Js
  import opened Constants
  import opened Storage

  const Never: JsString := Utf16("Never")
  const NoContentYet: JsString := Utf16("No content yet")

  const EntryOpen: JsString := Utf16("<b>")
  const EntryNumberClose: JsString := Utf16(".</b> ")
  const LinkLine: JsString := Utf16("\n\U{1F517} ")
  const ListXPathLine: JsString := Utf16("\n\U{1F4CD} XPath: <code>")
  const ListCheckedLine: JsString := Utf16("</code>\n\U{1F550} Last checked: ")
  const ListIdLine: JsString := Utf16("\n\U{1F194} ID: ")
  const StatusCheckedLine: JsString := Utf16("\n\U{1F550} Last checked: ")
  const StatusUpdatedLine: JsString := Utf16("\n\U{1F504} Last updated: ")
  const StatusContentLine: JsString := Utf16("\n\U{1F4C4} Content: ")
  const EntryEnd: JsString := [Newline, Newline]

  /** `t ? new Date(t).toLocaleString() : 'Never'`. */
  function Timestamp(t: Option<nat>, showTime: nat -> JsString): JsString {
    if t.Some? then showTime(t.value) else Never
  }

  /** The pieces of the /list entry for the item at 1-based `position`. */
  function ListParts(position: int, x: Item, showTime: nat -> JsString): seq<JsString> {
    [EntryOpen, NumberToString(position), EntryNumberClose, OrElse(x.labelText, NoLabel),
     LinkLine, x.url, ListXPathLine, x.xpath, ListCheckedLine, Timestamp(x.lastChecked, showTime),
     ListIdLine, NumberToString(x.id), EntryEnd]
  }

  function ListEntry(position: int, x: Item, showTime: nat -> JsString): JsString {
    Concat(ListParts(position, x, showTime))
  }

  /** `content.substring(0, 150)`, plus '...' when longer, of `item.last_content || 'No content yet'`. */
  function ContentPreview(x: Item): JsString {
    Preview(OrElse(x.lastContent, NoContentYet), 150)
  }

  /** The pieces of the /status entry for the item at 1-based `position`. */
  function StatusParts(position: int, x: Item, showTime: nat -> JsString): seq<JsString> {
    [EntryOpen, NumberToString(position), EntryNumberClose, OrElse(x.labelText, NoLabel),
     LinkLine, x.url, StatusCheckedLine, Timestamp(x.lastChecked, showTime),
     StatusUpdatedLine, Timestamp(x.lastUpdated, showTime),
     StatusContentLine, ContentPreview(x), EntryEnd]
  }

  function StatusEntry(position: int, x: Item, showTime: nat -> JsString): JsString {
    Concat(StatusParts(position, x, showTime))
  }

  function ListEntries(items: seq<Item>, showTime: nat -> JsString): (r: seq<JsString>)
    ensures |r| == |items|
    ensures forall k :: 0 <= k < |items| ==> r[k] == ListEntry(k + 1, items[k], showTime)
  {
    seq(|items|, k requires 0 <= k < |items| => ListEntry(k + 1, items[k], showTime))
  }

  function StatusEntries(items: seq<Item>, showTime: nat -> JsString): (r: seq<JsString>)
    ensures |r| == |items|
    ensures forall k :: 0 <= k < |items| ==> r[k] == StatusEntry(k + 1, items[k], showTime)
  {
    seq(|items|, k requires 0 <= k < |items| => StatusEntry(k + 1, items[k], showTime))
  }

  /** The /list reply for a non-empty listing. */
  function ListText(items: seq<Item>, showTime: nat -> JsString): (r: JsString)
    ensures ListHeader <= r
    ensures items == [] ==> r == ListHeader
  {
    ListHeader + Concat(ListEntries(items, showTime))
  }

  /** The /status reply for a non-empty listing. */
  function StatusText(items: seq<Item>, showTime: nat -> JsString): (r: JsString)
    ensures StatusHeader <= r
    ensures items == [] ==> r == StatusHeader
  {
    StatusHeader + Concat(StatusEntries(items, showTime))
  }

  /**
   * The loop shared by handleList and handleStatus: start from the header
   * and append the entry of each item, numbered from 1.
   */
  method RenderEntries(header: JsString, items: seq<Item>, entry: (int, Item) -> JsString)
    returns (message: JsString)
    ensures message == header + Concat(seq(|items|, k requires 0 <= k < |items| => entry(k + 1, items[k])))
  {
    ghost var entries := seq(|items|, k requires 0 <= k < |items| => entry(k + 1, items[k]));
    message := header;
    for index := 0 to |items|
      invariant message == header + Concat(entries[..index])
    {
      EntriesSnoc(entries, index);
      message := message + entry(index + 1, items[index]);
    }
    EntriesWhole(entries);
  }

  /** The loop of handleList. */
  method RenderList(items: seq<Item>, showTime: nat -> JsString) returns (message: JsString)
    ensures message == ListText(items, showTime)
  {
    var entry := (position, x) => ListEntry(position, x, showTime);
    message := RenderEntries(ListHeader, items, entry);
    ghost var entries := seq(|items|, k requires 0 <= k < |items| => entry(k + 1, items[k]));
    assert entries == ListEntries(items, showTime) by {
      forall k | 0 <= k < |items| ensures entries[k] == ListEntries(items, showTime)[k] { }
    }
  }

  /** The loop of handleStatus. */
  method RenderStatus(items: seq<Item>, showTime: nat -> JsString) returns (message: JsString)
    ensures message == StatusText(items, showTime)
  {
    var entry := (position, x) => StatusEntry(position, x, showTime);
    message := RenderEntries(StatusHeader, items, entry);
    ghost var entries := seq(|items|, k requires 0 <= k < |items| => entry(k + 1, items[k]));
    assert entries == StatusEntries(items, showTime) by {
      forall k | 0 <= k < |items| ensures entries[k] == StatusEntries(items, showTime)[k] { }
    }
  }

  lemma EntriesWhole(entries: seq<JsString>)
    ensures Concat(entries[..|entries|]) == Concat(entries)
  {
    assert entries[..|entries|] == entries;
  }

  lemma EntriesSnoc(entries: seq<JsString>, index: nat)
    requires index < |entries|
    ensures Concat(entries[..index + 1]) == Concat(entries[..index]) + entries[index]
  {
    assert entries[..index + 1] == entries[..index] + [entries[index]];
    ConcatSnoc(entries[..index], entries[index]);
  }

  lemma ShowsPart(text: JsString, parts: seq<JsString>, i: nat)
    requires i < |parts| && Contains(text, Concat(parts))
    ensures Contains(text, parts[i])
  {
    ConcatContains(parts, i);
    ContainsTrans(text, Concat(parts), parts[i]);
  }

  /**
   * The /list reply shows, for each listed item, its 1-based position, its
   * label or 'No label', its URL and selector verbatim, and its id.
   */
  lemma ListShowsItem(items: seq<Item>, showTime: nat -> JsString, k: nat)
    requires k < |items|
    ensures var text := ListText(items, showTime);
      Contains(text, NumberToString(k + 1)) && Contains(text, OrElse(items[k].labelText, NoLabel)) &&
      Contains(text, items[k].url) && Contains(text, items[k].xpath) &&
      Contains(text, NumberToString(items[k].id))
  {
    var entries := ListEntries(items, showTime);
    var text := ListText(items, showTime);
    ConcatContains(entries, k);
    ContainsInSuffix(ListHeader, Concat(entries), entries[k]);
    var parts := ListParts(k + 1, items[k], showTime);
    ShowsPart(text, parts, 1);
    ShowsPart(text, parts, 3);
    ShowsPart(text, parts, 5);
    ShowsPart(text, parts, 7);
    ShowsPart(text, parts, 11);
  }

  /**
   * The /status reply shows, for each listed item, its label or 'No label',
   * its URL, and its stored content (or 'No content yet' when that is null
   * or empty) cut to 150 code units, with '...' exactly when longer.
   */
  lemma StatusShowsItem(items: seq<Item>, showTime: nat -> JsString, k: nat)
    requires k < |items|
    ensures var text := StatusText(items, showTime);
      var content := OrElse(items[k].lastContent, NoContentYet);
      Contains(text, OrElse(items[k].labelText, NoLabel)) && Contains(text, items[k].url) &&
      (|content| <= 150 ==> Contains(text, content)) &&
      (|content| > 150 ==> Contains(text, content[..150] + Ellipsis))
  {
    var entries := StatusEntries(items, showTime);
    var text := StatusText(items, showTime);
    ConcatContains(entries, k);
    ContainsInSuffix(StatusHeader, Concat(entries), entries[k]);
    var parts := StatusParts(k + 1, items[k], showTime);
    ShowsPart(text, parts, 3);
    ShowsPart(text, parts, 5);
    ShowsPart(text, parts, 11);
    assert parts[11] == Preview(OrElse(items[k].lastContent, NoContentYet), 150);
  }
}
