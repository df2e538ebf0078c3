/**
 * Configuration values and the message templates that have behaviour:
 * truncation of long content, fallbacks for a missing label or missing
 * previous content, and verbatim insertion of every other argument.
 */
module Constants {
  import opened Js

  /** CONFIG.REQUEST_TIMEOUT, in milliseconds: 5 seconds, although its comment says 30. */
  const RequestTimeoutMs: nat := 5000

  /** CONFIG.MAX_TRACKING_ITEMS_PER_USER. */
  const MaxTrackingItemsPerUser: nat := 5

  /** CONFIG.USER_AGENT, the User-Agent header of every page fetch. */
  const UserAgent: JsString := Utf16("Mozilla/5.0 (Windows NT 10.0; Win64; x64) AppleWebKit/537.36 (KHTML, like Gecko) Chrome/91.0.4472.124 Safari/537.36")

  /** HTTP_STATUS. */
  const HttpOk: nat := 200
  const HttpUnauthorized: nat := 401

  /** The replies whose wording is fixed text (MESSAGES entries that are plain strings). */
  datatype Notice =
    | Welcome | Help
    | AddInvalidFormat | InvalidUrl | XPathFailed | AddError | RequestTimeout
    | DeleteInvalidFormat | DeleteInvalidId | DeleteSuccess | DeleteNotFound
    | NoTrackingItems | UnknownCommand | GeneralError

  /** MESSAGES.LIST_HEADER. */
  const ListHeader: JsString := Utf16("\U{1F4CB} <b>Your tracked websites:</b>\n\n")

  /** MESSAGES.STATUS_HEADER. */
  const StatusHeader: JsString := Utf16("\U{1F4CA} <b>Status of your tracked websites:</b>\n\n")

  /** True when p occurs in s as a contiguous run of code units. */
  ghost predicate Contains(s: JsString, p: JsString) {
    exists i :: OccursAt(s, p, i)
  }

  /** p occurs in s starting at index i. */
  predicate OccursAt(s: JsString, p: JsString, i: int) {
    0 <= i <= |s| - |p| && s[i..i + |p|] == p
  }

  /** A template literal: the concatenation of its literal pieces and substitutions. */
  function Concat(parts: seq<JsString>): (r: JsString)
    decreases |parts|
  {
    if parts == [] then [] else parts[0] + Concat(parts[1..])
  }

  /** Every piece of a template literal occurs verbatim in its value. */
  lemma {:induction false} ConcatContains(parts: seq<JsString>, k: nat)
    requires k < |parts|
    ensures Contains(Concat(parts), parts[k])
    decreases k
  {
    var r := Concat(parts);
    if k == 0 {
      assert r[0..|parts[0]|] == parts[0];
      assert OccursAt(r, parts[0], 0);
    } else {
      ConcatContains(parts[1..], k - 1);
      var rest := Concat(parts[1..]);
      var p := parts[k];
      var i :| OccursAt(rest, p, i);
      assert r == parts[0] + rest;
      assert r[|parts[0]| + i..|parts[0]| + i + |p|] == rest[i..i + |p|];
      assert OccursAt(r, p, |parts[0]| + i);
    }
  }

  lemma ContainsInSuffix(a: JsString, b: JsString, p: JsString)
    requires Contains(b, p)
    ensures Contains(a + b, p)
  {
    var i :| OccursAt(b, p, i);
    assert (a + b)[|a| + i..|a| + i + |p|] == b[i..i + |p|];
    assert OccursAt(a + b, p, |a| + i);
  }

  lemma ContainsTrans(s: JsString, m: JsString, p: JsString)
    requires Contains(s, m) && Contains(m, p)
    ensures Contains(s, p)
  {
    var i :| OccursAt(s, m, i);
    var j :| OccursAt(m, p, j);
    assert m == s[i..i + |m|];
    forall t | 0 <= t < |p| ensures s[i + j..i + j + |p|][t] == p[t] {
      assert p[t] == m[j + t] == s[i + j + t];
    }
    assert OccursAt(s, p, i + j);
  }

  lemma {:induction false} ConcatSnoc(parts: seq<JsString>, x: JsString)
    ensures Concat(parts + [x]) == Concat(parts) + x
    decreases |parts|
  {
    if parts == [] {
      assert [] + [x] == [x];
      assert Concat([x]) == x + Concat([]);
    } else {
      assert (parts + [x])[1..] == parts[1..] + [x];
      ConcatSnoc(parts[1..], x);
    }
  }

  /** The pieces before position n make up a prefix of the template's value. */
  lemma {:induction false} ConcatPrefix(parts: seq<JsString>, n: nat)
    requires n <= |parts|
    ensures Concat(parts[..n]) <= Concat(parts)
    decreases n
  {
    if n > 0 {
      ConcatPrefix(parts[1..], n - 1);
      assert parts[..n][1..] == parts[1..][..n - 1];
    }
  }

  lemma ConcatOfFour(a: JsString, b: JsString, c: JsString, d: JsString)
    ensures Concat([a, b, c, d]) == a + b + c + d
  {
    assert [a, b, c, d][1..] == [b, c, d];
    ConcatOfThree(b, c, d);
  }

  lemma ConcatOfThree(a: JsString, b: JsString, c: JsString)
    ensures Concat([a, b, c]) == a + b + c
  {
    assert [a, b, c][1..] == [b, c];
    assert [b, c][1..] == [c];
    assert Concat([c]) == c;
  }

  /**
   * `${s.substring(0, n)}${s.length > n ? '...' : ''}`: the first n code units,
   * followed by three dots exactly when something was cut off.
   */
  function Preview(s: JsString, n: nat): (r: JsString)
    ensures |s| <= n ==> r == s
    ensures |s| > n ==> r == s[..n] + Ellipsis
  {
    SubstringPrefix(s, n);
    Substring(s, 0, n) + (if |s| > n then Ellipsis else [])
  }

  const Ellipsis: JsString := [Dot, Dot, Dot]

  const NoLabel: JsString := Utf16("No label")
  const NoPreviousContent: JsString := Utf16("No previous content")

  const AddSuccessHead: JsString := Utf16("\n\U{2705} <b>Successfully added tracking item!</b>\n\n<b>URL:</b> ")
  const AddSuccessXPath: JsString := Utf16("\n<b>XPath:</b> <code>")
  const AddSuccessLabel: JsString := Utf16("</code>\n<b>Label:</b> ")
  const AddSuccessContent: JsString := Utf16("\n<b>Current content:</b> ")
  const TemplateTail: JsString := [Newline, Tab]

  /** MESSAGES.ADD_SUCCESS(url, xpath, label, content). */
  function AddSuccess(url: JsString, xpath: JsString, labelText: Option<JsString>, content: JsString): (r: JsString)
    ensures AddSuccessHead + url + AddSuccessXPath + xpath <= r
  {
    var parts := [AddSuccessHead, url, AddSuccessXPath, xpath, AddSuccessLabel, OrElse(labelText, NoLabel),
                  AddSuccessContent, Preview(content, 200), TemplateTail];
    ConcatPrefix(parts, 4);
    assert parts[..4] == [AddSuccessHead, url, AddSuccessXPath, xpath];
    ConcatOfFour(AddSuccessHead, url, AddSuccessXPath, xpath);
    Concat(parts)
  }

  /**
   * The confirmation shows the URL and the selector verbatim, the label or
   * 'No label' when it is null or empty, and the content cut to 200 code
   * units with '...' exactly when it is longer.
   */
  lemma AddSuccessShows(url: JsString, xpath: JsString, labelText: Option<JsString>, content: JsString)
    ensures Contains(AddSuccess(url, xpath, labelText, content), url)
    ensures Contains(AddSuccess(url, xpath, labelText, content), xpath)
    ensures (labelText == None || labelText == Some([])) ==> Contains(AddSuccess(url, xpath, labelText, content), NoLabel)
    ensures (labelText.Some? && labelText.value != []) ==> Contains(AddSuccess(url, xpath, labelText, content), labelText.value)
    ensures |content| <= 200 ==> Contains(AddSuccess(url, xpath, labelText, content), content)
    ensures |content| > 200 ==> Contains(AddSuccess(url, xpath, labelText, content), content[..200] + Ellipsis)
  {
    var parts := [AddSuccessHead, url, AddSuccessXPath, xpath, AddSuccessLabel, OrElse(labelText, NoLabel),
                  AddSuccessContent, Preview(content, 200), TemplateTail];
    ConcatContains(parts, 1);
    ConcatContains(parts, 3);
    ConcatContains(parts, 5);
    ConcatContains(parts, 7);
  }

  const LimitHead: JsString := Utf16("\n\U{274C} <b>Limit reached!</b>\n\nYou can track at most ")
  const LimitTail: JsString := Utf16(" websites. Please delete some tracking items first using /delete command.\n\nUse /list to see your current tracking items.\n\t")

  /** MESSAGES.ADD_LIMIT_REACHED(limit). */
  function AddLimitReached(limit: int): (r: JsString)
    ensures LimitHead + NumberToString(limit) <= r
  {
    ConcatOfThree(LimitHead, NumberToString(limit), LimitTail);
    Concat([LimitHead, NumberToString(limit), LimitTail])
  }

  /** The limit is written into the text in decimal, and can be read back from it. */
  lemma AddLimitReachedShows(a: int, b: int)
    ensures Contains(AddLimitReached(a), NumberToString(a))
    ensures AddLimitReached(a) == AddLimitReached(b) <==> a == b
  {
    ConcatContains([LimitHead, NumberToString(a), LimitTail], 1);
    var ra, rb := AddLimitReached(a), AddLimitReached(b);
    var sa, sb := NumberToString(a), NumberToString(b);
    ConcatOfThree(LimitHead, sa, LimitTail);
    ConcatOfThree(LimitHead, sb, LimitTail);
    if ra == rb {
      assert |sa| == |sb|;
      assert sa == ra[|LimitHead|..|LimitHead| + |sa|];
      assert sb == rb[|LimitHead|..|LimitHead| + |sb|];
      NumberToStringInjective(a, b);
    }
  }

  const ChangedHead: JsString := Utf16("\n\U{1F514} <b>Content Changed!</b>\n\n<b>Website:</b> ")
  const ChangedUrl: JsString := Utf16("\n<b>URL:</b> ")
  const ChangedXPath: JsString := Utf16("\n<b>XPath:</b> <code>")
  const ChangedPrevious: JsString := Utf16("</code>\n\n<b>Previous content:</b>\n")
  const ChangedNew: JsString := Utf16("\n\n<b>New content:</b>\n")
  const ChangedUpdated: JsString := Utf16("\n\n<b>Updated:</b> ")

  /**
   * MESSAGES.CONTENT_CHANGED(label, url, xpath, oldContent, newContent); the
   * rendering of `new Date()` is passed in as `updated`.
   */
  function ContentChanged(labelText: JsString, url: JsString, xpath: JsString,
                          oldContent: Option<JsString>, newContent: JsString, updated: JsString): (r: JsString)
    ensures ChangedHead + labelText + ChangedUrl + url <= r
  {
    var parts := [ChangedHead, labelText, ChangedUrl, url, ChangedXPath, xpath,
                  ChangedPrevious, OrElse(oldContent, NoPreviousContent), ChangedNew, newContent,
                  ChangedUpdated, updated, TemplateTail];
    ConcatPrefix(parts, 4);
    assert parts[..4] == [ChangedHead, labelText, ChangedUrl, url];
    ConcatOfFour(ChangedHead, labelText, ChangedUrl, url);
    Concat(parts)
  }

  /**
   * The change notice carries label, URL, selector and new content verbatim
   * (no HTML escaping), and the previous content or, when that is null or
   * empty, 'No previous content'.
   */
  lemma ContentChangedShows(labelText: JsString, url: JsString, xpath: JsString,
                            oldContent: Option<JsString>, newContent: JsString, updated: JsString)
    ensures Contains(ContentChanged(labelText, url, xpath, oldContent, newContent, updated), labelText)
    ensures Contains(ContentChanged(labelText, url, xpath, oldContent, newContent, updated), url)
    ensures Contains(ContentChanged(labelText, url, xpath, oldContent, newContent, updated), xpath)
    ensures Contains(ContentChanged(labelText, url, xpath, oldContent, newContent, updated), newContent)
    ensures (oldContent.Some? && oldContent.value != []) ==>
              Contains(ContentChanged(labelText, url, xpath, oldContent, newContent, updated), oldContent.value)
    ensures (oldContent == None || oldContent == Some([])) ==>
              Contains(ContentChanged(labelText, url, xpath, oldContent, newContent, updated), NoPreviousContent)
  {
    var parts := [ChangedHead, labelText, ChangedUrl, url, ChangedXPath, xpath,
                  ChangedPrevious, OrElse(oldContent, NoPreviousContent), ChangedNew, newContent,
                  ChangedUpdated, updated, TemplateTail];
    ConcatContains(parts, 1);
    ConcatContains(parts, 3);
    ConcatContains(parts, 5);
    ConcatContains(parts, 7);
    ConcatContains(parts, 9);
  }
}
