/**
 * ContentExtractor: the fingerprint of extracted text (hashContent) and the
 * fetch / parse / select fallback chain that turns a page into text or null
 * (extractContent). The network, the DOM parser and the XPath engine are
 * parameters: a FetchOutcome value and a Dom record of functions.
 */
module Extractor {
  import opened Js
  import Constants

  // ---------------------------------------------------------------------
  // hashContent

  /** The fingerprint as a number: the left fold of h := ToInt32(31 * h + c) from 0. */
  function Fold(s: JsString): (r: int)
    ensures IsInt32(r)
    decreases |s|
  {
    if s == [] then 0 else ToInt32(31 * Fold(s[..|s| - 1]) + s[|s| - 1])
  }

  /**
   * The value hashContent returns: the Number 0 for the empty string, and
   * otherwise the decimal String of the fold.
   */
  function HashContent(s: JsString): (r: JsValue)
    ensures r.Number? <==> s == []
    ensures r.Number? ==> r.n == 0
  {
    if s == [] then Number(0) else Str(NumberToString(Fold(s)))
  }

  /** `((h << 5) - h) + c` is congruent to 31 * h + c modulo 2^32, for a 32-bit h. */
  lemma ShiftStep(h: int, c: int)
    requires IsInt32(h)
    ensures ToInt32(LeftShift(h, 5) - h + c) == ToInt32(31 * h + c)
  {
    ToInt32OfInt32(h);
    assert Pow2(5) == 32;
    var s := LeftShift(h, 5);
    assert s == ToInt32(32 * h);
    assert (s - 32 * h) % TwoTo32 == 0;
    assert (s - h + c) - (31 * h + c) == s - 32 * h;
    ToInt32Congruent(s - h + c, 31 * h + c);
  }

  /** hashContent(content), as the source computes it, with its `for` loop. */
  method ComputeHash(content: JsString) returns (r: JsValue)
    ensures r == HashContent(content)
  {
    var hash := 0;
    if |content| == 0 {
      return Number(hash);
    }
    for i := 0 to |content|
      invariant hash == Fold(content[..i])
    {
      FoldSnoc(content, i);
      hash := HashTurn(hash, content[i]);
    }
    FoldWhole(content);
    r := Str(NumberToString(hash));
  }

  /** The two statements of the loop body, which keep the running hash a 32-bit value. */
  method HashTurn(hash: int, ch: CodeUnit) returns (next: int)
    requires IsInt32(hash)
    ensures next == ToInt32(31 * hash + ch)
  {
    // Number arithmetic is exact here: every value stays below 2^53.
    next := LeftShift(hash, 5) - hash + ch;
    ShiftStep(hash, ch);
    BitAndSelf(next);
    next := BitAnd(next, next);
  }

  lemma FoldSnoc(content: JsString, i: nat)
    requires i < |content|
    ensures Fold(content[..i + 1]) == ToInt32(31 * Fold(content[..i]) + content[i])
  {
    assert content[..i + 1][..i] == content[..i];
  }

  lemma FoldWhole(content: JsString)
    ensures Fold(content[..|content|]) == Fold(content)
  {
    assert content[..|content|] == content;
  }

  /** The polynomial sum of c[i] * 31^(n-1-i), in Horner form, with no truncation. */
  function Horner31(s: JsString): int
    decreases |s|
  {
    if s == [] then 0 else 31 * Horner31(s[..|s| - 1]) + s[|s| - 1]
  }

  /**
   * The fingerprint is the polynomial hash of the code units reduced to a
   * signed 32-bit value: truncating at every step or once at the end agree.
   */
  lemma {:induction false} FoldIsTruncatedPolynomial(s: JsString)
    ensures Fold(s) == ToInt32(Horner31(s))
    decreases |s|
  {
    if s != [] {
      var p := s[..|s| - 1];
      var c := s[|s| - 1];
      FoldIsTruncatedPolynomial(p);
      var f := Fold(p);
      var h := Horner31(p);
      var q := (f - h) / TwoTo32;
      assert f - h == q * TwoTo32;
      DivModUnique((31 * f + c) - (31 * h + c), TwoTo32, 31 * q, 0);
      ToInt32Congruent(31 * f + c, 31 * h + c);
    }
  }

  /**
   * Two contents have equal fingerprints exactly when both are empty, or
   * both are non-empty and their folds agree. In particular the Number 0 of
   * the empty string never equals the String "0".
   */
  lemma HashContentEqual(a: JsString, b: JsString)
    ensures HashContent(a) == HashContent(b) <==>
              (a == [] && b == []) || (a != [] && b != [] && Fold(a) == Fold(b))
  {
    if a != [] && b != [] {
      NumberToStringInjective(Fold(a), Fold(b));
    }
  }

  // ---------------------------------------------------------------------
  // Text assembly

  /** `n.textContent?.trim() || ''`: a node's trimmed text, '' when it has none. */
  function Fragment(text: Option<JsString>): JsString {
    if text.Some? then Trim(text.value) else []
  }

  function Fragments(texts: seq<Option<JsString>>): (r: seq<JsString>)
    ensures |r| == |texts|
    ensures forall k :: 0 <= k < |r| ==> r[k] == Fragment(texts[k])
  {
    seq(|texts|, k requires 0 <= k < |texts| => Fragment(texts[k]))
  }

  /** `.filter(text => text.length > 0)`. */
  function NonEmpty(fs: seq<JsString>): (r: seq<JsString>)
    ensures forall k :: 0 <= k < |r| ==> r[k] != []
    ensures r == [] <==> forall k :: 0 <= k < |fs| ==> fs[k] == []
    decreases |fs|
  {
    if fs == [] then []
    else if fs[0] == [] then NonEmpty(fs[1..])
    else [fs[0]] + NonEmpty(fs[1..])
  }

  /** `nodes.map(n => n.textContent?.trim() || '').filter(text => text.length > 0).join(' ')`. */
  function AssembleText(texts: seq<Option<JsString>>): JsString {
    Join(NonEmpty(Fragments(texts)), [Space])
  }

  /**
   * The same text built one fragment at a time: an empty fragment is
   * dropped, and any other is put in front of the rest with exactly one
   * space between them when the rest is not empty.
   */
  function Assembled(fs: seq<JsString>): JsString
    decreases |fs|
  {
    if fs == [] then []
    else
      var rest := Assembled(fs[1..]);
      if fs[0] == [] then rest else if rest == [] then fs[0] else fs[0] + [Space] + rest
  }

  lemma {:induction false} JoinNonEmptyIsAssembled(fs: seq<JsString>)
    ensures Join(NonEmpty(fs), [Space]) == Assembled(fs)
    decreases |fs|
  {
    if fs != [] {
      JoinNonEmptyIsAssembled(fs[1..]);
      var tail := NonEmpty(fs[1..]);
      if fs[0] != [] {
        assert NonEmpty(fs) == [fs[0]] + tail;
        if tail != [] {
          assert ([fs[0]] + tail)[1..] == tail;
        }
        JoinEmptyIff(tail);
      }
    }
  }

  lemma AssembleTextIsAssembled(texts: seq<Option<JsString>>)
    ensures AssembleText(texts) == Assembled(Fragments(texts))
  {
    JoinNonEmptyIsAssembled(Fragments(texts));
  }

  /** Joining non-empty pieces gives the empty string only when there are none. */
  lemma JoinEmptyIff(parts: seq<JsString>)
    requires forall k :: 0 <= k < |parts| ==> parts[k] != []
    ensures Join(parts, [Space]) == [] <==> parts == []
  {
  }

  /**
   * The extracted text is empty exactly when every selected node has no
   * text or only white space: an empty string, which is a value and not null.
   */
  lemma AssembleTextEmptyIff(texts: seq<Option<JsString>>)
    ensures AssembleText(texts) == [] <==> forall k :: 0 <= k < |texts| ==> Fragment(texts[k]) == []
  {
    var fs := Fragments(texts);
    JoinEmptyIff(NonEmpty(fs));
    assert (forall k :: 0 <= k < |fs| ==> fs[k] == []) <==>
           (forall k :: 0 <= k < |texts| ==> Fragment(texts[k]) == []);
  }

  /** The extracted text neither starts nor ends with white space. */
  lemma AssembleTextIsTrimmed(texts: seq<Option<JsString>>)
    ensures var r := AssembleText(texts); r != [] ==> !IsWhite(r[0]) && !IsWhite(r[|r| - 1])
  {
    var fs := Fragments(texts);
    AssembleTextIsAssembled(texts);
    forall k | 0 <= k < |fs| ensures TrimmedEnds(fs[k]) {
      FragmentIsTrimmed(texts[k]);
    }
    AssembledIsTrimmed(fs);
  }

  lemma {:induction false} AssembledIsTrimmed(fs: seq<JsString>)
    requires forall k :: 0 <= k < |fs| ==> TrimmedEnds(fs[k])
    ensures TrimmedEnds(Assembled(fs))
    decreases |fs|
  {
    if fs != [] {
      AssembledIsTrimmed(fs[1..]);
      CombinedIsTrimmed(fs[0], Assembled(fs[1..]));
    }
  }

  predicate TrimmedEnds(r: JsString) {
    r != [] ==> !IsWhite(r[0]) && !IsWhite(r[|r| - 1])
  }

  lemma FragmentIsTrimmed(text: Option<JsString>)
    ensures TrimmedEnds(Fragment(text))
  {
    if text.Some? {
      var r := Trim(text.value);
      assert r != [] ==> !IsWhite(r[0]) && !IsWhite(r[|r| - 1]);
    }
  }

  lemma CombinedIsTrimmed(f: JsString, rest: JsString)
    requires TrimmedEnds(f) && TrimmedEnds(rest)
    ensures TrimmedEnds(if f == [] then rest else if rest == [] then f else f + [Space] + rest)
  {
    if f != [] && rest != [] {
      var r := f + [Space] + rest;
      assert r[0] == f[0] && r[|r| - 1] == rest[|rest| - 1];
    }
  }

  // ---------------------------------------------------------------------
  // extractContent

  /**
   * What the page fetch comes to, once the request has raced the timeout:
   * an OK response with its body text, a response whose `ok` is false, or a
   * thrown error (network failure, 'Request timeout', failing `text()`).
   */
  datatype FetchOutcome = Ok(body: JsString) | NotOk(status: int) | Throws(message: JsString)

  /** The page request: its URL, the User-Agent header, and the timeout the response is raced against. */
  datatype PageRequest = PageRequest(url: JsString, userAgent: JsString, timeoutMs: nat)

  /** `fetch(url, { headers: { 'User-Agent': CONFIG.USER_AGENT } })` under `withTimeout(..., CONFIG.REQUEST_TIMEOUT)`. */
  function RequestFor(url: JsString): PageRequest {
    PageRequest(url, Constants.UserAgent, Constants.RequestTimeoutMs)
  }

  datatype MimeType = TextHtml | ApplicationXml

  /**
   * The DOM parser and the XPath engine, as functions of their inputs:
   * `parseFromString(text, mime)`, `xpath.select(selector, node)` (its
   * node-set results only), `node.textContent` (null for a document) and
   * `document.documentElement` (null when there is no root element).
   */
  datatype Dom<!N> = Dom(
    parse: (JsString, MimeType) -> Completion<N>,
    select: (JsString, N) -> Completion<seq<N>>,
    textContent: N -> Option<JsString>,
    documentElement: N -> Option<N>)

  function Texts<N>(dom: Dom<N>, nodes: seq<N>): (r: seq<Option<JsString>>)
    ensures |r| == |nodes|
    ensures forall k :: 0 <= k < |r| ==> r[k] == dom.textContent(nodes[k])
  {
    seq(|nodes|, k requires 0 <= k < |nodes| => dom.textContent(nodes[k]))
  }

  /** The text of the selected nodes, or null when none were selected. */
  function Matched<N>(dom: Dom<N>, nodes: seq<N>): (r: Option<JsString>)
    ensures r.None? <==> nodes == []
    ensures r.Some? ==> TrimmedEnds(r.value)
  {
    if |nodes| == 0 then None
    else
      AssembleTextIsTrimmed(Texts(dom, nodes));
      Some(AssembleText(Texts(dom, nodes)))
  }

  /**
   * extractContent(url, xpathSelector) once the fetch has produced
   * `fetched`: every thrown error, a non-OK status included, becomes null.
   */
  function Extract<N>(fetched: FetchOutcome, dom: Dom<N>, selector: JsString): (r: Option<JsString>)
    ensures r.Some? ==> fetched.Ok? && TrimmedEnds(r.value)
  {
    match fetched
    case NotOk(_) => None
    case Throws(_) => None
    case Ok(body) =>
      match dom.parse(body, TextHtml)
      case Abrupt(_) => None
      case Normal(htmlDoc) =>
        match dom.select(selector, htmlDoc)
        case Abrupt(_) => None
        case Normal(htmlNodes) =>
          if |htmlNodes| > 0 then Matched(dom, htmlNodes)
          else
            match dom.parse(body, ApplicationXml)
            case Abrupt(_) => None
            case Normal(xmlDoc) =>
              match dom.select(selector, xmlDoc)
              case Abrupt(_) => None
              case Normal(xmlNodes) =>
                if |xmlNodes| > 0 then Matched(dom, xmlNodes)
                else
                  match dom.documentElement(xmlDoc)
                  case None => None
                  case Some(root) =>
                    match dom.select(selector, root)
                    case Abrupt(_) => None
                    case Normal(rootNodes) => Matched(dom, rootNodes)
  }

  // The same chain, as an ordered list of strategies tried until one selects nodes.

  /** Select against the document parsed as HTML. */
  function HtmlAttempt<N>(body: JsString, dom: Dom<N>, selector: JsString): Completion<seq<N>> {
    match dom.parse(body, TextHtml)
    case Abrupt(e) => Abrupt(e)
    case Normal(d) => dom.select(selector, d)
  }

  /** Select against the document parsed as XML. */
  function XmlAttempt<N>(body: JsString, dom: Dom<N>, selector: JsString): Completion<seq<N>> {
    match dom.parse(body, ApplicationXml)
    case Abrupt(e) => Abrupt(e)
    case Normal(d) => dom.select(selector, d)
  }

  /** Select against the XML document's root element; no root selects nothing. */
  function RootAttempt<N>(body: JsString, dom: Dom<N>, selector: JsString): Completion<seq<N>> {
    match dom.parse(body, ApplicationXml)
    case Abrupt(e) => Abrupt(e)
    case Normal(d) =>
      match dom.documentElement(d)
      case None => Normal([])
      case Some(root) => dom.select(selector, root)
  }

  /**
   * The first attempt that selects at least one node, trying them in order:
   * an error stops the search, and when every attempt selects nothing the
   * result is the empty selection.
   */
  function FirstMatch<N>(attempts: seq<Completion<seq<N>>>): (r: Completion<seq<N>>)
    ensures r.Normal? && r.value != [] ==> r in attempts
    ensures r.Normal? && r.value == [] ==> forall k :: 0 <= k < |attempts| ==> attempts[k] == Normal([])
    ensures r != Normal([]) ==>
              exists k :: 0 <= k < |attempts| && attempts[k] == r &&
                          forall j :: 0 <= j < k ==> attempts[j] == Normal([])
    decreases |attempts|
  {
    if attempts == [] then Normal([])
    else match attempts[0]
      case Abrupt(e) => Abrupt(e)
      case Normal(nodes) => if |nodes| > 0 then Normal(nodes) else FirstMatch(attempts[1..])
  }

  function Strategies<N>(body: JsString, dom: Dom<N>, selector: JsString): seq<Completion<seq<N>>> {
    [HtmlAttempt(body, dom, selector), XmlAttempt(body, dom, selector), RootAttempt(body, dom, selector)]
  }

  /**
   * The nested conditionals of extractContent are the ordered search over
   * HTML, XML and root-element selection: the result is the text of the
   * first non-empty selection, and null when an attempt throws before one
   * is found or when all three select nothing.
   */
  lemma ExtractIsFirstMatch<N>(body: JsString, dom: Dom<N>, selector: JsString)
    ensures Extract(Ok(body), dom, selector) ==
              match FirstMatch(Strategies(body, dom, selector))
              case Abrupt(_) => None
              case Normal(nodes) => Matched(dom, nodes)
  {
    var a := Strategies(body, dom, selector);
    assert a[1..] == [a[1], a[2]];
    assert a[1..][1..] == [a[2]];
    assert a[1..][1..][1..] == [];
    match dom.parse(body, TextHtml)
    case Abrupt(_) =>
    case Normal(htmlDoc) =>
      match dom.select(selector, htmlDoc)
      case Abrupt(_) =>
      case Normal(htmlNodes) =>
        if |htmlNodes| == 0 {
          assert FirstMatch(a) == FirstMatch(a[1..]);
          match dom.parse(body, ApplicationXml)
          case Abrupt(_) =>
          case Normal(xmlDoc) =>
            match dom.select(selector, xmlDoc)
            case Abrupt(_) =>
            case Normal(xmlNodes) =>
              if |xmlNodes| == 0 {
                assert FirstMatch(a[1..]) == FirstMatch(a[1..][1..]);
                match dom.documentElement(xmlDoc)
                case None =>
                case Some(root) =>
              }
        }
  }

  /**
   * extractContent is null exactly when the fetch failed, an attempt threw
   * before any selected nodes, or all three attempts selected nothing.
   */
  lemma ExtractNullIff<N>(fetched: FetchOutcome, dom: Dom<N>, selector: JsString)
    ensures Extract(fetched, dom, selector) == None <==>
              !fetched.Ok? ||
              FirstMatch(Strategies(fetched.body, dom, selector)).Abrupt? ||
              FirstMatch(Strategies(fetched.body, dom, selector)) == Normal([])
  {
    if fetched.Ok? {
      ExtractIsFirstMatch(fetched.body, dom, selector);
    }
  }

  /**
   * extractContent returns the empty string exactly when some attempt
   * selected nodes and none of them had non-blank text.
   */
  lemma ExtractEmptyIff<N>(body: JsString, dom: Dom<N>, selector: JsString)
    ensures Extract(Ok(body), dom, selector) == Some([]) <==>
              var m := FirstMatch(Strategies(body, dom, selector));
              m.Normal? && m.value != [] &&
              forall k :: 0 <= k < |m.value| ==> Fragment(dom.textContent(m.value[k])) == []
  {
    ExtractIsFirstMatch(body, dom, selector);
    var m := FirstMatch(Strategies(body, dom, selector));
    if m.Normal? && m.value != [] {
      AssembleTextEmptyIff(Texts(dom, m.value));
    }
  }
}
