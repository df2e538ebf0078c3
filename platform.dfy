/**
 * What the worker relies on but does not define: the network as seen by a
 * page fetch, the DOM and XPath libraries, the rendering of dates, and the
 * WHATWG URL parser used as a validity check.
 */
module Platform {
  import opened Js
  import opened Extractor

  datatype World<!N> = World(
    /** The outcome of a page request at a clock value. */
    page: (PageRequest, nat) -> FetchOutcome,
    dom: Dom<N>,
    /** `new Date(...).toLocaleString()` of a clock value. */
    showTime: nat -> JsString,
    /** True when `new URL(text)` does not throw. */
    isUrl: JsString -> bool)
}
