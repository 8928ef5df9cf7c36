/**
 * The bridge envelope `{source, action, data}` that the page and the content
 * script exchange through `window.postMessage`, and the `{action, data}`
 * messages the content script exchanges with the background worker.
 */
module Messages {

  import opened Wrappers
  import opened Types

  /** Origin tag of envelopes the dashboard page posts. */
  const PageTag: string := "tabflow-page"
  /** Origin tag of envelopes the content script posts. */
  const ExtensionTag: string := "tabflow-extension"

  /** The `data` field: absent, a tab list, or a group list. */
  datatype Payload =
    | NoData
    | TabList(tabs: seq<Tab>)
    | GroupList(groups: seq<TabGroup>)

  /** A window message; an untagged message is one whose `source` matches neither tag. */
  datatype Envelope = Envelope(source: string, action: string, data: Payload)

  /** A `chrome.runtime` message between the content script and the background worker. */
  datatype RuntimeMessage = RuntimeMessage(action: string, data: Payload)

  /** The background worker's answer to a forwarded message; `tabs` is present only for `GET_TABS`. */
  datatype Reply = Reply(tabs: Option<seq<Tab>>)
}
