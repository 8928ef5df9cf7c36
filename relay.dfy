/**
 * The content script: a stateless relay between the page's window messages and
 * the background worker. Each listener is a function from the incoming message
 * to the messages it sends out.
 */
module Relay {

  import opened Wrappers
  import opened Messages

  /** What one incoming message makes the relay send: to the page's window and to the background worker. */
  datatype Effects = Effects(toPage: seq<Envelope>, toBackground: seq<RuntimeMessage>)

  const NoEffects: Effects := Effects([], [])

  const Pong: Envelope := Envelope(ExtensionTag, "PONG", NoData)

  /**
   * The window `message` listener. Envelopes not tagged by the page produce
   * nothing; `PING` is answered with one `PONG` to the page and never reaches
   * the background; any other action is forwarded as `{action, data}` unchanged,
   * without its tag.
   */
  function OnWindowMessage(e: Envelope): (r: Effects)
    ensures r == NoEffects <==> e.source != PageTag
    ensures |r.toPage| + |r.toBackground| <= 1
    ensures forall p :: p in r.toPage ==> p.source == ExtensionTag
    ensures r.toPage != [] <==> e.source == PageTag && e.action == "PING"
    ensures r.toPage != [] ==> r.toPage == [Pong]
    ensures r.toBackground != [] <==> e.source == PageTag && e.action != "PING"
    ensures forall m :: m in r.toBackground ==> m.action == e.action && m.data == e.data
  {
    if e.source != PageTag then NoEffects
    else if e.action == "PING" then Effects([Pong], [])
    else Effects([], [RuntimeMessage(e.action, e.data)])
  }

  /**
   * The `sendMessage` callback: a reply that carries `tabs` (even an empty
   * list) is posted to the page as one `TABS_UPDATE` with exactly those tabs;
   * a reply without `tabs`, or no reply, posts nothing.
   */
  function OnForwardReply(response: Option<Reply>): (r: seq<Envelope>)
    ensures |r| <= 1
    ensures r != [] <==> response.Some? && response.value.tabs.Some?
    ensures r != [] ==> r[0] == Envelope(ExtensionTag, "TABS_UPDATE", TabList(response.value.tabs.value))
  {
    match response
    case Some(Reply(Some(tabs))) => [Envelope(ExtensionTag, "TABS_UPDATE", TabList(tabs))]
    case _ => []
  }

  /**
   * The `chrome.runtime.onMessage` listener: a background `TABS_UPDATE` push is
   * re-posted to the page with identical data; other actions are ignored.
   */
  function OnRuntimeMessage(m: RuntimeMessage): (r: seq<Envelope>)
    ensures |r| <= 1
    ensures r != [] <==> m.action == "TABS_UPDATE"
    ensures r != [] ==> r[0] == Envelope(ExtensionTag, "TABS_UPDATE", m.data)
  {
    if m.action == "TABS_UPDATE" then [Envelope(ExtensionTag, "TABS_UPDATE", m.data)] else []
  }
}
