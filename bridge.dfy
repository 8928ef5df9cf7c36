/**
 * The page and the relay together. Both listen on the same window, so each
 * sees the other's posts and its own; the origin tags keep either from
 * reacting to its own posts.
 */
module Bridge {

  import opened Wrappers
  import opened Types
  import opened Messages
  import Relay
  import Dashboard

  /** Everything the relay posts to the window in reaction to one message of each kind. */
  function RelayPosts(e: Envelope, response: Option<Reply>, push: RuntimeMessage): seq<Envelope>
  {
    Relay.OnWindowMessage(e).toPage + Relay.OnForwardReply(response) + Relay.OnRuntimeMessage(push)
  }

  /**
   * No echo: every envelope the relay posts carries the extension tag, so the
   * page's filter lets it through and the relay's own listener ignores it.
   */
  lemma RelayNeverEchoes(e: Envelope, response: Option<Reply>, push: RuntimeMessage)
    ensures forall p :: p in RelayPosts(e, response, push) ==>
              p.source == ExtensionTag && Relay.OnWindowMessage(p) == Relay.NoEffects
  {
    var posts := RelayPosts(e, response, push);
    forall p | p in posts ensures p.source == ExtensionTag {
      assert p in Relay.OnWindowMessage(e).toPage || p in Relay.OnForwardReply(response) || p in Relay.OnRuntimeMessage(push);
    }
  }

  /**
   * The page receives its own posts too (it listens on the window it posts to);
   * since everything it posts carries the page tag, any of them leaves its
   * whole state unchanged.
   */
  method PageIgnoresOwnPost(app: Dashboard.App, k: nat)
    requires app.Valid() && k < |app.posted|
    modifies app
    ensures app.Valid()
    ensures app.tabs == old(app.tabs) && app.groups == old(app.groups) && app.isOrganizing == old(app.isOrganizing)
    ensures app.searchTerm == old(app.searchTerm) && app.connectionStatus == old(app.connectionStatus)
    ensures app.posted == old(app.posted)
  {
    var own := app.posted[k];
    assert own.source == PageTag;
    app.HandleMessage(own);
  }

  /**
   * The handshake: a heartbeat `PING` from the page is answered by the relay
   * with `PONG`; the page marks the bridge connected and asks for the tabs;
   * the relay forwards `GET_TABS`, and the background worker's reply comes
   * back as a `TABS_UPDATE` that becomes the page's tab list. Along the way
   * each side also receives its own post and ignores it. The worker's reply
   * is the parameter `snapshot`.
   */
  method Handshake(snapshot: seq<Tab>) returns (app: Dashboard.App)
    ensures fresh(app) && app.Valid()
    ensures app.connectionStatus == Dashboard.Connected && app.tabs == snapshot
    ensures app.posted == [Envelope(PageTag, "PING", NoData), Envelope(PageTag, "GET_TABS", NoData)]
  {
    app := new Dashboard.App();
    app.Heartbeat();
    var ping := app.posted[0];
    app.HandleMessage(ping);
    assert app.connectionStatus == Dashboard.Disconnected;

    var answer := Relay.OnWindowMessage(ping);
    assert answer == Relay.Effects([Relay.Pong], []);
    var pong := answer.toPage[0];
    assert Relay.OnWindowMessage(pong) == Relay.NoEffects;
    app.HandleMessage(pong);

    var getTabs := app.posted[1];
    app.HandleMessage(getTabs);
    var forwarded := Relay.OnWindowMessage(getTabs);
    assert forwarded.toBackground == [RuntimeMessage("GET_TABS", NoData)];

    var update := Relay.OnForwardReply(Some(Reply(Some(snapshot))));
    assert Relay.OnWindowMessage(update[0]) == Relay.NoEffects;
    app.HandleMessage(update[0]);
  }
}
