/**
 * The connection to the local Janus gateway (`JanusConn` in janus.py): whether
 * it is connected, relaying a message to Janus, and shutting down.
 *
 * The websocket client lives in another module of the plugin; here it is an
 * object that is connected or not, keeps the messages sent through it in order,
 * and records that it was asked to close.
 */
module JanusConnection {

  class WebSocket {
    var isConnected: bool
    var closed: bool
    var sent: seq<string>

    constructor (isConnected: bool)
      ensures this.isConnected == isConnected && !closed && sent == []
    {
      this.isConnected := isConnected;
      closed := false;
      sent := [];
    }

    predicate Connected()
      reads this
    {
      isConnected
    }

    method Send(msg: string)
      modifies this
      ensures sent == old(sent) + [msg]
      ensures isConnected == old(isConnected) && closed == old(closed)
    {
      sent := sent + [msg];
    }

    method Close()
      modifies this
      ensures closed && !isConnected
      ensures sent == old(sent)
    {
      closed := true;
      isConnected := false;
    }
  }

  class JanusConn {
    const janusServer: string
    var janusWs: WebSocket?
    var shuttingDown: bool

    constructor (janusServer: string)
      ensures this.janusServer == janusServer
      ensures janusWs == null && !shuttingDown
      ensures !Connected()
    {
      this.janusServer := janusServer;
      janusWs := null;
      shuttingDown := false;
    }

    /** `connected()`: there is a websocket and it reports itself connected. */
    predicate Connected(): (b: bool)
      reads this, janusWs
      ensures b ==> janusWs != null && janusWs.isConnected
      ensures janusWs == null ==> !b
    {
      janusWs != null && janusWs.Connected()
    }

    /** `pass_to_janus`: the message goes out on the websocket when connected, and is dropped otherwise. */
    method PassToJanus(msg: string)
      modifies janusWs
      ensures janusWs == old(janusWs) && shuttingDown == old(shuttingDown)
      ensures janusWs != null ==> janusWs.isConnected == old(janusWs.isConnected)
      ensures janusWs != null ==> janusWs.closed == old(janusWs.closed)
      ensures janusWs != null ==>
        janusWs.sent == if old(Connected()) then old(janusWs.sent) + [msg] else old(janusWs.sent)
    {
      if Connected() {
        janusWs.Send(msg);
      }
    }

    /**
     * `shutdown`: marks the connection as shutting down, closes the websocket if
     * there is one and drops it, so that the connection no longer reports itself
     * connected.
     */
    method Shutdown()
      modifies this, janusWs
      ensures shuttingDown && janusWs == null && !Connected()
      ensures old(janusWs) != null ==> old(janusWs).closed && old(janusWs).sent == old(janusWs.sent)
    {
      shuttingDown := true;
      if janusWs != null {
        janusWs.Close();
      }
      janusWs := null;
    }
  }

  /** After shutdown a message passed to Janus goes out on no websocket: the one in use before keeps what it had sent. */
  method ShutdownThenPass(c: JanusConn, msg: string)
    modifies c, c.janusWs
    ensures c.janusWs == null && c.shuttingDown && !c.Connected()
    ensures old(c.janusWs) != null ==> old(c.janusWs).sent == old(c.janusWs.sent)
  {
    c.Shutdown();
    c.PassToJanus(msg);
  }
}
