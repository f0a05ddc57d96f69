/** The relay channel (src/gateway/gateway.gateway.ts:33-39): every broadcast
    is recorded, in order, as one event. Socket connections, the HTTP server
    and fan-out to subscribers are outside the model. */
module Relay {
  import opened Messages

  class Gateway {
    /** Everything broadcast so far, oldest first. */
    var events: seq<Event>

    constructor ()
      ensures events == []
    {
      events := [];
    }

    /** Broadcasts a `new_message` event. */
    method SendMessage(msg: MonitoredMessage)
      modifies this
      ensures events == old(events) + [NewMessage(msg)]
    {
      events := events + [NewMessage(msg)];
    }

    /** Broadcasts an `error` event. */
    method SendError(code: int, message: string)
      modifies this
      ensures events == old(events) + [ErrorEvent(code, message)]
    {
      events := events + [ErrorEvent(code, message)];
    }
  }
}
