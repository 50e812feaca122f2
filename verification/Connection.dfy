/** The per-connection record of the WebSocket gateway and the transitions that its
    handlers apply to it.  Times are integers (nanoseconds); "" is "no ping outstanding". */
module Connection {

  datatype Conn = Conn(remoteIP: string, lastActiveAt: int, pingNonce: string, pingSentAt: int) {

    predicate Outstanding() {
      pingNonce != ""
    }

    /** Activity: any heartbeat or chat message from the peer. */
    function Touched(now: int): Conn {
      this.(lastActiveAt := now)
    }

    /** A ping is skipped while an earlier one is unanswered; otherwise it installs the
        nonce and also counts as activity. */
    function Pinged(nonce: string, now: int): Conn {
      if Outstanding() then this
      else this.(pingNonce := nonce, pingSentAt := now, lastActiveAt := now)
    }

    /** Any pong counts as activity; only one that carries the stored nonce clears it. */
    function Ponged(nonce: string, now: int): Conn {
      if pingNonce == nonce then Touched(now).(pingNonce := "") else Touched(now)
    }

    predicate IdleBeyond(limit: int, now: int) {
      now - lastActiveAt > limit
    }
  }

  function Admitted(remoteIP: string, now: int): Conn {
    Conn(remoteIP, now, "", 0)
  }
}
