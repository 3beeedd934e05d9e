/** The local message record and its expiry rule (dispatch_fs.py). */
module Messages {

  datatype Option<+T> = None | Some(value: T)

  datatype State = Pending | Read | Expired

  /** `_via`: absent on a locally sent message, else the bridge it arrived over. */
  datatype Via = Local | Git | NativeBridge

  /** One inbox message. `timestamp`, `readAt` and `expiredAt` are epoch seconds with 0
      for an unreadable or absent value; `ttl` 0 stands for "never expires". */
  datatype Msg = Msg(
    id: string, from_: string, to: string, timestamp: int, ttl: int, mustRead: bool,
    thread: Option<string>, content: string, state: State, readAt: int, expiredAt: int, via: Via,
    inheritedFrom: Option<string>)

  predicate Bridged(m: Msg) { m.via != Local }

  predicate IsExpired(m: Msg, now: real) {
    && m.ttl > 0 && !m.mustRead
    && m.timestamp > 0
    && now > (m.timestamp + m.ttl) as real
  }

  /** What `iter_pending` yields: pending and unexpired. */
  predicate Waiting(m: Msg, now: real) {
    m.state == Pending && !IsExpired(m, now)
  }

  const TOMBSTONE_PREVIEW := 120

  /** `_tombstone`: a preview kept for the sender's receipt, with no time to live any more. */
  function Tombstone(m: Msg, now: int): Msg {
    m.(content := if |m.content| <= TOMBSTONE_PREVIEW then m.content else m.content[..TOMBSTONE_PREVIEW],
       state := Expired, expiredAt := now, ttl := 0, mustRead := false, readAt := 0, via := Local,
       inheritedFrom := None)
  }

  /** `_mark_read` on one message. */
  function Marked(m: Msg, now: int): Msg {
    if m.state == Pending then m.(state := Read, readAt := now) else m
  }
}
