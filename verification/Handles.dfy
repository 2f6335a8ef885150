/** The daemon's per-client outbound queue and subscription state, and the
    backpressure policy over it, one client as a value. */
module Handles {
  import opened Options
  import opened TerminalTypes

  type TerminalId = nat
  type ClientId = nat

  const CLIENT_QUEUE_CAPACITY: nat := 256
  const DELTA_HIGH_WATER: nat := 64
  const DELTA_LOW_WATER: nat := 8

  datatype Message =
    | DeltaMessage(terminal: TerminalId, delta: TerminalDelta)
    | ResyncMessage(terminal: TerminalId, snapshot: TerminalSnapshot)
    | AttachAck(terminal: TerminalId, snapshot: TerminalSnapshot)
    | OtherMessage(tag: nat)

  /** `open` is whether the writer still holds the receiving end. */
  datatype Handle = Handle(
    queue: seq<Message>,
    open: bool,
    subscriptions: set<TerminalId>,
    behind: set<TerminalId>,
    attaching: map<TerminalId, bool>,
    finished: map<TerminalId, TerminalSnapshot>)

  const FRESH: Handle := Handle([], true, {}, {}, map[], map[])

  predicate CanSend(h: Handle) {
    h.open && |h.queue| < CLIENT_QUEUE_CAPACITY
  }

  function Send(h: Handle, m: Message): (h': Handle)
    requires CanSend(h)
  {
    h.(queue := h.queue + [m])
  }

  function BeginAttach(h: Handle, t: TerminalId): (h': Handle) {
    h.(subscriptions := h.subscriptions + {t},
       behind := h.behind - {t},
       attaching := h.attaching[t := false])
  }

  predicate Missed(h: Handle, t: TerminalId) {
    t in h.attaching && h.attaching[t]
  }

  function FinishAttach(h: Handle, t: TerminalId): (h': Handle) {
    h.(attaching := h.attaching - {t},
       behind := if Missed(h, t) && t in h.subscriptions then h.behind + {t} else h.behind)
  }

  function Unsubscribe(h: Handle, t: TerminalId): (h': Handle) {
    h.(subscriptions := h.subscriptions - {t},
       behind := h.behind - {t},
       attaching := h.attaching - {t},
       finished := h.finished - {t})
  }

  /** One delta at one client: withheld while attaching, replaced by a resync
      once a lagging queue has drained, and dropped past the high-water mark. */
  function RouteDelta(h: Handle, t: TerminalId, delta: TerminalDelta, resync: TerminalSnapshot): (h': Handle) {
    if t !in h.subscriptions then h
    else if t in h.attaching then h.(attaching := h.attaching[t := true])
    else if t in h.behind then
      if |h.queue| > DELTA_LOW_WATER || !CanSend(h) then h
      else Send(h, ResyncMessage(t, resync)).(behind := h.behind - {t})
    else if |h.queue| >= DELTA_HIGH_WATER || !CanSend(h) then h.(behind := h.behind + {t})
    else Send(h, DeltaMessage(t, delta))
  }

  /** Whether routing builds the resync snapshot at all. */
  predicate WantsResync(h: Handle, t: TerminalId) {
    && t in h.subscriptions && t !in h.attaching && t in h.behind
    && |h.queue| <= DELTA_LOW_WATER
  }

  function RecoveryEvent(h: Handle, t: TerminalId, live: map<TerminalId, TerminalSnapshot>)
    : (e: Option<TerminalSnapshot>)
  {
    if t in h.finished then Some(h.finished[t]) else if t in live then Some(live[t]) else None
  }

  /** Settle one lagging terminal of a client with queue room. */
  function RecoverOne(h: Handle, t: TerminalId, live: map<TerminalId, TerminalSnapshot>): (h': Handle)
    requires CanSend(h)
  {
    var event := RecoveryEvent(h, t, live);
    var sent := if event.Some? then Send(h, ResyncMessage(t, event.value)) else h;
    sent.(behind := h.behind - {t}, finished := h.finished - {t})
  }

  /** The lagging terminals in some order, until the queue is past the
      low-water mark. A send that fails parks the event it carried. */
  function Recover(h: Handle, order: seq<TerminalId>, live: map<TerminalId, TerminalSnapshot>): (h': Handle)
    decreases |order|
  {
    if order == [] || |h.queue| > DELTA_LOW_WATER then h
    else if !CanSend(h) then
      var event := RecoveryEvent(h, order[0], live);
      if event.Some? then h.(finished := h.finished[order[0] := event.value])
      else Recover(h.(behind := h.behind - {order[0]}), order[1..], live)
    else Recover(RecoverOne(h, order[0], live), order[1..], live)
  }

  predicate IsOrderOf(order: seq<TerminalId>, ids: set<TerminalId>) {
    && (forall i, j :: 0 <= i < j < |order| ==> order[i] != order[j])
    && (forall i :: 0 <= i < |order| ==> order[i] in ids)
    && (forall t :: t in ids ==> t in order)
  }

  function FinishTerminal(h: Handle, t: TerminalId, last: TerminalSnapshot): (h': Handle) {
    if t in h.behind || Missed(h, t) then h.(finished := h.finished[t := last]) else h
  }

  predicate IsTerminalOutput(m: Message) {
    m.DeltaMessage? || m.ResyncMessage?
  }
}
