/** The states of a row on its way to ClickHouse, and the rules the ring applies to them. */
module RingStates {

  datatype Status = Pending | Inserting | Confirmed

  datatype Kind = Sample | Network

  datatype Stream = Events | NetworkLog | Control | AVMetrics

  function StreamOf(kind: Kind): Stream {
    match kind case Sample => Events case Network => NetworkLog
  }

  function MarkedInserting(s: Status): Status {
    if s == Pending then Inserting else s
  }

  function Reverted(s: Status): Status {
    if s == Inserting then Pending else s
  }

  /** Only confirmed rows age out; the others exist nowhere else. */
  predicate Evictable(s: Status, tsMs: int, cutoffMs: int) {
    s == Confirmed && tsMs < cutoffMs
  }

  /** A send that never blocks: the row is dropped when the channel is full. */
  function Offered<T>(queue: seq<T>, capacity: nat, x: T): seq<T> {
    if |queue| < capacity then queue + [x] else queue
  }
}
