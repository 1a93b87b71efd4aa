/** One registered connection: a bounded outbox drained by one writer (internal/services/wsmanager.go). */
module FanoutEntry {
  import opened LiveRows

  const OUTBOX_SIZE := 256

  datatype Conn = Socket(id: nat)

  /** A delta names the consumed row it carries by its place in consume order. */
  datatype Msg = Delta(index: nat) | Bootstrap(rows: Rows) | Heartbeat

  /** One attempt to enqueue, and whether the outbox took the message. */
  datatype Offer = Offer(msg: Msg, accepted: bool)

  /** Where the writer goroutine is. After a failed write it disconnects, closes the socket and returns; `lost` is
      the message whose write failed. */
  datatype Pump = Idle | Writing(msg: Msg) | Failed(msg: Msg) | Leaving(msg: Msg) | Exited(lost: seq<Msg>)

  datatype Entry = Entry(conn: Conn, subs: set<string>, queue: seq<Msg>, closed: bool, pump: Pump,
                         written: seq<Msg>, log: seq<Offer>)

  function NewEntry(conn: Conn, subs: set<string>): Entry { Entry(conn, subs, [], false, Idle, [], []) }

  /** The message taken off the outbox and not yet, or never, written. */
  function InFlight(p: Pump): seq<Msg> {
    match p
    case Idle => []
    case Exited(lost) => lost
    case _ => [p.msg]
  }

  function Accepted(log: seq<Offer>): seq<Msg> {
    if log == [] then []
    else Accepted(log[..|log| - 1]) + (if log[|log| - 1].accepted then [log[|log| - 1].msg] else [])
  }

  function Rejected(log: seq<Offer>): nat {
    if log == [] then 0 else Rejected(log[..|log| - 1]) + (if log[|log| - 1].accepted then 0 else 1)
  }

  lemma {:induction false} OfferedIsAcceptedOrRejected(log: seq<Offer>)
    ensures |log| == |Accepted(log)| + Rejected(log)
  {
    if log != [] { OfferedIsAcceptedOrRejected(log[..|log| - 1]); }
  }

  // ------------------------------------------------------------- what can happen to one entry

  /** The select in enqueue: a full outbox rejects; an open one with room accepts; a closed one with room may do
      either. */
  predicate MayOffer(e: Entry, accepted: bool) {
    if accepted then |e.queue| < OUTBOX_SIZE else |e.queue| >= OUTBOX_SIZE || e.closed
  }

  function Offered(e: Entry, m: Msg, accepted: bool): Entry {
    e.(log := e.log + [Offer(m, accepted)], queue := if accepted then e.queue + [m] else e.queue)
  }

  function Taken(e: Entry): Entry
    requires e.queue != []
  {
    e.(queue := e.queue[1..], pump := Writing(e.queue[0]))
  }

  function Wrote(e: Entry): Entry
    requires e.pump.Writing?
  {
    e.(pump := Idle, written := e.written + [e.pump.msg])
  }

  function Left(e: Entry): Entry { e.(pump := Exited(InFlight(e.pump))) }

  /** Accepted messages are the written ones, then the one in flight or lost, then the queued ones, in order. */
  predicate Conserves(e: Entry) {
    Accepted(e.log) == e.written + InFlight(e.pump) + e.queue && |e.queue| <= OUTBOX_SIZE
  }

  lemma OfferConserves(e: Entry, m: Msg, accepted: bool)
    requires Conserves(e) && MayOffer(e, accepted)
    ensures Conserves(Offered(e, m, accepted))
  {
    assert (e.log + [Offer(m, accepted)])[..|e.log|] == e.log;
  }

  lemma TakeConserves(e: Entry)
    requires Conserves(e) && e.queue != [] && e.pump.Idle?
    ensures Conserves(Taken(e))
  {
    assert e.queue == [e.queue[0]] + e.queue[1..];
  }

  lemma WriteConserves(e: Entry)
    requires Conserves(e) && e.pump.Writing?
    ensures Conserves(Wrote(e))
    ensures Conserves(e.(pump := Failed(e.pump.msg)))
  {
  }

  // ------------------------------------------------------------- order

  /** The deltas of a log, oldest first, are in consume order, each once, and below `limit`. */
  predicate Rising(log: seq<Offer>, limit: int) {
    && (forall i :: 0 <= i < |log| && log[i].msg.Delta? ==> log[i].msg.index < limit)
    && forall i, j :: 0 <= i < j < |log| && log[i].msg.Delta? && log[j].msg.Delta? ==> log[i].msg.index < log[j].msg.index
  }

  lemma RisingOffer(log: seq<Offer>, limit: int, o: Offer, limit': int)
    requires Rising(log, limit) && limit <= limit' && (o.msg.Delta? ==> limit <= o.msg.index < limit')
    ensures Rising(log + [o], limit')
  {
  }

  predicate InOrder(ms: seq<Msg>) {
    forall i, j :: 0 <= i < j < |ms| && ms[i].Delta? && ms[j].Delta? ==> ms[i].index < ms[j].index
  }

  lemma {:induction false} AcceptedInLog(log: seq<Offer>, k: nat) returns (i: nat)
    requires k < |Accepted(log)|
    ensures i < |log| && log[i] == Offer(Accepted(log)[k], true)
  {
    var n := |log| - 1;
    if k < |Accepted(log[..n])| { i := AcceptedInLog(log[..n], k); } else { i := n; }
  }

  lemma {:induction false} AcceptedInOrder(log: seq<Offer>, limit: int)
    requires Rising(log, limit)
    ensures InOrder(Accepted(log))
  {
    if log != [] {
      var n := |log| - 1;
      var prior := Accepted(log[..n]);
      AcceptedInOrder(log[..n], limit);
      forall i | 0 <= i < |prior| && prior[i].Delta? && log[n].msg.Delta? ensures prior[i].index < log[n].msg.index {
        var at := AcceptedInLog(log[..n], i);
      }
    }
  }

  /** What reached the socket is in consume order. */
  lemma WrittenInOrder(e: Entry, limit: int)
    requires Conserves(e) && Rising(e.log, limit)
    ensures InOrder(e.written)
  {
    AcceptedInOrder(e.log, limit);
    var all := Accepted(e.log);
    assert forall i :: 0 <= i < |e.written| ==> e.written[i] == all[i];
  }
}
