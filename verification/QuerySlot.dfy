/** The one DuckDB query slot (internal/services/duckdb.go): requests in flight together, each going through acquire,
    connection set-up, its queries and its deferred calls. */
module QuerySlot {
  import opened Prelude

  /** How a query's row set is closed: by a deferred call of the request, by hand right after reading, or by a deferred
      call of the inner function that ran the query. */
  datatype Query = Deferring | Explicit | Inner

  datatype Kind = Analysis | Breakdown

  /** The queries a request runs, in order. */
  function Script(k: Kind): seq<Query> {
    match k
    case Analysis => [Deferring]
    case Breakdown => [Explicit, Inner, Inner, Deferring]
  }

  datatype Deferred = Release | CloseRows

  /** Failing: set-up failed, the slot is about to be released by hand. Idle: about to run query `next`. Broken: a query
      failed; `fatal` when the connection is dead. Returning: running deferred calls, last-in first-out. */
  datatype Phase =
    | Waiting
    | Preparing
    | Failing
    | Idle(next: nat)
    | Reading(query: nat)
    | Broken(fatal: bool)
    | Returning
    | Gone

  /** `rows` counts open row sets, `acquired` and `released` the channel operations, on the slot. */
  datatype Request = Request(kind: Kind, phase: Phase, deferred: seq<Deferred>, rows: int, acquired: nat, released: nat)

  /** `slot` is the fill of the channel, of capacity 1; `connected` says whether a pinned connection exists. */
  datatype State = State(slot: nat, connected: bool, requests: seq<Request>)

  function Start(): State { State(0, false, []) }

  /** Finish(ok) ends the reading of a row set, Quit an early return before a query, Settle the step after a failed one. */
  datatype Act = Acquire | GiveUp | Connect(ok: bool) | HandBack | Run(ok: bool, fatal: bool) | Finish(ok: bool) | Quit | Settle | Unwind | Leave

  datatype Step = Arrive(kind: Kind) | Do(r: nat, act: Act)

  predicate Enabled(s: State, step: Step) {
    match step
    case Arrive(_) => true
    case Do(r, act) =>
      r < |s.requests| && var q := s.requests[r];
      match act
      case Acquire => q.phase.Waiting? && s.slot < 1
      case GiveUp => q.phase.Waiting?
      case Connect(ok) => q.phase.Preparing? && (s.connected ==> ok)
      case HandBack => q.phase.Failing?
      case Run(_, _) => q.phase.Idle? && q.phase.next < |Script(q.kind)|
      case Finish(_) => q.phase.Reading? && q.phase.query < |Script(q.kind)|
      case Quit => q.phase.Idle?
      case Settle => q.phase.Broken?
      case Unwind => q.phase.Returning? && q.deferred != []
      case Leave => q.phase.Returning? && q.deferred == []
  }

  function With(s: State, r: nat, q: Request): State
    requires r < |s.requests|
  {
    s.(requests := s.requests[r := q])
  }

  function Freed(slot: nat): nat { if slot > 0 then slot - 1 else 0 }

  function Apply(s: State, step: Step): State
    requires Enabled(s, step)
  {
    match step
    case Arrive(kind) => s.(requests := s.requests + [Request(kind, Waiting, [], 0, 0, 0)])
    case Do(r, act) =>
      var q := s.requests[r];
      match act
      case Acquire => With(s, r, q.(phase := Preparing, acquired := q.acquired + 1)).(slot := s.slot + 1)
      case GiveUp => With(s, r, q.(phase := Gone))
      case Connect(ok) =>
        if ok then With(s, r, q.(phase := Idle(0), deferred := [Release])).(connected := true) else With(s, r, q.(phase := Failing))
      case HandBack => With(s, r, q.(phase := Gone, released := q.released + 1)).(slot := Freed(s.slot))
      case Run(ok, fatal) =>
        if !ok then With(s, r, q.(phase := Broken(fatal)))
        else
          With(s, r, q.(phase := Reading(q.phase.next), rows := q.rows + 1,
                        deferred := if Script(q.kind)[q.phase.next].Deferring? then q.deferred + [CloseRows] else q.deferred))
      case Finish(ok) =>
        if Script(q.kind)[q.phase.query].Deferring? then With(s, r, q.(phase := Returning))
        else With(s, r, q.(rows := q.rows - 1, phase := if ok then Idle(q.phase.query + 1) else Returning))
      case Quit => With(s, r, q.(phase := Returning))
      case Settle => With(s, r, q.(phase := Returning)).(connected := if q.phase.fatal then false else s.connected)
      case Unwind =>
        var n := |q.deferred| - 1;
        if q.deferred[n].Release? then With(s, r, q.(deferred := q.deferred[..n], released := q.released + 1)).(slot := Freed(s.slot))
        else With(s, r, q.(deferred := q.deferred[..n], rows := q.rows - 1))
      case Leave => With(s, r, q.(phase := Gone))
  }

  // ------------------------------------------------------------- what every step keeps

  /** The request has taken the slot and not given it back. */
  predicate Holds(q: Request) { q.acquired > q.released }

  /** The request is at a step that creates, uses or resets the connection. */
  predicate Touches(q: Request) { q.phase.Preparing? || q.phase.Idle? || q.phase.Reading? || q.phase.Broken? }

  predicate RequestOk(q: Request) {
    match q.phase
    case Waiting => q.deferred == [] && q.rows == 0 && q.acquired == 0 && q.released == 0
    case Preparing => q.deferred == [] && q.rows == 0 && q.acquired == 1 && q.released == 0
    case Failing => q.deferred == [] && q.rows == 0 && q.acquired == 1 && q.released == 0
    case Idle(next) => q.deferred == [Release] && q.rows == 0 && q.acquired == 1 && q.released == 0
    case Reading(k) =>
      && k < |Script(q.kind)| && q.rows == 1 && q.acquired == 1 && q.released == 0
      && q.deferred == if Script(q.kind)[k].Deferring? then [Release, CloseRows] else [Release]
    case Broken(_) => q.deferred == [Release] && q.rows == 0 && q.acquired == 1 && q.released == 0
    case Returning =>
      && q.acquired == 1
      && (q.deferred == [Release, CloseRows] || q.deferred == [Release] || q.deferred == [])
      && q.rows == (if |q.deferred| == 2 then 1 else 0)
      && q.released == (if q.deferred == [] then 1 else 0)
    case Gone => q.rows == 0 && q.released == q.acquired <= 1
  }

  predicate Inv(s: State) {
    && s.slot <= 1
    && (forall r :: 0 <= r < |s.requests| ==> RequestOk(s.requests[r]))
    && (forall r :: 0 <= r < |s.requests| && Holds(s.requests[r]) ==> s.slot == 1)
    && (forall r, p :: 0 <= r < p < |s.requests| && Holds(s.requests[r]) ==> !Holds(s.requests[p]))
    && (s.slot == 1 ==> exists r :: 0 <= r < |s.requests| && Holds(s.requests[r]))
    && forall r :: 0 <= r < |s.requests| && (s.requests[r].phase.Idle? || s.requests[r].phase.Reading?) ==> s.connected
  }

  /** One request's own bookkeeping, whatever the others do. */
  lemma RequestKeeps(s: State, r: nat, act: Act)
    requires Enabled(s, Do(r, act)) && RequestOk(s.requests[r])
    ensures RequestOk(Apply(s, Do(r, act)).requests[r])
    ensures Apply(s, Do(r, act)).requests == s.requests[r := Apply(s, Do(r, act)).requests[r]]
  {
  }

  lemma KeepsInv(s: State, step: Step)
    requires Inv(s) && Enabled(s, step)
    ensures Inv(Apply(s, step))
  {
    match step
    case Arrive(kind) =>
      hide RequestOk;
      var t := Apply(s, step);
      if s.slot == 1 {
        var h :| 0 <= h < |s.requests| && Holds(s.requests[h]);
        assert Holds(t.requests[h]);
      }
      assert RequestOk(t.requests[|s.requests|]) by { NewRequestOk(kind); }
    case Do(r, act) => DoKeeps(s, r, act);
  }

  lemma NewRequestOk(kind: Kind)
    ensures RequestOk(Request(kind, Waiting, [], 0, 0, 0))
  {
  }

  lemma DoKeeps(s: State, r: nat, act: Act)
    requires Inv(s) && Enabled(s, Do(r, act))
    ensures Inv(Apply(s, Do(r, act)))
  {
    var t := Apply(s, Do(r, act));
    var q, q' := s.requests[r], t.requests[r];
    RequestKeeps(s, r, act);
    SlotMoves(s, r, act);
    hide RequestOk, Apply, Enabled;
    if t.slot == 1 {
      if Holds(q') {
      } else {
        var h :| 0 <= h < |s.requests| && Holds(s.requests[h]);
        assert h != r && t.requests[h] == s.requests[h];
      }
    }
  }

  /** The slot's fill moves with the request's hold, and only a request that uses the connection changes it. */
  lemma SlotMoves(s: State, r: nat, act: Act)
    requires Inv(s) && Enabled(s, Do(r, act))
    ensures var t := Apply(s, Do(r, act));
            && (Holds(t.requests[r]) == Holds(s.requests[r]) ==> t.slot == s.slot)
            && (Holds(t.requests[r]) && !Holds(s.requests[r]) ==> s.slot == 0 && t.slot == 1)
            && (!Holds(t.requests[r]) && Holds(s.requests[r]) ==> t.slot == 0)
            && (t.connected != s.connected ==> Touches(s.requests[r]) && Holds(s.requests[r]))
            && (s.connected && !t.connected ==> t.requests[r].phase.Returning?)
            && (t.requests[r].phase.Idle? || t.requests[r].phase.Reading? ==> t.connected && Holds(t.requests[r]))
            && forall p :: 0 <= p < |s.requests| && (s.requests[p].phase.Idle? || s.requests[p].phase.Reading?) ==> Holds(s.requests[p])
  {
    assert RequestOk(s.requests[r]);
    forall p | 0 <= p < |s.requests| && (s.requests[p].phase.Idle? || s.requests[p].phase.Reading?) ensures Holds(s.requests[p]) {
      assert RequestOk(s.requests[p]);
    }
  }

  // ------------------------------------------------------------- over whole runs

  predicate Runs(s: State, steps: seq<Step>)
    decreases |steps|
  {
    steps == [] || (Enabled(s, steps[0]) && Runs(Apply(s, steps[0]), steps[1..]))
  }

  function Final(s: State, steps: seq<Step>): State
    requires Runs(s, steps)
    decreases |steps|
  {
    if steps == [] then s else Final(Apply(s, steps[0]), steps[1..])
  }

  lemma {:induction false} InvRuns(s: State, steps: seq<Step>)
    requires Inv(s) && Runs(s, steps)
    ensures Inv(Final(s, steps))
    decreases |steps|
  {
    hide Inv, Enabled, Apply;
    if steps != [] {
      KeepsInv(s, steps[0]);
      InvRuns(Apply(s, steps[0]), steps[1..]);
    }
  }

  /** In every interleaving: at most one request holds the slot; only its holder is at a step that touches the
      connection, which is there whenever a query is about to run or being read; at most one row set is open; and a
      request that has returned released the slot as often as it acquired it, once or never. */
  lemma OneHolder(steps: seq<Step>, r: nat)
    requires Runs(Start(), steps) && r < |Final(Start(), steps).requests|
    ensures var s := Final(Start(), steps);
            var q := s.requests[r];
            && (Touches(q) ==> Holds(q))
            && (Holds(q) ==> s.slot == 1 && forall p :: 0 <= p < |s.requests| && p != r ==> !Holds(s.requests[p]))
            && (q.phase.Idle? || q.phase.Reading? ==> s.connected)
            && 0 <= q.rows <= 1 && (q.rows == 1 ==> Holds(q))
            && (q.phase.Gone? ==> q.released == q.acquired <= 1)
  {
    InvRuns(Start(), steps);
    assert RequestOk(Final(Start(), steps).requests[r]);
  }

  /** In every interleaving, no row set of a request is open when it gives the slot back, and it gives it back once. */
  lemma ReleaseAfterRows(steps: seq<Step>, r: nat, act: Act)
    requires Runs(Start(), steps) && Enabled(Final(Start(), steps), Do(r, act))
    ensures var s := Final(Start(), steps);
            var t := Apply(s, Do(r, act));
            t.requests[r].released != s.requests[r].released ==>
              s.requests[r].rows == 0 && s.requests[r].released == 0 && t.requests[r].released == 1 && s.slot == 1 && t.slot == 0
  {
    InvRuns(Start(), steps);
    var s := Final(Start(), steps);
    assert RequestOk(s.requests[r]);
    SlotMoves(s, r, act);
  }
}
