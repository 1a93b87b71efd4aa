/** What every step of the live fan-out keeps: conservation and order in each outbox, and a close frame only after the
    writer (internal/services/wsmanager.go:115-131, 136-171, 196-226, 247-268). */
module FanoutSafety {
  import opened Prelude
  import opened LiveRows
  import opened LiveRuns
  import opened FanoutEntry
  import opened Fanout

  // ------------------------------------------------------------- the manager's map

  predicate Owns(entries: seq<Entry>, m: map<Conn, nat>) {
    forall c :: c in m ==> m[c] < |entries| && entries[m[c]].conn == c
  }

  predicate CloserOwns(entries: seq<Entry>, closer: Closer) {
    match closer
    case Picking(rest) => Owns(entries, rest)
    case Stopped(c, e, rest) => Owns(entries, rest) && e < |entries| && entries[e].conn == c
    case WritingClose(c, e, rest) => Owns(entries, rest) && e < |entries| && entries[e].conn == c && entries[e].pump.Exited?
    case Disconnecting(_, rest) => Owns(entries, rest)
    case _ => true
  }

  /** The map and what CloseAll copied from it name real entries of the right connection; CloseAll writes its close
      frame only on a connection whose writer has exited. */
  predicate Registered(s: State) {
    Owns(s.entries, s.conns) && CloserOwns(s.entries, s.closer) && forall e :: e in s.looked ==> e < |s.entries|
  }

  /** What one step can make of an entry. */
  predicate Evolves(x: Entry, y: Entry) {
    || y == x.(subs := y.subs)
    || y == x.(closed := true)
    || (|y.log| == |x.log| + 1 && var o := y.log[|x.log|]; MayOffer(x, o.accepted) && y == Offered(x, o.msg, o.accepted))
    || (x.pump.Idle? && x.queue != [] && y == Taken(x))
    || (x.pump.Writing? && (y == Wrote(x) || y == x.(pump := Failed(x.pump.msg))))
    || (x.pump.Failed? && y == x.(pump := Leaving(x.pump.msg)))
    || ((x.pump.Leaving? || (x.pump.Idle? && x.closed)) && y == Left(x))
  }

  lemma EntriesEvolve(max: int, s: State, step: Step)
    requires Enabled(max, s, step)
    ensures var t := Apply(max, s, step);
            && |s.entries| <= |t.entries| <= |s.entries| + 1
            && (forall e :: 0 <= e < |s.entries| ==> Evolves(s.entries[e], t.entries[e]))
            && (|t.entries| > |s.entries| ==> step.Connect? && t.entries[|s.entries|] == NewEntry(step.conn, IdSet(step.ids)))
  {
    if step.Connect? {
      hide MayOffer, IdSet, Evolves;
      ConnectEvolves(s, step.conn, step.ids);
    } else {
      hide MayOffer, IdSet, Evolves;
      if step.Say? || step.Send? || step.Greet? { TalkEvolves(max, s, step); } else { OtherEvolves(max, s, step); }
    }
  }

  lemma TalkEvolves(max: int, s: State, step: Step)
    requires Enabled(max, s, step) && (step.Say? || step.Send? || step.Greet?)
    ensures var t := Apply(max, s, step);
            |t.entries| == |s.entries| && forall e :: 0 <= e < |s.entries| ==> Evolves(s.entries[e], t.entries[e])
  {
    hide MayOffer, InFlight;
  }

  lemma ConnectEvolves(s: State, c: Conn, ids: seq<string>)
    ensures var t := Connected(s, c, ids);
            && |s.entries| <= |t.entries| <= |s.entries| + 1
            && (forall e :: 0 <= e < |s.entries| ==> Evolves(s.entries[e], t.entries[e]))
            && (|t.entries| > |s.entries| ==> t.entries[|s.entries|] == NewEntry(c, IdSet(ids)))
  {
    hide MayOffer, IdSet, InFlight;
  }

  lemma OtherEvolves(max: int, s: State, step: Step)
    requires Enabled(max, s, step) && !step.Connect? && !step.Say? && !step.Send? && !step.Greet?
    ensures var t := Apply(max, s, step);
            |t.entries| == |s.entries| && forall e :: 0 <= e < |s.entries| ==> Evolves(s.entries[e], t.entries[e])
  {
    hide After, Lost, Upserted, Subscribed, IdSet, Allowed, InFlight, MayOffer, Wrote, Left, Taken, NoLookup, Connected, Offered;
  }

  /** Entries are never removed, never change connection, and a writer that has exited stays so. */
  predicate Grows(before: seq<Entry>, after: seq<Entry>) {
    && |before| <= |after|
    && forall e :: 0 <= e < |before| ==> after[e].conn == before[e].conn && (before[e].pump.Exited? ==> after[e].pump.Exited?)
  }

  lemma EntriesGrow(max: int, s: State, step: Step)
    requires Enabled(max, s, step)
    ensures Grows(s.entries, Apply(max, s, step).entries)
  {
    var t := Apply(max, s, step);
    EntriesEvolve(max, s, step);
    hide Enabled, Apply, Evolves;
    forall e | 0 <= e < |s.entries|
      ensures t.entries[e].conn == s.entries[e].conn && (s.entries[e].pump.Exited? ==> t.entries[e].pump.Exited?)
    {
      EvolvesGrows(s.entries[e], t.entries[e]);
    }
  }

  lemma EvolvesGrows(x: Entry, y: Entry)
    requires Evolves(x, y)
    ensures y.conn == x.conn && (x.pump.Exited? ==> y.pump.Exited?)
  {
    hide MayOffer, InFlight;
  }

  lemma Grown(before: seq<Entry>, after: seq<Entry>, m: map<Conn, nat>, closer: Closer)
    requires Grows(before, after)
    ensures Owns(before, m) ==> Owns(after, m)
    ensures CloserOwns(before, closer) ==> CloserOwns(after, closer)
  {
  }

  lemma KeepsRegistered(max: int, s: State, step: Step)
    requires Enabled(max, s, step) && Registered(s)
    ensures Registered(Apply(max, s, step))
  {
    var t := Apply(max, s, step);
    EntriesGrow(max, s, step);
    Grown(s.entries, t.entries, s.conns, s.closer);
    hide Owns, CloserOwns, Apply, Enabled;
    ConnsOwned(max, s, step);
    CloserOwned(max, s, step);
    LookedAt(max, s, step);
  }

  lemma LookedAt(max: int, s: State, step: Step)
    requires Enabled(max, s, step) && (forall e :: e in s.looked ==> e < |s.entries|) && |Apply(max, s, step).entries| >= |s.entries|
    ensures forall e :: e in Apply(max, s, step).looked ==> e < |Apply(max, s, step).entries|
  {
    hide After, Lost, Upserted, MayOffer, Subscribed, IdSet, Allowed, InFlight, Offered, Taken, Wrote, Left;
  }

  /** Only a connect adds to the map. */
  lemma ConnsShrink(max: int, s: State, step: Step)
    requires Enabled(max, s, step) && !step.Connect?
    ensures forall c :: c in Apply(max, s, step).conns ==> c in s.conns && Apply(max, s, step).conns[c] == s.conns[c]
  {
    hide After, Lost, Upserted, MayOffer, Subscribed, IdSet, Allowed, InFlight, Offered, Taken, Wrote, Left;
  }

  lemma ConnsOwned(max: int, s: State, step: Step)
    requires Enabled(max, s, step) && Owns(s.entries, s.conns) && Owns(Apply(max, s, step).entries, s.conns)
    ensures Owns(Apply(max, s, step).entries, Apply(max, s, step).conns)
  {
    if step.Connect? {
      hide Enabled, IdSet;
    } else {
      ConnsShrink(max, s, step);
      hide Apply, Enabled;
    }
  }

  lemma CloserOwned(max: int, s: State, step: Step)
    requires Enabled(max, s, step) && Registered(s) && CloserOwns(Apply(max, s, step).entries, s.closer)
    ensures CloserOwns(Apply(max, s, step).entries, Apply(max, s, step).closer)
  {
    hide After, Lost, Upserted, MayOffer, Subscribed, IdSet, Allowed, InFlight, Offered, Taken, Wrote, Left;
  }

  // ------------------------------------------------------------- conservation

  predicate Conserving(s: State) { forall e :: 0 <= e < |s.entries| ==> Conserves(s.entries[e]) }

  lemma EvolvesConserves(x: Entry, y: Entry)
    requires Conserves(x) && Evolves(x, y)
    ensures Conserves(y)
  {
    hide Accepted;
    if |y.log| == |x.log| + 1 && MayOffer(x, y.log[|x.log|].accepted) {
      OfferConserves(x, y.log[|x.log|].msg, y.log[|x.log|].accepted);
    }
    if x.pump.Idle? && x.queue != [] { TakeConserves(x); }
    if x.pump.Writing? { WriteConserves(x); }
  }

  lemma NewConserves(conn: Conn, subs: set<string>)
    ensures Conserves(NewEntry(conn, subs))
  {
  }

  lemma KeepsConserving(max: int, s: State, step: Step)
    requires Enabled(max, s, step) && Conserving(s)
    ensures Conserving(Apply(max, s, step))
  {
    var t := Apply(max, s, step);
    EntriesEvolve(max, s, step);
    hide Enabled, Apply, Conserves, Evolves;
    forall e | 0 <= e < |t.entries| ensures Conserves(t.entries[e]) {
      if e < |s.entries| { EvolvesConserves(s.entries[e], t.entries[e]); } else { NewConserves(step.conn, IdSet(step.ids)); }
    }
  }

  // ------------------------------------------------------------- delta order

  /** Deltas offered to an entry so far are below this index of consume order. */
  function Limit(s: State, e: nat): int {
    if s.consumer.Added? || (s.consumer.Sending? && e in s.consumer.targets) then |s.consumed| - 1 else |s.consumed|
  }

  predicate DeltasOrdered(s: State) {
    && (!s.consumer.Waiting? ==> s.consumed != [])
    && forall e :: 0 <= e < |s.entries| ==> Rising(s.entries[e].log, Limit(s, e))
  }

  lemma KeepsOrdered(max: int, s: State, step: Step)
    requires Enabled(max, s, step) && DeltasOrdered(s)
    ensures DeltasOrdered(Apply(max, s, step))
  {
    if step.Say? || step.Send? || step.Greet? {
      TalkKeepsOrdered(max, s, step);
    } else {
      OtherKeepsOrdered(max, s, step);
    }
  }

  lemma TalkKeepsOrdered(max: int, s: State, step: Step)
    requires Enabled(max, s, step) && DeltasOrdered(s) && (step.Say? || step.Send? || step.Greet?)
    ensures DeltasOrdered(Apply(max, s, step))
  {
    hide MayOffer, Rising;
    var t, e := Apply(max, s, step), if step.Greet? then s.sessions[step.conn].entry else step.e;
    RisingOffer(s.entries[e].log, Limit(s, e), t.entries[e].log[|s.entries[e].log|], Limit(t, e));
  }

  lemma RisingBelow(log: seq<Offer>, limit: int, limit': int)
    requires Rising(log, limit) && limit <= limit'
    ensures Rising(log, limit')
  {
  }

  lemma OtherKeepsOrdered(max: int, s: State, step: Step)
    requires Enabled(max, s, step) && DeltasOrdered(s) && !step.Say? && !step.Send? && !step.Greet?
    ensures DeltasOrdered(Apply(max, s, step))
  {
    var t := Apply(max, s, step);
    SameLogs(max, s, step);
    hide Conserves, Subscribed, IdSet, Allowed, After, InFlight, Lost, Upserted, MayOffer, Rising, Taken, Wrote, Left;
    forall e | 0 <= e < |t.entries| ensures Rising(t.entries[e].log, Limit(t, e)) {
      if e < |s.entries| { RisingBelow(s.entries[e].log, Limit(s, e), Limit(t, e)); } else { NothingRising(Limit(t, e)); }
    }
  }

  lemma NothingRising(limit: int)
    ensures Rising([], limit)
  {
  }

  lemma SameLogs(max: int, s: State, step: Step)
    requires Enabled(max, s, step) && !step.Say? && !step.Send? && !step.Greet?
    ensures var t := Apply(max, s, step);
            && |t.entries| >= |s.entries|
            && forall e :: 0 <= e < |t.entries| ==> t.entries[e].log == if e < |s.entries| then s.entries[e].log else []
  {
    hide Conserves, Subscribed, IdSet, Allowed, After, InFlight, Lost, Upserted, MayOffer;
  }

  // ------------------------------------------------------------- over whole runs

  predicate Safe(s: State) { Registered(s) && Conserving(s) && DeltasOrdered(s) }

  lemma {:induction false} SafeRuns(max: int, s: State, steps: seq<Step>)
    requires Safe(s) && Runs(max, s, steps)
    ensures Safe(Final(max, s, steps))
    decreases |steps|
  {
    hide Registered, Conserving, DeltasOrdered, Enabled, Apply;
    if steps != [] {
      KeepsRegistered(max, s, steps[0]);
      KeepsConserving(max, s, steps[0]);
      KeepsOrdered(max, s, steps[0]);
      SafeRuns(max, Apply(max, s, steps[0]), steps[1..]);
    }
  }

  /** In every interleaving, on every entry: accepted messages are the written, in-flight and queued ones in order,
      the queue is within its bound, and the deltas written are rows in consume order, each at most once. */
  lemma OutboxesInEveryRun(max: int, steps: seq<Step>, e: nat)
    requires Runs(max, Start(), steps) && e < |Final(max, Start(), steps).entries|
    ensures var s := Final(max, Start(), steps);
            var entry := s.entries[e];
            && Accepted(entry.log) == entry.written + InFlight(entry.pump) + entry.queue
            && |entry.queue| <= OUTBOX_SIZE
            && |entry.log| == |Accepted(entry.log)| + Rejected(entry.log)
            && InOrder(entry.written)
            && forall k :: 0 <= k < |entry.written| && entry.written[k].Delta? ==> entry.written[k].index < |s.consumed|
  {
    SafeRuns(max, Start(), steps);
    var s := Final(max, Start(), steps);
    var entry := s.entries[e];
    assert Rising(entry.log, Limit(s, e)) && Conserves(entry);
    WrittenInOrder(entry, Limit(s, e));
    OfferedIsAcceptedOrRejected(entry.log);
    forall k | 0 <= k < |entry.written| && entry.written[k].Delta? ensures entry.written[k].index < |s.consumed| {
      assert Accepted(entry.log)[k] == entry.written[k];
      var i := AcceptedInLog(entry.log, k);
    }
  }

  /** CloseAll writes a close frame only after that entry's writer has exited, whatever else happens. */
  lemma CloseFrameAfterWriter(max: int, steps: seq<Step>)
    requires Runs(max, Start(), steps) && Final(max, Start(), steps).closer.WritingClose?
    ensures var s := Final(max, Start(), steps);
            s.closer.entry < |s.entries| && s.entries[s.closer.entry].conn == s.closer.conn && s.entries[s.closer.entry].pump.Exited?
  {
    SafeRuns(max, Start(), steps);
  }

  /** States one step apart make a run. */
  lemma {:induction false} RunsFrom(max: int, steps: seq<Step>, states: seq<State>)
    requires |states| == |steps| + 1
    requires forall i :: 0 <= i < |steps| ==> Enabled(max, states[i], steps[i]) && Apply(max, states[i], steps[i]) == states[i + 1]
    ensures Runs(max, states[0], steps) && Final(max, states[0], steps) == states[|steps|]
    decreases |steps|
  {
    hide Enabled, Apply;
    if steps != [] { RunsFrom(max, steps[1..], states[1..]); }
  }
}
