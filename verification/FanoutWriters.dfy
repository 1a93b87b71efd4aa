/** One writer on each connection: exactly which re-Connects keep it (internal/services/wsmanager.go:115-131, 136-171,
    247-268). */
module FanoutWriters {
  import opened Prelude
  import opened LiveRows
  import opened LiveRuns
  import opened FanoutEntry
  import opened Fanout
  import opened FanoutSafety

  /** Somebody is inside a write on the connection: an entry's writer (by its place) or CloseAll (-1). */
  predicate WritesOn(s: State, c: Conn, who: int) {
    if who == -1 then s.closer.WritingClose? && s.closer.conn == c
    else 0 <= who < |s.entries| && s.entries[who].pump.Writing? && s.entries[who].conn == c
  }

  ghost predicate SingleWriter(s: State) { forall c, a, b :: WritesOn(s, c, a) && WritesOn(s, c, b) ==> a == b }

  predicate Finished(p: Pump) { p.Failed? || p.Leaving? || p.Exited? }

  /** An entry off the manager's map whose writer will never write again: finished, or idle with nothing queued and
      nobody about to offer it anything. */
  predicate Unable(s: State, e: nat)
    requires e < |s.entries|
  {
    || Finished(s.entries[e].pump)
    || (s.entries[e].pump.Idle? && s.entries[e].queue == [] && e !in s.looked && !(s.consumer.Sending? && e in s.consumer.targets))
  }

  /** CloseAll is still to write on this connection, or is writing. */
  predicate CloserHolds(closer: Closer, c: Conn) {
    match closer
    case Picking(rest) => c in rest
    case Stopped(d, _, rest) => d == c || c in rest
    case WritingClose(d, _, rest) => d == c || c in rest
    case Disconnecting(_, rest) => c in rest
    case _ => false
  }

  /** What a caller could check before Connect makes an entry for this connection. */
  predicate SafeToConnect(s: State, c: Conn) {
    && (forall e :: 0 <= e < |s.entries| && s.entries[e].conn == c ==> Unable(s, e))
    && !CloserHolds(s.closer, c)
  }

  predicate SafeStep(s: State, step: Step) { step.Connect? && step.conn !in s.conns ==> SafeToConnect(s, step.conn) }

  // ------------------------------------------------------------- safe connects keep one writer

  /** Of the entries of one connection all but the last are unable to write. */
  predicate Successive(s: State) {
    forall e, f :: 0 <= e < f < |s.entries| && s.entries[e].conn == s.entries[f].conn ==> Unable(s, e)
  }

  predicate Last(entries: seq<Entry>, c: Conn, e: nat) { forall f :: e < f < |entries| ==> entries[f].conn != c }

  predicate Lasts(entries: seq<Entry>, m: map<Conn, nat>) { forall c :: c in m ==> Last(entries, c, m[c]) }

  /** CloseAll holds the last entry of each connection. */
  predicate CloserLast(entries: seq<Entry>, closer: Closer) {
    match closer
    case Picking(rest) => Lasts(entries, rest)
    case Stopped(c, e, rest) => Last(entries, c, e) && Lasts(entries, rest)
    case WritingClose(c, e, rest) => Last(entries, c, e) && Lasts(entries, rest)
    case Disconnecting(_, rest) => Lasts(entries, rest)
    case _ => true
  }

  predicate Quiet(s: State) { Successive(s) && Lasts(s.entries, s.conns) && CloserLast(s.entries, s.closer) }

  lemma QuietMeansOneWriter(s: State)
    requires Registered(s) && Quiet(s)
    ensures SingleWriter(s)
  {
  }

  lemma EvolvesFinished(x: Entry, y: Entry)
    requires Evolves(x, y)
    ensures y.conn == x.conn && (Finished(x.pump) ==> Finished(y.pump))
  {
    hide MayOffer, InFlight;
  }

  /** An entry that is off the map and unable to write stays so. */
  lemma StaysUnable(max: int, s: State, step: Step, e: nat)
    requires Enabled(max, s, step) && e < |s.entries| && Unable(s, e) && e !in s.conns.Values
    ensures e < |Apply(max, s, step).entries| && Unable(Apply(max, s, step), e)
  {
    EntriesEvolve(max, s, step);
    EvolvesFinished(s.entries[e], Apply(max, s, step).entries[e]);
    if !Finished(s.entries[e].pump) { IdleStays(max, s, step, e); }
  }

  lemma IdleStays(max: int, s: State, step: Step, e: nat)
    requires Enabled(max, s, step) && e < |s.entries| && Unable(s, e) && s.entries[e].pump.Idle? && e !in s.conns.Values
    ensures e < |Apply(max, s, step).entries| && Unable(Apply(max, s, step), e)
  {
    hide After, Lost, Upserted, MayOffer, IdSet, Allowed;
  }

  /** No entry is made for a connection CloseAll holds or the map has. */
  lemma KeepsQuiet(max: int, s: State, step: Step)
    requires Enabled(max, s, step) && Registered(s) && Quiet(s) && SafeStep(s, step)
    ensures Quiet(Apply(max, s, step))
  {
    var t := Apply(max, s, step);
    EntriesEvolve(max, s, step);
    EntriesGrow(max, s, step);
    MadeSafely(max, s, step);
    hide Enabled, Apply, CloserHolds, CloserLast, Evolves, Unable, CloserOwns;
    forall e, f | 0 <= e < f < |t.entries| && t.entries[e].conn == t.entries[f].conn ensures Unable(t, e) {
      if f < |s.entries| {
        OffTheMap(s, e, f);
        StaysUnable(max, s, step, e);
      } else {
        assert s.entries[e].conn == step.conn;
        NotOnTheMap(s, e);
        StaysUnable(max, s, step, e);
      }
    }
    LastsKept(max, s, step);
  }

  lemma OffTheMap(s: State, e: nat, f: nat)
    requires Registered(s) && Lasts(s.entries, s.conns) && e < f < |s.entries| && s.entries[e].conn == s.entries[f].conn
    ensures e !in s.conns.Values
  {
  }

  lemma NotOnTheMap(s: State, e: nat)
    requires Registered(s) && e < |s.entries| && s.entries[e].conn !in s.conns
    ensures e !in s.conns.Values
  {
  }

  lemma MadeSafely(max: int, s: State, step: Step)
    requires Enabled(max, s, step) && Registered(s) && SafeStep(s, step)
    ensures |Apply(max, s, step).entries| > |s.entries| ==> step.Connect? && step.conn !in s.conns && SafeToConnect(s, step.conn)
  {
    hide After, Lost, Upserted, MayOffer, Subscribed, IdSet, Allowed, InFlight, Offered, Taken, Wrote, Left, SafeToConnect, CloserOwns;
  }

  /** Entries keep their connections, and at most one is added, for `made`. */
  predicate Lengthens(before: seq<Entry>, after: seq<Entry>, made: Option<Conn>) {
    && |before| <= |after| <= |before| + 1
    && (forall e :: 0 <= e < |before| ==> after[e].conn == before[e].conn)
    && (|after| > |before| ==> made == Some(after[|before|].conn))
  }

  lemma LastsKept(max: int, s: State, step: Step)
    requires Enabled(max, s, step) && Quiet(s)
    requires var t := Apply(max, s, step);
             && |s.entries| <= |t.entries| <= |s.entries| + 1
             && (forall e :: 0 <= e < |s.entries| ==> t.entries[e].conn == s.entries[e].conn)
             && (|t.entries| > |s.entries| ==>
                   step.Connect? && step.conn !in s.conns && SafeToConnect(s, step.conn) && t.entries[|s.entries|].conn == step.conn)
    ensures var t := Apply(max, s, step); Lasts(t.entries, t.conns) && CloserLast(t.entries, t.closer)
  {
    var t := Apply(max, s, step);
    var made := if |t.entries| > |s.entries| then Some(step.conn) else None;
    LastsGrow(s.entries, t.entries, s.conns, s.closer, made);
    hide SafeToConnect, Successive, CloserHolds;
    ConnsLast(max, s, step);
    CloserStaysLast(max, s, step);
  }

  lemma LastsGrow(before: seq<Entry>, after: seq<Entry>, m: map<Conn, nat>, closer: Closer, made: Option<Conn>)
    requires Lengthens(before, after, made)
    ensures Lasts(before, m) && (made.Some? ==> made.value !in m) ==> Lasts(after, m)
    ensures CloserLast(before, closer) && (made.Some? ==> !CloserHolds(closer, made.value)) ==> CloserLast(after, closer)
  {
  }

  lemma ConnsLast(max: int, s: State, step: Step)
    requires Enabled(max, s, step) && Lasts(Apply(max, s, step).entries, s.conns)
    requires |Apply(max, s, step).entries| <= |s.entries| + 1
    ensures Lasts(Apply(max, s, step).entries, Apply(max, s, step).conns)
  {
    hide After, Lost, Upserted, MayOffer, Subscribed, IdSet, Allowed, InFlight, Offered, Taken, Wrote, Left;
  }

  lemma CloserStaysLast(max: int, s: State, step: Step)
    requires Enabled(max, s, step) && CloserLast(Apply(max, s, step).entries, s.closer) && Lasts(Apply(max, s, step).entries, s.conns)
    ensures CloserLast(Apply(max, s, step).entries, Apply(max, s, step).closer)
  {
    hide After, Lost, Upserted, MayOffer, Subscribed, IdSet, Allowed, InFlight, Offered, Taken, Wrote, Left;
  }

  ghost predicate SafeRun(max: int, s: State, steps: seq<Step>)
    requires Runs(max, s, steps)
    decreases |steps|
  {
    steps == [] || (SafeStep(s, steps[0]) && SafeRun(max, Apply(max, s, steps[0]), steps[1..]))
  }

  lemma {:induction false} QuietRuns(max: int, s: State, steps: seq<Step>)
    requires Registered(s) && Quiet(s) && Runs(max, s, steps) && SafeRun(max, s, steps)
    ensures Registered(Final(max, s, steps)) && Quiet(Final(max, s, steps))
    decreases |steps|
  {
    hide Registered, Quiet, SafeStep, Enabled, Apply;
    if steps != [] {
      KeepsRegistered(max, s, steps[0]);
      KeepsQuiet(max, s, steps[0]);
      QuietRuns(max, Apply(max, s, steps[0]), steps[1..]);
    }
  }

  /** In every interleaving in which each connect that makes an entry finds every earlier writer of its connection
      finished and CloseAll not holding it, at no point are two parties inside a write on one connection. */
  lemma SingleWriterInEveryRun(max: int, steps: seq<Step>)
    requires Runs(max, Start(), steps) && SafeRun(max, Start(), steps)
    ensures SingleWriter(Final(max, Start(), steps))
  {
    QuietRuns(max, Start(), steps);
    QuietMeansOneWriter(Final(max, Start(), steps));
  }

  // ------------------------------------------------------------- any other connect can break it

  predicate NoConnects(steps: seq<Step>) { forall i :: 0 <= i < |steps| ==> !steps[i].Connect? }

  /** Without any further connect, two parties can get inside a write on one connection. */
  ghost predicate CanCollide(max: int, s: State) {
    exists more :: Runs(max, s, more) && NoConnects(more) && !SingleWriter(Final(max, s, more))
  }

  lemma CollidesNow(max: int, s: State, c: Conn, a: int, b: int)
    requires WritesOn(s, c, a) && WritesOn(s, c, b) && a != b
    ensures CanCollide(max, s)
  {
    assert Runs(max, s, []) && Final(max, s, []) == s;
  }

  lemma CollidesAfter(max: int, s: State, step: Step)
    requires Enabled(max, s, step) && !step.Connect? && CanCollide(max, Apply(max, s, step))
    ensures CanCollide(max, s)
  {
    hide Enabled, Apply, SingleWriter;
    var t := Apply(max, s, step);
    var more :| Runs(max, t, more) && NoConnects(more) && !SingleWriter(Final(max, t, more));
    var all := [step] + more;
    assert all[1..] == more;
    assert Runs(max, s, all) && Final(max, s, all) == Final(max, t, more);
  }

  /** An entry is idle with something queued. */
  predicate Newcomer(s: State, n: nat) { n < |s.entries| && s.entries[n].pump.Idle? && s.entries[n].queue != [] }

  /** It can start to write while somebody else does. */
  lemma NewcomerWrites(max: int, s: State, n: nat, who: int)
    requires Newcomer(s, n) && who != n && WritesOn(s, s.entries[n].conn, who)
    ensures CanCollide(max, s)
  {
    CollidesNow(max, Apply(max, s, Take(n)), s.entries[n].conn, n, who);
    CollidesAfter(max, s, Take(n));
  }

  /** The consumer sends only what it has consumed. */
  predicate Consuming(s: State) { s.consumer.Sending? ==> s.consumed != [] }

  /** So can it while an earlier writer is able to. */
  lemma AbleWrites(max: int, s: State, e: nat, n: nat)
    requires e < |s.entries| && Newcomer(s, n) && e != n && s.entries[e].conn == s.entries[n].conn
    requires !Unable(s, e) && e !in s.looked && Consuming(s)
    ensures CanCollide(max, s)
  {
    if s.entries[e].pump.Writing? {
      NewcomerWrites(max, s, n, e);
    } else if s.entries[e].queue != [] {
      NewcomerWrites(max, Apply(max, s, Take(e)), n, e);
      CollidesAfter(max, s, Take(e));
    } else {
      var t := Apply(max, s, Send(e, true));
      NewcomerWrites(max, Apply(max, t, Take(e)), n, e);
      CollidesAfter(max, t, Take(e));
      CollidesAfter(max, s, Send(e, true));
    }
  }

  /** CloseAll waits on an older entry whose writer is finished, and then writes itself. */
  lemma FinishedCollides(max: int, s: State, n: nat)
    requires Registered(s) && Newcomer(s, n) && s.closer.Stopped? && s.closer.conn == s.entries[n].conn && s.closer.entry != n
    requires Finished(s.entries[s.closer.entry].pump)
    ensures CanCollide(max, s)
    decreases
      match s.entries[s.closer.entry].pump
      case Failed(_) => 2
      case Leaving(_) => 1
      case _ => 0
  {
    var e := s.closer.entry;
    match s.entries[e].pump
    case Failed(_) =>
      FinishedCollides(max, Apply(max, s, Leave(e)), n);
      CollidesAfter(max, s, Leave(e));
    case Leaving(_) =>
      FinishedCollides(max, Apply(max, s, Exit(e)), n);
      CollidesAfter(max, s, Exit(e));
    case Exited(_) =>
      NewcomerWrites(max, Apply(max, s, CloseReady), n, -1);
      CollidesAfter(max, s, CloseReady);
  }

  lemma StoppedCollides(max: int, s: State, n: nat)
    requires Registered(s) && Newcomer(s, n) && s.closer.Stopped? && s.closer.conn == s.entries[n].conn && s.closer.entry != n
    ensures CanCollide(max, s)
  {
    var e := s.closer.entry;
    if s.entries[e].pump.Writing? {
      NewcomerWrites(max, s, n, e);
    } else if s.entries[e].pump.Idle? {
      var t := Apply(max, s, Stop(e));
      FinishedCollides(max, Apply(max, t, Exit(e)), n);
      CollidesAfter(max, t, Exit(e));
      CollidesAfter(max, s, Stop(e));
    } else {
      FinishedCollides(max, s, n);
    }
  }

  lemma PickingCollides(max: int, s: State, n: nat)
    requires Registered(s) && Newcomer(s, n) && s.closer.Picking? && s.entries[n].conn in s.closer.rest
    requires s.closer.rest[s.entries[n].conn] != n
    ensures CanCollide(max, s)
  {
    var c := s.entries[n].conn;
    KeepsRegistered(max, s, CloseStop(c));
    StoppedCollides(max, Apply(max, s, CloseStop(c)), n);
    CollidesAfter(max, s, CloseStop(c));
  }

  /** CloseAll, holding the connection through an older entry, comes to write on it. */
  lemma HeldCollides(max: int, s: State, n: nat)
    requires Registered(s) && Newcomer(s, n) && CloserOwns(s.entries[..n], s.closer) && CloserHolds(s.closer, s.entries[n].conn)
    ensures CanCollide(max, s)
  {
    var c := s.entries[n].conn;
    match s.closer
    case Picking(_) => PickingCollides(max, s, n);
    case Stopped(d, _, _) =>
      if d == c {
        StoppedCollides(max, s, n);
      } else {
        ReleasedCollides(max, Apply(max, s, CloseTimeout), n);
        CollidesAfter(max, s, CloseTimeout);
      }
    case WritingClose(d, _, _) =>
      if d == c {
        NewcomerWrites(max, s, n, -1);
      } else {
        ReleasedCollides(max, Apply(max, s, CloseWrote), n);
        CollidesAfter(max, s, CloseWrote);
      }
    case Disconnecting(_, _) => ReleasedCollides(max, s, n);
  }

  lemma ReleasedCollides(max: int, s: State, n: nat)
    requires Registered(s) && Newcomer(s, n) && CloserOwns(s.entries[..n], s.closer)
    requires s.closer.Disconnecting? && s.entries[n].conn in s.closer.rest
    ensures CanCollide(max, s)
  {
    KeepsRegistered(max, s, CloseDisconnect);
    PickingCollides(max, Apply(max, s, CloseDisconnect), n);
    CollidesAfter(max, s, CloseDisconnect);
  }

  lemma UnsafeCollides(max: int, s: State, c: Conn, ids: seq<string>)
    requires Registered(s) && Consuming(s) && c !in s.conns && NoLookup(s, c) && !SafeToConnect(s, c)
    ensures CanCollide(max, Apply(max, s, Connect(c, ids)))
  {
    var n := |s.entries|;
    var t := Apply(max, s, Connect(c, ids));
    var u := Apply(max, t, Lookup(c));
    var v := Apply(max, u, Say(n, Heartbeat, true));
    assert v.entries[..n] == s.entries && v.closer == s.closer && v.looked == s.looked && v.consumer == s.consumer;
    KeepsRegistered(max, s, Connect(c, ids));
    KeepsRegistered(max, t, Lookup(c));
    KeepsRegistered(max, u, Say(n, Heartbeat, true));
    if CloserHolds(s.closer, c) {
      HeldCollides(max, v, n);
    } else {
      var e :| 0 <= e < n && s.entries[e].conn == c && !Unable(s, e);
      AbleWrites(max, v, e, n);
    }
    CollidesAfter(max, u, Say(n, Heartbeat, true));
    CollidesAfter(max, t, Lookup(c));
  }

  lemma {:induction false} NoConnectsSafe(max: int, s: State, steps: seq<Step>)
    requires Runs(max, s, steps) && NoConnects(steps)
    ensures SafeRun(max, s, steps)
    decreases |steps|
  {
    hide Enabled, Apply;
    if steps != [] { NoConnectsSafe(max, Apply(max, s, steps[0]), steps[1..]); }
  }

  /** For every state runs of safe connects can reach, and every connection that is not registered: a connect can lead
      to two writers, through safe steps only, exactly when an earlier writer of it is able to write or CloseAll still
      holds it. */
  lemma ConnectCollidesExactlyWhenUnsafe(max: int, s: State, c: Conn, ids: seq<string>)
    requires Registered(s) && Quiet(s) && Consuming(s) && c !in s.conns && NoLookup(s, c)
    ensures var t := Apply(max, s, Connect(c, ids));
            (exists more :: Runs(max, t, more) && SafeRun(max, t, more) && !SingleWriter(Final(max, t, more))) <==> !SafeToConnect(s, c)
  {
    var t := Apply(max, s, Connect(c, ids));
    if SafeToConnect(s, c) {
      KeepsRegistered(max, s, Connect(c, ids));
      KeepsQuiet(max, s, Connect(c, ids));
      hide Apply, Registered, Quiet, SingleWriter, Enabled;
      forall more | Runs(max, t, more) && SafeRun(max, t, more) ensures SingleWriter(Final(max, t, more)) {
        QuietRuns(max, t, more);
        QuietMeansOneWriter(Final(max, t, more));
      }
    } else {
      UnsafeCollides(max, s, c, ids);
      hide Apply, Registered, Quiet, SingleWriter, Enabled;
      var more :| Runs(max, t, more) && NoConnects(more) && !SingleWriter(Final(max, t, more));
      NoConnectsSafe(max, t, more);
    }
  }

  /** The unsafe case does occur: whenever CloseAll stops waiting for a writer that is still inside a write, its
      disconnect leaves the connection free to be connected again. */
  lemma TimeoutLeavesUnsafe(max: int, s: State)
    requires Registered(s) && s.closer.Stopped? && s.entries[s.closer.entry].pump.Writing?
    ensures var t := Apply(max, Apply(max, s, CloseTimeout), CloseDisconnect);
            s.closer.conn !in t.conns && !SafeToConnect(t, s.closer.conn)
  {
    var t := Apply(max, Apply(max, s, CloseTimeout), CloseDisconnect);
    assert t.entries == s.entries && t.entries[s.closer.entry].conn == s.closer.conn;
  }

  ghost predicate Reachable(max: int, s: State) { exists steps :: Runs(max, Start(), steps) && Final(max, Start(), steps) == s }

  lemma StartReachable(max: int)
    ensures Reachable(max, Start())
  {
    assert Runs(max, Start(), []) && Final(max, Start(), []) == Start();
  }

  lemma {:induction false} RunsSnoc(max: int, s: State, steps: seq<Step>, step: Step)
    requires Runs(max, s, steps) && Enabled(max, Final(max, s, steps), step)
    ensures Runs(max, s, steps + [step]) && Final(max, s, steps + [step]) == Apply(max, Final(max, s, steps), step)
    decreases |steps|
  {
    hide Enabled, Apply;
    if steps == [] {
      assert [] + [step] == [step] && [step][1..] == [];
    } else {
      assert (steps + [step])[1..] == steps[1..] + [step];
      RunsSnoc(max, Apply(max, s, steps[0]), steps[1..], step);
    }
  }

  lemma ReachableStep(max: int, s: State, step: Step)
    requires Reachable(max, s) && Enabled(max, s, step)
    ensures Reachable(max, Apply(max, s, step))
  {
    hide Enabled, Apply, Runs, Final;
    var steps :| Runs(max, Start(), steps) && Final(max, Start(), steps) == s;
    RunsSnoc(max, Start(), steps, step);
  }

  /** A run to such a state, for every connection: one subscriber, a heartbeat inside a write, and CloseAll's timeout. */
  lemma UnsafeIsReachable(max: int, c: Conn)
    ensures exists s :: Reachable(max, s) && c !in s.conns && NoLookup(s, c) && !SafeToConnect(s, c)
  {
    StartReachable(max);
    var s := AtCloseAll(max, c);
    SubscriberWrites(max, c);
    var t := Apply(max, s, CloseTimeout);
    ReachableStep(max, s, CloseTimeout);
    ReachableStep(max, t, CloseDisconnect);
    TimeoutLeavesUnsafe(max, s);
  }

  ghost function WritingState(c: Conn): State {
    Start().(entries := [Taken(Offered(NewEntry(c, {}), Heartbeat, true))], conns := map[c := 0],
             sessions := map[c := Session(0, [], None, None)])
  }

  ghost function AtCloseAll(max: int, c: Conn): State {
    WritingState(c).(entries := [Taken(Offered(NewEntry(c, {}), Heartbeat, true)).(closed := true)], closer := Stopped(c, 0, map[]))
  }

  lemma SubscriberWrites(max: int, c: Conn)
    ensures Reachable(max, AtCloseAll(max, c)) && Registered(AtCloseAll(max, c))
  {
    SubscriberQueues(max, c);
    WriterStarts(max, c);
    WriterStopped(max, c);
  }

  ghost function QueuedState(c: Conn): State {
    Start().(entries := [Offered(NewEntry(c, {}), Heartbeat, true)], conns := map[c := 0],
             sessions := map[c := Session(0, [], None, None)])
  }

  lemma SubscriberQueues(max: int, c: Conn)
    ensures Reachable(max, QueuedState(c))
  {
    hide Reachable, After, Lost, Upserted, Subscribed, Allowed, InFlight;
    StartReachable(max);
    assert IdSet([]) == {};
    var s1 := Start().(entries := [NewEntry(c, {})], conns := map[c := 0], sessions := map[c := Session(0, [], None, None)]);
    var s2 := s1.(looked := {0});
    assert Apply(max, Start(), Connect(c, [])) == s1;
    ReachableStep(max, Start(), Connect(c, []));
    assert Apply(max, s1, Lookup(c)) == s2;
    ReachableStep(max, s1, Lookup(c));
    assert s2.looked - {0} == {};
    assert Apply(max, s2, Say(0, Heartbeat, true)) == QueuedState(c);
    ReachableStep(max, s2, Say(0, Heartbeat, true));
  }

  lemma WriterStarts(max: int, c: Conn)
    requires Reachable(max, QueuedState(c))
    ensures Reachable(max, WritingState(c))
  {
    hide Reachable, After, Lost, Upserted, Subscribed, Allowed, InFlight;
    assert Apply(max, QueuedState(c), Take(0)) == WritingState(c);
    ReachableStep(max, QueuedState(c), Take(0));
  }

  lemma WriterStopped(max: int, c: Conn)
    requires Reachable(max, WritingState(c))
    ensures Reachable(max, AtCloseAll(max, c))
  {
    hide Reachable, After, Lost, Upserted, Subscribed, Allowed, InFlight;
    var s := WritingState(c);
    var t := s.(closer := Picking(map[c := 0]));
    assert map[c := 0] - {c} == map[];
    assert Apply(max, s, CloseStart) == t;
    ReachableStep(max, s, CloseStart);
    assert Apply(max, t, CloseStop(c)) == AtCloseAll(max, c);
    ReachableStep(max, t, CloseStop(c));
  }
}
