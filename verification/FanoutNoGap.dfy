/** No gap on subscribe: Connect comes before GetAll and Add before Broadcast, so a subscriber misses no row between
    its snapshot and its deltas (internal/handlers/websocket.go:129-137, internal/services/consumer.go:232-242). */
module FanoutNoGap {
  import opened Prelude
  import opened LiveRows
  import opened LiveRuns
  import opened LiveStore
  import opened FanoutEntry
  import opened Fanout
  import opened FanoutSafety

  predicate SameSlot(a: Row, b: Row) { RuleOf(a) == RuleOf(b) && Key(a) == Key(b) }

  /** A row of the same rule, group and window as an earlier one (or, with a NUL in a window text, one that cannot be told
      from it) has taken its place. */
  predicate Supersedes(later: Row, row: Row) { RuleOf(later) == RuleOf(row) && (SamePair(row, later) || Confusable(row, later)) }

  /** A consumed row is among these rows, or a later one took its place, or it was evicted. */
  predicate Accounted(consumed: seq<Raw>, i: nat, rows: Rows, gone: set<nat>)
    requires i < |consumed|
  {
    || Holds(rows, Stored(consumed[i]))
    || i in gone
    || exists j :: i < j < |consumed| && SameSlot(Stored(consumed[i]), Stored(consumed[j]))
  }

  /** The store accounts for every consumed row. */
  predicate Covered(s: State) {
    forall i :: 0 <= i < |s.consumed| ==> Accounted(s.consumed, i, s.store.data, s.evicted)
  }

  lemma UpsertedHolds(m: Rows, row: Row, x: Row)
    ensures Holds(Upserted(m, row), row)
    ensures Holds(m, x) ==> Holds(Upserted(m, row), x) || SameSlot(x, row)
  {
    hide LastAt;
    var r := RuleOf(row);
    var rows, at := Of(m, r), LastAt(Of(m, r), Key(row));
    if at.Some? { assert Upsert(rows, row)[at.value] == row; } else { assert Upsert(rows, row)[|rows|] == row; }
    if Holds(m, x) && RuleOf(x) == r {
      var k :| 0 <= k < |rows| && rows[k] == x;
      if at != Some(k) { assert Upsert(rows, row)[k] == x; }
    }
  }

  lemma KeepsCovered(max: int, s: State, step: Step)
    requires Enabled(max, s, step) && Covered(s)
    ensures Covered(Apply(max, s, step))
    ensures s.evicted <= Apply(max, s, step).evicted
  {
    match step
    case Consume(raw, drops) => TookCovers(max, s, raw, drops);
    case Restock(event) => RestockedCovers(max, s, event);
    case _ =>
      hide After, Upserted, MayOffer, Subscribed, IdSet, Allowed, InFlight, Offered, Taken, Wrote, Left, Accounted;
  }

  lemma TookCovers(max: int, s: State, raw: Raw, drops: seq<Drop>)
    requires Allowed(max, s.store, Event.Add(Stored(raw), drops)) && Covered(s)
    ensures Covered(Took(max, s, raw, drops))
  {
    hide After, Upserted, Allowed, Holds, SameSlot;
    var t, n := Took(max, s, raw, drops), |s.consumed|;
    forall i | 0 <= i < |t.consumed| ensures Accounted(t.consumed, i, t.store.data, t.evicted) {
      UpsertedHolds(s.store.data, Stored(raw), Stored(t.consumed[i]));
      if i < n {
        assert Accounted(s.consumed, i, s.store.data, s.evicted);
        assert t.consumed[n] == raw && t.consumed[i] == s.consumed[i];
        if j :| i < j < n && SameSlot(Stored(s.consumed[i]), Stored(s.consumed[j])) { assert t.consumed[j] == s.consumed[j]; }
      }
    }
  }

  lemma RestockedCovers(max: int, s: State, event: Event)
    requires !event.Add? && Covered(s)
    ensures Covered(Restocked(max, s, event))
  {
    hide After, Holds, SameSlot;
    var t := Restocked(max, s, event);
    forall i | 0 <= i < |t.consumed| ensures Accounted(t.consumed, i, t.store.data, t.evicted) {
      assert Accounted(s.consumed, i, s.store.data, s.evicted);
    }
  }

  /** A row counts as evicted only when a prune, a bootstrap, or an Add that had to trim took it out of the store. */
  lemma EvictionIsRemoval(max: int, s: State, step: Step, i: nat)
    requires Enabled(max, s, step) && i in Apply(max, s, step).evicted && i !in s.evicted
    ensures var t := Apply(max, s, step);
            && i < |t.consumed| && !Holds(t.store.data, Stored(t.consumed[i]))
            && (step.Restock? || (step.Consume? && step.drops != []))
            && (step.Restock? ==> Holds(s.store.data, Stored(s.consumed[i])))
  {
    hide Upserted, Holds, Greedy, MayOffer;
  }

  // ------------------------------------------------------------- deltas after the snapshot

  predicate DeltaIn(log: seq<Offer>, i: nat) { exists k :: 0 <= k < |log| && log[k].msg == Delta(i) }

  /** The consumer has stored row i and is about to offer its delta to entry e. */
  predicate Pending(consumed: seq<Raw>, consumer: Consumer, e: nat, i: nat) {
    i == |consumed| - 1 && (consumer.Added? || (consumer.Sending? && e in consumer.targets))
  }

  /** Every row of a subscribed rule consumed from `at` on has been offered to the entry, or is about to be. */
  predicate Delivered(consumed: seq<Raw>, consumer: Consumer, log: seq<Offer>, e: nat, ids: seq<string>, at: nat) {
    forall i :: at <= i < |consumed| && Agrees(consumed[i]) && RuleOf(Stored(consumed[i])) in ids ==>
      DeltaIn(log, i) || Pending(consumed, consumer, e, i)
  }

  /** What the snapshot says of the rows consumed before it. */
  predicate Pictured(consumed: seq<Raw>, ids: seq<string>, snap: Snap) {
    && snap.at <= |consumed|
    && forall i :: 0 <= i < snap.at && RuleOf(Stored(consumed[i])) in ids ==>
         Accounted(consumed[..snap.at], i, snap.rows, snap.gone)
  }

  /** Offers made before GetAll carry only rows consumed before it; the bootstrap carries GetAll's answer, after them. */
  predicate Greets(log: seq<Offer>, snap: Snap, greeting: Option<nat>) {
    && snap.offered <= |log|
    && (forall k :: 0 <= k < snap.offered && log[k].msg.Delta? ==> log[k].msg.index < snap.at)
    && (greeting.Some? ==> snap.offered <= greeting.value < |log| && log[greeting.value].msg == Bootstrap(snap.rows))
  }

  lemma GreetsStays(log: seq<Offer>, o: Offer, snap: Snap, greeting: Option<nat>)
    requires Greets(log, snap, greeting)
    ensures Greets(log + [o], snap, greeting)
    ensures o.msg == Bootstrap(snap.rows) ==> Greets(log + [o], snap, Some(|log|))
  {
  }

  predicate SessionHolds(s: State, c: Conn)
    requires c in s.sessions
  {
    var session := s.sessions[c];
    && c in s.conns && s.conns[c] == session.entry < |s.entries|
    && s.entries[session.entry].subs == IdSet(session.ids)
    && (session.greeting.Some? ==> session.snap.Some?)
    && (session.snap.Some? ==>
          && Pictured(s.consumed, session.ids, session.snap.value)
          && Greets(s.entries[session.entry].log, session.snap.value, session.greeting)
          && Delivered(s.consumed, s.consumer, s.entries[session.entry].log, session.entry, session.ids, session.snap.value.at))
  }

  predicate SessionsHold(s: State) { forall c :: c in s.sessions ==> SessionHolds(s, c) }

  lemma DeltaStays(log: seq<Offer>, o: Offer, i: nat)
    ensures DeltaIn(log + [o], i) <==> DeltaIn(log, i) || o.msg == Delta(i)
  {
    var more := log + [o];
    assert more[|log|] == o;
    if DeltaIn(log, i) {
      var k :| 0 <= k < |log| && log[k].msg == Delta(i);
      assert more[k] == log[k];
    }
  }

  lemma PicturedStays(consumed: seq<Raw>, raw: Raw, ids: seq<string>, snap: Snap)
    requires Pictured(consumed, ids, snap)
    ensures Pictured(consumed + [raw], ids, snap)
  {
    hide Accounted;
    assert (consumed + [raw])[..snap.at] == consumed[..snap.at];
  }

  /** GetAll's answer accounts for everything consumed so far. */
  lemma SnapshotPictures(s: State, c: Conn, offered: nat)
    requires Covered(s) && c in s.sessions
    ensures Pictured(s.consumed, s.sessions[c].ids, Snap(Asked(s.store.data, s.sessions[c].ids), |s.consumed|, s.evicted, offered))
  {
    hide Key, SameSlot;
    var all, snap := s.consumed, Asked(s.store.data, s.sessions[c].ids);
    assert all[..|all|] == all;
    forall i | 0 <= i < |all| && RuleOf(Stored(all[i])) in s.sessions[c].ids
      ensures Accounted(all, i, snap, s.evicted)
    {
      assert Accounted(all, i, s.store.data, s.evicted);
    }
  }

  lemma ConsumeKeepsSession(max: int, s: State, step: Step, c: Conn)
    requires Enabled(max, s, step) && step.Consume? && c in s.sessions && SessionHolds(s, c)
    ensures SessionHolds(Apply(max, s, step), c)
  {
    hide After, Upserted, Allowed, Pictured, DeltaIn, Agrees, RuleOf, IdSet, Lost, Greets;
    if s.sessions[c].snap.Some? { PicturedStays(s.consumed, step.raw, s.sessions[c].ids, s.sessions[c].snap.value); }
  }

  /** The entry a message is offered to, and the offer. */
  predicate Talks(s: State, step: Step) { step.Send? || step.Say? || step.Greet? }

  lemma TalkLogs(max: int, s: State, step: Step, e: nat)
    requires Enabled(max, s, step) && Talks(s, step) && e < |s.entries|
    ensures var t := Apply(max, s, step);
            && |t.entries| == |s.entries| && t.entries[e].subs == s.entries[e].subs
            && (t.entries[e].log == s.entries[e].log ||
                (|t.entries[e].log| == |s.entries[e].log| + 1 && t.entries[e].log == s.entries[e].log + [t.entries[e].log[|s.entries[e].log|]]))
            && t.consumed == s.consumed && t.conns == s.conns
            && (step.Send? && s.consumed != [] ==>
                  t.consumer == Sending(s.consumer.targets - {step.e}) && (step.e == e ==> t.entries[e].log == s.entries[e].log + [Offer(Delta(|s.consumed| - 1), step.accepted)]))
            && (!step.Send? ==> t.consumer == s.consumer)
  {
    hide MayOffer;
  }

  lemma TalkKeepsSession(max: int, s: State, step: Step, c: Conn)
    requires Enabled(max, s, step) && Talks(s, step)
    requires c in s.sessions && SessionHolds(s, c) && DeltasOrdered(s)
    ensures SessionHolds(Apply(max, s, step), c)
  {
    var session := s.sessions[c];
    var t, e := Apply(max, s, step), session.entry;
    TalkLogs(max, s, step, e);
    if t.entries[e].log != s.entries[e].log && session.snap.Some? {
      var o := t.entries[e].log[|s.entries[e].log|];
      GreetsStays(s.entries[e].log, o, session.snap.value, session.greeting);
      forall i: nat ensures DeltaIn(t.entries[e].log, i) <==> DeltaIn(s.entries[e].log, i) || o.msg == Delta(i) {
        DeltaStays(s.entries[e].log, o, i);
      }
    }
    if session.snap.Some? { TalkDelivers(max, s, step, c); }
    hide Pictured, Delivered, Greets, IdSet, MayOffer, DeltaIn;
  }

  lemma TalkDelivers(max: int, s: State, step: Step, c: Conn)
    requires Enabled(max, s, step) && Talks(s, step) && DeltasOrdered(s)
    requires c in s.sessions && s.sessions[c].snap.Some? && s.sessions[c].entry < |s.entries|
    requires var session := s.sessions[c];
             Delivered(s.consumed, s.consumer, s.entries[session.entry].log, session.entry, session.ids, session.snap.value.at)
    ensures var t, session := Apply(max, s, step), s.sessions[c];
            session.entry < |t.entries| &&
            Delivered(t.consumed, t.consumer, t.entries[session.entry].log, session.entry, session.ids, session.snap.value.at)
  {
    var session := s.sessions[c];
    var t, e := Apply(max, s, step), session.entry;
    TalkLogs(max, s, step, e);
    hide Enabled, Apply, Rising, DeltaIn, Agrees, RuleOf;
    if t.entries[e].log != s.entries[e].log {
      var o := t.entries[e].log[|s.entries[e].log|];
      forall i: nat ensures DeltaIn(t.entries[e].log, i) <==> DeltaIn(s.entries[e].log, i) || o.msg == Delta(i) {
        DeltaStays(s.entries[e].log, o, i);
      }
    }
  }

  lemma BroadcastKeepsSession(max: int, s: State, step: Step, c: Conn)
    requires Enabled(max, s, step) && (step.Target? || step.Sent?)
    requires c in s.sessions && SessionHolds(s, c) && DeltasOrdered(s)
    ensures SessionHolds(Apply(max, s, step), c)
  {
    hide After, Upserted, Allowed, Pictured, DeltaIn, Rising, MayOffer, Greets;
  }

  lemma OtherKeepsSession(max: int, s: State, step: Step, c: Conn)
    requires Enabled(max, s, step) && !(step.Target? || step.Sent? || Talks(s, step) || step.Consume?)
    requires step.Snapshot? ==> step.conn != c
    requires step.Connect? ==> step.conn != c
    requires c in s.sessions && SessionHolds(s, c) && Registered(s) && c in Apply(max, s, step).sessions
    ensures SessionHolds(Apply(max, s, step), c)
  {
    hide After, Upserted, Allowed, Pictured, DeltaIn, MayOffer, Delivered, Lost, Asked, InFlight, IdSet, Greets;
  }

  lemma KeepsSessions(max: int, s: State, step: Step)
    requires Enabled(max, s, step) && Registered(s) && DeltasOrdered(s) && Covered(s) && SessionsHold(s)
    ensures SessionsHold(Apply(max, s, step))
  {
    hide SessionHolds, Registered, DeltasOrdered, Covered, Connected;
    var t := Apply(max, s, step);
    forall c | c in t.sessions ensures SessionHolds(t, c) {
      if (step.Connect? || step.Snapshot?) && step.conn == c {
        OwnKeepsSession(max, s, step);
      } else {
        SessionWas(max, s, step, c);
        if step.Consume? {
          ConsumeKeepsSession(max, s, step, c);
        } else if step.Target? || step.Sent? {
          BroadcastKeepsSession(max, s, step, c);
        } else if Talks(s, step) {
          TalkKeepsSession(max, s, step, c);
        } else {
          OtherKeepsSession(max, s, step, c);
        }
      }
    }
  }

  lemma SessionWas(max: int, s: State, step: Step, c: Conn)
    requires Enabled(max, s, step) && c in Apply(max, s, step).sessions && !(step.Connect? && step.conn == c)
    ensures c in s.sessions
  {
    hide After, Upserted, Allowed, MayOffer, Lost, Asked, InFlight, IdSet, Subscribed, Offered, Taken, Wrote, Left;
  }

  lemma OwnKeepsSession(max: int, s: State, step: Step)
    requires Enabled(max, s, step) && (step.Connect? || step.Snapshot?)
    requires Registered(s) && Covered(s) && SessionsHold(s) && DeltasOrdered(s)
    ensures step.conn in Apply(max, s, step).sessions && SessionHolds(Apply(max, s, step), step.conn)
  {
    hide Pictured, Covered, Asked;
    if step.Snapshot? {
      var e := s.sessions[step.conn].entry;
      SnapshotPictures(s, step.conn, |s.entries[e].log|);
      assert Rising(s.entries[e].log, Limit(s, e));
    }
  }

  // ------------------------------------------------------------- over whole runs

  predicate Tracks(s: State) { Safe(s) && Covered(s) && SessionsHold(s) }

  lemma {:induction false} TracksRuns(max: int, s: State, steps: seq<Step>)
    requires Tracks(s) && Runs(max, s, steps)
    ensures Tracks(Final(max, s, steps))
    decreases |steps|
  {
    hide Registered, Conserving, DeltasOrdered, Covered, SessionsHold, Enabled, Apply;
    if steps != [] {
      KeepsRegistered(max, s, steps[0]);
      KeepsConserving(max, s, steps[0]);
      KeepsOrdered(max, s, steps[0]);
      KeepsCovered(max, s, steps[0]);
      KeepsSessions(max, s, steps[0]);
      TracksRuns(max, Apply(max, s, steps[0]), steps[1..]);
    }
  }

  /** In every interleaving, for a subscription with its snapshot taken and every consumed row of one of its rules
      that is stored and broadcast under that rule: if the row was consumed before the snapshot, it is in it, or a
      later row of the same key consumed before the snapshot took its place, or it had been evicted by then; if
      after, its delta has been offered to the client's outbox or the consumer is about to offer it. */
  lemma NoGapInEveryRun(max: int, steps: seq<Step>, c: Conn, i: nat)
    requires Runs(max, Start(), steps)
    requires var s := Final(max, Start(), steps);
             c in s.sessions && s.sessions[c].snap.Some? && i < |s.consumed| && Agrees(s.consumed[i]) &&
             RuleOf(Stored(s.consumed[i])) in s.sessions[c].ids
    ensures var s := Final(max, Start(), steps);
            var session := s.sessions[c];
            var snap := session.snap.value;
            && snap.at <= |s.consumed| && session.entry < |s.entries|
            && if i < snap.at then
                 || Holds(snap.rows, Stored(s.consumed[i]))
                 || i in snap.gone
                 || exists j :: i < j < snap.at && Supersedes(Stored(s.consumed[j]), Stored(s.consumed[i]))
               else
                 || DeltaIn(s.entries[session.entry].log, i)
                 || (i == |s.consumed| - 1 && (s.consumer.Added? || (s.consumer.Sending? && session.entry in s.consumer.targets)))
  {
    TracksRuns(max, Start(), steps);
    var s := Final(max, Start(), steps);
    hide Final, Runs, Holds, SameSlot, Registered, Conserving, DeltasOrdered, Covered, Agrees, RuleOf, DeltaIn;
    assert SessionHolds(s, c);
    var snap := s.sessions[c].snap.value;
    if i < snap.at {
      assert Accounted(s.consumed[..snap.at], i, snap.rows, snap.gone);
      SlotsByPair(s.consumed[..snap.at], i);
      assert forall j :: 0 <= j < snap.at ==> s.consumed[..snap.at][j] == s.consumed[j];
    }
  }

  lemma SlotsByPair(consumed: seq<Raw>, i: nat)
    requires i < |consumed|
    ensures forall j :: i < j < |consumed| && SameSlot(Stored(consumed[i]), Stored(consumed[j])) ==>
              Supersedes(Stored(consumed[j]), Stored(consumed[i]))
  {
    hide Key, Stored, RuleOf, SamePair, Confusable;
    forall j | i < j < |consumed| { KeyIsPair(Stored(consumed[i]), Stored(consumed[j])); }
  }

  /** In every interleaving, the bootstrap of a subscription carries GetAll's answer, and a delta of a row consumed
      after that answer stands before the bootstrap exactly when it was enqueued between the two. */
  lemma BootstrapAmongDeltas(max: int, steps: seq<Step>, c: Conn, k: nat)
    requires Runs(max, Start(), steps)
    requires var s := Final(max, Start(), steps);
             && c in s.sessions && s.sessions[c].greeting.Some? && s.sessions[c].entry < |s.entries|
             && k < |s.entries[s.sessions[c].entry].log| && s.sessions[c].snap.Some?
             && s.entries[s.sessions[c].entry].log[k].msg.Delta?
             && s.entries[s.sessions[c].entry].log[k].msg.index >= s.sessions[c].snap.value.at
    ensures var s := Final(max, Start(), steps);
            var snap, g := s.sessions[c].snap.value, s.sessions[c].greeting.value;
            var log := s.entries[s.sessions[c].entry].log;
            && g < |log| && log[g].msg == Bootstrap(snap.rows)
            && (k < g <==> snap.offered <= k < g)
            && (snap.offered == g ==> g < k)
  {
    TracksRuns(max, Start(), steps);
    hide Final, Runs, Registered, Conserving, DeltasOrdered, Covered, SessionHolds;
    GreetedAmongDeltas(Final(max, Start(), steps), c, k);
  }

  lemma GreetedAmongDeltas(s: State, c: Conn, k: nat)
    requires c in s.sessions && SessionHolds(s, c) && s.sessions[c].greeting.Some? && k < |s.entries[s.sessions[c].entry].log|
    requires s.entries[s.sessions[c].entry].log[k].msg.Delta?
    requires s.entries[s.sessions[c].entry].log[k].msg.index >= s.sessions[c].snap.value.at
    ensures var snap, g := s.sessions[c].snap.value, s.sessions[c].greeting.value;
            var log := s.entries[s.sessions[c].entry].log;
            && g < |log| && log[g].msg == Bootstrap(snap.rows) && (k < g <==> snap.offered <= k < g) && (snap.offered == g ==> g < k)
  {
    hide Pictured, Delivered, IdSet;
  }

  /** And that can happen to every subscription between the two, with any row of one of its rules and an outbox with
      room: the client then reads the newer row first and the older snapshot after it. */
  lemma NewerBeforeBootstrap(max: int, s: State, c: Conn, raw: Raw, drops: seq<Drop>)
    requires c in s.sessions && SessionHolds(s, c) && s.sessions[c].snap.Some? && s.sessions[c].greeting.None?
    requires s.consumer.Waiting? && Allowed(max, s.store, Event.Add(Stored(raw), drops)) && BroadcastRule(raw) in s.sessions[c].ids
    requires |s.entries[s.sessions[c].entry].queue| + 2 <= OUTBOX_SIZE
    ensures var e := s.sessions[c].entry;
            var steps := [Consume(raw, drops), Target, Send(e, true), Greet(c, true)];
            && Runs(max, s, steps)
            && var t := Final(max, s, steps);
            && t.consumed == s.consumed + [raw] && s.sessions[c].snap.value.at <= |s.consumed|
            && e < |t.entries|
            && t.entries[e].log == s.entries[e].log + [Offer(Delta(|s.consumed|), true), Offer(Bootstrap(s.sessions[c].snap.value.rows), true)]
  {
    hide Enabled, Apply, SessionHolds, Took, Offered, Subscribed, Runs, Final, Allowed, BroadcastRule;
    var e := s.sessions[c].entry;
    var s1 := Took(max, s, raw, drops);
    var s2 := s1.(consumer := Sending(Subscribed(s1, BroadcastRule(raw))));
    FirstTwo(max, s, c, raw, drops, s1, s2);
    var s3 := WithEntry(s2, e, Offered(s.entries[e], Delta(|s.consumed|), true)).(consumer := Sending(s2.consumer.targets - {e}));
    LastTwo(max, s2, c, s3);
    RunsFrom(max, [Consume(raw, drops), Target, Send(e, true), Greet(c, true)], [s, s1, s2, s3, Apply(max, s3, Greet(c, true))]);
  }

  lemma FirstTwo(max: int, s: State, c: Conn, raw: Raw, drops: seq<Drop>, s1: State, s2: State)
    requires c in s.sessions && SessionHolds(s, c)
    requires s.consumer.Waiting? && Allowed(max, s.store, Event.Add(Stored(raw), drops)) && BroadcastRule(raw) in s.sessions[c].ids
    requires s1 == Took(max, s, raw, drops) && s2 == s1.(consumer := Sending(Subscribed(s1, BroadcastRule(raw))))
    ensures Enabled(max, s, Consume(raw, drops)) && Apply(max, s, Consume(raw, drops)) == s1
    ensures Enabled(max, s1, Target) && Apply(max, s1, Target) == s2
    ensures s2.consumed == s.consumed + [raw] && s2.entries == s.entries && s2.sessions == s.sessions && s2.conns == s.conns
    ensures s.sessions[c].entry in s2.consumer.targets && c in s.conns && s.conns[c] == s.sessions[c].entry < |s.entries|
    ensures s.sessions[c].snap.Some? ==> s.sessions[c].snap.value.at <= |s.consumed|
  {
    hide After, Upserted, Allowed, Lost, Delivered, Greets, Accounted, Agrees, InFlight, BroadcastRule;
    assert s.conns[c] in Subscribed(s1, BroadcastRule(raw));
  }

  lemma LastTwo(max: int, s2: State, c: Conn, s3: State)
    requires c in s2.sessions && s2.sessions[c].snap.Some? && s2.sessions[c].greeting.None? && s2.consumed != []
    requires c in s2.conns && s2.conns[c] == s2.sessions[c].entry < |s2.entries|
    requires s2.consumer.Sending? && s2.sessions[c].entry in s2.consumer.targets
    requires |s2.entries[s2.sessions[c].entry].queue| + 2 <= OUTBOX_SIZE
    requires var e := s2.sessions[c].entry;
             s3 == WithEntry(s2, e, Offered(s2.entries[e], Delta(|s2.consumed| - 1), true)).(consumer := Sending(s2.consumer.targets - {e}))
    ensures var e := s2.sessions[c].entry;
            && Enabled(max, s2, Send(e, true)) && Apply(max, s2, Send(e, true)) == s3
            && Enabled(max, s3, Greet(c, true))
            && var t := Apply(max, s3, Greet(c, true));
            && t.consumed == s2.consumed && e < |t.entries|
            && t.entries[e].log == s2.entries[e].log + [Offer(Delta(|s2.consumed| - 1), true), Offer(Bootstrap(s2.sessions[c].snap.value.rows), true)]
  {
  }

  /** Every row stored under one rule and broadcast under another makes a gap for a subscriber of the first: the row
      comes after its snapshot, and no delta of it is offered. */
  lemma GapWhenRulesDiffer(raw: Raw)
    requires !Agrees(raw)
    ensures exists steps ::
      && Runs(1, Start(), steps)
      && var s := Final(1, Start(), steps);
      && s.consumed == [raw] && s.consumer.Waiting?
      && Socket(7) in s.sessions && RuleOf(Stored(raw)) in s.sessions[Socket(7)].ids
      && s.sessions[Socket(7)].entry == 0 && s.sessions[Socket(7)].snap == Some(Snap(map[], 0, {}, 0))
      && |s.entries| == 1 && s.entries[0].log == []
  {
    var ids := [RuleOf(Stored(raw))];
    var steps := [Connect(Socket(7), ids), Snapshot(Socket(7)), Consume(raw, []), Target, Sent];
    var s1 := Start().(entries := [NewEntry(Socket(7), IdSet(ids))], conns := map[Socket(7) := 0],
                       sessions := map[Socket(7) := Session(0, ids, None, None)]);
    var s2 := s1.(sessions := map[Socket(7) := Session(0, ids, Some(Snap(map[], 0, {}, 0)), None)]);
    Subscribes(ids, s1, s2);
    FirstRow(Stored(raw));
    var s3 := Took(1, s2, raw, []);
    var s4 := s3.(consumer := Sending({}));
    RowMissed(raw, s2, s3, s4);
    hide Enabled, Apply, Took, Runs, Final;
    RunsFrom(1, steps, [Start(), s1, s2, s3, s4, s4.(consumer := Waiting)]);
  }

  lemma Subscribes(ids: seq<string>, s1: State, s2: State)
    requires s1 == Start().(entries := [NewEntry(Socket(7), IdSet(ids))], conns := map[Socket(7) := 0],
                            sessions := map[Socket(7) := Session(0, ids, None, None)])
    requires s2 == s1.(sessions := map[Socket(7) := Session(0, ids, Some(Snap(map[], 0, {}, 0)), None)])
    ensures Enabled(1, Start(), Connect(Socket(7), ids)) && Apply(1, Start(), Connect(Socket(7), ids)) == s1
    ensures Enabled(1, s1, Snapshot(Socket(7))) && Apply(1, s1, Snapshot(Socket(7))) == s2
  {
    hide After;
    assert Asked(map[], ids) == map[];
  }

  lemma RowMissed(raw: Raw, s2: State, s3: State, s4: State)
    requires !Agrees(raw) && Allowed(1, s2.store, Event.Add(Stored(raw), [])) && s2.consumer.Waiting? && s2.consumed == []
    requires |s2.entries| == 1 && s2.entries[0].subs == IdSet([RuleOf(Stored(raw))]) && s2.conns == map[Socket(7) := 0]
    requires s3 == Took(1, s2, raw, []) && s4 == s3.(consumer := Sending({}))
    ensures Enabled(1, s2, Consume(raw, [])) && Apply(1, s2, Consume(raw, [])) == s3
    ensures Enabled(1, s3, Target) && Apply(1, s3, Target) == s4
    ensures Enabled(1, s4, Sent) && Apply(1, s4, Sent) == s4.(consumer := Waiting)
    ensures s3.consumed == [raw] && s3.entries == s2.entries && s3.sessions == s2.sessions
  {
    hide After, Allowed, Lost, Upserted;
    assert Subscribed(s3, BroadcastRule(raw)) == {};
  }

  lemma FirstRow(row: Row)
    ensures Allowed(1, Store(map[], 0, 0), Event.Add(row, []))
  {
    var m := Upserted(map[], row);
    assert Excess(1, 1) == 0;
  }
}
