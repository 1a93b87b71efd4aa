/** The live fan-out as steps that may interleave in any order: the results consumer, the subscribe handlers, one
    writer per entry, disconnects, prunes and one CloseAll (internal/services/wsmanager.go,
    internal/services/consumer.go, internal/handlers/websocket.go). A step is what one goroutine does under one lock
    or in one channel operation. */
module Fanout {
  import opened Prelude
  import opened LiveRows
  import opened LiveRuns
  import opened LiveStore
  import opened FanoutEntry

  // ------------------------------------------------------------- consumed rows

  /** A decoded result field: absent, present but not text, or text. */
  datatype Field = Absent | NotText | Text(text: string)

  function TextOf(f: Field): string { if f.Text? then f.text else "" }

  /** The fields of a Kafka result that normalisation looks at; `time` is the parsed window start. */
  datatype Raw = Raw(ruleId: Field, id: Field, groupKey: Field, entityValue: Field, windowStart: string, time: Option<int>, body: int)

  /** A result as the store takes it in, with its `id` field beside it. */
  datatype Item = Item(row: Row, id: string)

  /** processMessage's normalisation: id stands in for an absent ruleId, entityValue for an absent groupKey. */
  function Normalised(raw: Raw): Item {
    var rule := if raw.ruleId.Absent? && TextOf(raw.id) != "" then TextOf(raw.id) else TextOf(raw.ruleId);
    var group := if raw.groupKey.Absent? && TextOf(raw.entityValue) != "" then TextOf(raw.entityValue) else TextOf(raw.groupKey);
    Item(Row(rule, group, raw.windowStart, raw.time, raw.body), TextOf(raw.id))
  }

  /** The row a message is stored as. */
  function Stored(raw: Raw): Row { Normalised(raw).row }

  /** The rule its delta is broadcast under. */
  function BroadcastRule(raw: Raw): string {
    var item := Normalised(raw);
    if item.row.ruleId != "" then item.row.ruleId else if item.id != "" then item.id else "unknown"
  }

  /** A message is stored and broadcast under one rule. */
  predicate Agrees(raw: Raw) { BroadcastRule(raw) == RuleOf(Stored(raw)) }

  /** Field by field. A message with a rule id, or with an id and no rule id, is stored and broadcast under that text; any
      other is stored under `unknown`. Its group is its groupKey, or without one its entityValue. The rest is its own. */
  lemma NormalisedFields(raw: Raw)
    ensures raw.ruleId.Text? && raw.ruleId.text != "" ==> RuleOf(Stored(raw)) == BroadcastRule(raw) == raw.ruleId.text
    ensures raw.ruleId.Absent? && raw.id.Text? && raw.id.text != "" ==> RuleOf(Stored(raw)) == BroadcastRule(raw) == raw.id.text
    ensures !(raw.ruleId.Text? && raw.ruleId.text != "") && !(raw.ruleId.Absent? && raw.id.Text? && raw.id.text != "") ==>
              && RuleOf(Stored(raw)) == "unknown"
              && BroadcastRule(raw) == if raw.id.Text? && raw.id.text != "" then raw.id.text else "unknown"
    ensures Stored(raw).groupKey == match raw.groupKey
                                    case Text(group) => group
                                    case NotText => ""
                                    case Absent => if raw.entityValue.Text? then raw.entityValue.text else ""
    ensures Stored(raw).windowStart == raw.windowStart && Stored(raw).time == raw.time && Stored(raw).body == raw.body
  {
  }

  /** Store and broadcast part ways exactly on a message whose ruleId field is there but empty or not text, and whose
      id names a rule other than "unknown". */
  lemma WhenRulesAgree(raw: Raw)
    ensures RuleOf(Stored(raw)) == BroadcastRule(raw) <==>
            raw.ruleId.Absent? || (raw.ruleId.Text? && raw.ruleId.text != "") || !raw.id.Text? || raw.id.text in ["", "unknown"]
  {
    NormalisedFields(raw);
  }

  // ------------------------------------------------------------- state

  /** The consumer goroutine: between messages; past Add of the latest row; or enqueueing its delta to the
      entries found subscribed. */
  datatype Consumer = Waiting | Added | Sending(targets: set<nat>)

  /** GetAll's answer to a subscribe, with how many rows had been consumed by then, which of them evicted, and how
      many messages the entry had been offered. */
  datatype Snap = Snap(rows: Rows, at: nat, gone: set<nat>, offered: nat)

  /** A handler's latest subscribe: its entry, the ids, the snapshot once taken, and the place of its bootstrap among
      the entry's offers once made. */
  datatype Session = Session(entry: nat, ids: seq<string>, snap: Option<Snap>, greeting: Option<nat>)

  datatype Closer =
    | NotStarted
    | Picking(rest: map<Conn, nat>)
    | Stopped(conn: Conn, entry: nat, rest: map<Conn, nat>)
    | WritingClose(conn: Conn, entry: nat, rest: map<Conn, nat>)
    | Disconnecting(conn: Conn, rest: map<Conn, nat>)
    | Finished

  /** `entries` holds every entry ever made; `conns` is the manager's map; `evicted` the consumed rows a trim, prune
      or bootstrap has taken out of the store; `looked` the entries a handler has looked up and not yet offered its
      message to. */
  datatype State = State(store: Store, consumed: seq<Raw>, evicted: set<nat>, consumer: Consumer,
                         entries: seq<Entry>, conns: map<Conn, nat>, sessions: map<Conn, Session>, closer: Closer,
                         looked: set<nat>)

  function Start(): State { State(Store(map[], 0, 0), [], {}, Waiting, [], map[], map[], NotStarted, {}) }

  /** WriteToConn looks an entry up and then offers to it. Say is the offer of a heartbeat, or of a bootstrap that lost
      its connection since the lookup; Greet is the bootstrap of a subscription still registered. */
  datatype Step =
    | Connect(conn: Conn, ids: seq<string>)
    | Snapshot(conn: Conn)
    | Lookup(conn: Conn)
    | Say(e: nat, msg: Msg, accepted: bool)
    | Greet(conn: Conn, accepted: bool)
    | Consume(raw: Raw, drops: seq<Drop>)
    | Target
    | Send(e: nat, accepted: bool)
    | Sent
    | Restock(event: Event)
    | Take(e: nat)
    | WriteOk(e: nat)
    | WriteFails(e: nat)
    | Leave(e: nat)
    | Exit(e: nat)
    | Unregister(conn: Conn)
    | Stop(e: nat)
    | CloseStart
    | CloseStop(conn: Conn)
    | CloseReady
    | CloseTimeout
    | CloseWrote
    | CloseDisconnect
    | CloseEnd

  function IdSet(ids: seq<string>): set<string> { set r | r in ids }

  /** The connection's one handler is not between a lookup and its offer. */
  predicate NoLookup(s: State, c: Conn) { forall e :: e in s.looked && e < |s.entries| ==> s.entries[e].conn != c }

  ghost predicate Enabled(max: int, s: State, step: Step) {
    match step
    case Connect(c, _) => NoLookup(s, c)
    case Lookup(c) => c in s.conns && s.conns[c] < |s.entries| && NoLookup(s, c)
    case Snapshot(c) => c in s.sessions && s.sessions[c].snap.None? && s.sessions[c].entry < |s.entries|
    case Say(e, m, ok) =>
      e in s.looked && e < |s.entries| && MayOffer(s.entries[e], ok) && (m.Heartbeat? || (m.Bootstrap? && e !in s.conns.Values))
    case Greet(c, ok) =>
      && c in s.sessions && s.sessions[c].snap.Some? && s.sessions[c].greeting.None?
      && c in s.conns && s.conns[c] == s.sessions[c].entry
      && s.sessions[c].entry < |s.entries| && MayOffer(s.entries[s.sessions[c].entry], ok)
    case Consume(raw, drops) => s.consumer.Waiting? && Allowed(max, s.store, Event.Add(Stored(raw), drops))
    case Target => s.consumer.Added?
    case Send(e, ok) => s.consumer.Sending? && e in s.consumer.targets && e < |s.entries| && MayOffer(s.entries[e], ok)
    case Sent => s.consumer == Sending({})
    case Restock(event) => !event.Add?
    case Take(e) => e < |s.entries| && s.entries[e].pump.Idle? && s.entries[e].queue != []
    case WriteOk(e) => e < |s.entries| && s.entries[e].pump.Writing?
    case WriteFails(e) => e < |s.entries| && s.entries[e].pump.Writing?
    case Leave(e) => e < |s.entries| && s.entries[e].pump.Failed?
    case Exit(e) => e < |s.entries| && (s.entries[e].pump.Leaving? || (s.entries[e].pump.Idle? && s.entries[e].closed))
    case Unregister(_) => true
    case Stop(e) => e < |s.entries|
    case CloseStart => s.closer.NotStarted?
    case CloseStop(c) => s.closer.Picking? && c in s.closer.rest && s.closer.rest[c] < |s.entries|
    case CloseReady => s.closer.Stopped? && s.closer.entry < |s.entries| && s.entries[s.closer.entry].pump.Exited?
    case CloseTimeout => s.closer.Stopped?
    case CloseWrote => s.closer.WritingClose?
    case CloseDisconnect => s.closer.Disconnecting?
    case CloseEnd => s.closer == Picking(map[])
  }

  function Unregistered(s: State, c: Conn): State { s.(conns := s.conns - {c}, sessions := s.sessions - {c}) }

  function WithEntry(s: State, e: nat, entry: Entry): State
    requires e < |s.entries|
  {
    s.(entries := s.entries[e := entry])
  }

  function Connected(s: State, c: Conn, ids: seq<string>): State {
    if c in s.conns && s.conns[c] < |s.entries| then
      var e := s.conns[c];
      WithEntry(s, e, s.entries[e].(subs := IdSet(ids))).(sessions := s.sessions[c := Session(e, ids, None, None)])
    else
      s.(entries := s.entries + [NewEntry(c, IdSet(ids))], conns := s.conns[c := |s.entries|],
         sessions := s.sessions[c := Session(|s.entries|, ids, None, None)])
  }

  function Holds(m: Rows, row: Row): bool { row in Of(m, RuleOf(row)) }

  /** Consumed rows that were held just before a removal and are not after it. */
  function Lost(consumed: seq<Raw>, before: Rows, after: Rows): set<nat> {
    set i: nat | i < |consumed| && Holds(before, Stored(consumed[i])) && !Holds(after, Stored(consumed[i]))
  }

  ghost function Took(max: int, s: State, raw: Raw, drops: seq<Drop>): State
    requires Allowed(max, s.store, Event.Add(Stored(raw), drops))
  {
    var store := After(max, s.store, Event.Add(Stored(raw), drops));
    var consumed := s.consumed + [raw];
    s.(store := store, consumed := consumed, consumer := Added,
       evicted := s.evicted + Lost(consumed, Upserted(s.store.data, Stored(raw)), store.data))
  }

  ghost function Restocked(max: int, s: State, event: Event): State
    requires !event.Add?
  {
    var store := After(max, s.store, event);
    s.(store := store, evicted := s.evicted + Lost(s.consumed, s.store.data, store.data))
  }

  /** Broadcast's lookup under the read lock. */
  function Subscribed(s: State, rule: string): set<nat> {
    set c | c in s.conns && s.conns[c] < |s.entries| && rule in s.entries[s.conns[c]].subs :: s.conns[c]
  }

  ghost function Apply(max: int, s: State, step: Step): State
    requires Enabled(max, s, step)
  {
    match step
    case Connect(c, ids) => Connected(s, c, ids)
    case Snapshot(c) =>
      var session := s.sessions[c];
      var snap := Snap(Asked(s.store.data, session.ids), |s.consumed|, s.evicted, |s.entries[session.entry].log|);
      s.(sessions := s.sessions[c := session.(snap := Some(snap))])
    case Lookup(c) => s.(looked := s.looked + {s.conns[c]})
    case Say(e, m, ok) => WithEntry(s, e, Offered(s.entries[e], m, ok)).(looked := s.looked - {e})
    case Greet(c, ok) =>
      var session := s.sessions[c];
      var entry := s.entries[session.entry];
      WithEntry(s, session.entry, Offered(entry, Bootstrap(session.snap.value.rows), ok))
        .(sessions := s.sessions[c := session.(greeting := Some(|entry.log|))])
    case Consume(raw, drops) => Took(max, s, raw, drops)
    case Target =>
      if s.consumed == [] then s
      else s.(consumer := Sending(Subscribed(s, BroadcastRule(s.consumed[|s.consumed| - 1]))))
    case Send(e, ok) =>
      if s.consumed == [] then s
      else
        WithEntry(s, e, Offered(s.entries[e], Delta(|s.consumed| - 1), ok))
          .(consumer := Sending(s.consumer.targets - {e}))
    case Sent => s.(consumer := Waiting)
    case Restock(event) => Restocked(max, s, event)
    case Take(e) => WithEntry(s, e, Taken(s.entries[e]))
    case WriteOk(e) => WithEntry(s, e, Wrote(s.entries[e]))
    case WriteFails(e) => WithEntry(s, e, s.entries[e].(pump := Failed(s.entries[e].pump.msg)))
    case Leave(e) =>
      WithEntry(Unregistered(s, s.entries[e].conn), e, s.entries[e].(pump := Leaving(s.entries[e].pump.msg)))
    case Exit(e) => WithEntry(s, e, Left(s.entries[e]))
    case Unregister(c) => Unregistered(s, c)
    case Stop(e) => WithEntry(s, e, s.entries[e].(closed := true))
    case CloseStart => s.(closer := Picking(s.conns))
    case CloseStop(c) =>
      WithEntry(s, s.closer.rest[c], s.entries[s.closer.rest[c]].(closed := true))
        .(closer := Stopped(c, s.closer.rest[c], s.closer.rest - {c}))
    case CloseReady => s.(closer := WritingClose(s.closer.conn, s.closer.entry, s.closer.rest))
    case CloseTimeout => s.(closer := Disconnecting(s.closer.conn, s.closer.rest))
    case CloseWrote => s.(closer := Disconnecting(s.closer.conn, s.closer.rest))
    case CloseDisconnect => Unregistered(s, s.closer.conn).(closer := Picking(s.closer.rest))
    case CloseEnd => s.(closer := Finished)
  }

  ghost predicate Runs(max: int, s: State, steps: seq<Step>)
    decreases |steps|
  {
    steps == [] || (Enabled(max, s, steps[0]) && Runs(max, Apply(max, s, steps[0]), steps[1..]))
  }

  ghost function Final(max: int, s: State, steps: seq<Step>): State
    requires Runs(max, s, steps)
    decreases |steps|
  {
    if steps == [] then s else Final(max, Apply(max, s, steps[0]), steps[1..])
  }
}
