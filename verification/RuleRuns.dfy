/** The rule handlers in flight together: a step is what one handler does under its lock, in one Kafka send or in one
    database call, and a restart ends them all (internal/handlers/rules.go). */
module RuleRuns {
  import opened Prelude
  import opened RuleTables
  import opened RuleStore
  import opened RuleLifecycle

  /** A handler in flight, by what it does next. A record is named by its place, as handlers hold pointers to it;
      payloads are as read at the start. A delete carries the published mark it read and whether Kafka has
      acknowledged its DELETED message. */
  datatype Call =
    | SaveFirst(rule: Rule)
    | Insert(rule: Rule)
    | SaveNext(ref: nat, rule: Rule, version: nat)
    | Edit(ref: nat, rule: Rule, version: nat)
    | Send(ref: nat, payload: Rule, marks: bool)
    | SetStatus(ref: nat, payload: Rule, marks: bool)
    | Assign(ref: nat, payload: Rule, marks: bool)
    | SendDelete(id: string, published: bool)
    | SetDeleted(id: string, published: bool, acked: bool)
    | Remove(id: string, published: bool, acked: bool)
    | Over

  datatype State = State(records: seq<Record>, memory: map<string, nat>, rules: seq<RuleRow>, acked: seq<Message>, calls: seq<Call>)

  function Start(): State { State([], map[], [], [], []) }

  datatype Step =
    | Begin(call: Call)
    | Kafka(c: nat, ok: bool)
    | Db(c: nat, ok: bool, row: nat)
    | Commit(c: nat)
    | Restart(loaded: seq<Record>, memory: map<string, nat>)

  predicate Holds(s: State, id: string, ref: nat) { id in s.memory && s.memory[id] == ref && ref < |s.records| }

  /** What a handler read under the read lock before its first external call. */
  predicate MayBegin(s: State, call: Call) {
    match call
    case SaveFirst(rule) => rule.id !in s.memory && rule.status == "DRAFT"
    case SaveNext(ref, rule, version) =>
      Holds(s, rule.id, ref) && rule.status == "DRAFT" && s.records[ref].status in ["DRAFT", "PAUSED"] &&
      version == s.records[ref].version + 1
    case Send(ref, payload, marks) =>
      ref < |s.records| && Holds(s, s.records[ref].id, ref) && payload == s.records[ref].payload.(status := payload.status) &&
      payload.status in ["ACTIVE", "PAUSED"] && (marks ==> payload.status == "ACTIVE")
    case SendDelete(id, published) => id in s.memory && s.memory[id] < |s.records| && published == s.records[s.memory[id]].published
    case _ => false
  }

  predicate Places(memory: map<string, nat>, loaded: seq<Record>) {
    forall id :: id in memory ==> memory[id] < |loaded| && loaded[memory[id]].id == id
  }

  predicate LoadedRecord(rules: seq<RuleRow>, m: Record) {
    && m.payload.id == m.id && m.published == (m.status in ["ACTIVE", "PAUSED"])
    && exists i :: 0 <= i < |rules| && rules[i].active && FromRow(m, rules[i])
  }

  /** A load gives one record for each active row, or, failing, none at all. */
  predicate MayLoad(s: State, loaded: seq<Record>, memory: map<string, nat>) {
    && Places(memory, loaded)
    && (forall k :: 0 <= k < |loaded| ==> LoadedRecord(s.rules, loaded[k]))
    && (loaded != [] ==> forall i :: 0 <= i < |s.rules| && s.rules[i].active ==> s.rules[i].ruleId in memory)
  }

  predicate FromRow(m: Record, r: RuleRow) { m.id == r.ruleId && m.status == r.status && m.version == r.version }

  /** The unique key refuses a version that is there; any call may fail. */
  predicate MayStore(s: State, call: Call, ok: bool) {
    match call
    case SaveFirst(rule) => ok ==> !Taken(s.rules, rule.id, 1)
    case SaveNext(_, rule, version) => ok ==> !Taken(s.rules, rule.id, version)
    case SetStatus(_, _, _) => true
    case SetDeleted(_, _, _) => true
    case _ => false
  }

  predicate Enabled(s: State, step: Step) {
    match step
    case Begin(call) => MayBegin(s, call)
    case Kafka(c, ok) => c < |s.calls| && (s.calls[c].Send? || (s.calls[c].SendDelete? && (!ok ==> s.calls[c].published)))
    case Db(c, ok, row) =>
      c < |s.calls| && MayStore(s, s.calls[c], ok)
    case Commit(c) => c < |s.calls| && (s.calls[c].Insert? || s.calls[c].Edit? || s.calls[c].Assign? || s.calls[c].Remove?)
    case Restart(loaded, memory) => MayLoad(s, loaded, memory)
  }

  function Becomes(s: State, c: nat, call: Call): State
    requires c < |s.calls|
  {
    s.(calls := s.calls[c := call])
  }

  function Sent(s: State, c: nat, ok: bool): State
    requires c < |s.calls|
  {
    match s.calls[c]
    case Send(ref, payload, marks) =>
      if ok then Becomes(s, c, SetStatus(ref, payload, marks)).(acked := s.acked + [Message(payload.id, payload.status)])
      else Becomes(s, c, Over)
    case SendDelete(id, published) =>
      if !published then Becomes(s, c, SetDeleted(id, false, false))
      else if ok then Becomes(s, c, SetDeleted(id, true, true)).(acked := s.acked + [Message(id, "DELETED")])
      else Becomes(s, c, Over)
    case _ => s
  }

  function Inserted(rules: seq<RuleRow>, rule: Rule, version: nat, row: nat): seq<RuleRow> {
    Updated(rules, rule.id, None, true) + [RowOf(rule, version, row)]
  }

  /** A failed save ends its call; a failed status update does not. */
  function Stored(s: State, c: nat, ok: bool, row: nat): State
    requires c < |s.calls|
  {
    match s.calls[c]
    case SaveFirst(rule) =>
      if ok then Becomes(s, c, Insert(rule)).(rules := Inserted(s.rules, rule, 1, row)) else Becomes(s, c, Over)
    case SaveNext(ref, rule, version) =>
      if ok then Becomes(s, c, Edit(ref, rule, version)).(rules := Inserted(s.rules, rule, version, row)) else Becomes(s, c, Over)
    case SetStatus(ref, payload, marks) =>
      Becomes(s, c, Assign(ref, payload, marks))
        .(rules := if ok then Updated(s.rules, payload.id, Some(payload.status), false) else s.rules)
    case SetDeleted(id, published, acked) =>
      Becomes(s, c, Remove(id, published, acked)).(rules := if ok then Updated(s.rules, id, Some("DELETED"), true) else s.rules)
    case _ => s
  }

  function Committed(s: State, c: nat): State
    requires c < |s.calls|
  {
    var over := Becomes(s, c, Over);
    match s.calls[c]
    case Insert(rule) =>
      over.(records := s.records + [Record(rule.id, rule.name, "DRAFT", rule, false, 1)], memory := s.memory[rule.id := |s.records|])
    case Edit(ref, rule, version) =>
      if ref < |s.records| then
        over.(records := s.records[ref := s.records[ref].(payload := rule, status := "DRAFT", name := rule.name, version := version)])
      else over
    case Assign(ref, payload, marks) =>
      if ref < |s.records| then
        over.(records := s.records[ref := s.records[ref].(payload := payload, status := payload.status,
                                                          published := marks || s.records[ref].published)])
      else over
    case Remove(id, _, _) => over.(memory := s.memory - {id})
    case _ => s
  }

  function Apply(s: State, step: Step): State
    requires Enabled(s, step)
  {
    match step
    case Begin(call) => s.(calls := s.calls + [call])
    case Kafka(c, ok) => Sent(s, c, ok)
    case Db(c, ok, row) => Stored(s, c, ok, row)
    case Commit(c) => Committed(s, c)
    case Restart(loaded, memory) => s.(records := loaded, memory := memory, calls := [])
  }

  // ------------------------------------------------------------- what every step keeps

  predicate RecordOk(rules: seq<RuleRow>, acked: seq<Message>, m: Record) {
    m.payload.id == m.id && 1 <= m.version <= Latest(rules, m.id) && Backed(acked, m.id, m.status)
  }

  predicate RefOk(records: seq<Record>, ref: nat, id: string) { ref < |records| && records[ref].id == id }

  predicate CallOk(s: State, call: Call) {
    match call
    case SaveFirst(rule) => rule.status == "DRAFT"
    case Insert(rule) => rule.status == "DRAFT" && 1 <= Latest(s.rules, rule.id)
    case SaveNext(ref, rule, version) =>
      RefOk(s.records, ref, rule.id) && rule.status == "DRAFT" && 1 <= version <= Latest(s.rules, rule.id) + 1
    case Edit(ref, rule, version) => RefOk(s.records, ref, rule.id) && rule.status == "DRAFT" && 1 <= version <= Latest(s.rules, rule.id)
    case Send(ref, payload, _) => RefOk(s.records, ref, payload.id)
    case SetStatus(ref, payload, _) => RefOk(s.records, ref, payload.id) && Message(payload.id, payload.status) in s.acked
    case Assign(ref, payload, _) => RefOk(s.records, ref, payload.id) && Message(payload.id, payload.status) in s.acked
    case SendDelete(_, _) => true
    case SetDeleted(id, published, acked) => acked == published && (acked ==> Message(id, "DELETED") in s.acked)
    case Remove(id, published, acked) => acked == published && (acked ==> Message(id, "DELETED") in s.acked)
    case Over => true
  }

  ghost predicate Inv(s: State) {
    && HistoryOk(s.rules)
    && RowsBacked(s.acked, s.rules)
    && (forall k :: 0 <= k < |s.records| ==> RecordOk(s.rules, s.acked, s.records[k]))
    && (forall id :: id in s.memory ==> RefOk(s.records, s.memory[id], id))
    && forall c :: 0 <= c < |s.calls| ==> CallOk(s, s.calls[c])
  }

  /** Versions and acknowledgements only grow, and a place in `records` keeps its rule. */
  predicate Later(s: State, t: State) {
    && (forall m :: m in s.acked ==> m in t.acked)
    && |s.records| <= |t.records| && forall k :: 0 <= k < |s.records| ==> t.records[k].id == s.records[k].id
  }

  ghost predicate VersionsLater(s: State, t: State) { forall id :: Latest(s.rules, id) <= Latest(t.rules, id) }

  lemma LaterCall(s: State, t: State, call: Call)
    requires CallOk(s, call) && Later(s, t) && VersionsLater(s, t)
    ensures CallOk(t, call)
  {
    hide Latest;
  }

  lemma LaterRecord(s: State, t: State, m: Record)
    requires RecordOk(s.rules, s.acked, m) && Later(s, t) && VersionsLater(s, t)
    ensures RecordOk(t.rules, t.acked, m)
  {
    hide Latest;
  }

  /** It is enough that the part a step changes is right. */
  lemma InvLater(s: State, t: State)
    requires Inv(s) && Later(s, t) && VersionsLater(s, t) && HistoryOk(t.rules) && RowsBacked(t.acked, t.rules)
    requires forall k :: 0 <= k < |t.records| ==> (k < |s.records| && t.records[k] == s.records[k]) || RecordOk(t.rules, t.acked, t.records[k])
    requires forall id :: id in t.memory ==> (id in s.memory && t.memory[id] == s.memory[id]) || RefOk(t.records, t.memory[id], id)
    requires forall c :: 0 <= c < |t.calls| ==> (c < |s.calls| && t.calls[c] == s.calls[c]) || CallOk(t, t.calls[c])
    ensures Inv(t)
  {
    hide HistoryOk, RowsBacked, CallOk, RecordOk, VersionsLater;
    forall c | 0 <= c < |t.calls| ensures CallOk(t, t.calls[c]) {
      if c < |s.calls| && t.calls[c] == s.calls[c] { LaterCall(s, t, s.calls[c]); }
    }
    forall k | 0 <= k < |t.records| ensures RecordOk(t.rules, t.acked, t.records[k]) {
      if k < |s.records| && t.records[k] == s.records[k] { LaterRecord(s, t, s.records[k]); }
    }
  }

  lemma MoreBacked(acked: seq<Message>, rules: seq<RuleRow>, m: Message)
    requires RowsBacked(acked, rules)
    ensures RowsBacked(acked + [m], rules)
  {
  }

  lemma InsertedRows(acked: seq<Message>, rules: seq<RuleRow>, rule: Rule, version: nat, row: nat)
    requires HistoryOk(rules) && RowsBacked(acked, rules) && rule.status == "DRAFT"
    requires 1 <= version <= Latest(rules, rule.id) + 1 && !Taken(rules, rule.id, version)
    ensures HistoryOk(Inserted(rules, rule, version, row)) && RowsBacked(acked, Inserted(rules, rule, version, row))
    ensures forall id :: Latest(Inserted(rules, rule, version, row), id) == Latest(rules, id) + (if id == rule.id then 1 else 0)
    ensures version == Latest(rules, rule.id) + 1
  {
    var t := Tables(rules, None, [], [], []);
    SaveKeepsHistory(t, rule, version, row);
    hide HistoryOk, Latest;
    BackedUpdated(acked, rules, rule.id, None, true);
  }

  lemma KeepsInv(s: State, step: Step)
    requires Inv(s) && Enabled(s, step)
    ensures Inv(Apply(s, step))
  {
    match step
    case Begin(call) => BeginKeeps(s, call);
    case Kafka(c, ok) => KafkaKeeps(s, c, ok);
    case Db(c, ok, row) => DbKeeps(s, c, ok, row);
    case Commit(c) => CommitKeeps(s, c);
    case Restart(loaded, memory) => RestartKeeps(s, loaded, memory);
  }

  lemma BeginKeeps(s: State, call: Call)
    requires Inv(s) && MayBegin(s, call)
    ensures Inv(s.(calls := s.calls + [call]))
  {
    hide HistoryOk, RowsBacked, Latest;
    InvLater(s, s.(calls := s.calls + [call]));
  }

  lemma KafkaKeeps(s: State, c: nat, ok: bool)
    requires Inv(s) && Enabled(s, Kafka(c, ok))
    ensures Inv(Sent(s, c, ok))
  {
    hide HistoryOk, RowsBacked, Latest;
    var t := Sent(s, c, ok);
    assert CallOk(s, s.calls[c]);
    if t.acked != s.acked { MoreBacked(s.acked, s.rules, t.acked[|s.acked|]); }
    InvLater(s, t);
  }

  lemma DbKeeps(s: State, c: nat, ok: bool, row: nat)
    requires Inv(s) && Enabled(s, Db(c, ok, row))
    ensures Inv(Stored(s, c, ok, row))
  {
    if !ok {
      DbFailsKeeps(s, c, row);
    } else if s.calls[c].SaveFirst? || s.calls[c].SaveNext? {
      SaveKeeps(s, c, row);
    } else {
      StatusKeeps(s, c, row);
    }
  }

  lemma DbFailsKeeps(s: State, c: nat, row: nat)
    requires Inv(s) && Enabled(s, Db(c, false, row))
    ensures Inv(Stored(s, c, false, row))
  {
    hide HistoryOk, RowsBacked, Latest, Taken, Inserted;
    assert CallOk(s, s.calls[c]);
    InvLater(s, Stored(s, c, false, row));
  }

  lemma SaveKeeps(s: State, c: nat, row: nat)
    requires Inv(s) && Enabled(s, Db(c, true, row)) && (s.calls[c].SaveFirst? || s.calls[c].SaveNext?)
    ensures Inv(Stored(s, c, true, row))
  {
    hide HistoryOk, RowsBacked, Latest, Taken, Inserted;
    assert CallOk(s, s.calls[c]);
    InsertedRows(s.acked, s.rules, s.calls[c].rule, if s.calls[c].SaveFirst? then 1 else s.calls[c].version, row);
    InvLater(s, Stored(s, c, true, row));
  }

  lemma StatusKeeps(s: State, c: nat, row: nat)
    requires Inv(s) && Enabled(s, Db(c, true, row)) && (s.calls[c].SetStatus? || s.calls[c].SetDeleted?)
    ensures Inv(Stored(s, c, true, row))
  {
    hide HistoryOk, RowsBacked, Latest;
    assert CallOk(s, s.calls[c]);
    var id := if s.calls[c].SetStatus? then s.calls[c].payload.id else s.calls[c].id;
    var status := if s.calls[c].SetStatus? then s.calls[c].payload.status else "DELETED";
    UpdateKeepsHistory(s.rules, id, Some(status), s.calls[c].SetDeleted?);
    BackedUpdated(s.acked, s.rules, id, Some(status), s.calls[c].SetDeleted?);
    InvLater(s, Stored(s, c, true, row));
  }

  lemma CommitKeeps(s: State, c: nat)
    requires Inv(s) && Enabled(s, Commit(c))
    ensures Inv(Committed(s, c))
  {
    hide HistoryOk, RowsBacked, Latest;
    assert CallOk(s, s.calls[c]);
    InvLater(s, Committed(s, c));
  }

  lemma RestartKeeps(s: State, loaded: seq<Record>, memory: map<string, nat>)
    requires Inv(s) && MayLoad(s, loaded, memory)
    ensures Inv(s.(records := loaded, memory := memory, calls := []))
  {
    hide HistoryOk, RowsBacked, RecordOk, FromRow;
    forall k | 0 <= k < |loaded| ensures RecordOk(s.rules, s.acked, loaded[k]) {
      assert LoadedRecord(s.rules, loaded[k]);
      var i :| 0 <= i < |s.rules| && s.rules[i].active && FromRow(loaded[k], s.rules[i]);
      LoadedOk(s.rules, s.acked, loaded[k], i);
    }
  }

  lemma LoadedOk(rules: seq<RuleRow>, acked: seq<Message>, m: Record, i: nat)
    requires HistoryOk(rules) && RowsBacked(acked, rules) && i < |rules| && rules[i].active && FromRow(m, rules[i]) && m.payload.id == m.id
    ensures RecordOk(rules, acked, m)
  {
    VersionAt(rules, i);
  }

  // ------------------------------------------------------------- over whole runs

  predicate Runs(s: State, steps: seq<Step>)
    decreases |steps|
  {
    steps == [] || (Enabled(s, steps[0]) && Runs(Apply(s, steps[0]), steps[1..]))
  }

  function Final(s: State, steps: seq<Step>): State
    requires Runs(s, steps)
    decreases |steps|
  {
    if steps == [] then s else Final(Apply(s, steps[0]), steps[1..])
  }

  lemma {:induction false} InvRuns(s: State, steps: seq<Step>)
    requires Inv(s) && Runs(s, steps)
    ensures Inv(Final(s, steps))
    decreases |steps|
  {
    hide Inv, Enabled, Apply;
    if steps != [] {
      KeepsInv(s, steps[0]);
      InvRuns(Apply(s, steps[0]), steps[1..]);
    }
  }

  lemma StartInv()
    ensures Inv(Start())
  {
  }

  /** In every interleaving, with any failures and restarts: a rule's versions are exactly 1..n in the order saved and
      only row n can be active; and wherever memory or a row says ACTIVE or PAUSED, Kafka acknowledged that status
      for that rule before. */
  lemma KafkaBeforeClaim(steps: seq<Step>)
    requires Runs(Start(), steps)
    ensures var s := Final(Start(), steps);
            && HistoryOk(s.rules)
            && (forall i :: 0 <= i < |s.rules| && s.rules[i].status in ["ACTIVE", "PAUSED"] ==>
                  Message(s.rules[i].ruleId, s.rules[i].status) in s.acked)
            && forall id :: id in s.memory ==>
                 && s.memory[id] < |s.records| && s.records[s.memory[id]].id == id
                 && (s.records[s.memory[id]].status in ["ACTIVE", "PAUSED"] ==> Message(id, s.records[s.memory[id]].status) in s.acked)
  {
    StartInv();
    InvRuns(Start(), steps);
    var s := Final(Start(), steps);
    hide HistoryOk, Final, Runs;
    forall i | 0 <= i < |s.rules| ensures Backed(s.acked, s.rules[i].ruleId, s.rules[i].status) { }
    forall id | id in s.memory ensures RecordOk(s.rules, s.acked, s.records[s.memory[id]]) { assert RefOk(s.records, s.memory[id], id); }
  }

  // ------------------------------------------------------------- deletes and published marks

  /** A publish of this rule is committed. */
  predicate CommitsPublish(s: State, step: Step, id: string) {
    step.Commit? && step.c < |s.calls| && s.calls[step.c].Assign? && s.calls[step.c].marks && s.calls[step.c].payload.id == id
  }

  /** No restart and no committed publish of this rule. */
  predicate Calm(s: State, steps: seq<Step>, id: string)
    requires Runs(s, steps)
    decreases |steps|
  {
    steps == [] || (!steps[0].Restart? && !CommitsPublish(s, steps[0], id) && Calm(Apply(s, steps[0]), steps[1..], id))
  }

  /** The mark of the record in memory, if there is one. */
  predicate MarkedAtMost(s: State, id: string, published: bool) {
    id in s.memory && s.memory[id] < |s.records| && s.records[s.memory[id]].published ==> published
  }

  /** The delete in flight at this place is for this rule and read this mark. */
  predicate DeleteInFlight(s: State, c: nat, id: string, published: bool) {
    c < |s.calls| &&
    match s.calls[c]
    case SendDelete(i, p) => i == id && p == published
    case SetDeleted(i, p, _) => i == id && p == published
    case Remove(i, p, _) => i == id && p == published
    case Over => true
    case _ => false
  }

  lemma KeepsMark(s: State, step: Step, id: string, published: bool)
    requires Inv(s) && Enabled(s, step) && !step.Restart? && !CommitsPublish(s, step, id) && MarkedAtMost(s, id, published)
    ensures MarkedAtMost(Apply(s, step), id, published)
  {
    hide HistoryOk, RowsBacked, RecordOk, Latest, Updated, Inserted, MayBegin, Taken, MayLoad;
    if step.Commit? { assert CallOk(s, s.calls[step.c]); }
    if id in s.memory { assert RefOk(s.records, s.memory[id], id); }
  }

  lemma KeepsDelete(s: State, step: Step, c: nat, id: string, published: bool)
    requires Enabled(s, step) && !step.Restart? && DeleteInFlight(s, c, id, published)
    ensures DeleteInFlight(Apply(s, step), c, id, published)
  {
    hide Updated, Inserted, MayBegin, Taken, MayLoad;
  }

  lemma {:induction false} MarkRuns(s: State, steps: seq<Step>, c: nat, id: string, published: bool)
    requires Inv(s) && Runs(s, steps) && Calm(s, steps, id) && MarkedAtMost(s, id, published) && DeleteInFlight(s, c, id, published)
    ensures Inv(Final(s, steps)) && MarkedAtMost(Final(s, steps), id, published) && DeleteInFlight(Final(s, steps), c, id, published)
    decreases |steps|
  {
    hide Inv, Enabled, Apply, MarkedAtMost, DeleteInFlight, CommitsPublish;
    if steps != [] {
      KeepsInv(s, steps[0]);
      KeepsMark(s, steps[0], id, published);
      KeepsDelete(s, steps[0], c, id, published);
      MarkRuns(Apply(s, steps[0]), steps[1..], c, id, published);
    }
  }

  /** From any reachable state in which a delete begins, through any steps that hold no restart and no committed publish
      of that rule: when the delete is about to remove it, the record in memory is published only if Kafka has
      acknowledged this delete's DELETED message. */
  lemma PublishedLeavesAfterDeleted(before: seq<Step>, id: string, published: bool, steps: seq<Step>)
    requires Runs(Start(), before) && Enabled(Final(Start(), before), Begin(SendDelete(id, published)))
    requires var s := Apply(Final(Start(), before), Begin(SendDelete(id, published)));
             && Runs(s, steps) && Calm(s, steps, id)
             && |Final(Start(), before).calls| < |Final(s, steps).calls|
             && Final(s, steps).calls[|Final(Start(), before).calls|].Remove?
    ensures var s := Apply(Final(Start(), before), Begin(SendDelete(id, published)));
            var t := Final(s, steps);
            var call := t.calls[|Final(Start(), before).calls|];
            && call.id == id
            && (id in t.memory && t.memory[id] < |t.records| && t.records[t.memory[id]].published ==>
                  published && call.acked && Message(id, "DELETED") in t.acked)
  {
    StartInv();
    InvRuns(Start(), before);
    var s0 := Final(Start(), before);
    var s := Apply(s0, Begin(SendDelete(id, published)));
    var c := |s0.calls|;
    KeepsInv(s0, Begin(SendDelete(id, published)));
    hide Inv;
    MarkRuns(s, steps, c, id, published);
    RemoveIsAcked(Final(s, steps), c);
  }

  lemma RemoveIsAcked(s: State, c: nat)
    requires Inv(s) && c < |s.calls| && s.calls[c].Remove?
    ensures s.calls[c].acked == s.calls[c].published && (s.calls[c].acked ==> Message(s.calls[c].id, "DELETED") in s.acked)
  {
    assert CallOk(s, s.calls[c]);
  }

  /** And a publish of the rule, committed while any delete that read it unpublished is about to remove it, lets the
      published record leave memory: Kafka has acknowledged nothing since but ACTIVE. */
  lemma PublishBeforeRemoval(s: State, c: nat, id: string, ok: bool)
    requires Inv(s) && c < |s.calls| && s.calls[c] == Remove(id, false, false) && id in s.memory
    ensures var live := s.records[s.memory[id]].payload.(status := "ACTIVE");
            var n := |s.calls|;
            var steps := [Begin(Send(s.memory[id], live, true)), Kafka(n, true), Db(n, ok, 0), Commit(n)];
            && Runs(s, steps)
            && var t := Final(s, steps);
            && t.memory == s.memory && s.memory[id] < |t.records| && t.records[s.memory[id]].published
            && c < |t.calls| && t.calls[c] == s.calls[c] && t.acked == s.acked + [Message(id, "ACTIVE")]
            && Enabled(t, Commit(c)) && id !in Apply(t, Commit(c)).memory && Apply(t, Commit(c)).acked == t.acked
  {
    hide Inv, Updated, MayLoad, Enabled, Apply, Runs, Final;
    RecordInMemory(s, id);
    var ref, n := s.memory[id], |s.calls|;
    var live := s.records[ref].payload.(status := "ACTIVE");
    var steps := [Begin(Send(ref, live, true)), Kafka(n, true), Db(n, ok, 0), Commit(n)];
    var s1 := s.(calls := s.calls + [Send(ref, live, true)]);
    var s2 := s.(calls := s.calls + [SetStatus(ref, live, true)], acked := s.acked + [Message(id, "ACTIVE")]);
    var s3 := s2.(calls := s.calls + [Assign(ref, live, true)], rules := if ok then Updated(s.rules, id, Some("ACTIVE"), false) else s.rules);
    var m := s.records[ref].(payload := live, status := "ACTIVE", published := true);
    var s4 := s3.(calls := s.calls + [Over], records := s.records[ref := m]);
    PublishSteps(s, ref, id, ok, live, s1, s2, s3, s4);
    RunsFrom(steps, [s, s1, s2, s3, s4]);
    RemovesNow(s4, c, id);
  }

  lemma RecordInMemory(s: State, id: string)
    requires Inv(s) && id in s.memory
    ensures s.memory[id] < |s.records| && s.records[s.memory[id]].id == id == s.records[s.memory[id]].payload.id
  {
    assert RefOk(s.records, s.memory[id], id) && RecordOk(s.rules, s.acked, s.records[s.memory[id]]);
  }

  lemma RemovesNow(s: State, c: nat, id: string)
    requires c < |s.calls| && s.calls[c] == Remove(id, false, false)
    ensures Enabled(s, Commit(c)) && id !in Apply(s, Commit(c)).memory && Apply(s, Commit(c)).acked == s.acked
  {
  }

  lemma PublishSteps(s: State, ref: nat, id: string, ok: bool, live: Rule, s1: State, s2: State, s3: State, s4: State)
    requires Holds(s, id, ref) && s.records[ref].id == id && live == s.records[ref].payload.(status := "ACTIVE") && live.id == id
    requires s1 == s.(calls := s.calls + [Send(ref, live, true)])
    requires s2 == s.(calls := s.calls + [SetStatus(ref, live, true)], acked := s.acked + [Message(id, "ACTIVE")])
    requires s3 == s2.(calls := s.calls + [Assign(ref, live, true)], rules := if ok then Updated(s.rules, id, Some("ACTIVE"), false) else s.rules)
    requires s4 == s3.(calls := s.calls + [Over], records := s.records[ref := s.records[ref].(payload := live, status := "ACTIVE", published := true)])
    ensures var n := |s.calls|;
            && Enabled(s, Begin(Send(ref, live, true))) && Apply(s, Begin(Send(ref, live, true))) == s1
            && Enabled(s1, Kafka(n, true)) && Apply(s1, Kafka(n, true)) == s2
            && Enabled(s2, Db(n, ok, 0)) && Apply(s2, Db(n, ok, 0)) == s3
            && Enabled(s3, Commit(n)) && Apply(s3, Commit(n)) == s4
  {
    hide Updated, MayLoad;
    assert s1.calls[|s.calls| := SetStatus(ref, live, true)] == s2.calls;
    assert s2.calls[|s.calls| := Assign(ref, live, true)] == s3.calls;
    assert s3.calls[|s.calls| := Over] == s4.calls;
  }

  /** A run to such a state, for every rule: created, and then deleted as far as the row update. */
  lemma RemovalIsReachable(rule: Rule, ok: bool)
    requires rule.status == "DRAFT"
    ensures exists steps :: Runs(Start(), steps) && var s := Final(Start(), steps);
              rule.id in s.memory && |s.calls| == 2 && s.calls[1] == Remove(rule.id, false, false)
  {
    var steps := [Begin(SaveFirst(rule)), Db(0, true, 0), Commit(0), Begin(SendDelete(rule.id, false)), Kafka(1, true), Db(1, ok, 0)];
    var s1 := Start().(calls := [SaveFirst(rule)]);
    var s2 := s1.(calls := [Insert(rule)], rules := Inserted([], rule, 1, 0));
    var s3 := s2.(calls := [Over], records := [Record(rule.id, rule.name, "DRAFT", rule, false, 1)], memory := map[rule.id := 0]);
    var s4 := s3.(calls := [Over, SendDelete(rule.id, false)]);
    var s5 := s3.(calls := [Over, SetDeleted(rule.id, false, false)]);
    var s6 := s3.(calls := [Over, Remove(rule.id, false, false)],
                  rules := if ok then Updated(s3.rules, rule.id, Some("DELETED"), true) else s3.rules);
    CreateSteps(rule, s1, s2, s3);
    DeleteSteps(rule, ok, s3, s4, s5, s6);
    hide Enabled, Apply, Runs, Final, Updated, Inserted;
    RunsFrom(steps, [Start(), s1, s2, s3, s4, s5, s6]);
  }

  lemma CreateSteps(rule: Rule, s1: State, s2: State, s3: State)
    requires rule.status == "DRAFT" && s1 == Start().(calls := [SaveFirst(rule)])
    requires s2 == s1.(calls := [Insert(rule)], rules := Inserted([], rule, 1, 0))
    requires s3 == s2.(calls := [Over], records := [Record(rule.id, rule.name, "DRAFT", rule, false, 1)], memory := map[rule.id := 0])
    ensures Enabled(Start(), Begin(SaveFirst(rule))) && Apply(Start(), Begin(SaveFirst(rule))) == s1
    ensures Enabled(s1, Db(0, true, 0)) && Apply(s1, Db(0, true, 0)) == s2
    ensures Enabled(s2, Commit(0)) && Apply(s2, Commit(0)) == s3
  {
    hide Inserted, MayLoad;
  }

  lemma DeleteSteps(rule: Rule, ok: bool, s3: State, s4: State, s5: State, s6: State)
    requires s3.calls == [Over] && s3.memory == map[rule.id := 0] && |s3.records| == 1 && !s3.records[0].published
    requires s4 == s3.(calls := [Over, SendDelete(rule.id, false)]) && s5 == s3.(calls := [Over, SetDeleted(rule.id, false, false)])
    requires s6 == s3.(calls := [Over, Remove(rule.id, false, false)],
                       rules := if ok then Updated(s3.rules, rule.id, Some("DELETED"), true) else s3.rules)
    ensures Enabled(s3, Begin(SendDelete(rule.id, false))) && Apply(s3, Begin(SendDelete(rule.id, false))) == s4
    ensures Enabled(s4, Kafka(1, true)) && Apply(s4, Kafka(1, true)) == s5
    ensures Enabled(s5, Db(1, ok, 0)) && Apply(s5, Db(1, ok, 0)) == s6
  {
    hide Updated, MayLoad;
  }

  /** States one step apart make a run. */
  lemma {:induction false} RunsFrom(steps: seq<Step>, states: seq<State>)
    requires |states| == |steps| + 1
    requires forall i :: 0 <= i < |steps| ==> Enabled(states[i], steps[i]) && Apply(states[i], steps[i]) == states[i + 1]
    ensures Runs(states[0], steps) && Final(states[0], steps) == states[|steps|]
    decreases |steps|
  {
    hide Enabled, Apply;
    if steps != [] { RunsFrom(steps[1..], states[1..]); }
  }
}
