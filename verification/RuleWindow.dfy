/** When a rule in memory and its active row part ways while handlers are in flight together
    (internal/handlers/rules.go:374-399, 452-511). */
module RuleWindow {
  import opened Prelude
  import opened RuleTables
  import opened RuleStore
  import opened RuleLifecycle
  import opened RuleRuns

  predicate InsertOf(call: Call, id: string) { call.Insert? && call.rule.id == id }

  predicate NextOf(call: Call, id: string) { call.SaveNext? && call.rule.id == id }

  /** An edit of the rule, saved and not yet in memory. */
  predicate EditOf(call: Call, id: string) { call.Edit? && call.rule.id == id }

  /** A delete of the rule, past its row update and not yet removed from memory. */
  predicate RemoveOf(call: Call, id: string) { call.Remove? && call.id == id }

  predicate DeleteOf(call: Call, id: string) { (call.SendDelete? || call.SetDeleted? || call.Remove?) && call.id == id }

  /** Where the calls about one rule stand: the record they refer to, and the places of its saved edit, its saved first
      version and a delete past its row update, -1 for none. */
  datatype Track = Track(ref: nat, edit: int, insert: int, removal: int)

  /** A call fits the track: `latest` is the rule's last version, `version` the record's. */
  predicate Fits(call: Call, c: int, id: string, k: Track, latest: nat, version: nat) {
    && (NextOf(call, id) ==> call.ref == k.ref && k.insert == -1 && call.version <= version + 1 && latest >= 1)
    && (EditOf(call, id) ==> call.ref == k.ref && c == k.edit)
    && (InsertOf(call, id) ==> c == k.insert)
    && (DeleteOf(call, id) ==> k.insert == -1 && latest >= 1)
  }

  function VersionOf(s: State, ref: nat): nat { if ref < |s.records| then s.records[ref].version else 0 }

  /** An edit leads its record by holding the latest version; a first version is not yet in memory; and without either,
      and without a delete under way, the row in memory is active. */
  predicate Leads(s: State, id: string, k: Track) {
    && k.edit >= -1 && k.insert >= -1 && k.removal >= -1
    && (id in s.memory ==> k.ref == s.memory[id] && k.insert == -1)
    && (k.edit >= 0 ==>
          && k.edit < |s.calls| && EditOf(s.calls[k.edit], id) && k.insert == -1
          && VersionOf(s, k.ref) < s.calls[k.edit].version == Latest(s.rules, id)
          && (id in s.memory && k.removal == -1 ==> ActiveAt(s.rules, id, s.calls[k.edit].version)))
    && (k.insert >= 0 ==> k.insert < |s.calls| && InsertOf(s.calls[k.insert], id) && ActiveAt(s.rules, id, 1))
    && (k.removal >= 0 && id in s.memory ==> k.removal < |s.calls| && RemoveOf(s.calls[k.removal], id))
    && (id in s.memory && k.edit == -1 && k.removal == -1 ==> ActiveAt(s.rules, id, VersionOf(s, k.ref)))
  }

  predicate Window(s: State, id: string, k: Track) {
    && Leads(s, id, k)
    && forall c :: 0 <= c < |s.calls| ==> Fits(s.calls[c], c, id, k, Latest(s.rules, id), VersionOf(s, k.ref))
  }

  // ------------------------------------------------------------- rows of one rule

  lemma ActiveInserted(rules: seq<RuleRow>, rule: Rule, version: nat, row: nat, id: string, v: nat)
    requires id != rule.id && ActiveAt(rules, id, v)
    ensures ActiveAt(Inserted(rules, rule, version, row), id, v)
  {
    var u := Updated(rules, rule.id, None, true);
    ActiveUpdated(rules, rule.id, None, true, id, v);
    ActiveSaved(u, RowOf(rule, version, row), id, v);
  }

  lemma NewRowActive(rules: seq<RuleRow>, rule: Rule, version: nat, row: nat)
    ensures ActiveAt(Inserted(rules, rule, version, row), rule.id, version)
  {
    ActiveSaved(Updated(rules, rule.id, None, true), RowOf(rule, version, row), rule.id, version);
  }

  /** The rows of this rule only gain, and none is saved. */
  ghost predicate RowsStay(s: State, t: State, id: string) {
    && Latest(t.rules, id) == Latest(s.rules, id)
    && forall v: nat :: ActiveAt(s.rules, id, v) ==> ActiveAt(t.rules, id, v)
  }

  /** The call is none of those tracked. */
  predicate Apart(call: Call, id: string) {
    !NextOf(call, id) && !EditOf(call, id) && !InsertOf(call, id) && !DeleteOf(call, id)
  }

  /** One call goes on, without becoming or ceasing to be a tracked one other than a delete before its row update. */
  lemma FramedWindow(s: State, t: State, id: string, k: Track, c: nat)
    requires Window(s, id, k) && RowsStay(s, t, id) && c < |s.calls|
    requires t.records == s.records && t.memory == s.memory && |t.calls| == |s.calls| && t.calls == s.calls[c := t.calls[c]]
    requires Apart(t.calls[c], id) || (DeleteOf(t.calls[c], id) && DeleteOf(s.calls[c], id))
    requires !EditOf(s.calls[c], id) && !InsertOf(s.calls[c], id) && (RemoveOf(s.calls[c], id) ==> RemoveOf(t.calls[c], id))
    ensures Window(t, id, k)
  {
    hide ActiveAt, Latest;
    assert Fits(s.calls[c], c, id, k, Latest(s.rules, id), VersionOf(s, k.ref));
  }

  // ------------------------------------------------------------- what every step keeps

  lemma KeepsWindow(s: State, step: Step, id: string, k: Track) returns (m: Track)
    requires Inv(s) && Enabled(s, step) && Window(s, id, k)
    ensures Window(Apply(s, step), id, m)
  {
    hide Inv, Window;
    match step
    case Begin(call) => m := BeginKeeps(s, call, id, k);
    case Kafka(c, ok) =>
      KafkaKeeps(s, c, ok, id, k);
      m := k;
    case Db(c, ok, row) => m := DbKeeps(s, c, ok, row, id, k);
    case Commit(c) => m := CommitKeeps(s, c, id, k);
    case Restart(loaded, memory) => m := RestartKeeps(s, loaded, memory, id);
  }

  lemma InMemory(s: State, id: string)
    requires Inv(s) && id in s.memory
    ensures s.memory[id] < |s.records| && s.records[s.memory[id]].id == id
    ensures 1 <= s.records[s.memory[id]].version <= Latest(s.rules, id)
  {
    assert RefOk(s.records, s.memory[id], id) && RecordOk(s.rules, s.acked, s.records[s.memory[id]]);
  }

  lemma BeginKeeps(s: State, call: Call, id: string, k: Track) returns (m: Track)
    requires Inv(s) && MayBegin(s, call) && Window(s, id, k)
    ensures Window(s.(calls := s.calls + [call]), id, m)
  {
    m := k;
    BeginFits(s, call, id, k);
    hide Inv, Latest, ActiveAt, MayBegin, Fits;
    var t := s.(calls := s.calls + [call]);
    assert Leads(t, id, k);
  }

  lemma BeginFits(s: State, call: Call, id: string, k: Track)
    requires Inv(s) && MayBegin(s, call) && Window(s, id, k)
    ensures Fits(call, |s.calls|, id, k, Latest(s.rules, id), VersionOf(s, k.ref))
    ensures !EditOf(call, id) && !InsertOf(call, id) && !RemoveOf(call, id)
  {
    if id in s.memory { InMemory(s, id); }
    hide Inv, Latest, ActiveAt;
  }

  lemma KafkaKeeps(s: State, c: nat, ok: bool, id: string, k: Track)
    requires Enabled(s, Kafka(c, ok)) && Window(s, id, k)
    ensures Window(Sent(s, c, ok), id, k)
  {
    hide Latest, ActiveAt, Window;
    FramedWindow(s, Sent(s, c, ok), id, k, c);
  }

  lemma DbKeeps(s: State, c: nat, ok: bool, row: nat, id: string, k: Track) returns (m: Track)
    requires Inv(s) && Enabled(s, Db(c, ok, row)) && Window(s, id, k)
    ensures Window(Stored(s, c, ok, row), id, m)
  {
    hide Inv, Window;
    m := k;
    if s.calls[c].SetDeleted? {
      m := DeletedKeeps(s, c, ok, row, id, k);
    } else if !ok {
      hide Latest, ActiveAt;
      FramedWindow(s, Stored(s, c, ok, row), id, k, c);
    } else if s.calls[c].SaveFirst? {
      m := FirstKeeps(s, c, row, id, k);
    } else if s.calls[c].SaveNext? {
      m := NextKeeps(s, c, row, id, k);
    } else {
      StatusKeeps(s, c, row, id, k);
    }
  }

  lemma FirstKeeps(s: State, c: nat, row: nat, id: string, k: Track) returns (m: Track)
    requires Inv(s) && Enabled(s, Db(c, true, row)) && s.calls[c].SaveFirst? && Window(s, id, k)
    ensures Window(Stored(s, c, true, row), id, m)
  {
    var rule := s.calls[c].rule;
    FirstRows(s, c, row);
    hide Inv, Window, Latest, Inserted;
    if id == rule.id {
      NothingBefore(s, id, k);
      m := Track(k.ref, -1, c, -1);
      FirstOwn(s, c, row, id, k, m);
    } else {
      FirstOther(s, c, row, id, k);
      m := k;
    }
  }

  lemma FirstRows(s: State, c: nat, row: nat)
    requires Inv(s) && Enabled(s, Db(c, true, row)) && s.calls[c].SaveFirst?
    ensures var rule := s.calls[c].rule;
            Latest(s.rules, rule.id) == 0 && forall id ::
              Latest(Inserted(s.rules, rule, 1, row), id) == Latest(s.rules, id) + (if id == rule.id then 1 else 0)
  {
    assert CallOk(s, s.calls[c]);
    InsertedRows(s.acked, s.rules, s.calls[c].rule, 1, row);
  }

  lemma FirstOwn(s: State, c: nat, row: nat, id: string, k: Track, m: Track)
    requires Enabled(s, Db(c, true, row)) && s.calls[c].SaveFirst? && s.calls[c].rule.id == id && m == Track(k.ref, -1, c, -1)
    requires id !in s.memory && forall d :: 0 <= d < |s.calls| ==> Apart(s.calls[d], id)
    ensures Window(Stored(s, c, true, row), id, m)
  {
    hide Latest, ActiveAt, Inserted;
    NewRowActive(s.rules, s.calls[c].rule, 1, row);
  }

  lemma FirstOther(s: State, c: nat, row: nat, id: string, k: Track)
    requires Enabled(s, Db(c, true, row)) && s.calls[c].SaveFirst? && s.calls[c].rule.id != id && Window(s, id, k)
    requires Latest(Inserted(s.rules, s.calls[c].rule, 1, row), id) == Latest(s.rules, id)
    ensures Window(Stored(s, c, true, row), id, k)
  {
    hide Latest, ActiveAt, Inserted, Window;
    var t := Stored(s, c, true, row);
    forall v: nat | ActiveAt(s.rules, id, v) ensures ActiveAt(t.rules, id, v) { ActiveInserted(s.rules, s.calls[c].rule, 1, row, id, v); }
    FramedWindow(s, t, id, k, c);
  }

  /** Of a rule without a saved version nothing is in memory and no call is tracked. */
  lemma NothingBefore(s: State, id: string, k: Track)
    requires Inv(s) && Window(s, id, k) && Latest(s.rules, id) == 0
    ensures id !in s.memory && forall c :: 0 <= c < |s.calls| ==> Apart(s.calls[c], id)
  {
    if id in s.memory { InMemory(s, id); }
    hide Latest, HistoryOk;
    forall c | 0 <= c < |s.calls| ensures Apart(s.calls[c], id) {
      assert CallOk(s, s.calls[c]) && Fits(s.calls[c], c, id, k, Latest(s.rules, id), VersionOf(s, k.ref));
    }
  }

  lemma NextKeeps(s: State, c: nat, row: nat, id: string, k: Track) returns (m: Track)
    requires Inv(s) && Enabled(s, Db(c, true, row)) && s.calls[c].SaveNext? && Window(s, id, k)
    ensures Window(Stored(s, c, true, row), id, m)
  {
    NextRows(s, c, row);
    hide Inv, Window, Latest, Inserted;
    if id == s.calls[c].rule.id {
      m := Track(k.ref, c, -1, -1);
      NextOwn(s, c, row, id, k, m);
    } else {
      NextOther(s, c, row, id, k);
      m := k;
    }
  }

  lemma NextRows(s: State, c: nat, row: nat)
    requires Inv(s) && Enabled(s, Db(c, true, row)) && s.calls[c].SaveNext?
    ensures var call := s.calls[c];
            && call.version == Latest(s.rules, call.rule.id) + 1
            && call.ref < |s.records| && s.records[call.ref].version < call.version
            && forall id :: Latest(Inserted(s.rules, call.rule, call.version, row), id) == Latest(s.rules, id) + (if id == call.rule.id then 1 else 0)
  {
    assert CallOk(s, s.calls[c]) && RecordOk(s.rules, s.acked, s.records[s.calls[c].ref]);
    InsertedRows(s.acked, s.rules, s.calls[c].rule, s.calls[c].version, row);
  }

  lemma NextOwn(s: State, c: nat, row: nat, id: string, k: Track, m: Track)
    requires Enabled(s, Db(c, true, row)) && NextOf(s.calls[c], id) && Window(s, id, k) && m == Track(k.ref, c, -1, -1)
    requires s.calls[c].version == Latest(s.rules, id) + 1 == Latest(Inserted(s.rules, s.calls[c].rule, s.calls[c].version, row), id)
    requires s.calls[c].ref < |s.records| && s.records[s.calls[c].ref].version < s.calls[c].version
    ensures Window(Stored(s, c, true, row), id, m)
  {
    hide Latest, ActiveAt, Inserted;
    assert Fits(s.calls[c], c, id, k, Latest(s.rules, id), VersionOf(s, k.ref));
    NewRowActive(s.rules, s.calls[c].rule, s.calls[c].version, row);
  }

  lemma NextOther(s: State, c: nat, row: nat, id: string, k: Track)
    requires Enabled(s, Db(c, true, row)) && s.calls[c].SaveNext? && s.calls[c].rule.id != id && Window(s, id, k)
    requires Latest(Inserted(s.rules, s.calls[c].rule, s.calls[c].version, row), id) == Latest(s.rules, id)
    ensures Window(Stored(s, c, true, row), id, k)
  {
    hide Latest, ActiveAt, Inserted, Window;
    var t := Stored(s, c, true, row);
    forall v: nat | ActiveAt(s.rules, id, v) ensures ActiveAt(t.rules, id, v) {
      ActiveInserted(s.rules, s.calls[c].rule, s.calls[c].version, row, id, v);
    }
    FramedWindow(s, t, id, k, c);
  }

  lemma InvHistory(s: State)
    requires Inv(s)
    ensures HistoryOk(s.rules)
  {
  }

  lemma StatusKeeps(s: State, c: nat, row: nat, id: string, k: Track)
    requires Inv(s) && Enabled(s, Db(c, true, row)) && s.calls[c].SetStatus? && Window(s, id, k)
    ensures Window(Stored(s, c, true, row), id, k)
  {
    var t, payload := Stored(s, c, true, row), s.calls[c].payload;
    InvHistory(s);
    hide Inv, HistoryOk, Latest;
    UpdateKeepsHistory(s.rules, payload.id, Some(payload.status), false);
    hide Inv, Latest, ActiveAt, Updated, Window;
    forall v: nat | ActiveAt(s.rules, id, v) ensures ActiveAt(t.rules, id, v) {
      ActiveUpdated(s.rules, payload.id, Some(payload.status), false, id, v);
    }
    FramedWindow(s, t, id, k, c);
  }

  lemma DeletedKeeps(s: State, c: nat, ok: bool, row: nat, id: string, k: Track) returns (m: Track)
    requires Inv(s) && Enabled(s, Db(c, ok, row)) && s.calls[c].SetDeleted? && Window(s, id, k)
    ensures Window(Stored(s, c, ok, row), id, m)
  {
    InvHistory(s);
    hide Inv, HistoryOk, Latest, Window;
    UpdateKeepsHistory(s.rules, s.calls[c].id, Some("DELETED"), true);
    if id == s.calls[c].id {
      m := k.(removal := c);
      DeletedOwn(s, c, ok, row, id, k, m);
    } else {
      m := k;
      DeletedOther(s, c, ok, row, id, k);
    }
  }

  lemma DeletedOwn(s: State, c: nat, ok: bool, row: nat, id: string, k: Track, m: Track)
    requires Enabled(s, Db(c, ok, row)) && s.calls[c].SetDeleted? && s.calls[c].id == id && Window(s, id, k) && m == k.(removal := c)
    requires Latest(Updated(s.rules, id, Some("DELETED"), true), id) == Latest(s.rules, id)
    ensures Window(Stored(s, c, ok, row), id, m)
  {
    hide Latest, ActiveAt, Updated;
    assert Fits(s.calls[c], c, id, k, Latest(s.rules, id), VersionOf(s, k.ref));
  }

  lemma DeletedOther(s: State, c: nat, ok: bool, row: nat, id: string, k: Track)
    requires Enabled(s, Db(c, ok, row)) && s.calls[c].SetDeleted? && s.calls[c].id != id && Window(s, id, k)
    requires Latest(Updated(s.rules, s.calls[c].id, Some("DELETED"), true), id) == Latest(s.rules, id)
    ensures Window(Stored(s, c, ok, row), id, k)
  {
    hide Latest, ActiveAt, Updated, Window;
    var t := Stored(s, c, ok, row);
    forall v: nat | ActiveAt(s.rules, id, v) ensures ActiveAt(t.rules, id, v) {
      ActiveUpdated(s.rules, s.calls[c].id, Some("DELETED"), true, id, v);
    }
    FramedWindow(s, t, id, k, c);
  }

  lemma CommitKeeps(s: State, c: nat, id: string, k: Track) returns (m: Track)
    requires Inv(s) && Enabled(s, Commit(c)) && Window(s, id, k)
    ensures Window(Committed(s, c), id, m)
  {
    hide Inv, Window;
    match s.calls[c]
    case Insert(_) => m := InsertKeeps(s, c, id, k);
    case Edit(_, _, _) => m := EditKeeps(s, c, id, k);
    case Assign(_, _, _) =>
      AssignKeeps(s, c, id, k);
      m := k;
    case Remove(_, _, _) => m := RemoveKeeps(s, c, id, k);
  }

  lemma InsertKeeps(s: State, c: nat, id: string, k: Track) returns (m: Track)
    requires Inv(s) && Enabled(s, Commit(c)) && s.calls[c].Insert? && Window(s, id, k)
    ensures Window(Committed(s, c), id, m)
  {
    var own := InsertOf(s.calls[c], id);
    assert CallOk(s, s.calls[c]) && Fits(s.calls[c], c, id, k, Latest(s.rules, id), VersionOf(s, k.ref));
    hide Inv, Latest, ActiveAt;
    m := if own then Track(|s.records|, -1, -1, -1) else k;
  }

  lemma EditKeeps(s: State, c: nat, id: string, k: Track) returns (m: Track)
    requires Inv(s) && Enabled(s, Commit(c)) && s.calls[c].Edit? && Window(s, id, k)
    ensures Window(Committed(s, c), id, m)
  {
    assert CallOk(s, s.calls[c]) && Fits(s.calls[c], c, id, k, Latest(s.rules, id), VersionOf(s, k.ref));
    if EditOf(s.calls[c], id) {
      hide Inv, Latest, ActiveAt;
      m := k.(edit := -1);
    } else {
      OtherRecord(s, c, id, k);
      hide Inv, Latest, ActiveAt;
      m := k;
    }
  }

  /** An edit of another rule is about another record. */
  lemma OtherRecord(s: State, c: nat, id: string, k: Track)
    requires Inv(s) && Window(s, id, k) && c < |s.calls| && s.calls[c].Edit? && s.calls[c].rule.id != id
    ensures forall d :: 0 <= d < |s.calls| && (NextOf(s.calls[d], id) || EditOf(s.calls[d], id)) ==> s.calls[c].ref != k.ref
    ensures id in s.memory ==> s.calls[c].ref != k.ref
  {
    assert CallOk(s, s.calls[c]);
    if id in s.memory { InMemory(s, id); }
    hide Latest, HistoryOk, ActiveAt, RowsBacked, RecordOk;
    forall d | 0 <= d < |s.calls| && (NextOf(s.calls[d], id) || EditOf(s.calls[d], id)) ensures s.calls[c].ref != k.ref {
      assert CallOk(s, s.calls[d]) && Fits(s.calls[d], d, id, k, Latest(s.rules, id), VersionOf(s, k.ref));
    }
  }

  lemma AssignKeeps(s: State, c: nat, id: string, k: Track)
    requires Inv(s) && Enabled(s, Commit(c)) && s.calls[c].Assign? && Window(s, id, k)
    ensures Window(Committed(s, c), id, k)
  {
    hide Inv, Latest, ActiveAt;
  }

  lemma RemoveKeeps(s: State, c: nat, id: string, k: Track) returns (m: Track)
    requires Inv(s) && Enabled(s, Commit(c)) && s.calls[c].Remove? && Window(s, id, k)
    ensures Window(Committed(s, c), id, m)
  {
    m := k;
    hide Inv, Latest, ActiveAt;
  }

  lemma RestartKeeps(s: State, loaded: seq<Record>, memory: map<string, nat>, id: string) returns (m: Track)
    requires MayLoad(s, loaded, memory)
    ensures Window(s.(records := loaded, memory := memory, calls := []), id, m)
  {
    m := Track(if id in memory then memory[id] else 0, -1, -1, -1);
    if id in memory { LoadedActive(s, loaded, memory, id); }
    hide Latest, ActiveAt, MayLoad;
  }

  lemma LoadedActive(s: State, loaded: seq<Record>, memory: map<string, nat>, id: string)
    requires MayLoad(s, loaded, memory) && id in memory
    ensures memory[id] < |loaded| && ActiveAt(s.rules, id, loaded[memory[id]].version)
  {
    hide LoadedRecord;
    assert LoadedRecord(s.rules, loaded[memory[id]]);
    RecordActive(s.rules, loaded[memory[id]]);
  }

  lemma RecordActive(rules: seq<RuleRow>, m: Record)
    requires LoadedRecord(rules, m)
    ensures ActiveAt(rules, m.id, m.version)
  {
    var i :| 0 <= i < |rules| && rules[i].active && FromRow(m, rules[i]);
    assert rules[i].ruleId == m.id;
  }

  // ------------------------------------------------------------- which steps part them

  /** The rule is in memory and its version's row is active. */
  predicate Matched(s: State, id: string) { id in s.memory && ActiveAt(s.rules, id, VersionOf(s, s.memory[id])) }

  predicate TakesRow(s: State, step: Step, id: string) {
    step.Db? && step.ok && step.c < |s.calls| && (NextOf(s.calls[step.c], id) || (s.calls[step.c].SetDeleted? && s.calls[step.c].id == id))
  }

  lemma ActiveIsLatest(rules: seq<RuleRow>, id: string, v: nat)
    requires HistoryOk(rules) && ActiveAt(rules, id, v)
    ensures v == Latest(rules, id)
  {
    hide Versions;
  }

  lemma DeletedInactive(rules: seq<RuleRow>, id: string, v: nat)
    ensures !ActiveAt(Updated(rules, id, Some("DELETED"), true), id, v)
  {
    var u := Updated(rules, id, Some("DELETED"), true);
    forall i | 0 <= i < |u| ensures !(u[i].ruleId == id && u[i].active) { assert Hits(rules[i], id) || !Hits(rules[i], id); }
  }

  lemma NextTakesRow(s: State, c: nat, row: nat, id: string)
    requires Inv(s) && Enabled(s, Db(c, true, row)) && NextOf(s.calls[c], id) && id in s.memory
    ensures !ActiveAt(Stored(s, c, true, row).rules, id, VersionOf(s, s.memory[id]))
  {
    InMemory(s, id);
    NextRows(s, c, row);
    var t := Stored(s, c, true, row);
    KeepsInv(s, Db(c, true, row));
    InvHistory(t);
    hide Inv, HistoryOk, Latest, Inserted;
    if ActiveAt(t.rules, id, VersionOf(s, s.memory[id])) { ActiveIsLatest(t.rules, id, VersionOf(s, s.memory[id])); }
  }

  /** A step that keeps the rows and the record keeps the match. */
  lemma MatchKept(s: State, t: State, id: string)
    requires Matched(s, id) && id in t.memory && t.memory[id] == s.memory[id] && VersionOf(t, s.memory[id]) == VersionOf(s, s.memory[id])
    requires t.rules == s.rules || RowsStay(s, t, id)
    ensures Matched(t, id)
  {
  }

  lemma DbKeepsMatch(s: State, c: nat, ok: bool, row: nat, id: string, k: Track)
    requires Inv(s) && Enabled(s, Db(c, ok, row)) && Window(s, id, k) && Matched(s, id) && !TakesRow(s, Db(c, ok, row), id)
    ensures Matched(Stored(s, c, ok, row), id)
  {
    var t := Stored(s, c, ok, row);
    hide Inv, ActiveAt, Latest, Window, Inserted, Updated;
    if ok {
      if s.calls[c].SaveFirst? {
        FirstRows(s, c, row);
        if s.calls[c].rule.id == id { NothingBefore(s, id, k); }
        forall v: nat | ActiveAt(s.rules, id, v) ensures ActiveAt(t.rules, id, v) { ActiveInserted(s.rules, s.calls[c].rule, 1, row, id, v); }
      } else if s.calls[c].SaveNext? {
        NextRows(s, c, row);
        forall v: nat | ActiveAt(s.rules, id, v) ensures ActiveAt(t.rules, id, v) {
          ActiveInserted(s.rules, s.calls[c].rule, s.calls[c].version, row, id, v);
        }
      } else {
        var call := s.calls[c];
        var (rid, status) := if call.SetStatus? then (call.payload.id, call.payload.status) else (call.id, "DELETED");
        InvHistory(s);
        UpdateKeepsHistory(s.rules, rid, Some(status), call.SetDeleted?);
        forall v: nat | ActiveAt(s.rules, id, v) ensures ActiveAt(t.rules, id, v) {
          ActiveUpdated(s.rules, rid, Some(status), call.SetDeleted?, id, v);
        }
      }
    }
    MatchKept(s, t, id);
  }

  lemma CommitKeepsMatch(s: State, c: nat, id: string, k: Track)
    requires Inv(s) && Enabled(s, Commit(c)) && Window(s, id, k) && Matched(s, id)
    ensures id in Committed(s, c).memory ==> Matched(Committed(s, c), id)
  {
    InMemory(s, id);
    NotOwn(s, c, id, k);
    hide Inv, Window, ActiveAt;
    var t := Committed(s, c);
    if id in t.memory { MatchKept(s, t, id); }
  }

  /** While a rule's row matches, no edit and no first version of it is waiting for memory. */
  lemma NotOwn(s: State, c: nat, id: string, k: Track)
    requires Inv(s) && c < |s.calls| && Window(s, id, k) && Matched(s, id)
    ensures !InsertOf(s.calls[c], id) && (s.calls[c].Edit? ==> s.calls[c].ref != s.memory[id])
  {
    InvHistory(s);
    ActiveIsLatest(s.rules, id, VersionOf(s, s.memory[id]));
    assert Fits(s.calls[c], c, id, k, Latest(s.rules, id), VersionOf(s, k.ref));
    if s.calls[c].Edit? && s.calls[c].rule.id != id { OtherRecord(s, c, id, k); }
    hide Inv, ActiveAt, Latest, HistoryOk;
  }

  lemma TalkKeepsMatch(s: State, step: Step, id: string)
    requires Enabled(s, step) && (step.Begin? || step.Kafka?) && Matched(s, id)
    ensures id in Apply(s, step).memory && Matched(Apply(s, step), id)
  {
    hide MayBegin, ActiveAt;
    MatchKept(s, Apply(s, step), id);
  }

  /** In any reachable state, a step parts a rule in memory from its active row exactly when it is a successful save of
      the rule's next version or a successful row update of its delete. */
  lemma RowLostExactly(s: State, step: Step, id: string, k: Track)
    requires Inv(s) && Enabled(s, step) && Window(s, id, k) && Matched(s, id)
    ensures var t := Apply(s, step); (id in t.memory && !Matched(t, id)) <==> TakesRow(s, step, id)
  {
    var t := Apply(s, step);
    hide Inv, Window, ActiveAt, Latest, Updated, Inserted, MayLoad, MayBegin, Fits, Leads;
    match step
    case Begin(_) => TalkKeepsMatch(s, step, id);
    case Kafka(_, _) => TalkKeepsMatch(s, step, id);
    case Db(c, ok, row) =>
      if !TakesRow(s, step, id) {
        DbKeepsMatch(s, c, ok, row, id, k);
      } else if NextOf(s.calls[c], id) {
        NextTakesRow(s, c, row, id);
      } else {
        DeletedInactive(s.rules, id, VersionOf(s, s.memory[id]));
      }
    case Commit(c) => CommitKeepsMatch(s, c, id, k);
    case Restart(loaded, memory) => if id in memory { LoadedActive(s, loaded, memory, id); }
  }

  // ------------------------------------------------------------- over whole runs

  lemma {:induction false} WindowRuns(s: State, steps: seq<Step>, id: string, k: Track) returns (m: Track)
    requires Inv(s) && Window(s, id, k) && Runs(s, steps)
    ensures Window(Final(s, steps), id, m)
    decreases |steps|
  {
    hide Inv, Window, Enabled, Apply;
    m := k;
    if steps != [] {
      KeepsInv(s, steps[0]);
      m := KeepsWindow(s, steps[0], id, k);
      m := WindowRuns(Apply(s, steps[0]), steps[1..], id, m);
    }
  }

  /** In every interleaving, with any failures and restarts: a rule in memory has its version's row active, except
      between the database write and the memory write of an edit or a delete of it. */
  lemma RowMatchesOutsideWindow(steps: seq<Step>, id: string)
    requires Runs(Start(), steps) && id in Final(Start(), steps).memory
    ensures var s := Final(Start(), steps);
            && s.memory[id] < |s.records|
            && (|| ActiveAt(s.rules, id, s.records[s.memory[id]].version)
                || (exists c :: 0 <= c < |s.calls| && EditOf(s.calls[c], id))
                || exists c :: 0 <= c < |s.calls| && RemoveOf(s.calls[c], id))
  {
    StartInv();
    InvRuns(Start(), steps);
    var k := WindowRuns(Start(), steps, id, Track(0, -1, -1, -1));
    InMemory(Final(Start(), steps), id);
    hide Inv, Final, Runs, ActiveAt, Latest;
  }

  /** The same, for every step of every run. */
  lemma RowLostInEveryRun(steps: seq<Step>, step: Step, id: string)
    requires Runs(Start(), steps) && Enabled(Final(Start(), steps), step) && Matched(Final(Start(), steps), id)
    ensures var t := Apply(Final(Start(), steps), step);
            (id in t.memory && !Matched(t, id)) <==> TakesRow(Final(Start(), steps), step, id)
  {
    StartInv();
    InvRuns(Start(), steps);
    var k := WindowRuns(Start(), steps, id, Track(0, -1, -1, -1));
    hide Inv, Window, Final, Runs, Matched, TakesRow, Apply, Enabled;
    RowLostExactly(Final(Start(), steps), step, id, k);
  }
}
