/** The rule handlers one at a time, over memory, the tables and the Kafka log (internal/handlers/rules.go). What Kafka and
    MySQL answer to a call is given. */
module RuleLifecycle {
  import opened Prelude
  import opened Text
  import opened RuleTables
  import opened RuleStore

  /** An acknowledged message of the rules topic. */
  datatype Message = Message(ruleId: string, status: string)

  /** The status of the last acknowledged message of a rule: what the stream jobs were last told of it. */
  function LastTold(acked: seq<Message>, id: string): Option<string> {
    if acked == [] then None
    else if acked[|acked| - 1].ruleId == id then Some(acked[|acked| - 1].status)
    else LastTold(acked[..|acked| - 1], id)
  }

  lemma ToldNow(acked: seq<Message>, m: Message, id: string)
    ensures LastTold(acked + [m], id) == if m.ruleId == id then Some(m.status) else LastTold(acked, id)
  {
    assert (acked + [m])[..|acked|] == acked;
  }

  datatype Outcome = Done | Exists | Invalid | NotFound | WrongId | Conflict | NotSaved | NotPublished

  function Named(u: Unicode, rule: Rule): Rule { if TrimSpace(u, rule.name) == "" then rule.(name := rule.id) else rule }

  predicate Windowless(rule: Rule) { Fold(rule.windowing.kind) == Fold("NONE") }

  predicate ValidToCreate(rule: Rule) {
    Windowless(rule) || (rule.aggs != [] && rule.windowing.sizeMs > 0 && rule.windowing.slideMs > 0 &&
                         (rule.windowing.kind == "SLIDING" ==> rule.windowing.slideMs <= rule.windowing.sizeMs))
  }

  /** An edit does not look at the slide. */
  predicate ValidToUpdate(rule: Rule) { Windowless(rule) || (rule.aggs != [] && rule.windowing.sizeMs > 0) }

  /** A rule as it is saved: a draft, named by its id when its name is blank. */
  function Draft(u: Unicode, rule: Rule): Rule {
    rule.(name := if Spaces(u, rule.name) then rule.id else rule.name, status := "DRAFT")
  }

  lemma NamedIsDraft(u: Unicode, rule: Rule)
    ensures Named(u, rule).(status := "DRAFT") == Draft(u, rule)
  {
    hide TrimSpace, Spaces;
    BlankIsTrimmed(u, rule.name);
  }

  /** What a windowed rule is refused for, on creation and on an edit. */
  predicate RefusedToCreate(rule: Rule) {
    Fold(rule.windowing.kind) != "none" &&
    (|rule.aggs| == 0 || rule.windowing.sizeMs <= 0 || rule.windowing.slideMs <= 0 ||
     (rule.windowing.kind == "SLIDING" && rule.windowing.slideMs > rule.windowing.sizeMs))
  }

  predicate RefusedToUpdate(rule: Rule) { Fold(rule.windowing.kind) != "none" && (|rule.aggs| == 0 || rule.windowing.sizeMs <= 0) }

  lemma Refusals(rule: Rule)
    ensures RefusedToCreate(rule) <==> !ValidToCreate(rule)
    ensures RefusedToUpdate(rule) <==> !ValidToUpdate(rule)
  {
    assert Fold("NONE") == "none";
  }

  predicate ActiveAt(rules: seq<RuleRow>, id: string, version: nat) {
    exists i :: 0 <= i < |rules| && rules[i].ruleId == id && rules[i].active && rules[i].version == version
  }

  /** Every rule in memory at version v has its row v active. */
  predicate Agrees(memory: map<string, Record>, rules: seq<RuleRow>) {
    forall id :: id in memory ==>
      memory[id].id == id && memory[id].payload.id == id && ActiveAt(rules, id, memory[id].version)
  }

  /** Wherever memory or a row says ACTIVE or PAUSED, Kafka acknowledged that status for that rule. */
  predicate Backed(log: seq<Message>, id: string, status: string) { status in ["ACTIVE", "PAUSED"] ==> Message(id, status) in log }

  predicate RowsBacked(log: seq<Message>, rules: seq<RuleRow>) {
    forall i :: 0 <= i < |rules| ==> Backed(log, rules[i].ruleId, rules[i].status)
  }

  predicate Claims(log: seq<Message>, memory: map<string, Record>, rules: seq<RuleRow>) {
    && (forall id :: id in memory ==> Backed(log, id, memory[id].status))
    && RowsBacked(log, rules)
  }

  lemma ActiveUpdated(rules: seq<RuleRow>, ruleId: string, status: Option<string>, deactivate: bool, id: string, version: nat)
    requires ActiveAt(rules, id, version) && (id != ruleId || !deactivate)
    ensures ActiveAt(Updated(rules, ruleId, status, deactivate), id, version)
  {
    var i :| 0 <= i < |rules| && rules[i].ruleId == id && rules[i].active && rules[i].version == version;
    var u := Updated(rules, ruleId, status, deactivate);
    assert u[i].ruleId == id && u[i].active && u[i].version == version;
  }

  lemma ActiveSaved(rules: seq<RuleRow>, r: RuleRow, id: string, version: nat)
    requires ActiveAt(rules, id, version) || (r.active && r.ruleId == id && r.version == version)
    ensures ActiveAt(rules + [r], id, version)
  {
    var u := rules + [r];
    if ActiveAt(rules, id, version) {
      var i :| 0 <= i < |rules| && rules[i].ruleId == id && rules[i].active && rules[i].version == version;
      assert u[i] == rules[i];
    } else {
      assert u[|rules|] == r;
    }
  }

  lemma BackedUpdated(acked: seq<Message>, rules: seq<RuleRow>, ruleId: string, status: Option<string>, deactivate: bool)
    requires RowsBacked(acked, rules) && (status.Some? ==> Backed(acked, ruleId, status.value))
    ensures RowsBacked(acked, Updated(rules, ruleId, status, deactivate))
  {
    hide Backed;
    var u := Updated(rules, ruleId, status, deactivate);
    forall i | 0 <= i < |u| ensures Backed(acked, u[i].ruleId, u[i].status) {
      assert Backed(acked, rules[i].ruleId, rules[i].status);
    }
  }

  ghost predicate Sound(memory: map<string, Record>, acked: seq<Message>, h: History) {
    Faithful(h) && Agrees(memory, h.tables.rules) && Claims(acked, memory, h.tables.rules)
  }

  lemma SoundVersion(memory: map<string, Record>, acked: seq<Message>, h: History, id: string)
    requires Sound(memory, acked, h) && id in memory
    ensures memory[id].version == Latest(h.tables.rules, id) >= 1
    ensures memory[id].id == id && memory[id].payload.id == id && Backed(acked, id, memory[id].status)
  {
    hide Stores, SideBelow, Backed, RowsBacked;
    assert ActiveAt(h.tables.rules, id, memory[id].version);
    var i :| 0 <= i < |h.tables.rules| && h.tables.rules[i].ruleId == id && h.tables.rules[i].active &&
             h.tables.rules[i].version == memory[id].version;
    VersionAt(h.tables.rules, i);
  }

  lemma SavedSound(memory: map<string, Record>, acked: seq<Message>, h: History, rule: Rule, version: nat, row: nat, m: Record)
    requires Sound(memory, acked, h) && Possible(h, Save(rule, version, row)) && rule.status == "DRAFT"
    requires m.id == m.payload.id == rule.id && m.version == version && m.status == "DRAFT"
    ensures version == Latest(h.tables.rules, rule.id) + 1
    ensures Sound(memory[rule.id := m], acked, After(h, Save(rule, version, row)))
  {
    KeepsFaithful(h, Save(rule, version, row));
    SavedVersion(h, rule, version, row);
    hide Faithful, Possible, Agrees, Claims;
    SavedAgrees(memory, acked, h.tables.rules, rule, version, row, m);
  }

  lemma SavedAgrees(memory: map<string, Record>, acked: seq<Message>, rules: seq<RuleRow>, rule: Rule, version: nat, row: nat, m: Record)
    requires Agrees(memory, rules) && Claims(acked, memory, rules) && rule.status == "DRAFT"
    requires m.id == m.payload.id == rule.id && m.version == version && m.status == "DRAFT"
    ensures var u := Updated(rules, rule.id, None, true) + [RowOf(rule, version, row)];
            Agrees(memory[rule.id := m], u) && Claims(acked, memory[rule.id := m], u)
  {
    hide ActiveAt;
    var r := RowOf(rule, version, row);
    var u := Updated(rules, rule.id, None, true);
    ActiveSaved(u, r, rule.id, version);
    forall id | id in memory && id != rule.id ensures ActiveAt(u + [r], id, memory[id].version) {
      ActiveUpdated(rules, rule.id, None, true, id, memory[id].version);
      ActiveSaved(u, r, id, memory[id].version);
    }
    BackedUpdated(acked, rules, rule.id, None, true);
  }

  lemma SavedVersion(h: History, rule: Rule, version: nat, row: nat)
    requires Faithful(h) && Possible(h, Save(rule, version, row))
    ensures version == Latest(h.tables.rules, rule.id) + 1
  {
    SaveKeepsHistory(h.tables, rule, version, row);
  }

  lemma StatusSound(memory: map<string, Record>, acked: seq<Message>, h: History, id: string, status: string)
    requires Sound(memory, acked, h) && Backed(acked, id, status)
    ensures Sound(memory, acked, After(h, Status(id, status, false)))
  {
    KeepsFaithful(h, Status(id, status, false));
    hide Faithful, Agrees, Claims, Updated, Backed;
    StatusAgrees(memory, acked, h.tables.rules, id, status);
  }

  lemma StatusAgrees(memory: map<string, Record>, acked: seq<Message>, rules: seq<RuleRow>, id: string, status: string)
    requires Agrees(memory, rules) && Claims(acked, memory, rules) && Backed(acked, id, status)
    ensures Agrees(memory, Updated(rules, id, Some(status), false)) && Claims(acked, memory, Updated(rules, id, Some(status), false))
  {
    hide ActiveAt, Backed, RowsBacked, Updated;
    forall k | k in memory ensures ActiveAt(Updated(rules, id, Some(status), false), k, memory[k].version) {
      ActiveUpdated(rules, id, Some(status), false, k, memory[k].version);
    }
    BackedUpdated(acked, rules, id, Some(status), false);
  }

  lemma DeletedSound(memory: map<string, Record>, acked: seq<Message>, h: History, id: string)
    requires Sound(memory, acked, h)
    ensures Sound(memory - {id}, acked, After(h, Status(id, "DELETED", true)))
    ensures Sound(memory - {id}, acked, h)
  {
    KeepsFaithful(h, Status(id, "DELETED", true));
    hide Faithful, Agrees, Claims, Updated;
    DeletedAgrees(memory, acked, h.tables.rules, id);
    FewerAgree(memory, acked, h.tables.rules, id);
  }

  lemma FewerAgree(memory: map<string, Record>, acked: seq<Message>, rules: seq<RuleRow>, id: string)
    requires Agrees(memory, rules) && Claims(acked, memory, rules)
    ensures Agrees(memory - {id}, rules) && Claims(acked, memory - {id}, rules)
  {
    hide ActiveAt, Backed, RowsBacked;
  }

  lemma DeletedAgrees(memory: map<string, Record>, acked: seq<Message>, rules: seq<RuleRow>, id: string)
    requires Agrees(memory, rules) && Claims(acked, memory, rules)
    ensures var u := Updated(rules, id, Some("DELETED"), true); Agrees(memory - {id}, u) && Claims(acked, memory - {id}, u)
  {
    hide ActiveAt, RowsBacked, Updated;
    forall k | k in memory && k != id ensures ActiveAt(Updated(rules, id, Some("DELETED"), true), k, memory[k].version) {
      ActiveUpdated(rules, id, Some("DELETED"), true, k, memory[k].version);
    }
    BackedUpdated(acked, rules, id, Some("DELETED"), true);
  }

  lemma RecordSound(memory: map<string, Record>, acked: seq<Message>, h: History, id: string, m: Record)
    requires Sound(memory, acked, h) && id in memory
    requires m.id == m.payload.id == id && m.version == memory[id].version && Backed(acked, id, m.status)
    ensures Sound(memory[id := m], acked, h)
  {
    hide Faithful;
  }

  lemma AckedSound(memory: map<string, Record>, acked: seq<Message>, h: History, message: Message)
    requires Sound(memory, acked, h)
    ensures Sound(memory, acked + [message], h)
  {
    hide Faithful;
    forall id, status | Backed(acked, id, status) ensures Backed(acked + [message], id, status) { }
  }

  lemma NothingSound(memory: map<string, Record>, acked: seq<Message>, h: History)
    requires Sound(memory, acked, h)
    ensures Sound(map[], acked, h)
  {
    hide Faithful;
  }

  /** What a load makes of sound tables is a sound memory. */
  lemma LoadSound(memory: map<string, Record>, acked: seq<Message>, h: History, loaded: map<string, Record>)
    requires Sound(memory, acked, h)
    requires forall id :: id in loaded ==> exists r :: r in h.tables.rules && r.active && r.ruleId == id
    requires forall r :: r in h.tables.rules && r.active ==>
      r.ruleId in loaded && r.ruleId in h.last && h.last[r.ruleId] in h.savings && loaded[r.ruleId] == Loaded(r, h.savings[h.last[r.ruleId]])
    ensures Sound(loaded, acked, h)
  {
    hide HistoryOk, SideBelow, HoldsWindow, HoldsSinks, HoldsAggs, HoldsBreach, Normal;
    var rules := h.tables.rules;
    forall id | id in loaded
      ensures loaded[id].id == id && loaded[id].payload.id == id && Backed(acked, id, loaded[id].status)
      ensures ActiveAt(rules, id, loaded[id].version)
    {
      var r :| r in rules && r.active && r.ruleId == id;
      var i :| 0 <= i < |rules| && rules[i] == r;
      assert Stores(h.tables, rules[i], h.savings[r.row]);
      NormalKeepsId(h.savings[r.row].rule, h.savings[r.row].windowsKept);
    }
  }

  lemma NormalKeepsId(r: Rule, kept: bool)
    ensures Normal(r, kept).id == r.id
  {
  }

  /** The active row of a rule's version says the status its record says. */
  predicate RowSays(rules: seq<RuleRow>, m: Record) {
    exists i :: 0 <= i < |rules| && rules[i].ruleId == m.id && rules[i].active && rules[i].version == m.version && rules[i].status == m.status
  }

  lemma RowSaysStatus(memory: map<string, Record>, acked: seq<Message>, h: History, id: string, m: Record)
    requires Sound(memory, acked, h) && id in memory && m.id == id && m.version == memory[id].version
    ensures RowSays(Updated(h.tables.rules, id, Some(m.status), false), m)
  {
    hide Faithful, Claims;
    var rules := h.tables.rules;
    var i :| 0 <= i < |rules| && rules[i].ruleId == id && rules[i].active && rules[i].version == memory[id].version;
    assert Updated(rules, id, Some(m.status), false)[i].status == m.status;
  }

  /** The first version is free exactly for an id that never had one; the next version of a rule in memory always is. */
  lemma FirstIsFree(memory: map<string, Record>, acked: seq<Message>, h: History, id: string)
    requires Sound(memory, acked, h)
    ensures Taken(h.tables.rules, id, 1) <==> Latest(h.tables.rules, id) > 0
  {
    hide Stores, SideBelow;
    TakenIsRange(h.tables.rules, id, 1);
  }

  lemma NextIsFree(memory: map<string, Record>, acked: seq<Message>, h: History, id: string)
    requires Sound(memory, acked, h) && id in memory
    ensures memory[id].version == Latest(h.tables.rules, id) >= 1 && memory[id].id == id
    ensures !Taken(h.tables.rules, id, memory[id].version + 1)
  {
    SoundVersion(memory, acked, h, id);
    hide Stores, SideBelow;
    TakenIsRange(h.tables.rules, id, memory[id].version + 1);
  }

  lemma DraftSaves(u: Unicode, rule: Rule, mysql: Statement -> bool, t: Tables)
    ensures Draft(u, rule).id == rule.id && (Accepts(mysql, t, Draft(u, rule)) <==> Accepts(mysql, t, rule))
  {
  }

  class RulesHandler {
    var rulesDB: map<string, Record>
    const db: Database
    var acked: seq<Message>
    const unicode: Unicode
    ghost var history: History

    ghost predicate Valid()
      reads this, db
    {
      && db.Valid()
      && history.tables == db.tables && history.next <= db.nextRow
      && Sound(rulesDB, acked, history)
    }

    constructor (db: Database, unicode: Unicode, ghost provisioned: bool)
      requires db.Valid() && db.tables == Empty(provisioned).tables
      ensures Valid() && this.db == db && this.unicode == unicode && rulesDB == map[]
    {
      this.db, this.unicode := db, unicode;
      rulesDB, acked := map[], [];
      history := Empty(provisioned);
      EmptyIsFaithful(provisioned);
    }

    /** A rule is created exactly when its id is not in memory, it is not refused, MySQL accepts the save and the id never had
        a saved version: one that had cannot be created again, even after its delete. */
    method CreateRule(rule: Rule, mysql: Statement -> bool) returns (o: Outcome, ghost row: nat)
      requires Valid()
      modifies this`rulesDB, this`history, db
      ensures Valid()
      ensures o == Exists <==> rule.id in old(rulesDB)
      ensures o == Invalid <==> rule.id !in old(rulesDB) && RefusedToCreate(rule)
      ensures o == Done <==> rule.id !in old(rulesDB) && !RefusedToCreate(rule) && Accepts(mysql, old(db.tables), rule) &&
                             Latest(old(db.tables.rules), rule.id) == 0
      ensures o in [Done, Exists, Invalid, NotSaved]
      ensures o != Done ==> rulesDB == old(rulesDB) && db.tables == old(db.tables)
      ensures o == Done ==>
        var saved := Draft(unicode, rule);
        && rulesDB == old(rulesDB)[rule.id := Record(rule.id, saved.name, "DRAFT", saved, false, 1)]
        && db.tables == Saved(old(db.tables), saved, 1, row) && NewVersion(old(db.tables), db.tables, saved, 1, row)
    {
      hide Sound, Saved, Taken, Latest, Named, Draft, ValidToCreate, RefusedToCreate, NewVersion, Accepts;
      Refusals(rule);
      if rule.id in rulesDB { return Exists, 0; }
      var r := Named(unicode, rule);
      NamedIsDraft(unicode, rule);
      DraftSaves(unicode, rule, mysql, db.tables);
      if !ValidToCreate(rule) { return Invalid, 0; }
      r := r.(status := "DRAFT");
      FirstIsFree(rulesDB, acked, history, rule.id);
      var ok, newRow := db.SaveNewRuleVersion(r, 1, mysql);
      if !ok { return NotSaved, 0; }
      var m := Record(r.id, r.name, "DRAFT", r, false, 1);
      SavedSound(rulesDB, acked, history, r, 1, newRow, m);
      history := After(history, Save(r, 1, newRow));
      rulesDB := rulesDB[r.id := m];
      o, row := Done, newRow;
    }

    /** An edit saves the next version and takes the rule back to DRAFT, keeping its published mark. The next version is
        always free. */
    method UpdateRule(ruleId: string, rule: Rule, mysql: Statement -> bool) returns (o: Outcome, ghost row: nat)
      requires Valid()
      modifies this`rulesDB, this`history, db
      ensures Valid()
      ensures o == WrongId <==> rule.id != ruleId
      ensures o == NotFound <==> rule.id == ruleId && ruleId !in old(rulesDB)
      ensures o == Conflict <==> rule.id == ruleId && ruleId in old(rulesDB) && old(rulesDB)[ruleId].status !in ["DRAFT", "PAUSED"]
      ensures o == Invalid <==> rule.id == ruleId && ruleId in old(rulesDB) && old(rulesDB)[ruleId].status in ["DRAFT", "PAUSED"] &&
                                RefusedToUpdate(rule)
      ensures o == Done <==> rule.id == ruleId && ruleId in old(rulesDB) && old(rulesDB)[ruleId].status in ["DRAFT", "PAUSED"] &&
                             !RefusedToUpdate(rule) && Accepts(mysql, old(db.tables), rule)
      ensures o in [Done, WrongId, NotFound, Conflict, Invalid, NotSaved]
      ensures o != Done ==> rulesDB == old(rulesDB) && db.tables == old(db.tables)
      ensures o == Done ==>
        var was := old(rulesDB)[ruleId];
        var saved := Draft(unicode, rule);
        && was.version == Latest(old(db.tables.rules), ruleId)
        && rulesDB == old(rulesDB)[ruleId := Record(ruleId, saved.name, "DRAFT", saved, was.published, was.version + 1)]
        && db.tables == Saved(old(db.tables), saved, was.version + 1, row)
        && NewVersion(old(db.tables), db.tables, saved, was.version + 1, row)
    {
      hide Sound, Saved, Taken, Latest, Named, Draft, ValidToUpdate, RefusedToUpdate, NewVersion, Accepts;
      Refusals(rule);
      if rule.id != ruleId { return WrongId, 0; }
      if ruleId !in rulesDB { return NotFound, 0; }
      var record := rulesDB[ruleId];
      if record.status != "DRAFT" && record.status != "PAUSED" { return Conflict, 0; }
      var r := Named(unicode, rule);
      NamedIsDraft(unicode, rule);
      DraftSaves(unicode, rule, mysql, db.tables);
      if !ValidToUpdate(rule) { return Invalid, 0; }
      r := r.(status := "DRAFT");
      NextIsFree(rulesDB, acked, history, ruleId);
      var ok, newRow := db.SaveNewRuleVersion(r, record.version + 1, mysql);
      if !ok { return NotSaved, 0; }
      var m := record.(name := r.name, status := "DRAFT", payload := r, version := record.version + 1);
      SavedSound(rulesDB, acked, history, r, record.version + 1, newRow, m);
      history := After(history, Save(r, record.version + 1, newRow));
      rulesDB := rulesDB[ruleId := m];
      o, row := Done, newRow;
    }

    /** Kafka first: with no acknowledgement nothing changes; with one, the record changes, and the rule's active rows do
        when MySQL accepts the statement. */
    method Announce(ruleId: string, status: string, marks: bool, kafka: bool, mysql: bool) returns (o: Outcome)
      requires Valid() && status in ["ACTIVE", "PAUSED"]
      modifies this, db`tables
      ensures Valid()
      ensures o == if ruleId !in old(rulesDB) then NotFound else if !kafka then NotPublished else Done
      ensures o != Done ==> rulesDB == old(rulesDB) && db.tables == old(db.tables) && acked == old(acked)
      ensures o == Done ==>
        var was := old(rulesDB)[ruleId];
        && acked == old(acked) + [Message(ruleId, status)]
        && rulesDB == old(rulesDB)[ruleId := was.(status := status, payload := was.payload.(status := status), published := marks || was.published)]
      ensures o == Done ==> db.tables == old(db.tables).(rules := db.tables.rules)
      ensures o == Done ==> if mysql then Marked(old(db.tables.rules), db.tables.rules, ruleId, Some(status), true)
                            else db.tables == old(db.tables)
      ensures o == Done && mysql ==> RowSays(db.tables.rules, rulesDB[ruleId])
    {
      hide Sound, Marked, RowSays, Updated;
      if ruleId !in rulesDB { return NotFound; }
      var record := rulesDB[ruleId];
      SoundVersion(rulesDB, acked, history, ruleId);
      if !kafka { return NotPublished; }
      AckedSound(rulesDB, acked, history, Message(ruleId, status));
      acked := acked + [Message(record.payload.id, status)];
      var m := record.(status := status, payload := record.payload.(status := status), published := marks || record.published);
      var ok := db.UpdateRuleStatusInPlace(ruleId, status, false, mysql);
      if ok {
        RowSaysStatus(rulesDB, acked, history, ruleId, m);
        StatusSound(rulesDB, acked, history, ruleId, status);
        history := After(history, Status(ruleId, status, false));
      }
      RecordSound(rulesDB, acked, history, ruleId, m);
      rulesDB := rulesDB[ruleId := m];
      o := Done;
    }

    /** A publish answers Done exactly when Kafka acknowledged it; then memory says ACTIVE and published, and so do the rule's
        active rows unless MySQL refused the statement. */
    method PublishRule(ruleId: string, kafka: bool, mysql: bool) returns (o: Outcome)
      requires Valid()
      modifies this, db`tables
      ensures Valid()
      ensures o == if ruleId !in old(rulesDB) then NotFound else if !kafka then NotPublished else Done
      ensures o != Done ==> rulesDB == old(rulesDB) && db.tables == old(db.tables) && acked == old(acked)
      ensures o == Done ==> acked == old(acked) + [Message(ruleId, "ACTIVE")]
      ensures o == Done ==>
        var was := old(rulesDB)[ruleId];
        rulesDB == old(rulesDB)[ruleId := was.(status := "ACTIVE", payload := was.payload.(status := "ACTIVE"), published := true)]
      ensures o == Done ==> db.tables == old(db.tables).(rules := db.tables.rules)
      ensures o == Done ==> if mysql then Marked(old(db.tables.rules), db.tables.rules, ruleId, Some("ACTIVE"), true)
                            else db.tables == old(db.tables)
      ensures o == Done && mysql ==> RowSays(db.tables.rules, rulesDB[ruleId])
    {
      hide Sound, Marked, RowSays;
      o := Announce(ruleId, "ACTIVE", true, kafka, mysql);
    }

    /** A status change to ACTIVE or PAUSED does the same, and leaves the published mark as it was. */
    method UpdateRuleStatus(ruleId: string, status: string, kafka: bool, mysql: bool) returns (o: Outcome)
      requires Valid()
      modifies this, db`tables
      ensures Valid()
      ensures o == if status !in ["ACTIVE", "PAUSED"] then Invalid
                   else if ruleId !in old(rulesDB) then NotFound else if !kafka then NotPublished else Done
      ensures o != Done ==> rulesDB == old(rulesDB) && db.tables == old(db.tables) && acked == old(acked)
      ensures o == Done ==> acked == old(acked) + [Message(ruleId, status)]
      ensures o == Done ==>
        var was := old(rulesDB)[ruleId];
        rulesDB == old(rulesDB)[ruleId := was.(status := status, payload := was.payload.(status := status))]
      ensures o == Done ==> db.tables == old(db.tables).(rules := db.tables.rules)
      ensures o == Done ==> if mysql then Marked(old(db.tables.rules), db.tables.rules, ruleId, Some(status), true)
                            else db.tables == old(db.tables)
      ensures o == Done && mysql ==> RowSays(db.tables.rules, rulesDB[ruleId])
    {
      hide Sound, Marked, RowSays;
      if status != "ACTIVE" && status != "PAUSED" { return Invalid; }
      o := Announce(ruleId, status, false, kafka, mysql);
    }

    /** A rule leaves memory exactly when it was never marked published or Kafka acknowledged DELETED; its active rows are then
        DELETED and inactive, unless MySQL refused the statement. */
    method DeleteRule(ruleId: string, kafka: bool, mysql: bool) returns (o: Outcome)
      requires Valid()
      modifies this, db`tables
      ensures Valid()
      ensures o == if ruleId !in old(rulesDB) then NotFound
                   else if old(rulesDB)[ruleId].published && !kafka then NotPublished else Done
      ensures o != Done ==> rulesDB == old(rulesDB) && db.tables == old(db.tables) && acked == old(acked)
      ensures o == Done ==> rulesDB == old(rulesDB) - {ruleId}
      ensures o == Done ==> acked == old(acked) + (if old(rulesDB)[ruleId].published then [Message(ruleId, "DELETED")] else [])
      ensures o == Done ==> db.tables == old(db.tables).(rules := db.tables.rules)
      ensures o == Done ==> if mysql then Marked(old(db.tables.rules), db.tables.rules, ruleId, Some("DELETED"), false)
                            else db.tables == old(db.tables)
      ensures o == Done ==>
        (LastTold(acked, ruleId) == Some("ACTIVE") <==> !old(rulesDB)[ruleId].published && LastTold(old(acked), ruleId) == Some("ACTIVE"))
    {
      hide Sound, LastTold, Marked, Updated;
      if ruleId !in rulesDB { return NotFound; }
      ToldNow(acked, Message(ruleId, "DELETED"), ruleId);
      var record := rulesDB[ruleId];
      SoundVersion(rulesDB, acked, history, ruleId);
      if record.published {
        if !kafka { return NotPublished; }
        AckedSound(rulesDB, acked, history, Message(ruleId, "DELETED"));
        acked := acked + [Message(record.payload.id, "DELETED")];
      }
      DeletedSound(rulesDB, acked, history, ruleId);
      var ok := db.UpdateRuleStatusInPlace(ruleId, "DELETED", true, mysql);
      if ok { history := After(history, Status(ruleId, "DELETED", true)); }
      rulesDB := rulesDB - {ruleId};
      o := Done;
    }

    /** One way to a rule left running: a status call on a rule never published leaves the mark unset, so its delete
        sends nothing, whatever Kafka and MySQL answer to it. */
    method ActivateThenDelete(ruleId: string, kafka: bool, mysql: bool) returns (activated: Outcome, deleted: Outcome)
      requires Valid() && ruleId in rulesDB && !rulesDB[ruleId].published
      modifies this, db`tables
      ensures Valid()
      ensures activated == Done <==> kafka
      ensures deleted == Done
      ensures activated == Done ==> ruleId !in rulesDB && LastTold(acked, ruleId) == Some("ACTIVE")
    {
      hide LastTold;
      ToldNow(acked, Message(ruleId, "ACTIVE"), ruleId);
      activated := UpdateRuleStatus(ruleId, "ACTIVE", kafka, mysql);
      deleted := DeleteRule(ruleId, kafka, mysql);
    }

    /** A restart: memory is lost, then loaded exactly when MySQL answers; a failed load starts empty. */
    method Restart(q: Answers, mysql: Query -> bool) returns (ok: bool)
      requires Valid() && Legitimate(db.tables, q)
      modifies this`rulesDB
      ensures Valid()
      ensures ok <==> Answered(mysql, q)
      ensures !ok ==> rulesDB == map[]
      ensures ok ==> forall id :: id in rulesDB <==> exists r :: r in db.tables.rules && r.active && r.ruleId == id
      ensures ok ==> forall r :: r in db.tables.rules && r.active ==>
        r.ruleId in rulesDB && r.ruleId in history.last && history.last[r.ruleId] in history.savings &&
        rulesDB[r.ruleId] == Loaded(r, history.savings[history.last[r.ruleId]])
      ensures forall id :: id in rulesDB ==> rulesDB[id].published == (rulesDB[id].status in ["ACTIVE", "PAUSED"])
    {
      NothingSound(rulesDB, acked, history);
      SoundIsFaithful(rulesDB, acked, history);
      hide Sound, Faithful, Loaded, Answered;
      rulesDB := map[];
      var loaded := LoadActiveRules(q, mysql, history);
      ok := loaded.Some?;
      if ok {
        LoadSound(rulesDB, acked, history, loaded.value);
        forall id | id in loaded.value ensures loaded.value[id].published == (loaded.value[id].status in ["ACTIVE", "PAUSED"]) {
          var r :| r in db.tables.rules && r.active && r.ruleId == id;
          LoadedMark(r, history.savings[history.last[r.ruleId]]);
        }
        rulesDB := loaded.value;
      }
    }
  }

  lemma SoundIsFaithful(memory: map<string, Record>, acked: seq<Message>, h: History)
    requires Sound(memory, acked, h)
    ensures Faithful(h)
  {
  }

  /** A restart marks a rule published by the status of its row alone; an edit had left that at DRAFT. */
  lemma LoadedMark(r: RuleRow, s: Saving)
    ensures Loaded(r, s).published == (Loaded(r, s).status in ["ACTIVE", "PAUSED"]) && Loaded(r, s).status == r.status
  {
  }
}
