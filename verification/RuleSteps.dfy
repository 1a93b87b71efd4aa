/** A handler that nothing interrupts: its steps do to records, rows and Kafka what the handler does alone
    (internal/handlers/rules.go). */
module RuleSteps {
  import opened Prelude
  import opened RuleTables
  import opened RuleStore
  import opened RuleLifecycle
  import opened RuleRuns

  /** The rows with one more at the end, the new version's; the rule's other rows are inactive. */
  predicate Versioned(before: seq<RuleRow>, after: seq<RuleRow>, rule: Rule, version: nat, row: nat) {
    && |after| == |before| + 1 && Marked(before, after[..|before|], rule.id, None, false)
    && after[|before|] == RuleRow(row, rule.id, version, true, rule.name, rule.status, rule.severity, rule.topic, rule.entity,
                                  rule.anomalyField, rule.keys, rule.filters)
  }

  lemma InsertedIsVersioned(rules: seq<RuleRow>, rule: Rule, version: nat, row: nat)
    ensures Versioned(rules, Inserted(rules, rule, version, row), rule, version, row)
  {
    hide Updated;
    UpdatedIsMarked(rules, rule.id, None, true);
    assert Inserted(rules, rule, version, row)[..|rules|] == Updated(rules, rule.id, None, true);
  }

  lemma StatusSteps(s: State, id: string, status: string, marks: bool, ok: bool, s1: State, s2: State, s3: State, s4: State)
    requires id in s.memory && s.memory[id] < |s.records| && s.records[s.memory[id]].id == id == s.records[s.memory[id]].payload.id
    requires status in ["ACTIVE", "PAUSED"] && (marks ==> status == "ACTIVE")
    requires var ref := s.memory[id];
             var payload := s.records[ref].payload.(status := status);
             && s1 == s.(calls := s.calls + [Send(ref, payload, marks)])
             && s2 == s.(calls := s.calls + [SetStatus(ref, payload, marks)], acked := s.acked + [Message(id, status)])
             && s3 == s2.(calls := s.calls + [Assign(ref, payload, marks)],
                        rules := if ok then Updated(s.rules, id, Some(status), false) else s.rules)
             && s4 == s3.(calls := s.calls + [Over],
                        records := s.records[ref := s.records[ref].(payload := payload, status := status,
                                                                    published := marks || s.records[ref].published)])
    ensures var ref, n := s.memory[id], |s.calls|;
            var payload := s.records[ref].payload.(status := status);
            && Enabled(s, Begin(Send(ref, payload, marks))) && Apply(s, Begin(Send(ref, payload, marks))) == s1
            && Enabled(s1, Kafka(n, true)) && Apply(s1, Kafka(n, true)) == s2
            && Enabled(s2, Db(n, ok, 0)) && Apply(s2, Db(n, ok, 0)) == s3
            && Enabled(s3, Commit(n)) && Apply(s3, Commit(n)) == s4
  {
    hide Updated, MayLoad;
    var payload := s.records[s.memory[id]].payload.(status := status);
    assert s1.calls[|s.calls| := SetStatus(s.memory[id], payload, marks)] == s2.calls;
    assert s2.calls[|s.calls| := Assign(s.memory[id], payload, marks)] == s3.calls;
    assert s3.calls[|s.calls| := Over] == s4.calls;
  }

  /** A publish or a status change: acknowledged, then the rule's active rows if MySQL accepts, then the record. */
  lemma UninterruptedStatus(s: State, id: string, status: string, marks: bool, ok: bool)
    requires Inv(s) && id in s.memory && status in ["ACTIVE", "PAUSED"] && (marks ==> status == "ACTIVE")
    ensures var ref, n := s.memory[id], |s.calls|;
            && ref < |s.records|
            && var payload := s.records[ref].payload.(status := status);
            var steps := [Begin(Send(ref, payload, marks)), Kafka(n, true), Db(n, ok, 0), Commit(n)];
            && Runs(s, steps)
            && var t := Final(s, steps);
            && t.memory == s.memory && t.acked == s.acked + [Message(id, status)] && t.calls == s.calls + [Over]
            && t.records == s.records[ref := s.records[ref].(payload := payload, status := status, published := marks || s.records[ref].published)]
            && if ok then Marked(s.rules, t.rules, id, Some(status), true) else t.rules == s.rules
  {
    hide Inv, Updated, Marked, MayLoad, Enabled, Apply, Runs, Final;
    RecordInMemory(s, id);
    var ref, n := s.memory[id], |s.calls|;
    var payload := s.records[ref].payload.(status := status);
    UpdatedIsMarked(s.rules, id, Some(status), false);
    var s1 := s.(calls := s.calls + [Send(ref, payload, marks)]);
    var s2 := s.(calls := s.calls + [SetStatus(ref, payload, marks)], acked := s.acked + [Message(id, status)]);
    var s3 := s2.(calls := s.calls + [Assign(ref, payload, marks)],
                        rules := if ok then Updated(s.rules, id, Some(status), false) else s.rules);
    var s4 := s3.(calls := s.calls + [Over],
                  records := s.records[ref := s.records[ref].(payload := payload, status := status,
                                                              published := marks || s.records[ref].published)]);
    StatusSteps(s, id, status, marks, ok, s1, s2, s3, s4);
    RunsFrom([Begin(Send(ref, payload, marks)), Kafka(n, true), Db(n, ok, 0), Commit(n)], [s, s1, s2, s3, s4]);
  }

  lemma DeleteSteps(s: State, id: string, ok: bool, s1: State, s2: State, s3: State, s4: State)
    requires id in s.memory && s.memory[id] < |s.records|
    requires var published := s.records[s.memory[id]].published;
             && s1 == s.(calls := s.calls + [SendDelete(id, published)])
             && s2 == s.(calls := s.calls + [SetDeleted(id, published, published)],
                       acked := s.acked + (if published then [Message(id, "DELETED")] else []))
             && s3 == s2.(calls := s.calls + [Remove(id, published, published)],
                        rules := if ok then Updated(s.rules, id, Some("DELETED"), true) else s.rules)
             && s4 == s3.(calls := s.calls + [Over], memory := s.memory - {id})
    ensures var n, published := |s.calls|, s.records[s.memory[id]].published;
            && Enabled(s, Begin(SendDelete(id, published))) && Apply(s, Begin(SendDelete(id, published))) == s1
            && Enabled(s1, Kafka(n, true)) && Apply(s1, Kafka(n, true)) == s2
            && Enabled(s2, Db(n, ok, 0)) && Apply(s2, Db(n, ok, 0)) == s3
            && Enabled(s3, Commit(n)) && Apply(s3, Commit(n)) == s4
  {
    hide Updated, MayLoad;
    var published := s.records[s.memory[id]].published;
    assert s.acked + [] == s.acked;
    assert s1.calls[|s.calls| := SetDeleted(id, published, published)] == s2.calls;
    assert s2.calls[|s.calls| := Remove(id, published, published)] == s3.calls;
    assert s3.calls[|s.calls| := Over] == s4.calls;
  }

  /** A delete: DELETED acknowledged if the mark was set, then the rows if MySQL accepts, then the record leaves memory. */
  lemma UninterruptedDelete(s: State, id: string, ok: bool)
    requires Inv(s) && id in s.memory
    ensures var ref, n := s.memory[id], |s.calls|;
            && ref < |s.records|
            && var published := s.records[ref].published;
            var steps := [Begin(SendDelete(id, published)), Kafka(n, true), Db(n, ok, 0), Commit(n)];
            && Runs(s, steps)
            && var t := Final(s, steps);
            && t.memory == s.memory - {id} && t.records == s.records && t.calls == s.calls + [Over]
            && t.acked == s.acked + (if published then [Message(id, "DELETED")] else [])
            && if ok then Marked(s.rules, t.rules, id, Some("DELETED"), false) else t.rules == s.rules
  {
    hide Inv, Updated, Marked, MayLoad, Enabled, Apply, Runs, Final;
    RecordInMemory(s, id);
    var n, published := |s.calls|, s.records[s.memory[id]].published;
    UpdatedIsMarked(s.rules, id, Some("DELETED"), true);
    var s1 := s.(calls := s.calls + [SendDelete(id, published)]);
    var s2 := s.(calls := s.calls + [SetDeleted(id, published, published)],
                       acked := s.acked + (if published then [Message(id, "DELETED")] else []));
    var s3 := s2.(calls := s.calls + [Remove(id, published, published)],
                        rules := if ok then Updated(s.rules, id, Some("DELETED"), true) else s.rules);
    var s4 := s3.(calls := s.calls + [Over], memory := s.memory - {id});
    DeleteSteps(s, id, ok, s1, s2, s3, s4);
    RunsFrom([Begin(SendDelete(id, published)), Kafka(n, true), Db(n, ok, 0), Commit(n)], [s, s1, s2, s3, s4]);
  }

  /** A create: version 1 saved, then a new unpublished record. */
  lemma UninterruptedCreate(s: State, rule: Rule, row: nat)
    requires rule.id !in s.memory && rule.status == "DRAFT" && !Taken(s.rules, rule.id, 1)
    ensures var n := |s.calls|;
            var steps := [Begin(SaveFirst(rule)), Db(n, true, row), Commit(n)];
            && Runs(s, steps)
            && var t := Final(s, steps);
            && Versioned(s.rules, t.rules, rule, 1, row) && t.acked == s.acked && t.calls == s.calls + [Over]
            && t.records == s.records + [Record(rule.id, rule.name, "DRAFT", rule, false, 1)]
            && t.memory == s.memory[rule.id := |s.records|]
  {
    var n := |s.calls|;
    InsertedIsVersioned(s.rules, rule, 1, row);
    hide Inserted, Versioned, Taken;
    var s1 := s.(calls := s.calls + [SaveFirst(rule)]);
    var s2 := s.(calls := s.calls + [Insert(rule)], rules := Inserted(s.rules, rule, 1, row));
    var s3 := s2.(calls := s.calls + [Over], records := s.records + [Record(rule.id, rule.name, "DRAFT", rule, false, 1)],
                  memory := s.memory[rule.id := |s.records|]);
    assert Enabled(s, Begin(SaveFirst(rule))) && Apply(s, Begin(SaveFirst(rule))) == s1;
    assert Enabled(s1, Db(n, true, row)) && Apply(s1, Db(n, true, row)) == s2;
    assert Enabled(s2, Commit(n)) && Apply(s2, Commit(n)) == s3;
    hide Enabled, Apply, Runs, Final;
    RunsFrom([Begin(SaveFirst(rule)), Db(n, true, row), Commit(n)], [s, s1, s2, s3]);
  }

  /** An edit: the next version saved, then the record is that draft, its mark kept. */
  lemma UninterruptedEdit(s: State, rule: Rule, row: nat)
    requires rule.id in s.memory && s.memory[rule.id] < |s.records| && rule.status == "DRAFT"
    requires s.records[s.memory[rule.id]].status in ["DRAFT", "PAUSED"]
    requires !Taken(s.rules, rule.id, s.records[s.memory[rule.id]].version + 1)
    ensures var ref, n := s.memory[rule.id], |s.calls|;
            var version := s.records[ref].version + 1;
            var steps := [Begin(SaveNext(ref, rule, version)), Db(n, true, row), Commit(n)];
            && Runs(s, steps)
            && var t := Final(s, steps);
            && Versioned(s.rules, t.rules, rule, version, row) && t.acked == s.acked && t.calls == s.calls + [Over] && t.memory == s.memory
            && t.records == s.records[ref := s.records[ref].(payload := rule, status := "DRAFT", name := rule.name, version := version)]
  {
    var ref, n := s.memory[rule.id], |s.calls|;
    var version := s.records[ref].version + 1;
    InsertedIsVersioned(s.rules, rule, version, row);
    hide Inserted, Versioned, Taken;
    var s1 := s.(calls := s.calls + [SaveNext(ref, rule, version)]);
    var s2 := s.(calls := s.calls + [Edit(ref, rule, version)], rules := Inserted(s.rules, rule, version, row));
    var s3 := s2.(calls := s.calls + [Over],
                  records := s.records[ref := s.records[ref].(payload := rule, status := "DRAFT", name := rule.name, version := version)]);
    assert Enabled(s, Begin(SaveNext(ref, rule, version))) && Apply(s, Begin(SaveNext(ref, rule, version))) == s1;
    assert Enabled(s1, Db(n, true, row)) && Apply(s1, Db(n, true, row)) == s2;
    assert Enabled(s2, Commit(n)) && Apply(s2, Commit(n)) == s3;
    hide Enabled, Apply, Runs, Final;
    RunsFrom([Begin(SaveNext(ref, rule, version)), Db(n, true, row), Commit(n)], [s, s1, s2, s3]);
  }
}
