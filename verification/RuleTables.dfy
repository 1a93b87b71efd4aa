/** The five rule tables as values (internal/migrations/mysql/0002_init_rules_store.sql), what a save or a status
    update makes of them (internal/services/rule_store.go), and the version history they hold. */
module RuleTables {
  import opened Prelude

  // ------------------------------------------------------------- rules

  datatype Windowing = Windowing(kind: string, timeType: string, timestampField: string, timestampFormat: string, useKafkaTimestamp: bool,
                                 sizeMs: int, slideMs: int, allowedLatenessMs: int, alignmentOffsetMs: int)
  datatype Agg = Agg(alias: string, field: string, fn: string, hint: string)
  datatype Sinks = Sinks(agg: bool, anomaly: bool, anomalyStore: bool)

  /** A rule definition. An absent list is the empty one. */
  datatype Rule = Rule(id: string, name: string, status: string, severity: string, penaltyTtl: int, topic: string,
                       filters: Option<Json>, keys: seq<string>, entity: string, anomalyField: string,
                       windowing: Windowing, aggs: seq<Agg>, having: string, sinks: Option<Sinks>)

  const NO_WINDOWING := Windowing("", "", "", "", false, 0, 0, 0, 0)
  const NO_SINKS := Sinks(false, false, false)

  function NormalAgg(a: Agg): Agg { a.(hint := if a.hint == "HIGH" then "HIGH" else "LOW") }

  function NormalAggs(aggs: seq<Agg>): (r: seq<Agg>)
    ensures |r| == |aggs| && forall i :: 0 <= i < |aggs| ==> r[i] == NormalAgg(aggs[i])
  {
    seq(|aggs|, i requires 0 <= i < |aggs| => NormalAgg(aggs[i]))
  }

  /** What the tables keep of a definition: a two-valued hint, sinks always present, and windowing only where its
      table was there to take it. */
  function Normal(r: Rule, windowsKept: bool): Rule {
    r.(aggs := NormalAggs(r.aggs),
       sinks := Some(if r.sinks.Some? then r.sinks.value else NO_SINKS),
       windowing := if windowsKept then r.windowing else NO_WINDOWING)
  }

  /** Everything else of a definition is kept as it is, an aggregation's alias, field and function included; its hint becomes
      HIGH or LOW. */
  lemma NormalKeeps(r: Rule, kept: bool)
    ensures var n := Normal(r, kept);
            && n.id == r.id && n.name == r.name && n.status == r.status && n.severity == r.severity && n.penaltyTtl == r.penaltyTtl
            && n.topic == r.topic && n.filters == r.filters && n.keys == r.keys && n.entity == r.entity
            && n.anomalyField == r.anomalyField && n.having == r.having
            && (kept ==> n.windowing == r.windowing) && (!kept ==> n.windowing == Windowing("", "", "", "", false, 0, 0, 0, 0))
            && n.sinks == Some(match r.sinks case Some(sinks) => sinks case None => Sinks(false, false, false))
            && |n.aggs| == |r.aggs|
            && forall i :: 0 <= i < |r.aggs| ==>
                 n.aggs[i] == Agg(r.aggs[i].alias, r.aggs[i].field, r.aggs[i].fn, if r.aggs[i].hint == "HIGH" then "HIGH" else "LOW")
  {
  }

  /** A second save and load changes nothing more. */
  lemma NormalIsFixed(r: Rule, kept: bool)
    ensures Normal(Normal(r, kept), kept) == Normal(r, kept)
  {
    assert NormalAggs(NormalAggs(r.aggs)) == NormalAggs(r.aggs);
  }

  // ------------------------------------------------------------- tables

  datatype RuleRow = RuleRow(row: nat, ruleId: string, version: nat, active: bool, name: string, status: string, severity: string,
                             topic: string, entity: string, anomalyField: string, keys: seq<string>, filters: Option<Json>)
  datatype WindowRow = WindowRow(row: nat, windowing: Windowing)
  datatype SinkRow = SinkRow(row: nat, sinks: Sinks, penaltyTtl: int)
  datatype AggRow = AggRow(row: nat, alias: string, fn: string, field: string, high: bool, order: nat)
  datatype BreachRow = BreachRow(row: nat, expression: string)

  /** `windows` is None while window_configs is not provisioned. */
  datatype Tables = Tables(rules: seq<RuleRow>, windows: Option<seq<WindowRow>>, sinks: seq<SinkRow>, aggs: seq<AggRow>,
                           breaches: seq<BreachRow>)

  function RowOf(rule: Rule, version: nat, row: nat): RuleRow {
    RuleRow(row, rule.id, version, true, rule.name, rule.status, rule.severity, rule.topic, rule.entity, rule.anomalyField,
            rule.keys, rule.filters)
  }

  function AggRowOf(a: Agg, row: nat, i: nat): AggRow { AggRow(row, a.alias, a.fn, a.field, a.hint == "HIGH", i + 1) }

  function AggRows(aggs: seq<Agg>, row: nat): (r: seq<AggRow>)
    ensures |r| == |aggs| && forall i :: 0 <= i < |aggs| ==> r[i] == AggRowOf(aggs[i], row, i)
  {
    seq(|aggs|, i requires 0 <= i < |aggs| => AggRowOf(aggs[i], row, i))
  }

  predicate Hits(r: RuleRow, ruleId: string) { r.ruleId == ruleId && r.active }

  /** UPDATE rules ... WHERE rule_id = ? AND is_active = TRUE. */
  function Updated(rules: seq<RuleRow>, ruleId: string, status: Option<string>, deactivate: bool): (r: seq<RuleRow>)
    ensures |r| == |rules|
    ensures forall i :: 0 <= i < |rules| ==> !Hits(rules[i], ruleId) ==> r[i] == rules[i]
    ensures forall i :: 0 <= i < |rules| ==> Hits(rules[i], ruleId) ==>
      r[i] == rules[i].(status := if status.Some? then status.value else rules[i].status, active := !deactivate)
  {
    seq(|rules|, i requires 0 <= i < |rules| =>
      if Hits(rules[i], ruleId) then
        rules[i].(status := if status.Some? then status.value else rules[i].status, active := !deactivate)
      else rules[i])
  }

  /** Only the active rows of the rule have changed: they have the new status, if one is given, and are active or not as
      said. */
  predicate Marked(before: seq<RuleRow>, after: seq<RuleRow>, ruleId: string, status: Option<string>, active: bool) {
    && |after| == |before|
    && forall i :: 0 <= i < |before| ==>
         after[i] == if before[i].ruleId == ruleId && before[i].active
                     then before[i].(status := if status.Some? then status.value else before[i].status, active := active)
                     else before[i]
  }

  lemma UpdatedIsMarked(rules: seq<RuleRow>, ruleId: string, status: Option<string>, deactivate: bool)
    ensures Marked(rules, Updated(rules, ruleId, status, deactivate), ruleId, status, !deactivate)
  {
  }

  /** The tables after a committed save under the row id the engine gave out. */
  function Saved(t: Tables, rule: Rule, version: nat, row: nat): Tables {
    Tables(
      Updated(t.rules, rule.id, None, true) + [RowOf(rule, version, row)],
      if t.windows.Some? then Some(t.windows.value + [WindowRow(row, rule.windowing)]) else None,
      t.sinks + [SinkRow(row, if rule.sinks.Some? then rule.sinks.value else NO_SINKS, rule.penaltyTtl)],
      t.aggs + AggRows(rule.aggs, row),
      if rule.having == "" then t.breaches else t.breaches + [BreachRow(row, rule.having)])
  }

  /** The unique key on (rule_id, version). */
  predicate Taken(rules: seq<RuleRow>, ruleId: string, version: nat) {
    exists i :: 0 <= i < |rules| && rules[i].ruleId == ruleId && rules[i].version == version
  }

  predicate RowFree(t: Tables, row: nat) { forall i :: 0 <= i < |t.rules| ==> t.rules[i].row < row }

  // ------------------------------------------------------------- version history

  /** The versions of one rule, in the order they were saved. */
  function Versions(rules: seq<RuleRow>, ruleId: string): seq<nat> {
    if rules == [] then []
    else
      var n := |rules| - 1;
      Versions(rules[..n], ruleId) + (if rules[n].ruleId == ruleId then [rules[n].version] else [])
  }

  function Latest(rules: seq<RuleRow>, ruleId: string): nat { |Versions(rules, ruleId)| }

  predicate Counting(vs: seq<nat>) { forall k :: 0 <= k < |vs| ==> vs[k] == k + 1 }

  /** Each rule's versions are exactly 1..n in saving order, and only row n can be active. */
  ghost predicate HistoryOk(rules: seq<RuleRow>) {
    && (forall id: string :: Counting(Versions(rules, id)))
    && forall i :: 0 <= i < |rules| && rules[i].active ==> rules[i].version == Latest(rules, rules[i].ruleId)
  }

  lemma {:induction false} VersionsUpdated(rules: seq<RuleRow>, ruleId: string, status: Option<string>, deactivate: bool, id: string)
    ensures Versions(Updated(rules, ruleId, status, deactivate), id) == Versions(rules, id)
  {
    if rules != [] {
      var n := |rules| - 1;
      VersionsUpdated(rules[..n], ruleId, status, deactivate, id);
      assert Updated(rules, ruleId, status, deactivate)[..n] == Updated(rules[..n], ruleId, status, deactivate);
    }
  }

  lemma VersionsGrow(rules: seq<RuleRow>, r: RuleRow, id: string)
    ensures Versions(rules + [r], id) == Versions(rules, id) + (if r.ruleId == id then [r.version] else [])
  {
    assert (rules + [r])[..|rules|] == rules;
  }

  /** A version is taken exactly when it is one of 1..n. */
  lemma {:induction false} TakenIsListed(rules: seq<RuleRow>, id: string, v: nat)
    ensures Taken(rules, id, v) <==> v in Versions(rules, id)
  {
    if rules != [] {
      var n := |rules| - 1;
      TakenIsListed(rules[..n], id, v);
      if Taken(rules[..n], id, v) {
        var i :| 0 <= i < n && rules[..n][i].ruleId == id && rules[..n][i].version == v;
        assert rules[i].version == v;
      }
    }
  }

  lemma TakenIsRange(rules: seq<RuleRow>, id: string, v: nat)
    requires HistoryOk(rules)
    ensures Taken(rules, id, v) <==> 1 <= v <= Latest(rules, id)
  {
    TakenIsListed(rules, id, v);
    var vs := Versions(rules, id);
    assert Counting(vs);
    if 1 <= v <= |vs| { assert vs[v - 1] == v; }
  }

  /** At most one row of a rule is active. */
  lemma {:induction false} OneActive(rules: seq<RuleRow>, i: nat, j: nat)
    requires HistoryOk(rules) && i < j < |rules| && rules[i].ruleId == rules[j].ruleId && rules[i].active
    ensures !rules[j].active
  {
    if rules[j].active {
      var id := rules[i].ruleId;
      VersionAt(rules, i);
      VersionAt(rules, j);
      PrefixShorter(rules, i, j, id);
    }
  }

  /** A row's version is the number of rows of its rule up to it. */
  lemma {:induction false} VersionAt(rules: seq<RuleRow>, i: nat)
    requires HistoryOk(rules) && i < |rules|
    ensures rules[i].version == Latest(rules[..i], rules[i].ruleId) + 1
  {
    var id := rules[i].ruleId;
    assert Counting(Versions(rules, id));
    PrefixVersions(rules, i + 1, id);
    assert rules[..i + 1][..i] == rules[..i];
    assert Versions(rules[..i + 1], id) == Versions(rules[..i], id) + [rules[i].version];
    assert Versions(rules, id)[Latest(rules[..i], id)] == rules[i].version;
  }

  lemma {:induction false} PrefixVersions(rules: seq<RuleRow>, i: nat, id: string)
    requires i <= |rules|
    ensures Versions(rules[..i], id) <= Versions(rules, id)
  {
    if i == |rules| {
      assert rules[..i] == rules;
    } else {
      var n := |rules| - 1;
      PrefixVersions(rules[..n], i, id);
      assert rules[..n][..i] == rules[..i];
    }
  }

  lemma PrefixShorter(rules: seq<RuleRow>, i: nat, j: nat, id: string)
    requires i < j < |rules| && rules[i].ruleId == id
    ensures Latest(rules[..i], id) < Latest(rules[..j], id)
  {
    PrefixVersions(rules[..j], i + 1, id);
    assert rules[..j][..i + 1] == rules[..i + 1] && rules[..i + 1][..i] == rules[..i];
  }

  /** A save that the unique key lets through, of a version no later than the next, is the next version. */
  lemma SaveKeepsHistory(t: Tables, rule: Rule, version: nat, row: nat)
    requires HistoryOk(t.rules) && 1 <= version <= Latest(t.rules, rule.id) + 1 && !Taken(t.rules, rule.id, version)
    ensures version == Latest(t.rules, rule.id) + 1
    ensures HistoryOk(Saved(t, rule, version, row).rules)
    ensures forall id :: Latest(Saved(t, rule, version, row).rules, id) == Latest(t.rules, id) + (if id == rule.id then 1 else 0)
  {
    hide Versions;
    TakenIsRange(t.rules, rule.id, version);
    var u := Updated(t.rules, rule.id, None, true);
    var s := u + [RowOf(rule, version, row)];
    forall id: string ensures Versions(s, id) == Versions(t.rules, id) + (if rule.id == id then [version] else []) {
      VersionsGrow(u, RowOf(rule, version, row), id);
      VersionsUpdated(t.rules, rule.id, None, true, id);
    }
    forall i | 0 <= i < |s| && s[i].active ensures s[i].version == Latest(s, s[i].ruleId) {
      if i < |u| { assert s[i] == t.rules[i]; }
    }
    forall id: string ensures Counting(Versions(s, id)) { assert Counting(Versions(t.rules, id)); }
  }

  lemma UpdateKeepsHistory(rules: seq<RuleRow>, ruleId: string, status: Option<string>, deactivate: bool)
    requires HistoryOk(rules)
    ensures HistoryOk(Updated(rules, ruleId, status, deactivate))
    ensures forall id :: Latest(Updated(rules, ruleId, status, deactivate), id) == Latest(rules, id)
  {
    hide Versions;
    var u := Updated(rules, ruleId, status, deactivate);
    forall id: string ensures Versions(u, id) == Versions(rules, id) { VersionsUpdated(rules, ruleId, status, deactivate, id); }
    forall i | 0 <= i < |u| && u[i].active ensures u[i].version == Latest(u, u[i].ruleId) {
      assert u[i].version == rules[i].version && u[i].ruleId == rules[i].ruleId && rules[i].active;
    }
  }
}
