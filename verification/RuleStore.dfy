/** Saving and loading rules over the five tables (internal/services/rule_store.go). What MySQL answers to each statement
    is given; a save of which one statement fails is rolled back. */
module RuleStore {
  import opened Prelude
  import opened RuleTables

  datatype Record = Record(id: string, name: string, status: string, payload: Rule, published: bool, version: nat)

  class Database {
    var tables: Tables
    /** AUTO_INCREMENT of `rules`: a rolled-back insert still uses up its id. */
    var nextRow: nat

    predicate Valid()
      reads this
    {
      RowFree(tables, nextRow)
    }

    constructor (tables: Tables, nextRow: nat)
      requires RowFree(tables, nextRow)
      ensures Valid() && this.tables == tables
    {
      this.tables, this.nextRow := tables, nextRow;
    }

    /** One transaction. It commits exactly when every statement it needs is accepted and the version is free; then the
        rule's active rows are inactive, the new version's row stands behind all others, and the side rows are there.
        Otherwise nothing changes. */
    method SaveNewRuleVersion(rule: Rule, version: nat, mysql: Statement -> bool) returns (ok: bool, row: nat)
      requires Valid()
      modifies this
      ensures Valid()
      ensures ok <==> Accepts(mysql, old(tables), rule) && !Taken(old(tables.rules), rule.id, version)
      ensures !ok ==> tables == old(tables)
      ensures ok ==> RowFree(old(tables), row) && old(nextRow) <= row < nextRow
      ensures ok ==> tables == Saved(old(tables), rule, version, row) && NewVersion(old(tables), tables, rule, version, row)
      ensures old(nextRow) <= nextRow
    {
      hide NewVersion;
      ok, row := false, nextRow;
      if !mysql(BeginSave) { return; }
      if !mysql(Deactivate) { return; }
      var tx := tables.(rules := Updated(tables.rules, rule.id, None, true));
      if !mysql(InsertRule) { return; }
      nextRow := nextRow + 1;
      TakenUpdated(tables.rules, rule.id, None, true, version);
      if Taken(tx.rules, rule.id, version) { return; }
      tx := tx.(rules := tx.rules + [RowOf(rule, version, row)]);
      if tx.windows.Some? {
        if !mysql(InsertWindow) { return; }
        tx := tx.(windows := Some(tx.windows.value + [WindowRow(row, rule.windowing)]));
      }
      if !mysql(InsertSinks) { return; }
      tx := tx.(sinks := tx.sinks + [SinkRow(row, if rule.sinks.Some? then rule.sinks.value else NO_SINKS, rule.penaltyTtl)]);
      ghost var mid := tx;
      for i := 0 to |rule.aggs|
        invariant tx == mid.(aggs := mid.aggs + AggRows(rule.aggs, row)[..i])
        invariant tables == old(tables) && Valid() && forall k: nat :: k < i ==> mysql(InsertAgg(k))
      {
        if !mysql(InsertAgg(i)) { return; }
        tx := tx.(aggs := tx.aggs + [AggRowOf(rule.aggs[i], row, i)]);
      }
      assert AggRows(rule.aggs, row)[..|rule.aggs|] == AggRows(rule.aggs, row);
      if rule.having != "" {
        if !mysql(InsertBreach) { return; }
        tx := tx.(breaches := tx.breaches + [BreachRow(row, rule.having)]);
      }
      if !mysql(CommitSave) { return; }
      ok := true;
      tables := tx;
      SavedIsNewVersion(old(tables), rule, version, row);
    }

    /** One statement: accepted, it changes the rule's active rows and no other. */
    method UpdateRuleStatusInPlace(ruleId: string, status: string, deactivate: bool, mysql: bool) returns (ok: bool)
      requires Valid()
      modifies this`tables
      ensures Valid() && ok == mysql
      ensures !ok ==> tables == old(tables)
      ensures ok ==> tables == old(tables).(rules := Updated(old(tables.rules), ruleId, Some(status), deactivate))
      ensures ok ==> Marked(old(tables.rules), tables.rules, ruleId, Some(status), !deactivate)
    {
      ok := false;
      if !mysql { return; }
      UpdatedIsMarked(tables.rules, ruleId, Some(status), deactivate);
      tables := tables.(rules := Updated(tables.rules, ruleId, Some(status), deactivate));
      ok := true;
    }
  }

  /** The statements of a save; inserting one aggregation is a statement of its own. */
  datatype Statement = BeginSave | Deactivate | InsertRule | InsertWindow | InsertSinks | InsertAgg(i: nat) | InsertBreach | CommitSave

  /** MySQL accepts every statement this save issues. */
  ghost predicate Accepts(mysql: Statement -> bool, t: Tables, rule: Rule) {
    && mysql(BeginSave) && mysql(Deactivate) && mysql(InsertRule) && (t.windows.Some? ==> mysql(InsertWindow)) && mysql(InsertSinks)
    && (forall i: nat :: i < |rule.aggs| ==> mysql(InsertAgg(i)))
    && (rule.having != "" ==> mysql(InsertBreach)) && mysql(CommitSave)
  }

  /** The rules table has gained one active row, the definition's, and the rule has no other active one; the side tables
      have gained that row's. */
  predicate NewVersion(before: Tables, after: Tables, rule: Rule, version: nat, row: nat) {
    var n := |before.rules|;
    && |after.rules| == n + 1 && Marked(before.rules, after.rules[..n], rule.id, None, false)
    && after.rules[n] == RuleRow(row, rule.id, version, true, rule.name, rule.status, rule.severity, rule.topic, rule.entity,
                                 rule.anomalyField, rule.keys, rule.filters)
    && after.windows == (if before.windows.Some? then Some(before.windows.value + [WindowRow(row, rule.windowing)]) else None)
    && after.sinks == before.sinks + [SinkRow(row, match rule.sinks case Some(sinks) => sinks case None => Sinks(false, false, false), rule.penaltyTtl)]
    && |after.aggs| == |before.aggs| + |rule.aggs| && before.aggs <= after.aggs
    && (forall i :: 0 <= i < |rule.aggs| ==>
          after.aggs[|before.aggs| + i] == AggRow(row, rule.aggs[i].alias, rule.aggs[i].fn, rule.aggs[i].field, rule.aggs[i].hint == "HIGH", i + 1))
    && after.breaches == (if rule.having == "" then before.breaches else before.breaches + [BreachRow(row, rule.having)])
  }

  lemma SavedIsNewVersion(t: Tables, rule: Rule, version: nat, row: nat)
    ensures NewVersion(t, Saved(t, rule, version, row), rule, version, row)
  {
    hide Updated;
    UpdatedIsMarked(t.rules, rule.id, None, true);
    var u := Updated(t.rules, rule.id, None, true);
    assert (u + [RowOf(rule, version, row)])[..|t.rules|] == u;
    assert forall i :: 0 <= i < |rule.aggs| ==> (t.aggs + AggRows(rule.aggs, row))[|t.aggs| + i] == AggRows(rule.aggs, row)[i];
  }

  lemma TakenUpdated(rules: seq<RuleRow>, ruleId: string, status: Option<string>, deactivate: bool, version: nat)
    ensures Taken(Updated(rules, ruleId, status, deactivate), ruleId, version) <==> Taken(rules, ruleId, version)
  {
    var u := Updated(rules, ruleId, status, deactivate);
    assert forall i :: 0 <= i < |rules| ==> u[i].ruleId == rules[i].ruleId && u[i].version == rules[i].version;
    if Taken(rules, ruleId, version) {
      var i :| 0 <= i < |rules| && rules[i].ruleId == ruleId && rules[i].version == version;
      assert u[i].ruleId == ruleId && u[i].version == version;
    }
  }

  // ------------------------------------------------------------- what the tables hold

  /** A definition as saved, and whether its windowing found a table. */
  datatype Saving = Saving(rule: Rule, windowsKept: bool)

  predicate SameDefinition(r: RuleRow, rule: Rule) {
    r == RowOf(rule, r.version, r.row).(active := r.active, status := r.status)
  }

  predicate HoldsWindow(windows: Option<seq<WindowRow>>, row: nat, s: Saving) {
    if s.windowsKept then
      && windows.Some? && WindowRow(row, s.rule.windowing) in windows.value
      && forall w :: w in windows.value && w.row == row ==> w.windowing == s.rule.windowing
    else windows.Some? ==> forall w :: w in windows.value ==> w.row != row
  }

  predicate HoldsSinks(sinks: seq<SinkRow>, row: nat, rule: Rule) {
    var kept := SinkRow(row, if rule.sinks.Some? then rule.sinks.value else NO_SINKS, rule.penaltyTtl);
    kept in sinks && forall s :: s in sinks && s.row == row ==> s == kept
  }

  predicate HoldsAggs(aggs: seq<AggRow>, row: nat, rule: Rule) {
    && (forall a :: a in aggs && a.row == row ==> a in AggRows(rule.aggs, row))
    && forall a :: a in AggRows(rule.aggs, row) ==> a in aggs
  }

  predicate HoldsBreach(breaches: seq<BreachRow>, row: nat, rule: Rule) {
    && (rule.having != "" ==> BreachRow(row, rule.having) in breaches)
    && forall b :: b in breaches && b.row == row ==> b.expression == rule.having
  }

  /** The rows of one version say its definition. */
  predicate Stores(t: Tables, r: RuleRow, s: Saving) {
    && SameDefinition(r, s.rule)
    && HoldsWindow(t.windows, r.row, s)
    && HoldsSinks(t.sinks, r.row, s.rule)
    && HoldsAggs(t.aggs, r.row, s.rule)
    && HoldsBreach(t.breaches, r.row, s.rule)
  }

  /** No side row belongs to a row id from here on. */
  predicate SideBelow(t: Tables, row: nat) {
    && (t.windows.Some? ==> forall w :: w in t.windows.value ==> w.row < row)
    && (forall s :: s in t.sinks ==> s.row < row)
    && (forall a :: a in t.aggs ==> a.row < row)
    && forall b :: b in t.breaches ==> b.row < row
  }

  /** The tables with what was saved under each row id, the row id of each rule's last save, and the next row id. */
  datatype History = History(tables: Tables, savings: map<nat, Saving>, last: map<string, nat>, next: nat)

  ghost predicate Faithful(h: History) {
    && HistoryOk(h.tables.rules) && SideBelow(h.tables, h.next)
    && (forall i :: 0 <= i < |h.tables.rules| ==>
          h.tables.rules[i].row < h.next && h.tables.rules[i].row in h.savings &&
          Stores(h.tables, h.tables.rules[i], h.savings[h.tables.rules[i].row]))
    && (forall i, j :: 0 <= i < j < |h.tables.rules| ==> h.tables.rules[i].row < h.tables.rules[j].row)
    && forall i :: 0 <= i < |h.tables.rules| && h.tables.rules[i].active ==>
         h.tables.rules[i].ruleId in h.last && h.last[h.tables.rules[i].ruleId] == h.tables.rules[i].row
  }

  /** A committed save of the next version, a status update, or window_configs being provisioned. */
  datatype Event = Save(rule: Rule, version: nat, row: nat) | Status(ruleId: string, status: string, deactivate: bool) | Provision

  ghost predicate Possible(h: History, e: Event) {
    e.Save? ==>
      !Taken(h.tables.rules, e.rule.id, e.version) && 1 <= e.version <= Latest(h.tables.rules, e.rule.id) + 1 && h.next <= e.row
  }

  function After(h: History, e: Event): History {
    match e
    case Save(rule, version, row) =>
      History(Saved(h.tables, rule, version, row), h.savings[row := Saving(rule, h.tables.windows.Some?)], h.last[rule.id := row], row + 1)
    case Status(id, status, deactivate) =>
      h.(tables := h.tables.(rules := Updated(h.tables.rules, id, Some(status), deactivate)))
    case Provision =>
      if h.tables.windows.Some? then h else h.(tables := h.tables.(windows := Some([])))
  }

  lemma SavedStoresOld(t: Tables, rule: Rule, version: nat, row: nat, r: RuleRow, s: Saving)
    requires Stores(t, r, s) && r.row < row
    ensures Stores(Saved(t, rule, version, row), r, s)
  {
  }

  lemma SavedStoresNew(t: Tables, rule: Rule, version: nat, row: nat)
    requires SideBelow(t, row)
    ensures Stores(Saved(t, rule, version, row), RowOf(rule, version, row), Saving(rule, t.windows.Some?))
    ensures SideBelow(Saved(t, rule, version, row), row + 1)
  {
  }

  lemma SideBelowMore(t: Tables, a: nat, b: nat)
    requires SideBelow(t, a) && a <= b
    ensures SideBelow(t, b)
  {
  }

  lemma KeepsFaithful(h: History, e: Event)
    requires Faithful(h) && Possible(h, e)
    ensures Faithful(After(h, e))
  {
    match e
    case Save(rule, version, row) => SaveKeepsFaithful(h, rule, version, row);
    case Status(id, status, deactivate) => StatusKeepsFaithful(h, id, status, deactivate);
    case Provision => if h.tables.windows.None? { ProvisionKeepsFaithful(h); }
  }

  lemma StatusKeepsFaithful(h: History, id: string, status: string, deactivate: bool)
    requires Faithful(h)
    ensures Faithful(After(h, Status(id, status, deactivate)))
  {
    hide HistoryOk, SideBelow, Stores;
    var u := Updated(h.tables.rules, id, Some(status), deactivate);
    UpdateKeepsHistory(h.tables.rules, id, Some(status), deactivate);
    SideBelowStatus(h.tables, u, h.next);
    forall i | 0 <= i < |u| ensures Stores(h.tables.(rules := u), u[i], h.savings[u[i].row]) {
      StoresStatus(h.tables, h.tables.rules[i], u, u[i], h.savings[u[i].row]);
    }
  }

  lemma StoresStatus(t: Tables, r: RuleRow, rules: seq<RuleRow>, r': RuleRow, s: Saving)
    requires Stores(t, r, s) && r' == r.(status := r'.status, active := r'.active)
    ensures Stores(t.(rules := rules), r', s)
  {
  }

  lemma ProvisionKeepsFaithful(h: History)
    requires Faithful(h) && h.tables.windows.None?
    ensures Faithful(After(h, Provision))
  {
    hide HistoryOk, HoldsSinks, HoldsAggs, HoldsBreach;
    var t := h.tables.(windows := Some([]));
    forall i | 0 <= i < |t.rules| ensures Stores(t, t.rules[i], h.savings[t.rules[i].row]) {
      assert Stores(h.tables, t.rules[i], h.savings[t.rules[i].row]);
    }
  }

  lemma SideBelowStatus(t: Tables, rules: seq<RuleRow>, row: nat)
    requires SideBelow(t, row)
    ensures SideBelow(t.(rules := rules), row)
  {
  }

  lemma SaveKeepsFaithful(h: History, rule: Rule, version: nat, row: nat)
    requires Faithful(h) && Possible(h, Save(rule, version, row))
    ensures Faithful(After(h, Save(rule, version, row)))
  {
    hide HistoryOk, Stores, SideBelow, Taken, Versions;
    var h' := After(h, Save(rule, version, row));
    var t := h.tables;
    SaveKeepsHistory(t, rule, version, row);
    SideBelowMore(t, h.next, row);
    SavedStoresNew(t, rule, version, row);
    forall i | 0 <= i < |h'.tables.rules|
      ensures h'.tables.rules[i].row < h'.next && h'.tables.rules[i].row in h'.savings &&
              Stores(h'.tables, h'.tables.rules[i], h'.savings[h'.tables.rules[i].row])
    {
      if i < |t.rules| {
        SavedStoresOld(t, rule, version, row, t.rules[i], h.savings[t.rules[i].row]);
        StoresActive(h'.tables, t.rules[i], h'.tables.rules[i], h.savings[t.rules[i].row]);
      }
    }
  }

  lemma StoresActive(t: Tables, r: RuleRow, r': RuleRow, s: Saving)
    requires Stores(t, r, s) && r' == r.(active := r'.active)
    ensures Stores(t, r', s)
  {
  }

  ghost predicate PossibleAll(h: History, es: seq<Event>)
    decreases |es|
  {
    es == [] || (Possible(h, es[0]) && PossibleAll(After(h, es[0]), es[1..]))
  }

  function AfterAll(h: History, es: seq<Event>): History
    decreases |es|
  {
    if es == [] then h else AfterAll(After(h, es[0]), es[1..])
  }

  function Empty(provisioned: bool): History {
    History(Tables([], if provisioned then Some([]) else None, [], [], []), map[], map[], 0)
  }

  /** After any sequence of saves, status updates and a late provisioning of window_configs, every rule's versions
      are 1..n, only row n can be active, and an active row with its side rows says the rule's last save. */
  lemma {:induction false} FaithfulRuns(h: History, es: seq<Event>)
    requires Faithful(h) && PossibleAll(h, es)
    ensures Faithful(AfterAll(h, es))
    decreases |es|
  {
    hide Faithful, Possible, After;
    if es != [] {
      KeepsFaithful(h, es[0]);
      FaithfulRuns(After(h, es[0]), es[1..]);
    }
  }

  lemma EmptyIsFaithful(provisioned: bool)
    ensures Faithful(Empty(provisioned))
  {
  }

  // ------------------------------------------------------------- loading

  /** What the five queries answer. Only the aggregation query has an order. */
  datatype Answers = Answers(rules: seq<RuleRow>, windows: Option<seq<WindowRow>>, sinks: seq<SinkRow>, aggs: seq<AggRow>,
                             breaches: seq<BreachRow>)

  function RowIds(rules: seq<RuleRow>): set<nat> { set r | r in rules :: r.row }

  predicate Before(a: AggRow, b: AggRow) { a.row < b.row || (a.row == b.row && a.order < b.order) }

  ghost predicate Legitimate(t: Tables, q: Answers) {
    && (forall r :: r in q.rules <==> r in t.rules && r.active)
    && q.windows.Some? == t.windows.Some?
    && (t.windows.Some? ==> forall w :: w in q.windows.value <==> w in t.windows.value && w.row in RowIds(q.rules))
    && (forall s :: s in q.sinks <==> s in t.sinks && s.row in RowIds(q.rules))
    && (forall a :: a in q.aggs <==> a in t.aggs && a.row in RowIds(q.rules))
    && (forall i, j :: 0 <= i < j < |q.aggs| ==> Before(q.aggs[i], q.aggs[j]))
    && forall b :: b in q.breaches <==> b in t.breaches && b.row in RowIds(q.rules)
  }

  function AggOf(a: AggRow): Agg { Agg(a.alias, a.field, a.fn, if a.high then "HIGH" else "LOW") }

  /** The aggregations the load collects for a row, in the order of the answer. */
  function AggsFor(aggs: seq<AggRow>, row: nat): seq<Agg> {
    if aggs == [] then []
    else
      var n := |aggs| - 1;
      AggsFor(aggs[..n], row) + (if aggs[n].row == row then [AggOf(aggs[n])] else [])
  }

  /** spec_order brings the aggregations back in their saved order. */
  lemma {:induction false} AggsInOrder(rows: seq<AggRow>, row: nat, aggs: seq<Agg>)
    requires forall i, j :: 0 <= i < j < |rows| ==> Before(rows[i], rows[j])
    requires forall a :: a in rows && a.row == row <==> a in AggRows(aggs, row)
    ensures AggsFor(rows, row) == NormalAggs(aggs)
    decreases |rows|
  {
    if rows == [] {
      if aggs != [] { SomeAggRow(aggs, row); }
    } else {
      var n := |rows| - 1;
      var init, last := rows[..n], rows[n];
      assert rows == init + [last];
      assert last !in init;
      if last.row != row {
        AggsInOrder(init, row, aggs);
      } else {
        var m := |aggs| - 1;
        var all := AggRows(aggs, row);
        assert last in all;
        LastAgg(rows, row, aggs);
        assert AggRows(aggs[..m], row) == all[..m] && all == all[..m] + [last];
        assert last !in all[..m];
        forall a ensures a in init && a.row == row <==> a in AggRows(aggs[..m], row) {
          assert a in rows <==> a in init || a == last;
        }
        AggsInOrder(init, row, aggs[..m]);
        assert NormalAggs(aggs) == NormalAggs(aggs[..m]) + [AggOf(last)];
      }
    }
  }

  lemma SomeAggRow(aggs: seq<Agg>, row: nat)
    requires aggs != []
    ensures exists a :: a in AggRows(aggs, row) && a.row == row
  {
    assert AggRows(aggs, row)[0] in AggRows(aggs, row);
  }

  lemma LastAgg(rows: seq<AggRow>, row: nat, aggs: seq<Agg>)
    requires rows != [] && rows[|rows| - 1].row == row
    requires forall i, j :: 0 <= i < j < |rows| ==> Before(rows[i], rows[j])
    requires forall a :: a in rows && a.row == row <==> a in AggRows(aggs, row)
    ensures aggs != [] && rows[|rows| - 1] == AggRows(aggs, row)[|aggs| - 1]
  {
    var all, last := AggRows(aggs, row), rows[|rows| - 1];
    assert last in all;
    var k :| 0 <= k < |all| && all[k] == last;
    var top := all[|aggs| - 1];
    assert top in rows;
    var j :| 0 <= j < |rows| && rows[j] == top;
  }

  /** What a load makes of the row of a saved definition. */
  function Loaded(r: RuleRow, s: Saving): Record {
    Record(r.ruleId, r.name, r.status, Normal(s.rule, s.windowsKept).(status := r.status), r.status in ["ACTIVE", "PAUSED"], r.version)
  }

  /** The queries of a load. */
  datatype Query = ActiveRules | WindowConfigs | SinkConfigs | AggregationSpecs | BreachConditions

  /** MySQL answers every query this load issues: with no active rule the first is the only one, and a missing
      window_configs is no failure. */
  predicate Answered(mysql: Query -> bool, q: Answers) {
    && mysql(ActiveRules)
    && (q.rules == [] || ((q.windows.Some? ==> mysql(WindowConfigs)) && mysql(SinkConfigs) && mysql(AggregationSpecs) && mysql(BreachConditions)))
  }

  /** LoadActiveRules. It succeeds exactly when its queries are answered; then every rule with an active row comes back as
      its last saved definition, normalised, under its current status, and no other rule does. */
  method LoadActiveRules(q: Answers, mysql: Query -> bool, ghost h: History) returns (result: Option<map<string, Record>>)
    requires Faithful(h) && Legitimate(h.tables, q)
    ensures result.Some? <==> Answered(mysql, q)
    ensures result.Some? ==> forall id :: id in result.value <==> exists r :: r in h.tables.rules && r.active && r.ruleId == id
    ensures result.Some? ==> forall r :: r in h.tables.rules && r.active ==>
      r.ruleId in result.value && r.ruleId in h.last && h.last[r.ruleId] in h.savings &&
      result.value[r.ruleId] == Loaded(r, h.savings[h.last[r.ruleId]])
  {
    hide HistoryOk, SideBelow, Stores, Assembled, Loaded, AggsFor, AggsAt;
    var none: Option<map<string, Record>> := None;
    if !mysql(ActiveRules) { return none; }
    if q.rules == [] { return Some(map[]); }
    if q.windows.Some? && !mysql(WindowConfigs) { return none; }
    var windows := ScanWindows(q.windows);
    if !mysql(SinkConfigs) { return none; }
    var sinks := ScanSinks(q.sinks);
    if !mysql(AggregationSpecs) { return none; }
    var aggs := ScanAggs(q.aggs);
    if !mysql(BreachConditions) { return none; }
    var breaches := ScanBreaches(q.breaches);
    forall a, b | a in q.rules && b in q.rules && a.ruleId == b.ruleId ensures a == b { OneRow(h, a, b); }
    var loaded := AssembleAll(q.rules, windows, sinks, aggs, breaches);
    forall r | r in h.tables.rules && r.active
      ensures r.ruleId in h.last && h.last[r.ruleId] in h.savings
      ensures Assembled(r, windows, sinks, aggs, breaches) == Loaded(r, h.savings[h.last[r.ruleId]])
    {
      AssembledIsLoaded(h, q, r, windows, sinks, aggs, breaches);
    }
    result := Some(loaded);
  }

  method AssembleAll(rules: seq<RuleRow>, windows: map<nat, Windowing>, sinks: map<nat, (Sinks, int)>, aggs: map<nat, seq<Agg>>,
                     breaches: map<nat, string>) returns (loaded: map<string, Record>)
    requires forall a, b :: a in rules && b in rules && a.ruleId == b.ruleId ==> a == b
    ensures forall id :: id in loaded ==> exists r :: r in rules && r.ruleId == id
    ensures forall r :: r in rules ==> r.ruleId in loaded && loaded[r.ruleId] == Assembled(r, windows, sinks, aggs, breaches)
  {
    hide Assembled;
    loaded := map[];
    for i := 0 to |rules|
      invariant forall id :: id in loaded ==> exists r :: r in rules && r.ruleId == id
      invariant forall j :: 0 <= j < i ==> rules[j].ruleId in loaded
      invariant forall j :: 0 <= j < i ==> loaded[rules[j].ruleId] == Assembled(rules[j], windows, sinks, aggs, breaches)
    {
      var r := rules[i];
      assert forall j :: 0 <= j < i && rules[j].ruleId == r.ruleId ==> rules[j] == r;
      loaded := loaded[r.ruleId := Assembled(r, windows, sinks, aggs, breaches)];
    }
  }

  method ScanWindows(rows: Option<seq<WindowRow>>) returns (m: map<nat, Windowing>)
    ensures rows.None? ==> m == map[]
    ensures rows.Some? ==> Windows(m, rows.value)
  {
    m := map[];
    if rows.Some? {
      for i := 0 to |rows.value|
        invariant forall k :: k in m ==> WindowRow(k, m[k]) in rows.value
        invariant forall j :: 0 <= j < i ==> rows.value[j].row in m
      {
        m := m[rows.value[i].row := rows.value[i].windowing];
      }
    }
  }

  /** The map holds a row of the answer under each row id that has one. */
  ghost predicate Windows(m: map<nat, Windowing>, rows: seq<WindowRow>) {
    (forall k :: k in m ==> WindowRow(k, m[k]) in rows) && forall w :: w in rows ==> w.row in m
  }

  method ScanSinks(rows: seq<SinkRow>) returns (m: map<nat, (Sinks, int)>)
    ensures SinksBy(m, rows)
  {
    m := map[];
    for i := 0 to |rows|
      invariant forall k :: k in m ==> SinkRow(k, m[k].0, m[k].1) in rows
      invariant forall j :: 0 <= j < i ==> rows[j].row in m
    {
      m := m[rows[i].row := (rows[i].sinks, rows[i].penaltyTtl)];
    }
  }

  ghost predicate SinksBy(m: map<nat, (Sinks, int)>, rows: seq<SinkRow>) {
    (forall k :: k in m ==> SinkRow(k, m[k].0, m[k].1) in rows) && forall s :: s in rows ==> s.row in m
  }

  method ScanAggs(rows: seq<AggRow>) returns (m: map<nat, seq<Agg>>)
    ensures forall row :: AggsAt(m, row) == AggsFor(rows, row)
  {
    m := map[];
    for i := 0 to |rows|
      invariant forall row :: AggsAt(m, row) == AggsFor(rows[..i], row)
    {
      assert rows[..i + 1][..i] == rows[..i];
      m := m[rows[i].row := AggsAt(m, rows[i].row) + [AggOf(rows[i])]];
    }
    assert rows[..|rows|] == rows;
  }

  function AggsAt(m: map<nat, seq<Agg>>, row: nat): seq<Agg> { if row in m then m[row] else [] }

  method ScanBreaches(rows: seq<BreachRow>) returns (m: map<nat, string>)
    ensures Breaches(m, rows)
  {
    m := map[];
    for i := 0 to |rows|
      invariant forall k :: k in m ==> BreachRow(k, m[k]) in rows
      invariant forall j :: 0 <= j < i ==> rows[j].row in m
    {
      m := m[rows[i].row := rows[i].expression];
    }
  }

  ghost predicate Breaches(m: map<nat, string>, rows: seq<BreachRow>) {
    (forall k :: k in m ==> BreachRow(k, m[k]) in rows) && forall b :: b in rows ==> b.row in m
  }

  /** The record put together for one row: a missing side row reads as a zero value. */
  function Assembled(r: RuleRow, windows: map<nat, Windowing>, sinks: map<nat, (Sinks, int)>, aggs: map<nat, seq<Agg>>,
                     breaches: map<nat, string>): Record {
    var s := if r.row in sinks then sinks[r.row] else (NO_SINKS, 0);
    var rule := Rule(r.ruleId, r.name, r.status, r.severity, s.1, r.topic, r.filters, r.keys, r.entity, r.anomalyField,
                     if r.row in windows then windows[r.row] else NO_WINDOWING, AggsAt(aggs, r.row),
                     if r.row in breaches then breaches[r.row] else "", Some(s.0));
    Record(r.ruleId, r.name, r.status, rule, r.status == "ACTIVE" || r.status == "PAUSED", r.version)
  }

  lemma OneRow(h: History, a: RuleRow, b: RuleRow)
    requires Faithful(h) && a in h.tables.rules && b in h.tables.rules && a.active && b.active && a.ruleId == b.ruleId
    ensures a == b
  {
    hide HistoryOk, SideBelow, Stores;
    var i :| 0 <= i < |h.tables.rules| && h.tables.rules[i] == a;
    var j :| 0 <= j < |h.tables.rules| && h.tables.rules[j] == b;
    assert a.row == b.row;
  }

  lemma AssembledIsLoaded(h: History, q: Answers, r: RuleRow, windows: map<nat, Windowing>, sinks: map<nat, (Sinks, int)>,
                          aggs: map<nat, seq<Agg>>, breaches: map<nat, string>)
    requires Faithful(h) && Legitimate(h.tables, q) && r in h.tables.rules && r.active
    requires if q.windows.Some? then Windows(windows, q.windows.value) else windows == map[]
    requires SinksBy(sinks, q.sinks) && Breaches(breaches, q.breaches)
    requires forall row :: AggsAt(aggs, row) == AggsFor(q.aggs, row)
    ensures r.ruleId in h.last && h.last[r.ruleId] == r.row && r.row in h.savings
    ensures Assembled(r, windows, sinks, aggs, breaches) == Loaded(r, h.savings[r.row])
  {
    hide HistoryOk, SideBelow, AggsFor, NormalAggs;
    var s := h.savings[r.row];
    assert Stores(h.tables, r, s);
    assert r.row in RowIds(q.rules);
    LoadedAggs(h.tables, q, r, s);
    LoadedSides(h.tables, q, r, s, windows, sinks, breaches);
  }

  lemma LoadedAggs(t: Tables, q: Answers, r: RuleRow, s: Saving)
    requires Legitimate(t, q) && r.row in RowIds(q.rules) && HoldsAggs(t.aggs, r.row, s.rule)
    ensures AggsFor(q.aggs, r.row) == NormalAggs(s.rule.aggs)
  {
    AggsInOrder(q.aggs, r.row, s.rule.aggs);
  }

  lemma LoadedSides(t: Tables, q: Answers, r: RuleRow, s: Saving, windows: map<nat, Windowing>, sinks: map<nat, (Sinks, int)>,
                    breaches: map<nat, string>)
    requires Legitimate(t, q) && r.row in RowIds(q.rules)
    requires HoldsWindow(t.windows, r.row, s) && HoldsSinks(t.sinks, r.row, s.rule) && HoldsBreach(t.breaches, r.row, s.rule)
    requires if q.windows.Some? then Windows(windows, q.windows.value) else windows == map[]
    requires SinksBy(sinks, q.sinks) && Breaches(breaches, q.breaches)
    ensures (if r.row in windows then windows[r.row] else NO_WINDOWING) == if s.windowsKept then s.rule.windowing else NO_WINDOWING
    ensures r.row in sinks && sinks[r.row] == (if s.rule.sinks.Some? then s.rule.sinks.value else NO_SINKS, s.rule.penaltyTtl)
    ensures (if r.row in breaches then breaches[r.row] else "") == s.rule.having
  {
    assert s.windowsKept ==> WindowRow(r.row, s.rule.windowing) in q.windows.value;
    assert SinkRow(r.row, if s.rule.sinks.Some? then s.rule.sinks.value else NO_SINKS, s.rule.penaltyTtl) in q.sinks;
    assert s.rule.having != "" ==> BreachRow(r.row, s.rule.having) in q.breaches;
  }
}
