/** The live store as the program keeps it: per-rule row slices updated in place, a key index per rule and running
    counters (internal/services/livestore.go). Every method is proved to do what LiveRuns says of the rows alone.
    Each method body runs under the store's lock. */
module LiveStore {
  import opened Prelude
  import opened LiveRows
  import opened LiveRuns

  ghost function View(data: map<string, array<Row>>): Rows
    reads data.Values
  {
    map r | r in data :: data[r][..]
  }

  predicate Unshared(data: map<string, array<Row>>) {
    forall r, q :: r in data && q in data && data[r] == data[q] ==> r == q
  }

  /** The index of every rule holds exactly its keys, each at its last position. */
  function IndexAll(m: Rows): map<string, map<string, nat>> { map r | r in m :: IndexOf(m[r]) }

  lemma HeldView(data: map<string, array<Row>>)
    ensures View(data).Keys == data.Keys
    ensures forall r :: r in data ==> View(data)[r] == data[r][..]
  {
  }

  lemma PutView(data: map<string, array<Row>>, rule: string, rows: array<Row>)
    requires rows !in data.Values
    ensures View(data[rule := rows]) == View(data)[rule := rows[..]]
    ensures Unshared(data) ==> Unshared(data[rule := rows])
  {
  }

  lemma DropView(data: map<string, array<Row>>, rule: string)
    ensures View(data - {rule}) == View(data) - {rule}
    ensures Unshared(data) ==> Unshared(data - {rule})
  {
  }

  lemma PutIndex(m: Rows, rule: string, rows: seq<Row>)
    ensures IndexAll(m[rule := rows]) == IndexAll(m)[rule := IndexOf(rows)]
    ensures IndexAll(m - {rule}) == IndexAll(m) - {rule}
  {
    hide IndexOf;
  }

  lemma IndexAllIs(index: map<string, map<string, nat>>, m: Rows)
    requires index.Keys == m.Keys && forall r :: r in m ==> index[r] == IndexOf(m[r])
    ensures index == IndexAll(m)
  {
    hide IndexOf;
  }

  lemma SubIndex(m: Rows, rule: string)
    ensures IndexOf(Of(m, rule)) == if rule in IndexAll(m) then IndexAll(m)[rule] else map[]
    ensures rule in IndexAll(m) <==> rule in m
  {
  }

  lemma AddInPlace(max: int, s: Store, row: Row)
    requires Counted(s) && LastAt(Of(s.data, RuleOf(row)), Key(row)).Some?
    ensures RuleOf(row) in s.data && Of(s.data, RuleOf(row)) == s.data[RuleOf(row)]
    ensures Allowed(max, s, Event.Add(row, []))
    ensures var pos := LastAt(s.data[RuleOf(row)], Key(row)).value;
            var s' := Store(s.data[RuleOf(row) := s.data[RuleOf(row)][pos := row]], s.total, s.dropped);
            After(max, s, Event.Add(row, [])) == s' && Counted(s')
  {
    UpsertedTotal(s.data, row);
  }

  lemma AddedCounts(s: Store, row: Row)
    requires Counted(s) && LastAt(Of(s.data, RuleOf(row)), Key(row)).None?
    ensures Counted(Store(s.data[RuleOf(row) := Of(s.data, RuleOf(row)) + [row]], s.total + 1, s.dropped))
  {
    UpsertedTotal(s.data, row);
  }

  lemma AddAtEnd(max: int, s: Store, row: Row, drops: seq<Drop>)
    requires LastAt(Of(s.data, RuleOf(row)), Key(row)).None?
    requires Greedy(s.data[RuleOf(row) := Of(s.data, RuleOf(row)) + [row]], drops, s.total + 1 - max)
    ensures Allowed(max, s, Event.Add(row, drops))
    ensures After(max, s, Event.Add(row, drops)) ==
            Store(Trimmed(s.data[RuleOf(row) := Of(s.data, RuleOf(row)) + [row]], drops, s.total + 1 - max),
                  s.total + 1 - DroppedBy(drops), s.dropped + DroppedBy(drops))
  {
    hide Trimmed, Greedy;
  }

  class LiveStore {
    var data: map<string, array<Row>>
    var index: map<string, map<string, nat>>
    var totalRows: int
    var droppedRows: int
    const maxRows: int

    ghost function State(): Store
      reads this, data.Values
    {
      Store(View(data), totalRows, droppedRows)
    }

    ghost predicate Valid()
      reads this, data.Values
    {
      Unshared(data) && index == IndexAll(View(data)) && Counted(State())
    }

    constructor (maxRows: int)
      ensures Valid() && State() == Store(map[], 0, 0) && this.maxRows == maxRows
    {
      this.maxRows := maxRows;
      data, index, totalRows, droppedRows := map[], map[], 0, 0;
    }

    method RebuildRuleIndex(rule: string)
      modifies this`index
      ensures index == if rule !in data || data[rule].Length == 0 then old(index) - {rule}
                       else old(index)[rule := IndexOf(data[rule][..])]
    {
      if rule !in data || data[rule].Length == 0 {
        index := index - {rule};
        return;
      }
      var rows := data[rule];
      var sub: map<string, nat> := map[];
      for i := 0 to rows.Length
        invariant sub == IndexOf(rows[..i])
      {
        assert rows[..i + 1][..i] == rows[..i];
        sub := sub[Key(rows[i]) := i];
      }
      assert rows[..rows.Length] == rows[..];
      index := index[rule := sub];
    }

    /** An upsert of one row, then a trim of the largest rules while over the cap. `drops` records which rules
        map iteration offered as largest. */
    method Add(row: Row) returns (ghost drops: seq<Drop>)
      requires Valid()
      modifies this, data.Values
      ensures Valid() && fresh(data.Values - old(data.Values))
      ensures Allowed(maxRows, old(State()), Event.Add(row, drops))
      ensures State() == After(maxRows, old(State()), Event.Add(row, drops))
      ensures Clear(Of(old(State()).data, RuleOf(row)), row) ==> PutIn(old(State()).data, State().data, row, drops)
    {
      hide Total, NoEmpty, IndexOf, IndexAll, Greedy, Trimmed, After, Allowed, View, Upserted, LastAt, Of, Counted, Upsert, Appends, RuleOf, Key, PutIn, Clear;
      ghost var first := State();
      var rule, ck := RuleOf(row), Key(row);
      ghost var was := View(data);
      HeldView(data);
      SubIndex(was, rule);
      var sub: map<string, nat> := if rule in index then index[rule] else map[];
      IndexIsScan(Of(was, rule), ck);
      if ck in sub {
        drops := [];
        AddInPlace(maxRows, first, row);
        Overwrite(rule, sub[ck], row);
        IndexKept(was[rule], sub[ck], row);
        PutIndex(was, rule, was[rule][sub[ck] := row]);
      } else {
        AddedCounts(first, row);
        drops := AddNew(rule, row, sub);
        AddAtEnd(maxRows, first, row, drops);
      }
      if Clear(Of(first.data, RuleOf(row)), row) { AddByPair(maxRows, first, row, drops); }
    }

    /** The append branch of Add. */
    method AddNew(rule: string, row: Row, held: map<string, nat>) returns (ghost drops: seq<Drop>)
      requires Valid() && held == IndexOf(Of(View(data), rule))
      requires Counted(Store(View(data)[rule := Of(View(data), rule) + [row]], totalRows + 1, droppedRows))
      modifies this
      ensures Valid() && fresh(data.Values - old(data.Values))
      ensures var m, excess := old(View(data))[rule := Of(old(View(data)), rule) + [row]], old(totalRows) + 1 - maxRows;
              && Greedy(m, drops, excess) && View(data) == Trimmed(m, drops, excess)
              && totalRows == old(totalRows) + 1 - DroppedBy(drops) && droppedRows == old(droppedRows) + DroppedBy(drops)
    {
      hide Total, NoEmpty, IndexOf, IndexAll, Greedy, Trimmed, View, Of, Counted, Key;
      ghost var was := View(data);
      Append(rule, row);
      HeldView(data);
      var sub := held[Key(row) := data[rule].Length - 1];
      index := index[rule := sub];
      IndexGrows(Of(was, rule), row);
      PutIndex(was, rule, Of(was, rule) + [row]);
      totalRows := totalRows + 1;
      if totalRows > maxRows {
        drops := TrimExcess();
      } else {
        drops := [];
        ChainStart(View(data), totalRows - maxRows);
        ChainEnd(View(data), totalRows - maxRows, [], View(data), totalRows - maxRows);
      }
    }

    /** The in-place update of a held row. */
    method Overwrite(rule: string, pos: nat, row: Row)
      requires Unshared(data) && rule in data && pos < data[rule].Length
      modifies data[rule]
      ensures View(data) == old(View(data))[rule := old(data[rule][..])[pos := row]]
    {
      data[rule][pos] := row;
    }

    /** append: the slice of one rule grows by a row, in new storage. */
    method Append(rule: string, row: Row)
      requires Unshared(data)
      modifies this`data
      ensures Unshared(data) && fresh(data.Values - old(data.Values))
      ensures View(data) == old(View(data))[rule := Of(old(View(data)), rule) + [row]]
    {
      hide View;
      HeldView(data);
      var rows: array<Row>;
      if rule in data { rows := data[rule]; } else { rows := new Row[0]; }
      var grown := new Row[rows.Length + 1](i reads rows => if 0 <= i < rows.Length then rows[i] else row);
      assert grown[..] == rows[..] + [row];
      PutView(data, rule, grown);
      data := data[rule := grown];
    }

    /** Both prunings: copy what is left of a rule to new storage, then re-index it or forget the rule. */
    method CutFront(rule: string, count: nat)
      requires Unshared(data) && index == IndexAll(View(data)) && rule in data && 0 < count <= data[rule].Length
      modifies this`data, this`index, this`totalRows
      ensures Unshared(data) && index == IndexAll(View(data)) && fresh(data.Values - old(data.Values))
      ensures View(data) == Without(old(View(data)), rule, count)
      ensures totalRows == old(totalRows) - count
    {
      hide View, IndexOf, IndexAll;
      ghost var was := View(data);
      HeldView(data);
      var rows := data[rule];
      var left := rows.Length - count;
      var cut := new Row[left](i requires 0 <= i < left reads rows => rows[i + count]);
      assert cut[..] == was[rule][count..];
      PutIndex(was, rule, was[rule][count..]);
      totalRows := totalRows - count;
      if left == 0 {
        DropView(data, rule);
        data := data - {rule};
        index := index - {rule};
      } else {
        PutView(data, rule, cut);
        data := data[rule := cut];
        RebuildRuleIndex(rule);
      }
    }

    method LargestRule() returns (rule: string, count: nat)
      requires NoEmpty(View(data))
      ensures data == map[] ==> rule == "" && count == 0
      ensures data != map[] ==> rule != "" && count > 0 && Largest(View(data), rule) && count == data[rule].Length
    {
      HeldView(data);
      rule, count := "", 0;
      var pending := data.Keys;
      while pending != {}
        invariant pending <= data.Keys
        invariant pending == data.Keys ==> rule == "" && count == 0
        invariant pending != data.Keys ==> rule in data && count == data[rule].Length
        invariant forall r :: r in data && r !in pending ==> data[r].Length <= count
        decreases |pending|
      {
        var r :| r in pending;
        if data[r].Length > count {
          rule, count := r, data[r].Length;
        }
        pending := pending - {r};
      }
    }

    method TrimExcess() returns (ghost drops: seq<Drop>)
      requires Valid()
      modifies this
      ensures Valid() && fresh(data.Values - old(data.Values))
      ensures Greedy(old(View(data)), drops, old(totalRows) - maxRows)
      ensures View(data) == Trimmed(old(View(data)), drops, old(totalRows) - maxRows)
      ensures totalRows == old(totalRows) - DroppedBy(drops) && droppedRows == old(droppedRows) + DroppedBy(drops)
    {
      hide Total, IndexOf, View, IndexAll, NoEmpty, Unshared, Counted, Greedy, Trimmed, Chain, Without, Largest;
      var excess := totalRows - maxRows;
      ghost var start, over := View(data), excess;
      drops := [];
      ChainStart(start, over);
      while excess > 0
        invariant Valid() && fresh(data.Values - old(data.Values))
        invariant totalRows == old(totalRows) - DroppedBy(drops)
        invariant droppedRows == old(droppedRows) + DroppedBy(drops)
        invariant Chain(start, over, drops, View(data), excess)
        decreases excess
      {
        ghost var now := View(data);
        var removed, d := TrimLargest(excess);
        if removed == 0 {
          break;
        }
        ChainStep(start, over, drops, now, excess, d);
        DroppedSnoc(drops, d);
        drops := drops + [d];
        excess := excess - removed;
      }
      ChainEnd(start, over, drops, View(data), excess);
    }

    /** One round of the trim: up to `excess` rows off the front of a largest rule; none when no rule is left. */
    method TrimLargest(excess: int) returns (toRemove: int, ghost d: Drop)
      requires Valid() && excess > 0
      modifies this
      ensures Valid() && fresh(data.Values - old(data.Values))
      ensures totalRows == old(totalRows) - toRemove && droppedRows == old(droppedRows) + toRemove
      ensures toRemove == 0 ==> View(data) == old(View(data)) == map[]
      ensures toRemove != 0 ==>
        && Largest(old(View(data)), d.rule) && d.count == toRemove > 0
        && d.count == (if excess > |old(View(data))[d.rule]| then |old(View(data))[d.rule]| else excess)
        && View(data) == Without(old(View(data)), d.rule, d.count)
    {
      hide Total, IndexOf, View, IndexAll, NoEmpty;
      var largest, count := LargestRule();
      HeldView(data);
      if largest == "" || count == 0 {
        assert View(data).Keys == {};
        return 0, Drop("", 0);
      }
      toRemove := if excess > count then count else excess;
      d := Drop(largest, toRemove);
      WithoutFacts(View(data), largest, toRemove);
      CutFront(largest, toRemove);
      droppedRows := droppedRows + toRemove;
    }

    /** The background pruner's pass: one cutoff for every rule. */
    method PruneStale(cutoff: int)
      requires Valid()
      modifies this
      ensures Valid() && fresh(data.Values - old(data.Values))
      ensures State() == After(maxRows, old(State()), Event.Prune(cutoff))
    {
      hide Total, IndexOf, StalePrefix, View, IndexAll, PartPruned, NoEmpty, Pruned, Without, After, Of, Unshared, Counted;
      ghost var was, first := View(data), State();
      HeldView(data);
      PartPrunedStart(first, cutoff);
      var pending := data.Keys;
      while pending != {}
        invariant Valid() && fresh(data.Values - old(data.Values))
        invariant pending <= data.Keys && droppedRows == old(droppedRows)
        invariant PartPruned(was, View(data), pending, cutoff)
        decreases |pending|
      {
        var rule :| rule in pending;
        HeldView(data);
        PartPrunedStep(was, View(data), pending, cutoff, rule);
        PruneRule(rule, cutoff);
        pending := pending - {rule};
      }
      PartPrunedEnd(was, View(data), cutoff);
      hide Valid;
      AfterPrune(maxRows, first, State(), cutoff);
    }

    method PruneRule(rule: string, cutoff: int)
      requires Valid() && rule in data
      modifies this
      ensures Valid() && fresh(data.Values - old(data.Values)) && droppedRows == old(droppedRows)
      ensures forall r :: r in old(data) && r != rule ==> r in data
      ensures rule in old(View(data))
      ensures View(data) == Without(old(View(data)), rule, StalePrefix(old(View(data))[rule], cutoff))
    {
      hide Total, IndexOf, StalePrefix, View, IndexAll, NoEmpty, Stale;
      HeldView(data);
      ghost var was := View(data);
      var rows := data[rule];
      var startIdx := 0;
      while startIdx < rows.Length && Stale(rows[startIdx], cutoff)
        invariant 0 <= startIdx <= rows.Length
        invariant forall i :: 0 <= i < startIdx ==> Stale(rows[i], cutoff)
      {
        startIdx := startIdx + 1;
      }
      StalePrefixIs(rows[..], cutoff, startIdx);
      WithoutFacts(was, rule, startIdx);
      WithoutNone(was, rule);
      if startIdx > 0 {
        CutFront(rule, startIdx);
        HeldView(data);
      }
    }

    /** Replace everything by the rows given; no cap is applied and the drop counter goes on. */
    method Bootstrap(rows: seq<Row>)
      requires Valid()
      modifies this
      ensures Valid() && fresh(data.Values - old(data.Values))
      ensures State() == After(maxRows, old(State()), Event.Boot(rows))
    {
      hide Total, IndexOf, View, IndexAll;
      data, index, totalRows := map[], map[], 0;
      HeldView(data);
      for i := 0 to |rows|
        invariant Unshared(data) && fresh(data.Values - old(data.Values)) && index == map[]
        invariant View(data) == Grouped(rows[..i]) && totalRows == i
        invariant droppedRows == old(droppedRows)
      {
        assert rows[..i + 1][..i] == rows[..i];
        Append(RuleOf(rows[i]), rows[i]);
        totalRows := totalRows + 1;
      }
      assert rows[..|rows|] == rows;
      GroupedFacts(rows);
      HeldView(data);
      RebuildAll();
    }

    method RebuildAll()
      requires index == map[] && forall r :: r in data ==> data[r].Length > 0
      modifies this`index
      ensures index == IndexAll(View(data))
    {
      hide IndexOf, View, IndexAll;
      HeldView(data);
      var pending := data.Keys;
      while pending != {}
        invariant pending <= data.Keys && index.Keys <= data.Keys
        invariant forall r :: r in data && r !in pending ==> r in index && index[r] == IndexOf(data[r][..])
        decreases |pending|
      {
        var rule :| rule in pending;
        RebuildRuleIndex(rule);
        pending := pending - {rule};
      }
      IndexAllIs(index, View(data));
    }

    /** Copies of the slices of the rules asked for that are held. */
    method GetAll(ids: seq<string>) returns (result: map<string, array<Row>>)
      ensures fresh(result.Values)
      ensures View(result) == Asked(View(data), ids)
    {
      hide View;
      result := map[];
      HeldView(result);
      HeldView(data);
      for i := 0 to |ids|
        invariant forall r :: r in result ==> fresh(result[r])
        invariant View(result) == Asked(View(data), ids[..i])
      {
        if ids[i] in data {
          var rows := data[ids[i]];
          var copied := new Row[rows.Length](k requires 0 <= k < rows.Length reads rows => rows[k]);
          assert copied[..] == rows[..];
          PutView(result, ids[i], copied);
          result := result[ids[i] := copied];
        }
      }
      assert ids[..|ids|] == ids;
    }

    /** Any run of calls on the store is a run over values, and what an earlier GetAll returned stays as it was. */
    method ReadThenRun(ids: seq<string>, calls: seq<Call>) returns (read: map<string, array<Row>>, ghost es: seq<Event>)
      requires Valid()
      modifies this, data.Values
      ensures Valid()
      ensures View(read) == Asked(old(View(data)), ids)
      ensures |es| == |calls| && forall i :: 0 <= i < |es| ==> CallOf(es[i]) == calls[i]
      ensures AllowedRun(maxRows, old(State()), es) && State() == RunTally(maxRows, old(State()), es, Tally(0, 0, 0)).0
    {
      read := GetAll(ids);
      es := Run(calls);
    }

    method Serve(call: Call) returns (ghost e: Event)
      requires Valid()
      modifies this, data.Values
      ensures Valid() && fresh(data.Values - old(data.Values)) && CallOf(e) == call
      ensures Allowed(maxRows, old(State()), e) && State() == After(maxRows, old(State()), e)
    {
      hide After, Counted, IndexAll, Unshared, View, PutIn, Clear, Of;
      match call {
        case Add(row) =>
          ghost var drops := Add(row);
          e := Event.Add(row, drops);
        case Prune(cutoff) =>
          PruneStale(cutoff);
          e := Event.Prune(cutoff);
        case Boot(rows) =>
          Bootstrap(rows);
          e := Event.Boot(rows);
      }
    }

    method Run(calls: seq<Call>) returns (ghost es: seq<Event>)
      requires Valid()
      modifies this, data.Values
      ensures Valid() && fresh(data.Values - old(data.Values))
      ensures |es| == |calls| && forall i :: 0 <= i < |es| ==> CallOf(es[i]) == calls[i]
      ensures AllowedRun(maxRows, old(State()), es)
      ensures forall t :: State() == RunTally(maxRows, old(State()), es, t).0
    {
      if calls == [] {
        es := [];
        return;
      }
      hide After, Allowed, Counted, IndexAll, Unshared, View, Tallied;
      ghost var e := Serve(calls[0]);
      ghost var rest := Run(calls[1..]);
      es := [e] + rest;
    }
  }

  datatype Call = Add(row: Row) | Prune(cutoff: int) | Boot(rows: seq<Row>)

  function CallOf(e: Event): Call {
    match e
    case Add(row, _) => Call.Add(row)
    case Prune(cutoff) => Call.Prune(cutoff)
    case Boot(rows) => Call.Boot(rows)
  }

  /** The held rows of the rules asked for. */
  function Asked(m: Rows, ids: seq<string>): Rows { map r | r in m && r in ids :: m[r] }

  /** GetAll answers with the rules that were asked for and are held, each with all of its rows. */
  lemma AskedRows(m: Rows, ids: seq<string>, rule: string)
    ensures rule in Asked(m, ids) <==> (exists i :: 0 <= i < |ids| && ids[i] == rule) && rule in m
    ensures rule in Asked(m, ids) ==> Asked(m, ids)[rule] == m[rule]
  {
  }

  // ------------------------------------------------------------- the trim loop

  /** However a trim goes on from `now`, it goes on so from `start` after these drops. */
  ghost predicate Chain(start: Rows, over: int, drops: seq<Drop>, now: Rows, left: int) {
    forall rest :: Greedy(now, rest, left) ==>
      Greedy(start, drops + rest, over) && Trimmed(start, drops + rest, over) == Trimmed(now, rest, left)
  }

  lemma ChainStart(start: Rows, over: int)
    ensures Chain(start, over, [], start, over)
  {
    forall rest | Greedy(start, rest, over) ensures [] + rest == rest { }
  }

  lemma ChainStep(start: Rows, over: int, drops: seq<Drop>, now: Rows, left: int, d: Drop)
    requires Chain(start, over, drops, now, left) && left > 0 && Largest(now, d.rule)
    requires d.count == (if left > |now[d.rule]| then |now[d.rule]| else left)
    ensures Chain(start, over, drops + [d], Without(now, d.rule, d.count), left - d.count)
  {
    forall rest | Greedy(Without(now, d.rule, d.count), rest, left - d.count)
      ensures Greedy(start, drops + [d] + rest, over)
      ensures Trimmed(start, drops + [d] + rest, over) == Trimmed(Without(now, d.rule, d.count), rest, left - d.count)
    {
      assert drops + [d] + rest == drops + ([d] + rest);
      assert ([d] + rest)[1..] == rest;
      assert Greedy(now, [d] + rest, left);
    }
  }

  lemma ChainEnd(start: Rows, over: int, drops: seq<Drop>, now: Rows, left: int)
    requires Chain(start, over, drops, now, left) && (left <= 0 || now == map[])
    ensures Greedy(start, drops, over) && Trimmed(start, drops, over) == now
  {
    assert drops + [] == drops;
    assert Greedy(now, [], left);
  }

  lemma {:induction false} DroppedSnoc(drops: seq<Drop>, d: Drop)
    ensures DroppedBy(drops + [d]) == DroppedBy(drops) + d.count
  {
    if drops != [] {
      assert (drops + [d])[1..] == drops[1..] + [d];
      DroppedSnoc(drops[1..], d);
    }
  }

  // ------------------------------------------------------------- the prune loop

  /** Rules still pending are as they were, the others pruned. */
  ghost predicate PartPruned(was: Rows, now: Rows, pending: set<string>, cutoff: int) {
    && NoEmpty(was) && NoEmpty(now)
    && forall r :: Of(now, r) == if r in pending then Of(was, r) else Of(Pruned(was, cutoff), r)
  }

  lemma PartPrunedStart(s: Store, cutoff: int)
    requires Counted(s)
    ensures PartPruned(s.data, s.data, s.data.Keys, cutoff)
  {
  }

  lemma PartPrunedStep(was: Rows, now: Rows, pending: set<string>, cutoff: int, rule: string)
    requires PartPruned(was, now, pending, cutoff) && rule in pending && rule in now
    ensures PartPruned(was, Without(now, rule, StalePrefix(now[rule], cutoff)), pending - {rule}, cutoff)
  {
    hide StalePrefix;
    assert now[rule] == Of(now, rule) == Of(was, rule);
  }

  lemma WithoutNone(m: Rows, rule: string)
    requires NoEmpty(m) && rule in m
    ensures Without(m, rule, 0) == m
  {
    assert m[rule][0..] == m[rule];
  }

  lemma AfterPrune(max: int, s: Store, s': Store, cutoff: int)
    requires Counted(s) && Counted(s') && s'.data == Pruned(s.data, cutoff) && s'.dropped == s.dropped
    ensures s' == After(max, s, Event.Prune(cutoff))
  {
  }

  lemma PartPrunedEnd(was: Rows, now: Rows, cutoff: int)
    requires PartPruned(was, now, {}, cutoff)
    ensures now == Pruned(was, cutoff)
  {
    hide StalePrefix;
    var p := Pruned(was, cutoff);
    forall r | r in now ensures r in p && now[r] == p[r] { assert Of(now, r) == Of(p, r); }
    forall r | r in p ensures r in now { assert Of(now, r) == Of(p, r); }
  }
}
