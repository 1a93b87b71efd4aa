/** Runs of the live store over values: upserts with their trims, prunes and bootstraps, in any order. */
module LiveRuns {
  import opened Prelude
  import opened LiveRows

  // ------------------------------------------------------------- trimming to the cap

  /** `count` rows taken off the front of one rule. */
  datatype Drop = Drop(rule: string, count: nat)

  function Without(m: Rows, rule: string, count: nat): Rows
    requires rule in m && count <= |m[rule]|
  {
    if count == |m[rule]| then m - {rule} else m[rule := m[rule][count..]]
  }

  predicate NoEmpty(m: Rows) { "" !in m && forall r :: r in m ==> m[r] != [] }

  predicate Largest(m: Rows, rule: string) { rule in m && forall r :: r in m ==> |m[r]| <= |m[rule]| }

  /** The choices of trimExcess: while over by `excess`, take up to that many rows off the front of a rule that
      has the most; ties are broken by map order, so any largest rule may be taken. */
  ghost predicate Greedy(m: Rows, drops: seq<Drop>, excess: int)
    decreases |drops|
  {
    if excess <= 0 || m == map[] then drops == []
    else
      drops != [] &&
      var d := drops[0];
      && Largest(m, d.rule)
      && d.count == (if excess > |m[d.rule]| then |m[d.rule]| else excess)
      && Greedy(Without(m, d.rule, d.count), drops[1..], excess - d.count)
  }

  /** The store after those drops. */
  ghost function Trimmed(m: Rows, drops: seq<Drop>, excess: int): Rows
    requires Greedy(m, drops, excess)
    decreases |drops|
  {
    if drops == [] then m
    else Trimmed(Without(m, drops[0].rule, drops[0].count), drops[1..], excess - drops[0].count)
  }

  lemma WithoutFacts(m: Rows, rule: string, count: nat)
    requires NoEmpty(m) && rule in m && count <= |m[rule]|
    ensures NoEmpty(Without(m, rule, count)) && Total(Without(m, rule, count)) == Total(m) - count
  {
    TotalWithout(m, rule);
    if count < |m[rule]| { TotalSet(m, rule, m[rule][count..]); }
  }

  /** Each rule has kept a tail of its rows. */
  predicate Tails(n: Rows, m: Rows) {
    forall r :: r in n ==> r in m && |n[r]| <= |m[r]| && n[r] == m[r][|m[r]| - |n[r]|..]
  }

  lemma TailsChain(a: Rows, b: Rows, c: Rows)
    requires Tails(a, b) && Tails(b, c)
    ensures Tails(a, c)
  {
    forall r | r in a ensures r in c && |a[r]| <= |c[r]| && a[r] == c[r][|c[r]| - |a[r]|..] {
      assert b[r] == c[r][|c[r]| - |b[r]|..];
    }
  }

  lemma WithoutTails(m: Rows, rule: string, count: nat)
    requires rule in m && count <= |m[rule]|
    ensures Tails(Without(m, rule, count), m)
  {
  }

  /** Trimming drops exactly the excess, never stops early while rows remain, and takes only from the front. */
  lemma {:induction false} TrimExact(m: Rows, drops: seq<Drop>, excess: int)
    requires NoEmpty(m) && Greedy(m, drops, excess) && excess <= Total(m)
    ensures var n := Trimmed(m, drops, excess);
            NoEmpty(n) && Total(n) == Total(m) - (if excess > 0 then excess else 0) && Tails(n, m)
    decreases |drops|
  {
    hide NoEmpty, Total, Tails, Largest;
    if drops == [] {
      NothingLeft(m, excess);
    } else {
      var d := drops[0];
      SomeLargest(m, drops, excess);
      hide Greedy;
      var next := Without(m, d.rule, d.count);
      WithoutFacts(m, d.rule, d.count);
      WithoutTails(m, d.rule, d.count);
      hide Without;
      TrimExact(next, drops[1..], excess - d.count);
      TailsChain(Trimmed(next, drops[1..], excess - d.count), next, m);
    }
  }

  lemma NothingLeft(m: Rows, excess: int)
    requires Greedy(m, [], excess) && excess <= Total(m)
    ensures excess <= 0 && Tails(m, m)
  {
    assert m == map[] ==> Total(m) == 0;
  }

  lemma SomeLargest(m: Rows, drops: seq<Drop>, excess: int)
    requires Greedy(m, drops, excess) && drops != []
    ensures Largest(m, drops[0].rule) && excess > 0 && drops[0].rule in m && drops[0].count <= |m[drops[0].rule]| && drops[0].count <= excess
    ensures Greedy(Without(m, drops[0].rule, drops[0].count), drops[1..], excess - drops[0].count)
  {
  }

  /** The rule lost rows to this trim. */
  predicate Takes(drops: seq<Drop>, rule: string) { exists i :: 0 <= i < |drops| && drops[i].rule == rule }

  lemma TakesSplit(drops: seq<Drop>, rule: string)
    requires drops != []
    ensures Takes(drops, rule) <==> drops[0].rule == rule || Takes(drops[1..], rule)
  {
    var rest := drops[1..];
    assert drops == [drops[0]] + rest;
    if Takes(rest, rule) {
      var i :| 0 <= i < |rest| && rest[i].rule == rule;
      assert drops[i + 1].rule == rule;
    }
  }

  /** How many rows the last take from the rule took. */
  function LastTake(drops: seq<Drop>, rule: string): nat {
    if drops == [] then 0
    else if Takes(drops[1..], rule) then LastTake(drops[1..], rule)
    else if drops[0].rule == rule then drops[0].count
    else 0
  }

  /** Any trim is even-handed: a rule that lost rows ends no shorter than any other rule by more than the last take
      from it. */
  lemma {:induction false} TrimIsFair(m: Rows, drops: seq<Drop>, excess: int, rule: string, other: string)
    requires Greedy(m, drops, excess) && Takes(drops, rule)
    ensures var n := Trimmed(m, drops, excess); |Of(n, other)| <= |Of(n, rule)| + LastTake(drops, rule)
    decreases |drops|
  {
    SomeLargest(m, drops, excess);
    hide Greedy;
    var d := drops[0];
    var next := Without(m, d.rule, d.count);
    TakesSplit(drops, rule);
    if Takes(drops[1..], rule) {
      TrimIsFair(next, drops[1..], excess - d.count, rule, other);
    } else {
      Untaken(next, drops[1..], excess - d.count, rule);
      OnlyShrinks(next, drops[1..], excess - d.count, other);
    }
  }

  /** A rule not taken from keeps its rows, and no rule grows. */
  lemma {:induction false} Untaken(m: Rows, drops: seq<Drop>, excess: int, rule: string)
    requires Greedy(m, drops, excess) && !Takes(drops, rule)
    ensures Of(Trimmed(m, drops, excess), rule) == Of(m, rule)
    decreases |drops|
  {
    if drops != [] {
      SomeLargest(m, drops, excess);
      TakesSplit(drops, rule);
      hide Greedy;
      Untaken(Without(m, drops[0].rule, drops[0].count), drops[1..], excess - drops[0].count, rule);
    }
  }

  lemma {:induction false} OnlyShrinks(m: Rows, drops: seq<Drop>, excess: int, rule: string)
    requires Greedy(m, drops, excess)
    ensures |Of(Trimmed(m, drops, excess), rule)| <= |Of(m, rule)|
    decreases |drops|
  {
    if drops != [] {
      SomeLargest(m, drops, excess);
      hide Greedy;
      OnlyShrinks(Without(m, drops[0].rule, drops[0].count), drops[1..], excess - drops[0].count, rule);
    }
  }

  // ------------------------------------------------------------- pruning by time

  predicate Stale(row: Row, cutoff: int) { row.time.Some? && row.time.value <= cutoff }

  /** The longest prefix of parseable rows that are not after the cutoff. */
  function StalePrefix(rows: seq<Row>, cutoff: int): (n: nat)
    ensures n <= |rows|
    ensures forall i :: 0 <= i < n ==> Stale(rows[i], cutoff)
    ensures n < |rows| ==> !Stale(rows[n], cutoff)
  {
    if rows == [] || !Stale(rows[0], cutoff) then 0 else 1 + StalePrefix(rows[1..], cutoff)
  }

  /** Any count with the loop's exit conditions is that prefix. */
  lemma StalePrefixIs(rows: seq<Row>, cutoff: int, n: nat)
    requires n <= |rows| && (forall i :: 0 <= i < n ==> Stale(rows[i], cutoff))
    requires n < |rows| ==> !Stale(rows[n], cutoff)
    ensures n == StalePrefix(rows, cutoff)
  {
  }

  function Pruned(m: Rows, cutoff: int): Rows {
    map r | r in m && StalePrefix(m[r], cutoff) < |m[r]| :: m[r][StalePrefix(m[r], cutoff)..]
  }

  /** Every window time is readable and the rows stand in window order. */
  predicate Ordered(rows: seq<Row>) {
    && (forall i :: 0 <= i < |rows| ==> rows[i].time.Some?)
    && forall i, j :: 0 <= i < j < |rows| ==> rows[i].time.value <= rows[j].time.value
  }

  /** A row not after the cutoff outlives a prune exactly when an earlier row of its rule is after it or has no
      readable time. */
  lemma StaleSurvives(rows: seq<Row>, cutoff: int, i: nat)
    requires i < |rows| && rows[i].time.Some? && rows[i].time.value <= cutoff
    ensures i >= StalePrefix(rows, cutoff) <==> exists j :: 0 <= j < i && (rows[j].time.None? || rows[j].time.value > cutoff)
  {
    var n := StalePrefix(rows, cutoff);
    if i >= n { assert !Stale(rows[n], cutoff); }
  }

  /** On rows in window order a prune keeps exactly those after the cutoff. */
  lemma PruneExact(rows: seq<Row>, cutoff: int, i: nat)
    requires Ordered(rows) && i < |rows|
    ensures i < StalePrefix(rows, cutoff) <==> rows[i].time.value <= cutoff
  {
    if rows[i].time.value <= cutoff { StaleSurvives(rows, cutoff, i); }
  }

  /** And so of the whole store: a rule whose rows stand in window order keeps exactly its rows after the cutoff. */
  lemma PruneKeepsFresh(m: Rows, cutoff: int, rule: string, row: Row)
    requires Ordered(Of(m, rule))
    ensures row in Of(Pruned(m, cutoff), rule) <==> row in Of(m, rule) && row.time.value > cutoff
  {
    hide StalePrefix;
    var rows := Of(m, rule);
    var n := StalePrefix(rows, cutoff);
    forall i | 0 <= i < |rows| ensures i < n <==> rows[i].time.value <= cutoff { PruneExact(rows, cutoff, i); }
    assert rule in m ==> Of(Pruned(m, cutoff), rule) == rows[n..];
    if row in rows && row.time.value > cutoff {
      var i :| 0 <= i < |rows| && rows[i] == row;
      assert rows[n..][i - n] == row;
    }
  }

  /** Rows newest first, as the bootstrap query returns them. */
  predicate NewestFirst(rows: seq<Row>) {
    && (forall i :: 0 <= i < |rows| ==> rows[i].time.Some?)
    && forall i, j :: 0 <= i < j < |rows| ==> rows[i].time.value >= rows[j].time.value
  }

  /** Behind a fresh first row nothing is pruned, whatever follows; so rows that stand newest first lose all or none. */
  lemma NewestFirstIsNotPruned(rows: seq<Row>, cutoff: int)
    ensures StalePrefix(rows, cutoff) == 0 <==> rows == [] || rows[0].time.None? || rows[0].time.value > cutoff
    ensures NewestFirst(rows) && rows != [] && rows[0].time.value <= cutoff ==> StalePrefix(rows, cutoff) == |rows|
  {
    var n := StalePrefix(rows, cutoff);
    if n < |rows| { assert !Stale(rows[n], cutoff); }
  }

  /** Window times are read off the window text, and the text holds no NUL. */
  ghost predicate Timed(clock: string -> Option<int>, row: Row) { row.time == clock(row.windowStart) && NUL !in row.windowStart }

  /** Replacing a row by a later tick of the same window keeps window order. */
  lemma UpsertKeepsOrder(clock: string -> Option<int>, rows: seq<Row>, row: Row)
    requires Ordered(rows) && Timed(clock, row) && (forall i :: 0 <= i < |rows| ==> Timed(clock, rows[i]))
    requires LastAt(rows, Key(row)).Some?
    ensures Ordered(Upsert(rows, row)) && |Upsert(rows, row)| == |rows|
  {
    var i := LastAt(rows, Key(row)).value;
    assert Timed(clock, rows[i]);
    KeyCollision(rows[i].windowStart, row.windowStart);
    assert rows[i].groupKey + [NUL] + rows[i].windowStart == row.groupKey + [NUL] + row.windowStart;
    assert rows[i].time == row.time;
  }

  /** Appending keeps window order exactly when the new row is not older than the last one. */
  lemma AppendKeepsOrder(rows: seq<Row>, row: Row)
    requires Ordered(rows) && rows != [] && LastAt(rows, Key(row)).None?
    ensures Ordered(Upsert(rows, row)) <==> row.time.Some? && rows[|rows| - 1].time.value <= row.time.value
  {
    hide LastAt;
    var u := rows + [row];
    if row.time.Some? && rows[|rows| - 1].time.value <= row.time.value { NewerKeepsOrder(rows, row); }
    if Ordered(u) { OrderedEnds(rows, row); }
  }

  lemma NewerKeepsOrder(rows: seq<Row>, row: Row)
    requires Ordered(rows) && rows != [] && row.time.Some? && rows[|rows| - 1].time.value <= row.time.value
    ensures Ordered(rows + [row])
  {
    forall i | 0 <= i < |rows| ensures rows[i].time.value <= row.time.value {
      assert i < |rows| - 1 ==> rows[i].time.value <= rows[|rows| - 1].time.value;
    }
  }

  lemma OrderedEnds(rows: seq<Row>, row: Row)
    requires rows != [] && Ordered(rows + [row])
    ensures row.time.Some? && rows[|rows| - 1].time.Some? && rows[|rows| - 1].time.value <= row.time.value
  {
    var u := rows + [row];
    assert u[|rows| - 1] == rows[|rows| - 1] && u[|rows|] == row;
  }

  // ------------------------------------------------------------- bootstrap

  function Grouped(rows: seq<Row>): Rows {
    if rows == [] then map[]
    else
      var m, row := Grouped(rows[..|rows| - 1]), rows[|rows| - 1];
      m[RuleOf(row) := Of(m, RuleOf(row)) + [row]]
  }

  function OfRule(rows: seq<Row>, rule: string): seq<Row> {
    if rows == [] then []
    else OfRule(rows[..|rows| - 1], rule) + (if RuleOf(rows[|rows| - 1]) == rule then [rows[|rows| - 1]] else [])
  }

  /** Bootstrap splits the rows by rule, in the order given, and takes in every one of them. */
  lemma {:induction false} GroupedFacts(rows: seq<Row>)
    ensures forall r :: Of(Grouped(rows), r) == OfRule(rows, r)
    ensures NoEmpty(Grouped(rows)) && Total(Grouped(rows)) == |rows|
  {
    if rows != [] {
      var m, row := Grouped(rows[..|rows| - 1]), rows[|rows| - 1];
      GroupedFacts(rows[..|rows| - 1]);
      TotalSet(m, RuleOf(row), Of(m, RuleOf(row)) + [row]);
    }
  }

  // ------------------------------------------------------------- runs

  datatype Store = Store(data: Rows, total: int, dropped: int)

  /** One call on the store. An Add carries the trim choices map iteration made. */
  datatype Event = Boot(rows: seq<Row>) | Add(row: Row, drops: seq<Drop>) | Prune(cutoff: int)

  function Upserted(m: Rows, row: Row): Rows { m[RuleOf(row) := Upsert(Of(m, RuleOf(row)), row)] }

  predicate Appends(m: Rows, row: Row) { LastAt(Of(m, RuleOf(row)), Key(row)).None? }

  function Excess(max: int, total: int): int { total - max }

  /** The event is one the store can make: an Add that does not append drops nothing. */
  ghost predicate Allowed(max: int, s: Store, e: Event) {
    e.Add? ==>
      if Appends(s.data, e.row) then Greedy(Upserted(s.data, e.row), e.drops, Excess(max, s.total + 1)) else e.drops == []
  }

  function DroppedBy(drops: seq<Drop>): nat {
    if drops == [] then 0 else drops[0].count + DroppedBy(drops[1..])
  }

  ghost function After(max: int, s: Store, e: Event): Store
    requires Allowed(max, s, e)
  {
    match e
    case Boot(rows) => Store(Grouped(rows), |rows|, s.dropped)
    case Add(row, drops) =>
      var m := Upserted(s.data, row);
      if Appends(s.data, row) then
        Store(Trimmed(m, drops, Excess(max, s.total + 1)), s.total + 1 - DroppedBy(drops), s.dropped + DroppedBy(drops))
      else Store(m, s.total, s.dropped)
    case Prune(cutoff) => Store(Pruned(s.data, cutoff), s.total - (Total(s.data) - Total(Pruned(s.data, cutoff))), s.dropped)
  }

  ghost predicate Counted(s: Store) { NoEmpty(s.data) && s.total == Total(s.data) }

  lemma {:induction false} DroppedTotal(m: Rows, drops: seq<Drop>, excess: int)
    requires NoEmpty(m) && Greedy(m, drops, excess) && excess <= Total(m)
    ensures DroppedBy(drops) == if excess > 0 then excess else 0
    decreases |drops|
  {
    assert m == map[] ==> Total(m) == 0;
    if drops != [] {
      var d := drops[0];
      WithoutFacts(m, d.rule, d.count);
      DroppedTotal(Without(m, d.rule, d.count), drops[1..], excess - d.count);
    }
  }

  lemma UpsertedTotal(m: Rows, row: Row)
    requires NoEmpty(m)
    ensures NoEmpty(Upserted(m, row)) && Total(Upserted(m, row)) == Total(m) + (if Appends(m, row) then 1 else 0)
  {
    var r := RuleOf(row);
    TotalSet(m, r, Upsert(Of(m, r), row));
  }

  lemma {:induction false} PrunedTotal(m: Rows, cutoff: int)
    requires NoEmpty(m)
    ensures NoEmpty(Pruned(m, cutoff)) && Total(Pruned(m, cutoff)) <= Total(m)
    decreases |m|
  {
    hide StalePrefix;
    var p := Pruned(m, cutoff);
    if m == map[] {
      assert p == map[];
    } else {
      var r :| r in m;
      PrunedTotal(m - {r}, cutoff);
      PrunedWithout(m, r, cutoff);
      hide Pruned, NoEmpty;
      TotalSet(m, r, []);
      TotalSet(p, r, []);
    }
  }

  lemma PrunedWithout(m: Rows, r: string, cutoff: int)
    requires r in m
    ensures Pruned(m, cutoff) - {r} == Pruned(m - {r}, cutoff)
    ensures |Of(Pruned(m, cutoff), r)| <= |Of(m, r)|
    ensures NoEmpty(m) ==> NoEmpty(Pruned(m, cutoff))
  {
    hide StalePrefix;
  }

  /** Every call keeps the row counter equal to the rows held. An Add that appends ends within the cap, even
      after a bootstrap beyond it. */
  lemma StepCounts(max: int, s: Store, e: Event)
    requires Counted(s) && Allowed(max, s, e)
    ensures Counted(After(max, s, e))
    ensures max >= 0 && e.Add? && Appends(s.data, e.row) ==> After(max, s, e).total <= max
  {
    match e
    case Boot(rows) => GroupedFacts(rows);
    case Add(row, drops) =>
      UpsertedTotal(s.data, row);
      hide Upserted;
      if Appends(s.data, row) { TrimCounts(max, Upserted(s.data, row), s.total + 1, drops); }
      hide Appends, Greedy, Trimmed, Total, NoEmpty;
    case Prune(cutoff) => PrunedTotal(s.data, cutoff); hide Pruned, Total, NoEmpty;
  }

  lemma TrimCounts(max: int, m: Rows, total: int, drops: seq<Drop>)
    requires NoEmpty(m) && total == Total(m) && Greedy(m, drops, Excess(max, total))
    ensures var n := Trimmed(m, drops, Excess(max, total)); NoEmpty(n) && Total(n) == total - DroppedBy(drops)
    ensures max >= 0 ==> total - DroppedBy(drops) <= max
  {
    hide Greedy, Trimmed, Total, NoEmpty, Tails;
    if max >= 0 {
      TrimExact(m, drops, Excess(max, total));
      DroppedTotal(m, drops, Excess(max, total));
    } else {
      TrimAll(m, drops, Excess(max, total));
      NothingHeld();
    }
  }

  lemma NothingHeld()
    ensures NoEmpty(map[]) && Total(map[]) == 0
  {
  }

  /** With a negative cap the loop runs out of rows and stops with an empty store. */
  lemma {:induction false} TrimAll(m: Rows, drops: seq<Drop>, excess: int)
    requires NoEmpty(m) && Greedy(m, drops, excess) && excess >= Total(m)
    ensures Trimmed(m, drops, excess) == map[] && DroppedBy(drops) == Total(m)
    decreases |drops|
  {
    if m == map[] {
      assert Total(m) == 0;
    } else {
      var r :| r in m;
      TotalBounds(m, r);
      var d := drops[0];
      TotalBounds(m, d.rule);
      WithoutFacts(m, d.rule, d.count);
      TrimAll(Without(m, d.rule, d.count), drops[1..], excess - d.count);
    }
  }

  /** Rows taken in, dropped by trims and pruned since the last bootstrap. */
  datatype Tally = Tally(taken: int, dropped: int, pruned: int)

  ghost predicate AllowedRun(max: int, s: Store, es: seq<Event>)
    decreases |es|
  {
    es == [] || (Allowed(max, s, es[0]) && AllowedRun(max, After(max, s, es[0]), es[1..]))
  }

  ghost function Tallied(max: int, s: Store, e: Event, t: Tally): Tally
    requires Allowed(max, s, e)
  {
    match e
    case Boot(rows) => Tally(|rows|, 0, 0)
    case Add(row, drops) => t.(taken := t.taken + (if Appends(s.data, row) then 1 else 0), dropped := t.dropped + DroppedBy(drops))
    case Prune(_) => t.(pruned := t.pruned + (s.total - After(max, s, e).total))
  }

  ghost function RunTally(max: int, s: Store, es: seq<Event>, t: Tally): (Store, Tally)
    requires AllowedRun(max, s, es)
    decreases |es|
  {
    if es == [] then (s, t) else RunTally(max, After(max, s, es[0]), es[1..], Tallied(max, s, es[0], t))
  }

  /** Conservation over every run: rows taken in are held, dropped or pruned, each exactly once. */
  lemma {:induction false} Conservation(max: int, s: Store, es: seq<Event>, t: Tally)
    requires Counted(s) && AllowedRun(max, s, es) && t.taken == s.total + t.dropped + t.pruned
    ensures var (s', t') := RunTally(max, s, es, t);
            Counted(s') && t'.taken == Total(s'.data) + t'.dropped + t'.pruned
    decreases |es|
  {
    if es != [] {
      StepCounts(max, s, es[0]);
      StepTallies(max, s, es[0], t);
      hide Allowed, After, Counted, Tallied, Total;
      Conservation(max, After(max, s, es[0]), es[1..], Tallied(max, s, es[0], t));
    }
  }

  lemma StepTallies(max: int, s: Store, e: Event, t: Tally)
    requires Counted(s) && Allowed(max, s, e) && t.taken == s.total + t.dropped + t.pruned
    ensures var t' := Tallied(max, s, e, t); t'.taken == After(max, s, e).total + t'.dropped + t'.pruned
  {
    hide Greedy, Trimmed, Upserted, Appends, Pruned, Total, Grouped;
  }

  predicate AllDistinct(m: Rows) { forall r :: r in m ==> Distinct(m[r]) }

  lemma TailsDistinct(n: Rows, m: Rows)
    requires Tails(n, m) && AllDistinct(m)
    ensures AllDistinct(n)
  {
    hide Key;
    forall r | r in n ensures Distinct(n[r]) { TailDistinct(m[r], |m[r]| - |n[r]|); }
  }

  lemma TailDistinct(rows: seq<Row>, k: nat)
    requires Distinct(rows) && k <= |rows|
    ensures Distinct(rows[k..])
  {
    hide Key;
  }

  lemma PrunedTails(m: Rows, cutoff: int)
    ensures Tails(Pruned(m, cutoff), m)
  {
    hide StalePrefix;
  }

  lemma UpsertedDistinct(m: Rows, row: Row)
    requires AllDistinct(m)
    ensures AllDistinct(Upserted(m, row))
  {
    hide Distinct;
    assert Distinct([]) by { NothingDistinct(); }
    UpsertKeepsDistinct(Of(m, RuleOf(row)), row);
    hide Upsert, RuleOf;
  }

  lemma NothingDistinct()
    ensures Distinct([])
  {
  }

  lemma StepKeepsDistinct(max: int, s: Store, e: Event)
    requires Counted(s) && AllDistinct(s.data) && Allowed(max, s, e) && !e.Boot?
    ensures AllDistinct(After(max, s, e).data)
  {
    match e
    case Add(row, drops) =>
      UpsertedDistinct(s.data, row);
      UpsertedTotal(s.data, row);
      hide Upserted, AllDistinct;
      if Appends(s.data, row) { TrimmedDistinct(max, Upserted(s.data, row), s.total + 1, drops); }
    case Prune(cutoff) =>
      PrunedTails(s.data, cutoff);
      TailsDistinct(Pruned(s.data, cutoff), s.data);
  }

  /** An Add upserts the row into its rule; the trim leaves a tail of every rule, and all of it when nothing is dropped. */
  lemma AddKeepsTails(max: int, s: Store, row: Row, drops: seq<Drop>)
    requires Counted(s) && Allowed(max, s, Event.Add(row, drops))
    ensures Tails(After(max, s, Event.Add(row, drops)).data, Upserted(s.data, row))
    ensures drops == [] ==> After(max, s, Event.Add(row, drops)).data == Upserted(s.data, row)
  {
    UpsertedTotal(s.data, row);
    hide Upserted, Total, NoEmpty;
    var m := Upserted(s.data, row);
    if !Appends(s.data, row) {
    } else if max >= 0 {
      TrimExact(m, drops, Excess(max, s.total + 1));
    } else {
      TrimAll(m, drops, Excess(max, s.total + 1));
    }
  }

  /** The rule of the row has it put in by group and window; other rules are as before; then rows leave from the fronts. */
  ghost predicate PutIn(before: Rows, after: Rows, row: Row, drops: seq<Drop>) {
    exists m: Rows :: m.Keys == before.Keys + {RuleOf(row)} && PutByPair(Of(before, RuleOf(row)), m[RuleOf(row)], row)
      && (forall r :: r in before && r != RuleOf(row) ==> m[r] == before[r])
      && Tails(after, m) && (drops == [] ==> after == m)
  }

  lemma AddByPair(max: int, s: Store, row: Row, drops: seq<Drop>)
    requires Counted(s) && Allowed(max, s, Event.Add(row, drops)) && Clear(Of(s.data, RuleOf(row)), row)
    ensures PutIn(s.data, After(max, s, Event.Add(row, drops)).data, row, drops)
  {
    hide After, Allowed, Counted, Tails, PutByPair, Upsert, Clear;
    AddKeepsTails(max, s, row, drops);
    UpsertByPair(Of(s.data, RuleOf(row)), row);
    var m := Upserted(s.data, row);
    assert m.Keys == s.data.Keys + {RuleOf(row)};
  }

  lemma TrimmedDistinct(max: int, m: Rows, total: int, drops: seq<Drop>)
    requires NoEmpty(m) && total == Total(m) && AllDistinct(m) && Greedy(m, drops, Excess(max, total))
    ensures AllDistinct(Trimmed(m, drops, Excess(max, total)))
  {
    hide AllDistinct, Greedy, Trimmed, Total, NoEmpty, Tails;
    if max >= 0 {
      TrimExact(m, drops, Excess(max, total));
      TailsDistinct(Trimmed(m, drops, Excess(max, total)), m);
    } else {
      TrimAll(m, drops, Excess(max, total));
      NoRulesDistinct();
    }
  }

  lemma NoRulesDistinct()
    ensures AllDistinct(map[])
  {
  }

  /** Keys stay distinct per rule over every run of adds and prunes that starts with distinct keys. */
  lemma {:induction false} RunKeepsDistinct(max: int, s: Store, es: seq<Event>, t: Tally)
    requires Counted(s) && AllDistinct(s.data) && AllowedRun(max, s, es) && forall i :: 0 <= i < |es| ==> !es[i].Boot?
    ensures AllDistinct(RunTally(max, s, es, t).0.data)
    decreases |es|
  {
    if es != [] {
      StepCounts(max, s, es[0]);
      StepKeepsDistinct(max, s, es[0]);
      hide Allowed, After, Counted, Tallied, AllDistinct;
      RunKeepsDistinct(max, After(max, s, es[0]), es[1..], Tallied(max, s, es[0], t));
    }
  }
}
