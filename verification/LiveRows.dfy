/** The live store seen as values: per-rule row lists, the linear-scan upsert, the trim, the prune and the bootstrap
    (internal/services/livestore.go). The class in LiveStore.dfy is proved against these. */
module LiveRows {
  import opened Prelude

  /** A result row. `ruleId` and `groupKey` are "" when absent or not text; `windowStart` is the value as `%v`
      prints it and `time` what parseWindowStart makes of it; `body` stands for every other field. */
  datatype Row = Row(ruleId: string, groupKey: string, windowStart: string, time: Option<int>, body: int)

  const NUL: char := 0 as char

  function RuleOf(row: Row): (r: string)
    ensures r == if row.ruleId != "" then row.ruleId else "unknown"
  {
    if row.ruleId == "" then "unknown" else row.ruleId
  }

  /** rowCompositeKey */
  function Key(row: Row): string { row.groupKey + [NUL] + row.windowStart }

  type Rows = map<string, seq<Row>>

  function Of(m: Rows, rule: string): seq<Row> { if rule in m then m[rule] else [] }

  /** The scan the index replaces: the last position holding this key. */
  function LastAt(rows: seq<Row>, k: string): (r: Option<nat>)
    ensures r.Some? ==> r.value < |rows| && Key(rows[r.value]) == k
    ensures r.Some? ==> forall i :: r.value < i < |rows| ==> Key(rows[i]) != k
    ensures r.None? ==> forall i :: 0 <= i < |rows| ==> Key(rows[i]) != k
  {
    if rows == [] then None
    else if Key(rows[|rows| - 1]) == k then Some(|rows| - 1)
    else LastAt(rows[..|rows| - 1], k)
  }

  /** What a scan for the last matching row does: replace it in place, or append. */
  function Upsert(rows: seq<Row>, row: Row): seq<Row> {
    match LastAt(rows, Key(row))
    case Some(i) => rows[i := row]
    case None => rows + [row]
  }

  /** rebuildRuleIndex: later rows overwrite earlier ones. */
  function IndexOf(rows: seq<Row>): map<string, nat> {
    if rows == [] then map[]
    else IndexOf(rows[..|rows| - 1])[Key(rows[|rows| - 1]) := |rows| - 1]
  }

  /** The index holds exactly the keys that occur, each at its last position. */
  lemma {:induction false} IndexIsScan(rows: seq<Row>, k: string)
    ensures k in IndexOf(rows) <==> LastAt(rows, k).Some?
    ensures k in IndexOf(rows) ==> LastAt(rows, k) == Some(IndexOf(rows)[k])
  {
    if rows != [] { IndexIsScan(rows[..|rows| - 1], k); }
  }

  /** Replacing a row by one with the same key leaves the index as it is. */
  lemma {:induction false} IndexKept(rows: seq<Row>, i: nat, row: Row)
    requires i < |rows| && Key(rows[i]) == Key(row)
    ensures IndexOf(rows[i := row]) == IndexOf(rows)
  {
    var n := |rows| - 1;
    if i == n {
      assert rows[i := row][..n] == rows[..n];
    } else {
      assert rows[i := row][..n] == rows[..n][i := row];
      IndexKept(rows[..n], i, row);
    }
  }

  lemma IndexGrows(rows: seq<Row>, row: Row)
    ensures IndexOf(rows + [row]) == IndexOf(rows)[Key(row) := |rows|]
  {
    assert (rows + [row])[..|rows|] == rows;
  }

  predicate Distinct(rows: seq<Row>) { forall i, j :: 0 <= i < j < |rows| ==> Key(rows[i]) != Key(rows[j]) }

  /** Upserts keep the keys of a rule distinct. */
  lemma UpsertKeepsDistinct(rows: seq<Row>, row: Row)
    requires Distinct(rows)
    ensures Distinct(Upsert(rows, row))
  {
  }

  // ------------------------------------------------------------- the composite key

  /** One window text ends with a NUL and then the other: the only way two keys can be confused. */
  predicate NulSuffix(w: string, v: string) { |v| < |w| && w[|w| - |v| - 1] == NUL && w[|w| - |v|..] == v }

  /** Two window texts can be confused under some group keys exactly when one is a NUL-suffix of the other;
      in particular never when neither contains a NUL. */
  lemma KeyCollision(w: string, v: string)
    ensures (exists g, h: string :: g + [NUL] + w == h + [NUL] + v && (g, w) != (h, v)) <==> NulSuffix(w, v) || NulSuffix(v, w)
    ensures NUL !in w && NUL !in v ==> !NulSuffix(w, v) && !NulSuffix(v, w)
  {
    if exists g, h: string :: g + [NUL] + w == h + [NUL] + v && (g, w) != (h, v) {
      var g, h: string :| g + [NUL] + w == h + [NUL] + v && (g, w) != (h, v);
      if |w| > |v| {
        CollisionSuffix(g, w, h, v);
      } else if |v| > |w| {
        CollisionSuffix(h, v, g, w);
      } else {
        SameLength(g, w, h, v);
      }
    }
    if NulSuffix(w, v) { SuffixCollides(w, v); }
    if NulSuffix(v, w) { SuffixCollides(v, w); }
  }

  lemma CollisionSuffix(g: string, w: string, h: string, v: string)
    requires g + [NUL] + w == h + [NUL] + v && |w| > |v|
    ensures NulSuffix(w, v)
  {
    var s, d := g + [NUL] + w, |w| - |v|;
    assert s[|h|] == NUL && s[|h| + 1..] == v;
    assert w == s[|g| + 1..];
    assert w[d - 1] == s[|g| + d] && |g| + d == |h|;
    assert w[d..] == s[|g| + 1..][d..] == s[|h| + 1..];
  }

  lemma SameLength(g: string, w: string, h: string, v: string)
    requires g + [NUL] + w == h + [NUL] + v && |w| == |v|
    ensures g == h && w == v
  {
    var s := g + [NUL] + w;
    assert g == s[..|g|] && h == s[..|h|] && w == s[|g| + 1..] && v == s[|h| + 1..];
  }

  lemma SuffixCollides(w: string, v: string)
    requires NulSuffix(w, v)
    ensures exists g, h: string :: g + [NUL] + w == h + [NUL] + v && (g, w) != (h, v)
    ensures exists g, h: string :: h + [NUL] + v == g + [NUL] + w && (h, v) != (g, w)
  {
    var d := |w| - |v|;
    var g, h: string := "", [NUL] + w[..d - 1];
    assert w == w[..d - 1] + [NUL] + v;
    assert g + [NUL] + w == h + [NUL] + v;
    assert (g, w) != (h, v);
    assert h + [NUL] + v == g + [NUL] + w && (h, v) != (g, w);
  }

  // ------------------------------------------------------------- rows by group and window

  predicate SamePair(x: Row, y: Row) { x.groupKey == y.groupKey && x.windowStart == y.windowStart }

  predicate Confusable(x: Row, y: Row) { NulSuffix(x.windowStart, y.windowStart) || NulSuffix(y.windowStart, x.windowStart) }

  /** Two rows share a key exactly when they are of one group and one window, unless a NUL makes their windows confusable. */
  lemma KeyIsPair(x: Row, y: Row)
    ensures SamePair(x, y) ==> Key(x) == Key(y)
    ensures Key(x) == Key(y) ==> SamePair(x, y) || Confusable(x, y)
    ensures NUL !in x.windowStart && NUL !in y.windowStart ==> !Confusable(x, y)
  {
    hide NulSuffix;
    KeyCollision(x.windowStart, y.windowStart);
    if Key(x) == Key(y) { assert x.groupKey + [NUL] + x.windowStart == y.groupKey + [NUL] + y.windowStart; }
  }

  /** The new row's window cannot be confused with that of a held row. */
  predicate Clear(rows: seq<Row>, row: Row) { forall i :: 0 <= i < |rows| ==> !Confusable(rows[i], row) }

  /** The row has taken the place of one of its group and window, or stands at the end when there was none. */
  ghost predicate PutByPair(before: seq<Row>, after: seq<Row>, row: Row) {
    || (exists i :: 0 <= i < |before| && SamePair(before[i], row) && after == before[i := row])
    || (after == before + [row] && forall i :: 0 <= i < |before| ==> !SamePair(before[i], row))
  }

  lemma UpsertByPair(rows: seq<Row>, row: Row)
    requires Clear(rows, row)
    ensures PutByPair(rows, Upsert(rows, row), row)
  {
    hide Key, SamePair, Confusable;
    forall i | 0 <= i < |rows| ensures Key(rows[i]) == Key(row) <==> SamePair(rows[i], row) { KeyIsPair(rows[i], row); }
    match LastAt(rows, Key(row))
    case Some(i) => assert Key(rows[i]) == Key(row);
    case None =>
  }

  predicate DistinctPairs(rows: seq<Row>) { forall i, j :: 0 <= i < j < |rows| ==> !SamePair(rows[i], rows[j]) }

  /** Of a rule's rows an upsert leaves exactly those of another group or another window, and the new one. */
  lemma UpsertIsLatest(rows: seq<Row>, row: Row, x: Row)
    requires Clear(rows, row) && DistinctPairs(rows)
    ensures x in Upsert(rows, row) <==> x == row || (x in rows && !SamePair(x, row))
  {
    hide Upsert, Clear;
    UpsertByPair(rows, row);
    var after := Upsert(rows, row);
    if after == rows + [row] && forall i :: 0 <= i < |rows| ==> !SamePair(rows[i], row) {
    } else {
      var i :| 0 <= i < |rows| && SamePair(rows[i], row) && after == rows[i := row];
      assert after[i] == row;
      if x in rows && !SamePair(x, row) {
        var k :| 0 <= k < |rows| && rows[k] == x;
        assert after[k] == x;
      }
    }
  }

  // ------------------------------------------------------------- row counts

  /** Rows held over all rules. */
  ghost function Total(m: Rows): nat
    decreases |m|
  {
    if m == map[] then 0
    else
      var r :| r in m;
      |m[r]| + Total(m - {r})
  }

  lemma {:induction false} TotalWithout(m: Rows, r: string)
    requires r in m
    ensures Total(m) == |m[r]| + Total(m - {r})
    decreases |m|
  {
    var q :| q in m && Total(m) == |m[q]| + Total(m - {q});
    if q != r {
      TotalWithout(m - {q}, r);
      TotalWithout(m - {r}, q);
      assert (m - {q}) - {r} == (m - {r}) - {q};
    }
  }

  lemma TotalSet(m: Rows, r: string, rows: seq<Row>)
    ensures Total(m[r := rows]) == Total(m - {r}) + |rows|
    ensures Total(m) == Total(m - {r}) + |Of(m, r)|
  {
    TotalWithout(m[r := rows], r);
    assert m[r := rows] - {r} == m - {r};
    if r in m { TotalWithout(m, r); } else { assert m - {r} == m; }
  }

  lemma {:induction false} TotalBounds(m: Rows, r: string)
    ensures |Of(m, r)| <= Total(m)
  {
    TotalSet(m, r, []);
  }

  lemma SomeRow(m: Rows)
    requires Total(m) > 0
    ensures exists r :: r in m && |m[r]| > 0
    decreases |m|
  {
    var r :| r in m && Total(m) == |m[r]| + Total(m - {r});
    if |m[r]| == 0 {
      SomeRow(m - {r});
      var q :| q in m - {r} && |(m - {r})[q]| > 0;
      assert q in m && |m[q]| > 0;
    }
  }
}
