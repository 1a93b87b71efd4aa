/** runHistoricalAnalysisImpl and runHistoricalBreakdownImpl (internal/services/duckdb.go): a rule becomes
    one query text and one parameter list. The placeholders of the WHERE clause meet the parameters built for them, and
    the engine sees them all exactly when the HAVING text in front leaves no block comment open
    (HistoricalQuery.LivePlaceholders). */
module QueryAssembly {
  import opened Prelude
  import opened Text
  import opened SqlLexer
  import opened SqlGrammar
  import opened FilterCompiler
  import opened FilterLexing
  import opened FilterMeaning
  import FilterBuilder
  import opened HavingGuard

  // ------------------------------------------------------------- the WHERE clause

  const WINDOW_FIELD := "event_timestamp"

  /** `try_cast(event_timestamp AS TIMESTAMP) op try_cast(? AS TIMESTAMP)` */
  function TimeBound(op: string): string {
    FilterBuilder.CastFormat("try_cast", WINDOW_FIELD, "TIMESTAMP") + " " + op + " "
    + FilterBuilder.CastFormat("try_cast", "?", "TIMESTAMP")
  }

  /** The search condition: both time bounds, then the compiled filter after `AND ` if there is one. */
  function WhereText(gap: string, filter: string): string {
    TimeBound(">=") + gap + "AND " + TimeBound("<=") + gap + (if filter == "" then "" else "AND " + filter)
  }

  function BoundLeaf(op: string, v: Json): Leaf { Leaf(CompareTime(op), false, WINDOW_FIELD, [v]) }

  lemma WindowFieldWord()
    ensures FoldsTo(WINDOW_FIELD, WINDOW_FIELD) && IsIdentifier(WINDOW_FIELD) && '?' !in WINDOW_FIELD
  {
    hide Fold, AllWordChars;
    EventWord();
    TimestampNameWord();
    FoldsJoin("event_", "event_", "timestamp", "timestamp", WINDOW_FIELD, WINDOW_FIELD);
  }

  lemma EventWord()
    ensures FoldsTo("event_", "event_")
  {
  }

  lemma TimestampNameWord()
    ensures FoldsTo("timestamp", "timestamp")
  {
    assert FoldsTo("time", "time") && FoldsTo("stamp", "stamp");
    FoldsJoin("time", "time", "stamp", "stamp", "timestamp", "timestamp");
  }

  lemma BoundIsLeaf(op: string, v: Json)
    requires op in {">=", "<="}
    ensures GoodLeaf(BoundLeaf(op, v)) && TimeBound(op) == PlanText(Condition(BoundLeaf(op, v)))
  {
    hide Fold, AllWordChars, FilterBuilder.CastFormat, ShapeText;
    WindowFieldWord();
    FilterBuilder.TimeComparisonText(op, WINDOW_FIELD, [v]);
  }

  function FilterParts(env: Env, node: Json): (ps: seq<Plan>)
    requires env.codes != []
    ensures GoodPlans(ps)
  {
    PruneGood(env, node);
    match Prune(env, node) case Some(p) => [p] case None => []
  }

  /** The conjuncts of the WHERE clause: the two time bounds and what is left of the filter. */
  function Conjuncts(env: Env, node: Json, from: string, to: string): (ps: seq<Plan>)
    requires env.codes != []
  {
    [Condition(BoundLeaf(">=", Str(from))), Condition(BoundLeaf("<=", Str(to)))] + FilterParts(env, node)
  }

  lemma ConjunctsGood(env: Env, node: Json, from: string, to: string)
    requires env.codes != []
    ensures GoodPlans(Conjuncts(env, node, from, to))
    ensures AllParams(Conjuncts(env, node, from, to)) == [Str(from), Str(to)] + Compiled(env, node).1
  {
    hide GoodLeaf, Prune, PlanText;
    BoundIsLeaf(">=", Str(from));
    BoundIsLeaf("<=", Str(to));
    PruneGood(env, node);
    var lo, hi, ps := Condition(BoundLeaf(">=", Str(from))), Condition(BoundLeaf("<=", Str(to))), FilterParts(env, node);
    PairThen(lo, hi, ps);
    assert PlanParams(lo) == [Str(from)] && PlanParams(hi) == [Str(to)];
    if ps != [] { assert ps[1..] == []; }
    assert AllParams(ps) == Compiled(env, node).1;
  }

  lemma PairThen(lo: Plan, hi: Plan, ps: seq<Plan>)
    requires GoodPlan(lo) && GoodPlan(hi) && GoodPlans(ps)
    ensures GoodPlans([lo, hi] + ps) && AllParams([lo, hi] + ps) == PlanParams(lo) + PlanParams(hi) + AllParams(ps)
  {
    hide GoodPlan, PlanParams;
    assert ([lo, hi] + ps)[1..] == [hi] + ps && ([hi] + ps)[1..] == ps;
  }

  predicate Gap(s: string) { s != "" && forall i :: 0 <= i < |s| ==> SqlLexer.IsBlank(s[i]) }

  lemma {:induction false} ReadsGap(gap: string, rest: string, ts: seq<Token>, t: string)
    requires (forall i :: 0 <= i < |gap| ==> SqlLexer.IsBlank(gap[i])) && Reads(rest, ts, t)
    ensures Reads(gap + rest, ts, t)
  {
    hide Lex;
    if gap == "" {
      assert gap + rest == rest;
    } else {
      ReadsGap(gap[1..], rest, ts, t);
      var b := [gap[0]];
      assert (gap + rest) + t == b + ((gap[1..] + rest) + t);
      LexBlank(b, (gap[1..] + rest) + t);
    }
  }

  /** `AND ` and a conjunct, after any white space. */
  lemma ReadsConjunct(gap: string, rest: string, ts: seq<Token>, t: string)
    requires Gap(gap) && Reads(rest, ts, t)
    ensures Reads(gap + ("AND" + (" " + rest)), [LogicToken(false)] + ts, t)
  {
    hide Lex, Reads, Fold, AllWordChars;
    FixedWords();
    ReadsBlank(rest, ts, t);
    ReadsWord("AND", "and", " " + rest, ts, t);
    ReadsGap(gap, "AND" + (" " + rest), [LogicToken(false)] + ts, t);
  }

  /** The WHERE text reads as its conjuncts joined by AND. */
  lemma ReadsWhere(env: Env, node: Json, from: string, to: string, gap: string, t: string)
    requires env.codes != [] && Gap(gap) && Apart(t)
    requires GoodPlans(Conjuncts(env, node, from, to))
    ensures Reads(WhereText(gap, Compiled(env, node).0), PartTokens(false, Conjuncts(env, node, from, to)), t)
  {
    hide Lex, Reads, GoodLeaf, Prune, TimeBound, PlanTokens, PlanText, BoundLeaf, Fold, AllWordChars;
    var ps := Conjuncts(env, node, from, to);
    var lo, hi := ps[0], ps[1];
    BoundIsLeaf(">=", Str(from));
    BoundIsLeaf("<=", Str(to));
    PruneGood(env, node);
    match Prune(env, node) {
      case Some(p) =>
        FilterBuilder.PartNotEmpty(p);
        var frag := PlanText(p);
        ReadsPlan(p, t);
        ReadsConjunct(gap, frag, PlanTokens(p), t);
        var tail, tailT := gap + ("AND" + (" " + frag)), [LogicToken(false)] + PlanTokens(p);
        ReadsBoundThen(hi, tail, tailT, gap, t);
        ReadsBoundFirst(lo, gap + ("AND" + (" " + (PlanText(hi) + tail))), [LogicToken(false)] + (PlanTokens(hi) + tailT), t);
        WhereLayout(gap, PlanText(lo), PlanText(hi), frag);
        assert ps == [lo, hi, p] && ps[1..] == [hi, p] && ps[1..][1..] == [p];
        assert PartTokens(false, [p]) == PlanTokens(p);
        assert PartTokens(false, [hi, p]) == PlanTokens(hi) + tailT;
        assert PartTokens(false, ps) == PlanTokens(lo) + ([LogicToken(false)] + PartTokens(false, ps[1..]));
      case None =>
        EndOfWhere(hi, gap, t);
        ReadsBoundFirst(lo, gap + ("AND" + (" " + (PlanText(hi) + gap))), [LogicToken(false)] + PlanTokens(hi), t);
        WhereLayout(gap, PlanText(lo), PlanText(hi), "");
        assert ps == [lo, hi] && ps[1..] == [hi];
    }
  }

  lemma ReadsBoundFirst(lo: Plan, tail: string, tailT: seq<Token>, t: string)
    requires GoodPlan(lo) && Reads(tail, tailT, t) && Apart(tail + t)
    ensures Reads(PlanText(lo) + tail, PlanTokens(lo) + tailT, t)
  {
    hide Lex, Reads, GoodPlan, PlanText, PlanTokens;
    ReadsPlan(lo, tail + t);
    ReadsJoin(PlanText(lo), PlanTokens(lo), tail, tailT, t);
  }

  lemma WhereLayout(gap: string, lo: string, hi: string, frag: string)
    ensures lo + gap + "AND " + hi + gap + ("AND " + frag) == lo + (gap + ("AND" + (" " + (hi + (gap + ("AND" + (" " + frag)))))))
    ensures lo + gap + "AND " + hi + gap + "" == lo + (gap + ("AND" + (" " + (hi + gap))))
  {
  }

  lemma ReadsBoundThen(hi: Plan, tail: string, tailT: seq<Token>, gap: string, t: string)
    requires GoodPlan(hi) && Gap(gap) && Reads(tail, tailT, t) && gap <= tail
    ensures Reads(gap + ("AND" + (" " + (PlanText(hi) + tail))), [LogicToken(false)] + (PlanTokens(hi) + tailT), t)
    ensures Apart(gap + ("AND" + (" " + (PlanText(hi) + tail))) + t)
  {
    hide Lex, Reads, GoodPlan, PlanText, PlanTokens;
    assert tail[0] == gap[0] && SqlLexer.IsBlank(gap[0]) && Apart(tail + t);
    ReadsPlan(hi, tail + t);
    ReadsJoin(PlanText(hi), PlanTokens(hi), tail, tailT, t);
    ReadsConjunct(gap, PlanText(hi) + tail, PlanTokens(hi) + tailT, t);
  }

  lemma EndOfWhere(hi: Plan, gap: string, t: string)
    requires GoodPlan(hi) && Gap(gap)
    ensures Reads(gap + ("AND" + (" " + (PlanText(hi) + gap))), [LogicToken(false)] + PlanTokens(hi), t)
    ensures Apart(gap + ("AND" + (" " + (PlanText(hi) + gap))) + t)
  {
    hide Lex, Reads, GoodPlan, PlanText, PlanTokens;
    ReadsNothing(t);
    ReadsGap(gap, "", [], t);
    assert gap + "" == gap;
    ReadsBoundThen(hi, gap, [], gap, t);
    assert PlanTokens(hi) + [] == PlanTokens(hi);
  }

  // ------------------------------------------------------------- its parse and its meaning

  /** A chain of AND parts consumes exactly its own tokens, whatever follows: no bare OR escapes from it. */
  lemma {:induction false} ParseConjuncts(reserved: set<string>, acc: Sql, ps: seq<Plan>, rest: seq<Token>)
    requires Dialect(reserved) && GoodPlans(ps) && !At(rest, Word("is"))
    ensures ParseAndTail(reserved, acc, TailTokens(false, ps) + rest)
            == if AllColumns(ps) !! reserved then ParseAndTail(reserved, Chain(false, acc, ps), rest) else None
    decreases ps
  {
    hide Dialect, GoodPlan, PlanTokens, PartTokens, ParseFactor, PlanTree, Columns;
    if ps == [] {
      assert TailTokens(false, ps) + rest == rest;
    } else {
      var ts := TailTokens(false, ps) + rest;
      var after := TailTokens(false, ps[1..]) + rest;
      assert ts[0] == Word("and") && ts[1..] == PartTokens(false, ps) + rest;
      PartsSplit(false, ps, rest);
      assert !At(after, Word("is")) by { assert ps[1..] == [] ==> after == rest; }
      ParsePlan(reserved, ps[0], after);
      ParseConjuncts(reserved, And(acc, PlanTree(ps[0])), ps[1..], rest);
    }
  }

  lemma ParseConjunction(reserved: set<string>, ps: seq<Plan>, rest: seq<Token>)
    requires Dialect(reserved) && ps != [] && GoodPlans(ps) && !At(rest, Word("is"))
    ensures ParseAnd(reserved, PartTokens(false, ps) + rest)
            == if AllColumns(ps) !! reserved then ParseAndTail(reserved, PartsTree(false, ps), rest) else None
  {
    hide Dialect, GoodPlan, PlanTokens, PartTokens, ParseFactor, PlanTree, Columns, ParseAndTail;
    var after := TailTokens(false, ps[1..]) + rest;
    PartsSplit(false, ps, rest);
    assert !At(after, Word("is")) by { assert ps[1..] == [] ==> after == rest; }
    ParsePlan(reserved, ps[0], after);
    ParseConjuncts(reserved, PlanTree(ps[0]), ps[1..], rest);
  }

  /** The row's event time lies between the bounds, and the filter tree holds if anything is left of it. */
  ghost function WhereTruth(env: Env, eng: Engine, node: Json, from: string, to: string): Truth {
    var at := eng.cell(WINDOW_FIELD);
    var bounds := TruthAnd(TruthNot(Less(eng.timeOrder(at, Str(from)))), TruthNot(Greater(eng.timeOrder(at, Str(to)))));
    match Meaning(env, eng, node) case Some(v) => TruthAnd(bounds, v) case None => bounds
  }

  lemma ConjunctsTruth(env: Env, eng: Engine, node: Json, from: string, to: string)
    requires env.codes != []
    ensures Conjunction(PlanTruths(eng, Conjuncts(env, node, from, to))) == WhereTruth(env, eng, node, from, to)
    ensures AllColumns(Conjuncts(env, node, from, to)) == {WINDOW_FIELD} + FilterColumns(env, node)
  {
    hide GoodLeaf, Prune, PlanTruth, Meaning, Equal, Less, Greater, Columns, PlanTruths, Conjunction, AllColumns;
    var ps := Conjuncts(env, node, from, to);
    PruneMeaning(env, eng, node);
    var lo, hi, fs := ps[0], ps[1], FilterParts(env, node);
    BoundTruth(eng, ">=", from);
    BoundTruth(eng, "<=", to);
    PairTruth(eng, lo, hi, fs);
    match Prune(env, node)
    case Some(p) => SingleTruth(eng, p);
    case None => NoTruths(eng);
  }

  lemma PairTruth(eng: Engine, lo: Plan, hi: Plan, ps: seq<Plan>)
    ensures Conjunction(PlanTruths(eng, [lo, hi] + ps))
            == TruthAnd(TruthAnd(PlanTruth(eng, lo), PlanTruth(eng, hi)), Conjunction(PlanTruths(eng, ps)))
    ensures AllColumns([lo, hi] + ps) == Columns(lo) + Columns(hi) + AllColumns(ps)
  {
    hide PlanTruth, Columns;
    var a, b, vs := PlanTruth(eng, lo), PlanTruth(eng, hi), PlanTruths(eng, ps);
    assert ([lo, hi] + ps)[1..] == [hi] + ps && ([hi] + ps)[1..] == ps;
    assert PlanTruths(eng, [hi] + ps) == [b] + vs && PlanTruths(eng, [lo, hi] + ps) == [a] + ([b] + vs);
    assert ([a] + ([b] + vs))[1..] == [b] + vs && ([b] + vs)[1..] == vs;
    assert Conjunction([b] + vs) == TruthAnd(b, Conjunction(vs));
  }

  lemma SingleTruth(eng: Engine, p: Plan)
    ensures Conjunction(PlanTruths(eng, [p])) == PlanTruth(eng, p) && AllColumns([p]) == Columns(p)
  {
    hide PlanTruth, Columns;
    assert [p][1..] == [] && PlanTruths(eng, [p]) == [PlanTruth(eng, p)] && [PlanTruth(eng, p)][1..] == [];
  }

  lemma NoTruths(eng: Engine)
    ensures Conjunction(PlanTruths(eng, [])) == Yes && AllColumns([]) == {}
  {
  }

  lemma BoundTruth(eng: Engine, op: string, v: string)
    requires op in {">=", "<="}
    ensures PlanTruth(eng, Condition(BoundLeaf(op, Str(v))))
            == var o := eng.timeOrder(eng.cell(WINDOW_FIELD), Str(v));
               TruthNot(if op == ">=" then Less(o) else Greater(o))
    ensures Columns(Condition(BoundLeaf(op, Str(v)))) == {WINDOW_FIELD}
  {
  }

  /** The syntax tree of the WHERE clause. */
  function WhereTree(env: Env, node: Json, from: string, to: string): Sql
    requires env.codes != []
  {
    ConjunctsGood(env, node, from, to);
    PartsTree(false, Conjuncts(env, node, from, to))
  }

  /** Spliced in front of any text `t`, the WHERE clause parses as one conjunction and leaves `t` as it is:
      no OR of the filter escapes. It does so exactly when no column is a reserved word. */
  lemma WhereParses(env: Env, reserved: set<string>, node: Json, from: string, to: string,
                    gap: string, t: string, rest: seq<Token>)
    requires env.codes != [] && Dialect(reserved) && Gap(gap)
    requires Apart(t) && Lex(t) == Some(rest) && !At(rest, Word("is"))
    ensures var text := Lex(WhereText(gap, Compiled(env, node).0) + t);
            && text.Some?
            && ParseAnd(reserved, text.value)
               == if {WINDOW_FIELD} + FilterColumns(env, node) !! reserved
                  then ParseAndTail(reserved, WhereTree(env, node, from, to), rest) else None
  {
    hide Lex, GoodPlan, Prune, PlanTree, PlanParams, PartTokens, PartsTree, WhereText, Dialect, FilterColumns,
         ParseAnd, ParseAndTail, Gap, Apart, Compiled, Conjuncts, AllColumns;
    var ps := Conjuncts(env, node, from, to);
    assert ps != [] by { ConjunctsSome(env, node, from, to); }
    ConjunctsGood(env, node, from, to);
    ReadsWhere(env, node, from, to, gap, t);
    ParseConjunction(reserved, ps, rest);
    ConjunctsColumns(env, node, from, to);
  }

  lemma ConjunctsSome(env: Env, node: Json, from: string, to: string)
    requires env.codes != []
    ensures |Conjuncts(env, node, from, to)| >= 2
  {
  }

  lemma ConjunctsColumns(env: Env, node: Json, from: string, to: string)
    requires env.codes != []
    ensures AllColumns(Conjuncts(env, node, from, to)) == {WINDOW_FIELD} + FilterColumns(env, node)
  {
    var eng := Engine(c => Null, (a, b) => None, (a, b) => None, (a, b) => No, (a, b) => No, (a, b) => No, (a, b) => No);
    ConjunctsTruth(env, eng, node, from, to);
  }

  /** Its marks take the two bounds and then the filter's parameters, each the one it was built for. */
  lemma WhereEvaluates(env: Env, eng: Engine, node: Json, from: string, to: string)
    requires env.codes != []
    ensures var e, params := WhereTree(env, node, from, to), [Str(from), Str(to)] + Compiled(env, node).1;
            MarkCount(e) == |params| && Eval(eng, e, params) == WhereTruth(env, eng, node, from, to)
  {
    hide GoodLeaf, PlanTruth, PlanTruths, Conjunction, WhereTruth, Compiled, Conjuncts, Eval, MarkCount, AllParams, PartsTree;
    var ps := Conjuncts(env, node, from, to);
    ConjunctsGood(env, node, from, to);
    ConjunctsSome(env, node, from, to);
    ConjunctsTruth(env, eng, node, from, to);
    GroupTree(ps);
    EvalPlan(eng, Group(false, ps));
    GroupTruth(eng, ps);
  }

  lemma GroupTree(ps: seq<Plan>)
    requires |ps| >= 2 && GoodPlans(ps)
    ensures GoodPlan(Group(false, ps))
    ensures PlanTree(Group(false, ps)) == PartsTree(false, ps) && PlanParams(Group(false, ps)) == AllParams(ps)
  {
  }

  lemma GroupTruth(eng: Engine, ps: seq<Plan>)
    ensures PlanTruth(eng, Group(false, ps)) == Conjunction(PlanTruths(eng, ps))
  {
  }

  // ------------------------------------------------------------- placeholder counts

  lemma {:induction false} MarksOfMarks(n: nat)
    requires n >= 1
    ensures Marks(MarksText(n)) == n
  {
    if n == 1 {
      MarksConcat("?", ")");
    } else {
      MarksOfMarks(n - 1);
      MarksConcat(" ", MarksText(n - 1));
      MarksConcat(",", " " + MarksText(n - 1));
      MarksConcat("?", "," + (" " + MarksText(n - 1)));
    }
  }

  /** One `?` between two pieces of text that have none. */
  lemma OneMark(a: string, b: string)
    requires '?' !in a && '?' !in b
    ensures Marks(a + ("?" + b)) == 1
  {
    NoMarks(a);
    NoMarks(b);
    MarksConcat("?", b);
    MarksConcat(a, "?" + b);
  }

  lemma CastMarks(fn: string, x: string, ty: string, rest: string)
    requires '?' !in fn && '?' !in ty
    ensures Marks(CastText(fn, x, ty, rest)) == Marks(x) + Marks(rest)
  {
    hide Marks;
    var tail := " " + ("AS" + (" " + (ty + (")" + rest))));
    var head := " " + ("AS" + (" " + (ty + ")")));
    assert tail == head + rest && CastText(fn, x, ty, rest) == (fn + "(") + (x + tail);
    NoMarks(head);
    NoMarks(fn + "(");
    MarksConcat(head, rest);
    MarksConcat(x, tail);
    MarksConcat(fn + "(", x + tail);
  }

  lemma CallNameFree(fn: string)
    requires fn in CASTED_CALLS || fn in PLAIN_CALLS
    ensures '?' !in fn
  {
    assert forall f | f in {"contains", "starts_with", "ends_with", "regexp_matches"} :: '?' !in f;
  }

  lemma ShapeMarks(l: Leaf)
    requires GoodLeaf(l)
    ensures Marks(ShapeText(l)) == |l.args|
  {
    hide Marks, CastText, IsIdentifier, MarksText;
    match l.shape
    case Compare(op) =>
      assert ShapeText(l) == (l.col + (" " + (op + " "))) + ("?" + "");
      assert '?' !in op;
      OneMark(l.col + (" " + (op + " ")), "");
    case InList =>
      assert ShapeText(l) == (l.col + (" " + ("IN" + (" " + "(")))) + MarksText(|l.args|);
      NoMarks(l.col + (" " + ("IN" + (" " + "("))));
      MarksOfMarks(|l.args|);
      MarksConcat(l.col + (" " + ("IN" + (" " + "("))), MarksText(|l.args|));
    case Call(fn, casted) =>
      CallNameFree(fn);
      if casted {
        NoMarks(")");
        NoMarks(l.col);
        NoMarks("," + " ");
        NoMarks(fn + "(");
        var mark := CastText("CAST", "?", "VARCHAR", ")");
        OneMark("", "");
        assert "" + ("?" + "") == "?";
        CastMarks("CAST", "?", "VARCHAR", ")");
        MarksConcat("," + " ", mark);
        assert ("," + " ") + mark == "," + (" " + mark);
        CastMarks("CAST", l.col, "VARCHAR", "," + (" " + mark));
        var arg := CastText("CAST", l.col, "VARCHAR", "," + (" " + mark));
        MarksConcat(fn + "(", arg);
        assert ShapeText(l) == (fn + "(") + arg;
      } else {
        assert ShapeText(l) == (fn + ("(" + (l.col + ("," + " ")))) + ("?" + ")");
        OneMark(fn + ("(" + (l.col + ("," + " "))), ")");
      }
    case NullTest(_) => NoMarks(ShapeText(l));
    case CompareTime(op) =>
      NoMarks(l.col);
      NoMarks("");
      assert '?' !in op;
      NoMarks(" " + (op + " "));
      OneMark("", "");
      assert "" + ("?" + "") == "?";
      var mark := CastText("try_cast", "?", "TIMESTAMP", "");
      CastMarks("try_cast", "?", "TIMESTAMP", "");
      MarksConcat(" " + (op + " "), mark);
      assert (" " + (op + " ")) + mark == " " + (op + (" " + mark));
      CastMarks("try_cast", l.col, "TIMESTAMP", " " + (op + (" " + mark)));
  }

  lemma LeafMarks(l: Leaf)
    requires GoodLeaf(l)
    ensures Marks(LeafText(l)) == |l.args|
  {
    hide Marks, ShapeText;
    ShapeMarks(l);
    if l.negated {
      NoMarks("NOT" + " ");
      MarksConcat("NOT" + " ", ShapeText(l));
      assert ("NOT" + " ") + ShapeText(l) == LeafText(l);
    }
  }

  /** A fragment offers as many placeholders as it has parameters. */
  lemma {:induction false} PlanMarks(p: Plan)
    requires GoodPlan(p)
    ensures Marks(PlanText(p)) == |PlanParams(p)|
    decreases p, 1
  {
    hide Marks, GoodLeaf, LeafText;
    match p
    case Condition(l) => LeafMarks(l);
    case Group(isOr, parts) =>
      PartsMarks(isOr, parts);
      NoMarks("(");
      NoMarks(")");
      MarksConcat(PartsText(isOr, parts), ")");
      MarksConcat("(", PartsText(isOr, parts) + ")");
  }

  lemma {:induction false} PartsMarks(isOr: bool, ps: seq<Plan>)
    requires ps != [] && GoodPlans(ps)
    ensures Marks(PartsText(isOr, ps)) == |AllParams(ps)|
    decreases ps, 0
  {
    hide Marks, GoodPlan, PlanText, PlanParams;
    PlanMarks(ps[0]);
    if |ps| > 1 {
      PartsMarks(isOr, ps[1..]);
      var link, rest := " " + (LogicText(isOr) + " "), PartsText(isOr, ps[1..]);
      NoMarks(link);
      MarksConcat(link, rest);
      MarksConcat(PlanText(ps[0]), link + rest);
      assert link + rest == " " + (LogicText(isOr) + (" " + rest));
    } else {
      assert ps[1..] == [];
    }
  }
}
