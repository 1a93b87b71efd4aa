/** Compiling a filter tree preserves its meaning: the emitted text, parsed with SQL precedence and
    given its parameters from left to right, has the three-valued truth of the tree. */
module FilterMeaning {
  import opened Prelude
  import opened Text
  import opened SqlLexer
  import opened SqlGrammar
  import opened FilterCompiler
  import opened FilterLexing

  // ------------------------------------------------------------- the tree's own meaning

  predicate Mapped(env: Env, field: string) { field in env.table && env.table[field] != "" }

  /** The name a field of the rule builder stands for: the table's, otherwise the field without its first `_data.`. */
  ghost function FieldName(env: Env, field: string): string {
    if Mapped(env, field) then env.table[field]
    else if exists k: nat :: FirstAt(field, "_data.", k) then
      var k: nat :| FirstAt(field, "_data.", k);
      FirstAtFits(field, "_data.", k);
      field[..k] + field[k + 6..]
    else field
  }

  lemma TranslatedName(env: Env, field: string)
    ensures TranslateField(env, field) == FieldName(env, field)
  {
    hide ReplaceFirst, FirstAt;
    if exists k: nat :: FirstAt(field, "_data.", k) {
      forall k: nat | FirstAt(field, "_data.", k)
        ensures k + 6 <= |field| && ReplaceFirst(field, "_data.", "") == field[..k] + field[k + 6..]
      {
        ReplacedAt(field, "_data.", "", k);
      }
    } else {
      forall k: nat | k <= |field| ensures !("_data." <= field[k..]) {
        if "_data." <= field[k..] { var first := FirstExists(field, "_data.", k); }
      }
      NotReplaced(field, "_data.", "");
    }
  }

  ghost function ConditionMeaning(env: Env, eng: Engine, m: map<string, Json>): Option<Truth> {
    var op := StringField(m, "operator");
    var field := if op == "IS_FINANCIAL_AUA" then "_data.aua" else StringField(m, "field");
    match ValidateIdentifier(env.uni, FieldName(env, field))
    case None => None
    case Some(col) => OperatorMeaning(env, eng, op, eng.cell(col), Value(m), StringField(m, "format"))
  }

  /** What an operator of the rule builder says about a cell `c` and the rule's value `v`. */
  function OperatorMeaning(env: Env, eng: Engine, op: string, c: Json, v: Json, format: string): Option<Truth> {
    if op == "IS_FINANCIAL_AUA" then Some(AnyEqual(eng, c, Strings(env.codes)))
    else if op == "EQUALS" then Some(Equal(eng.order(c, v)))
    else if op == "NOT_EQUALS" then Some(TruthNot(Equal(eng.order(c, v))))
    else if op == "GREATER_THAN" then Some(Greater(eng.order(c, v)))
    else if op == "GREATER_THAN_EQUAL" then Some(TruthNot(Less(eng.order(c, v))))
    else if op == "LESS_THAN" then Some(Less(eng.order(c, v)))
    else if op == "LESS_THAN_EQUAL" then Some(TruthNot(Greater(eng.order(c, v))))
    else if op == "IN" then
      if v.Arr? && v.items != [] then Some(AnyEqual(eng, c, v.items))
      else if v.Str? then Some(AnyEqual(eng, c, Strings(TrimAll(env.uni, Split(v.s, ',')))))
      else None
    else if op == "REGEX" then Some(eng.matches(c, v))
    else if op == "CONTAINS" then Some(eng.contains(c, v))
    else if op == "NOT_CONTAINS" then Some(TruthNot(eng.contains(c, v)))
    else if op == "STARTS_WITH" then Some(eng.startsWith(c, v))
    else if op == "ENDS_WITH" then Some(eng.endsWith(c, v))
    else if op == "IS_NULL" then Some(if c.Null? then Yes else No)
    else if op == "IS_NOT_NULL" then Some(if c.Null? then No else Yes)
    else if op in {"DATE_BEFORE", "DATE_AFTER", "DATE_EQUALS"} && env.date(v, format).Some? then
      var o := eng.timeOrder(c, Str(env.date(v, format).value));
      Some(if op == "DATE_BEFORE" then Less(o) else if op == "DATE_AFTER" then Greater(o) else Equal(o))
    else None
  }

  /** The truth of a filter tree for one row; None when nothing usable is left of it. */
  ghost function Meaning(env: Env, eng: Engine, node: Json): Option<Truth>
    decreases node
  {
    if !node.Obj? then None
    else
      var m := node.fields;
      if StringField(m, "type") == "group" then
        if "conditions" in m && m["conditions"].Arr? then
          var vs := Meanings(env, eng, m["conditions"].items);
          if vs == [] then None
          else if StringField(m, "logic") == "OR" then Some(Disjunction(vs)) else Some(Conjunction(vs))
        else None
      else if StringField(m, "type") == "condition" then ConditionMeaning(env, eng, m)
      else None
  }

  ghost function Meanings(env: Env, eng: Engine, items: seq<Json>): seq<Truth>
    decreases items
  {
    if items == [] then []
    else
      (match Meaning(env, eng, items[0]) case Some(v) => [v] case None => []) + Meanings(env, eng, items[1..])
  }

  // ------------------------------------------------------------- meaning of the pruned tree

  function LeafTruth(eng: Engine, l: Leaf): Truth {
    var v := EvalPred(eng, l.shape, l.col, l.args);
    if l.negated then TruthNot(v) else v
  }

  function PlanTruth(eng: Engine, p: Plan): Truth
    decreases p
  {
    match p
    case Condition(l) => LeafTruth(eng, l)
    case Group(isOr, parts) => if isOr then Disjunction(PlanTruths(eng, parts)) else Conjunction(PlanTruths(eng, parts))
  }

  function PlanTruths(eng: Engine, ps: seq<Plan>): (vs: seq<Truth>)
    ensures |vs| == |ps|
    decreases ps
  {
    if ps == [] then [] else [PlanTruth(eng, ps[0])] + PlanTruths(eng, ps[1..])
  }

  lemma OperatorTruth(env: Env, eng: Engine, m: map<string, Json>, op: string, col: string)
    requires op != "IS_FINANCIAL_AUA"
    ensures match OperatorLeaf(env, m, op, col)
            case Some(l) => OperatorMeaning(env, eng, op, eng.cell(col), Value(m), StringField(m, "format")) == Some(LeafTruth(eng, l))
            case None => OperatorMeaning(env, eng, op, eng.cell(col), Value(m), StringField(m, "format")) == None
  {
    hide AnyEqual, TrimAll, Split, StringField, Value, Equal, Less, Greater;
  }

  lemma ConditionTruth(env: Env, eng: Engine, m: map<string, Json>)
    ensures match LeafOf(env, m)
            case Some(l) => ConditionMeaning(env, eng, m) == Some(LeafTruth(eng, l))
            case None => ConditionMeaning(env, eng, m) == None
  {
    hide OperatorMeaning, OperatorLeaf, ValidateIdentifier, TranslateField, FieldName, LeafTruth, StringField;
    TranslatedName(env, "_data.aua");
    TranslatedName(env, StringField(m, "field"));
    var op := StringField(m, "operator");
    if op == "IS_FINANCIAL_AUA" {
      match ValidateIdentifier(env.uni, TranslateField(env, "_data.aua"))
      case Some(col) => FinancialTruth(env, eng, col, Value(m), StringField(m, "format"));
      case None =>
    } else {
      match ValidateIdentifier(env.uni, TranslateField(env, StringField(m, "field")))
      case Some(col) => OperatorTruth(env, eng, m, op, col);
      case None =>
    }
  }

  lemma FinancialTruth(env: Env, eng: Engine, col: string, v: Json, format: string)
    ensures OperatorMeaning(env, eng, "IS_FINANCIAL_AUA", eng.cell(col), v, format)
            == Some(LeafTruth(eng, Leaf(InList, false, col, Strings(env.codes))))
  {
  }

  /** Dropping unusable conditions, empty groups and one-part groups keeps the meaning. */
  lemma {:induction false} PruneMeaning(env: Env, eng: Engine, node: Json)
    ensures match Prune(env, node)
            case Some(p) => Meaning(env, eng, node) == Some(PlanTruth(eng, p))
            case None => Meaning(env, eng, node) == None
    decreases node
  {
    hide LeafOf, ConditionMeaning, LeafTruth, StringField;
    if node.Obj? {
      var m := node.fields;
      ConditionTruth(env, eng, m);
      if "conditions" in m && m["conditions"].Arr? {
        var items := m["conditions"].items;
        PruneAllMeaning(env, eng, items);
        if PruneAll(env, items) != [] { CollapseTruth(eng, StringField(m, "logic") == "OR", PruneAll(env, items)); }
      }
    }
  }

  lemma CollapseTruth(eng: Engine, isOr: bool, ps: seq<Plan>)
    requires ps != []
    ensures var vs := PlanTruths(eng, ps);
            PlanTruth(eng, Collapse(isOr, ps).value) == if isOr then Disjunction(vs) else Conjunction(vs)
  {
    if |ps| == 1 { assert PlanTruths(eng, ps)[1..] == []; }
  }

  lemma {:induction false} PruneAllMeaning(env: Env, eng: Engine, items: seq<Json>)
    ensures Meanings(env, eng, items) == PlanTruths(eng, PruneAll(env, items))
    decreases items
  {
    hide LeafOf, ConditionMeaning, LeafTruth, StringField;
    if items != [] {
      PruneMeaning(env, eng, items[0]);
      PruneAllMeaning(env, eng, items[1..]);
      var rest := PruneAll(env, items[1..]);
      match Prune(env, items[0])
      case Some(p) => assert ([p] + rest)[0] == p && ([p] + rest)[1..] == rest;
      case None =>
    }
  }

  // ------------------------------------------------------------- parsing the tokens

  /** Reserved words of the dialect: at least the grammar's own, and none of the functions it calls. */
  predicate Dialect(reserved: set<string>) {
    KEYWORDS <= reserved && CASTED_CALLS !! reserved && PLAIN_CALLS !! reserved
  }

  function LeafTree(l: Leaf): Sql {
    var p := Pred(l.shape, l.col, |l.args|);
    if l.negated then Not(p) else p
  }

  function Chain(isOr: bool, acc: Sql, ps: seq<Plan>): Sql
    requires GoodPlans(ps)
    decreases ps, 0
  {
    if ps == [] then acc
    else
      var e := PlanTree(ps[0]);
      Chain(isOr, if isOr then Or(acc, e) else And(acc, e), ps[1..])
  }

  /** The syntax tree of a pruned tree; connectives associate to the left. */
  function PlanTree(p: Plan): Sql
    requires GoodPlan(p)
    decreases p, 1
  {
    match p
    case Condition(l) => LeafTree(l)
    case Group(isOr, parts) => PartsTree(isOr, parts)
  }

  function PartsTree(isOr: bool, ps: seq<Plan>): Sql
    requires ps != [] && GoodPlans(ps)
    decreases ps, 1
  {
    Chain(isOr, PlanTree(ps[0]), ps[1..])
  }

  /** The columns a pruned tree mentions. */
  function Columns(p: Plan): set<string>
    decreases p
  {
    match p
    case Condition(l) => {l.col}
    case Group(_, parts) => AllColumns(parts)
  }

  function AllColumns(ps: seq<Plan>): set<string>
    decreases ps
  {
    if ps == [] then {} else Columns(ps[0]) + AllColumns(ps[1..])
  }

  /** What parsing yields: the tree and the rest, unless a column is a reserved word. */
  function Outcome(reserved: set<string>, cols: set<string>, e: Sql, rest: seq<Token>): Parsed {
    if cols !! reserved then Some((e, rest)) else None
  }

  function One(col: string): set<string> { {col} }

  lemma {:induction false} ParseMarkTokens(n: nat, rest: seq<Token>)
    requires n >= 1
    ensures ParseMarks(MarkTokens(n) + rest) == Some((n, rest))
  {
    var ts := MarkTokens(n) + rest;
    if n == 1 {
      assert ts == [Sym("?"), Sym(")")] + rest;
      assert ts[2..] == rest;
    } else {
      assert ts == [Sym("?"), Sym(",")] + (MarkTokens(n - 1) + rest);
      assert ts[2..] == MarkTokens(n - 1) + rest;
      ParseMarkTokens(n - 1, rest);
    }
  }

  lemma CastPrefix(fn: string, x: Token, ty: string, restT: seq<Token>)
    ensures CastTokens(fn, x, ty, restT) == CastOf(fn, x, ty) + restT
  {
  }

  lemma ParsePlainCall(reserved: set<string>, l: Leaf, rest: seq<Token>)
    requires Dialect(reserved) && GoodLeaf(l) && l.shape.Call? && !l.shape.casted
    ensures ParsePredicate(reserved, ShapeTokens(l) + rest) == Outcome(reserved, One(l.col), Pred(l.shape, l.col, 1), rest)
  {
    hide AllWordChars, Fold, CastOf;
    var fn, ts := l.shape.fn, ShapeTokens(l) + rest;
    assert fn !in reserved && "try_cast" != fn;
    assert ts == [Word(fn), Sym("("), Word(l.col), Sym(","), Sym("?"), Sym(")")] + rest;
    assert ts[3..6] == [Sym(","), Sym("?"), Sym(")")] && ts[6..] == rest;
  }

  lemma ParseCastedCall(reserved: set<string>, l: Leaf, rest: seq<Token>)
    requires Dialect(reserved) && GoodLeaf(l) && l.shape.Call? && l.shape.casted
    ensures ParsePredicate(reserved, ShapeTokens(l) + rest) == Outcome(reserved, One(l.col), Pred(l.shape, l.col, 1), rest)
  {
    hide AllWordChars, Fold;
    var fn, ts := l.shape.fn, ShapeTokens(l) + rest;
    assert fn !in reserved && "try_cast" != fn && "cast" in reserved;
    var left, mark := CastOf("cast", Word(l.col), "varchar"), CastOf("cast", Sym("?"), "varchar");
    CastPrefix("cast", Sym("?"), "varchar", [Sym(")")]);
    CastPrefix("cast", Word(l.col), "varchar", [Sym(",")] + CastTokens("cast", Sym("?"), "varchar", [Sym(")")]));
    assert ts == [Word(fn), Sym("(")] + left + [Sym(",")] + mark + [Sym(")")] + rest;
    assert ts[2..8] == left && ts[9..15] == mark && ts[16..] == rest;
    assert ts[2] == Word("cast");
  }

  lemma ParseTimeComparison(reserved: set<string>, l: Leaf, rest: seq<Token>)
    requires Dialect(reserved) && GoodLeaf(l) && l.shape.CompareTime?
    ensures ParsePredicate(reserved, ShapeTokens(l) + rest) == Outcome(reserved, One(l.col), Pred(l.shape, l.col, 1), rest)
  {
    hide AllWordChars, Fold;
    var op, ts := l.shape.op, ShapeTokens(l) + rest;
    var left, mark := CastOf("try_cast", Word(l.col), "timestamp"), CastOf("try_cast", Sym("?"), "timestamp");
    CastPrefix("try_cast", Sym("?"), "timestamp", []);
    CastPrefix("try_cast", Word(l.col), "timestamp", [Sym(op)] + CastTokens("try_cast", Sym("?"), "timestamp", []));
    assert ts == left + [Sym(op)] + mark + rest;
    assert ts[..6] == left && ts[7..13] == mark && ts[13..] == rest;
    assert ts[2] == Word(l.col);
  }

  lemma ParseCompare(reserved: set<string>, l: Leaf, rest: seq<Token>)
    requires Dialect(reserved) && GoodLeaf(l) && l.shape.Compare?
    ensures ParsePredicate(reserved, ShapeTokens(l) + rest) == Outcome(reserved, One(l.col), Pred(l.shape, l.col, |l.args|), rest)
  {
    hide AllWordChars, Fold, ParseCall, ParseMarks, MarkTokens;
    var ts := ShapeTokens(l) + rest;
    assert ts == [Word(l.col), Sym(l.shape.op), Sym("?")] + rest;
    assert ts[3..] == rest;
  }

  lemma ParseInList(reserved: set<string>, l: Leaf, rest: seq<Token>)
    requires Dialect(reserved) && GoodLeaf(l) && l.shape.InList?
    ensures ParsePredicate(reserved, ShapeTokens(l) + rest) == Outcome(reserved, One(l.col), Pred(l.shape, l.col, |l.args|), rest)
  {
    hide AllWordChars, Fold, ParseCall, ParseMarks, MarkTokens;
    var ts := ShapeTokens(l) + rest;
    assert ts == [Word(l.col), Word("in"), Sym("(")] + (MarkTokens(|l.args|) + rest);
    ParseMarkTokens(|l.args|, rest);
    assert ts[3..] == MarkTokens(|l.args|) + rest;
  }

  lemma ParseNullTest(reserved: set<string>, l: Leaf, rest: seq<Token>)
    requires Dialect(reserved) && GoodLeaf(l) && l.shape.NullTest?
    ensures ParsePredicate(reserved, ShapeTokens(l) + rest) == Outcome(reserved, One(l.col), Pred(l.shape, l.col, |l.args|), rest)
  {
    hide AllWordChars, Fold, ParseCall, ParseMarks, MarkTokens;
    var ts := ShapeTokens(l) + rest;
    if l.shape == NullTest(true) {
      assert ts == [Word(l.col), Word("is"), Word("not"), Word("null")] + rest;
      assert ts[4..] == rest;
    } else {
      assert ts == [Word(l.col), Word("is"), Word("null")] + rest;
      assert ts[3..] == rest;
    }
  }

  lemma ParseShape(reserved: set<string>, l: Leaf, rest: seq<Token>)
    requires Dialect(reserved) && GoodLeaf(l)
    ensures ParsePredicate(reserved, ShapeTokens(l) + rest) == Outcome(reserved, One(l.col), Pred(l.shape, l.col, |l.args|), rest)
  {
    hide AllWordChars, Fold, ParsePredicate, ShapeTokens;
    match l.shape
    case Call(_, casted) =>
      if casted { ParseCastedCall(reserved, l, rest); } else { ParsePlainCall(reserved, l, rest); }
    case CompareTime(_) => ParseTimeComparison(reserved, l, rest);
    case Compare(_) => ParseCompare(reserved, l, rest);
    case InList => ParseInList(reserved, l, rest);
    case NullTest(_) => ParseNullTest(reserved, l, rest);
  }

  /** The first token of a predicate never opens a parenthesis; when it is NOT the predicate cannot parse. */
  lemma ShapeStart(l: Leaf)
    requires GoodLeaf(l)
    ensures var ts := ShapeTokens(l);
            |ts| >= 3 && ts[0].Word? && (ts[0] == Word("not") ==> l.col == "not" && ts[1] != Sym("("))
  {
    hide AllWordChars, Fold, MarkTokens;
  }

  /** NOT as a column name: what follows it is not a boolean test either. */
  lemma NotColumnFails(reserved: set<string>, l: Leaf, rest: seq<Token>)
    requires Dialect(reserved) && GoodLeaf(l) && ShapeTokens(l)[0] == Word("not")
    ensures ParseTest(reserved, (ShapeTokens(l) + rest)[1..]) == None
  {
    hide AllWordChars, Fold, MarkTokens;
    ShapeStart(l);
    var ts := (ShapeTokens(l) + rest)[1..];
    assert "in" in reserved && "is" in reserved;
    assert l.shape.InList? ==> ts[0] == Word("in") && ts[1] == Sym("(");
    assert l.shape.NullTest? ==> ts[0] == Word("is") && ts[1].Word?;
    assert l.shape.Compare? ==> ts[0] == Sym(l.shape.op) && l.shape.op != "(";
    assert ParsePredicate(reserved, ts) == None;
  }

  lemma ParseLeaf(reserved: set<string>, l: Leaf, rest: seq<Token>)
    requires Dialect(reserved) && GoodLeaf(l) && !At(rest, Word("is"))
    ensures ParseFactor(reserved, LeafTokens(l) + rest) == Outcome(reserved, One(l.col), LeafTree(l), rest)
  {
    hide AllWordChars, Fold, ParsePredicate, ShapeTokens;
    var ts := ShapeTokens(l) + rest;
    ShapeStart(l);
    ParseShape(reserved, l, rest);
    assert !At(ts, Sym("("));
    assert ParseTest(reserved, ts) == Outcome(reserved, One(l.col), Pred(l.shape, l.col, |l.args|), rest);
    if l.negated {
      assert (LeafTokens(l) + rest)[1..] == ts;
    } else if ts[0] == Word("not") {
      NotColumnFails(reserved, l, rest);
      assert "not" in reserved;
    }
  }

  /** The tokens that follow the first part of a group. */
  function TailTokens(isOr: bool, ps: seq<Plan>): seq<Token>
    requires GoodPlans(ps)
  {
    if ps == [] then [] else [LogicToken(isOr)] + PartTokens(isOr, ps)
  }

  lemma PartsSplit(isOr: bool, ps: seq<Plan>, rest: seq<Token>)
    requires ps != [] && GoodPlans(ps)
    ensures PartTokens(isOr, ps) + rest == PlanTokens(ps[0]) + (TailTokens(isOr, ps[1..]) + rest)
  {
    hide PlanTokens;
    if |ps| == 1 { assert TailTokens(isOr, ps[1..]) + rest == rest; }
  }

  lemma TailStart(isOr: bool, ps: seq<Plan>, rest: seq<Token>)
    requires GoodPlans(ps) && At(rest, Sym(")"))
    ensures var ts := TailTokens(isOr, ps) + rest;
            && ts[0] == (if ps == [] then Sym(")") else LogicToken(isOr))
            && (ps != [] ==> ts[1..] == PartTokens(isOr, ps) + rest)
  {
    hide PartTokens;
  }

  /** A compiled fragment is one boolean factor: it needs no parentheses wherever a factor may stand, and
      it parses exactly when no column it names is a reserved word. */
  lemma {:induction false} ParsePlan(reserved: set<string>, p: Plan, rest: seq<Token>)
    requires Dialect(reserved) && GoodPlan(p) && !At(rest, Word("is"))
    ensures ParseFactor(reserved, PlanTokens(p) + rest) == Outcome(reserved, Columns(p), PlanTree(p), rest)
    decreases p, 1
  {
    hide Dialect, GoodLeaf, LeafTokens, ParseOr, ParsePredicate, PartTokens, PartsTree, AllColumns, LeafTree;
    match p
    case Condition(l) => ParseLeaf(reserved, l, rest);
    case Group(isOr, parts) =>
      var ts := PlanTokens(p) + rest;
      assert ts[0] == Sym("(") && ts[1..] == PartTokens(isOr, parts) + ([Sym(")")] + rest);
      ParseParts(reserved, isOr, parts, [Sym(")")] + rest);
      assert ([Sym(")")] + rest)[1..] == rest;
      assert ParsePrimary(reserved, ts) == Outcome(reserved, Columns(p), PlanTree(p), rest);
      assert ParseTest(reserved, ts) == Outcome(reserved, Columns(p), PlanTree(p), rest);
  }

  lemma {:induction false} ParseParts(reserved: set<string>, isOr: bool, ps: seq<Plan>, rest: seq<Token>)
    requires Dialect(reserved) && ps != [] && GoodPlans(ps) && At(rest, Sym(")"))
    ensures ParseOr(reserved, PartTokens(isOr, ps) + rest) == Outcome(reserved, AllColumns(ps), PartsTree(isOr, ps), rest)
    decreases ps, 1
  {
    hide Dialect, GoodPlan, PlanTokens, ParseFactor, PlanTree, Columns;
    PartsSplit(isOr, ps, rest);
    TailStart(isOr, ps[1..], rest);
    ParsePlan(reserved, ps[0], TailTokens(isOr, ps[1..]) + rest);
    var e, ts := PlanTree(ps[0]), PartTokens(isOr, ps) + rest;
    if isOr {
      assert ParseAnd(reserved, ts) == Outcome(reserved, Columns(ps[0]), e, TailTokens(isOr, ps[1..]) + rest);
      ParseOrRest(reserved, e, ps[1..], rest);
    } else {
      ParseAndRest(reserved, e, ps[1..], rest);
      assert ParseAnd(reserved, ts) == Outcome(reserved, AllColumns(ps), PartsTree(isOr, ps), rest);
    }
  }

  lemma {:induction false} ParseAndRest(reserved: set<string>, acc: Sql, ps: seq<Plan>, rest: seq<Token>)
    requires Dialect(reserved) && GoodPlans(ps) && At(rest, Sym(")"))
    ensures ParseAndTail(reserved, acc, TailTokens(false, ps) + rest)
            == Outcome(reserved, AllColumns(ps), Chain(false, acc, ps), rest)
    decreases ps, 0
  {
    hide Dialect, GoodPlan, PlanTokens, PartTokens, ParseFactor, PlanTree, Columns;
    TailStart(false, ps, rest);
    if ps == [] {
      assert TailTokens(false, ps) + rest == rest;
    } else {
      PartsSplit(false, ps, rest);
      TailStart(false, ps[1..], rest);
      ParsePlan(reserved, ps[0], TailTokens(false, ps[1..]) + rest);
      ParseAndRest(reserved, And(acc, PlanTree(ps[0])), ps[1..], rest);
    }
  }

  lemma {:induction false} ParseOrRest(reserved: set<string>, acc: Sql, ps: seq<Plan>, rest: seq<Token>)
    requires Dialect(reserved) && GoodPlans(ps) && At(rest, Sym(")"))
    ensures ParseOrTail(reserved, acc, TailTokens(true, ps) + rest)
            == Outcome(reserved, AllColumns(ps), Chain(true, acc, ps), rest)
    decreases ps, 0
  {
    hide Dialect, GoodPlan, PlanTokens, PartTokens, ParseFactor, PlanTree, Columns;
    TailStart(true, ps, rest);
    if ps == [] {
      assert TailTokens(true, ps) + rest == rest;
    } else {
      PartsSplit(true, ps, rest);
      TailStart(true, ps[1..], rest);
      ParsePlan(reserved, ps[0], TailTokens(true, ps[1..]) + rest);
      assert ParseAnd(reserved, PartTokens(true, ps) + rest)
          == Outcome(reserved, Columns(ps[0]), PlanTree(ps[0]), TailTokens(true, ps[1..]) + rest);
      ParseOrRest(reserved, Or(acc, PlanTree(ps[0])), ps[1..], rest);
    }
  }

  // ------------------------------------------------------------- evaluating the parse

  lemma {:induction false} MarksAreParams(p: Plan)
    requires GoodPlan(p)
    ensures MarkCount(PlanTree(p)) == |PlanParams(p)|
    decreases p, 1
  {
    match p
    case Condition(l) =>
    case Group(isOr, parts) =>
      MarksAreParams(parts[0]);
      ChainMarks(isOr, PlanTree(parts[0]), parts[1..]);
  }

  lemma {:induction false} ChainMarks(isOr: bool, acc: Sql, ps: seq<Plan>)
    requires GoodPlans(ps)
    ensures MarkCount(Chain(isOr, acc, ps)) == MarkCount(acc) + |AllParams(ps)|
    decreases ps, 0
  {
    if ps != [] {
      MarksAreParams(ps[0]);
      var e := PlanTree(ps[0]);
      ChainMarks(isOr, if isOr then Or(acc, e) else And(acc, e), ps[1..]);
    }
  }

  function Fold2(isOr: bool, v: Truth, vs: seq<Truth>): Truth {
    if isOr then TruthOr(v, Disjunction(vs)) else TruthAnd(v, Conjunction(vs))
  }

  /** Each mark receives the parameter built for it, and the parse has the truth of the pruned tree. */
  lemma {:induction false} EvalPlan(eng: Engine, p: Plan)
    requires GoodPlan(p)
    ensures MarkCount(PlanTree(p)) == |PlanParams(p)|
    ensures Eval(eng, PlanTree(p), PlanParams(p)) == PlanTruth(eng, p)
    decreases p, 1
  {
    MarksAreParams(p);
    match p
    case Condition(l) =>
    case Group(isOr, parts) =>
      EvalPlan(eng, parts[0]);
      EvalChain(eng, isOr, PlanTree(parts[0]), PlanParams(parts[0]), parts[1..]);
      assert PlanTruths(eng, parts)[1..] == PlanTruths(eng, parts[1..]);
  }

  function Join2(isOr: bool, a: Sql, b: Sql): Sql { if isOr then Or(a, b) else And(a, b) }

  lemma EvalJoin(eng: Engine, isOr: bool, a: Sql, pa: seq<Json>, b: Sql, pb: seq<Json>)
    requires MarkCount(a) == |pa| && MarkCount(b) == |pb|
    ensures Eval(eng, Join2(isOr, a, b), pa + pb)
            == if isOr then TruthOr(Eval(eng, a, pa), Eval(eng, b, pb)) else TruthAnd(Eval(eng, a, pa), Eval(eng, b, pb))
  {
    hide EvalPred, TruthOr, TruthAnd, TruthNot;
    assert (pa + pb)[..|pa|] == pa && (pa + pb)[|pa|..] == pb;
  }

  lemma FoldStep(isOr: bool, v: Truth, w: Truth, vs: seq<Truth>)
    ensures Fold2(isOr, if isOr then TruthOr(v, w) else TruthAnd(v, w), vs) == Fold2(isOr, v, [w] + vs)
  {
    assert ([w] + vs)[1..] == vs;
  }

  lemma {:induction false} EvalChain(eng: Engine, isOr: bool, acc: Sql, ps0: seq<Json>, ps: seq<Plan>)
    requires GoodPlans(ps) && MarkCount(acc) == |ps0|
    ensures MarkCount(Chain(isOr, acc, ps)) == |ps0 + AllParams(ps)|
    ensures Eval(eng, Chain(isOr, acc, ps), ps0 + AllParams(ps)) == Fold2(isOr, Eval(eng, acc, ps0), PlanTruths(eng, ps))
    decreases ps, 0
  {
    hide EvalPred, Eval, Fold2, PlanTruth, PlanParams, PlanTree, GoodPlan;
    ChainMarks(isOr, acc, ps);
    if ps == [] {
      assert ps0 + AllParams(ps) == ps0;
      FoldNothing(isOr, Eval(eng, acc, ps0));
    } else {
      EvalPlan(eng, ps[0]);
      var e, qs := PlanTree(ps[0]), PlanParams(ps[0]);
      EvalJoin(eng, isOr, acc, ps0, e, qs);
      EvalChain(eng, isOr, Join2(isOr, acc, e), ps0 + qs, ps[1..]);
      assert ps0 + AllParams(ps) == (ps0 + qs) + AllParams(ps[1..]);
      FoldStep(isOr, Eval(eng, acc, ps0), PlanTruth(eng, ps[0]), PlanTruths(eng, ps[1..]));
    }
  }

  lemma FoldNothing(isOr: bool, v: Truth)
    ensures Fold2(isOr, v, []) == v
  {
  }

  // ------------------------------------------------------------- main theorems

  /** The columns named by the usable conditions of a filter tree. */
  function FilterColumns(env: Env, node: Json): set<string>
    requires env.codes != []
  {
    match Prune(env, node) case Some(p) => Columns(p) case None => {}
  }

  /** The compiled text is empty exactly when nothing usable is left of the tree. Otherwise it parses under
      the dialect's precedence exactly when none of its columns is a reserved word, and then the parse,
      given the parameters from left to right, has the truth of the tree. */
  lemma CompilationPreservesMeaning(env: Env, reserved: set<string>, eng: Engine, node: Json)
    requires env.codes != [] && Dialect(reserved)
    ensures var (sql, params) := Compiled(env, node);
            && (sql == "" <==> Meaning(env, eng, node) == None)
            && (sql == "" ==> params == [])
            && (sql != "" ==>
                 && (ParseText(reserved, sql).Some? <==> FilterColumns(env, node) !! reserved)
                 && match ParseText(reserved, sql)
                    case Some(e) => MarkCount(e) == |params| && Meaning(env, eng, node) == Some(Eval(eng, e, params))
                    case None => true)
  {
    hide PlanText, PlanTokens, PlanTree, PlanTruth, PlanParams, Lex, ParseAnd, ParseFactor, Columns, Dialect, GoodPlan, Eval, MarkCount;
    PruneGood(env, node);
    PruneMeaning(env, eng, node);
    match Prune(env, node)
    case None =>
    case Some(p) =>
      TextNotEmpty(p);
      TextParses(reserved, p);
      EvalPlan(eng, p);
  }

  lemma TextNotEmpty(p: Plan)
    requires GoodPlan(p)
    ensures PlanText(p) != "" && PlanTokens(p) != []
  {
    match p
    case Condition(l) => LeafNotEmpty(l);
    case Group(_, _) =>
  }

  lemma LeafNotEmpty(l: Leaf)
    requires GoodLeaf(l)
    ensures LeafText(l) != "" && LeafTokens(l) != []
  {
    hide Fold, AllWordChars, MarksText, MarkTokens;
  }

  lemma TextParses(reserved: set<string>, p: Plan)
    requires Dialect(reserved) && GoodPlan(p)
    ensures ParseText(reserved, PlanText(p)) == if Columns(p) !! reserved then Some(PlanTree(p)) else None
  {
    hide PlanText, PlanTokens, PlanTree, ParseFactor, Columns, Dialect, GoodPlan;
    ReadsPlan(p, "");
    assert PlanText(p) + "" == PlanText(p);
    assert PlanTokens(p) + [] == PlanTokens(p);
    ParsePlan(reserved, p, []);
  }
}
