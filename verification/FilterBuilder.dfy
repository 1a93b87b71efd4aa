/** ParseFilterNode as the source runs it: recursion over the tree, append loops over the parts. */
module FilterBuilder {
  import opened Prelude
  import opened Text
  import opened SqlLexer
  import opened SqlGrammar
  import opened FilterCompiler

  type Piece = (string, seq<Json>)

  function PieceOf(p: Plan): Piece
    requires GoodPlan(p)
  {
    (PlanText(p), PlanParams(p))
  }

  function Pieces(ps: seq<Plan>): (r: seq<Piece>)
    requires GoodPlans(ps)
    ensures |r| == |ps|
  {
    if ps == [] then [] else [PieceOf(ps[0])] + Pieces(ps[1..])
  }

  function Texts(pieces: seq<Piece>): seq<string> {
    if pieces == [] then [] else [pieces[0].0] + Texts(pieces[1..])
  }

  function Params(pieces: seq<Piece>): seq<Json> {
    if pieces == [] then [] else pieces[0].1 + Params(pieces[1..])
  }

  lemma {:induction false} PiecesSnoc(ps: seq<Plan>, p: Plan)
    requires GoodPlans(ps) && GoodPlan(p)
    ensures GoodPlans(ps + [p]) && Pieces(ps + [p]) == Pieces(ps) + [PieceOf(p)]
  {
    hide GoodPlan, PieceOf;
    if ps == [] {
      assert ps + [p] == [p];
    } else {
      assert (ps + [p])[1..] == ps[1..] + [p];
      PiecesSnoc(ps[1..], p);
    }
  }

  lemma {:induction false} PruneAllSnoc(env: Env, items: seq<Json>, x: Json)
    ensures PruneAll(env, items + [x])
            == PruneAll(env, items) + (match Prune(env, x) case Some(p) => [p] case None => [])
  {
    hide Prune;
    if items == [] {
      assert items + [x] == [x];
    } else {
      assert (items + [x])[1..] == items[1..] + [x];
      PruneAllSnoc(env, items[1..], x);
    }
  }

  lemma {:induction false} TextsSnoc(pieces: seq<Piece>, x: Piece)
    ensures Texts(pieces + [x]) == Texts(pieces) + [x.0] && Params(pieces + [x]) == Params(pieces) + x.1
  {
    if pieces == [] {
      assert pieces + [x] == [x];
    } else {
      assert (pieces + [x])[1..] == pieces[1..] + [x];
      TextsSnoc(pieces[1..], x);
    }
  }

  lemma {:induction false} JoinedParts(isOr: bool, ps: seq<Plan>)
    requires ps != [] && GoodPlans(ps)
    ensures Join(Texts(Pieces(ps)), " " + LogicText(isOr) + " ") == PartsText(isOr, ps)
    ensures Params(Pieces(ps)) == AllParams(ps)
  {
    hide GoodPlan, PlanText, PlanParams, LogicText;
    var sep := " " + LogicText(isOr) + " ";
    assert Pieces(ps)[1..] == Pieces(ps[1..]);
    if |ps| == 1 {
      assert Texts(Pieces(ps)) == [PlanText(ps[0])];
    } else {
      JoinedParts(isOr, ps[1..]);
      assert Texts(Pieces(ps))[1..] == Texts(Pieces(ps[1..]));
      var rest := PartsText(isOr, ps[1..]);
      assert PlanText(ps[0]) + sep + rest == PlanText(ps[0]) + (" " + (LogicText(isOr) + (" " + rest)));
    }
  }

  function Placeholders(n: nat): seq<string> { if n == 0 then [] else ["?"] + Placeholders(n - 1) }

  lemma {:induction false} PlaceholdersText(n: nat)
    requires n >= 1
    ensures Join(Placeholders(n), ", ") + ")" == MarksText(n)
  {
    if n == 1 {
      assert Join(Placeholders(1), ", ") == "?";
    } else {
      PlaceholdersText(n - 1);
      assert Placeholders(n)[1..] == Placeholders(n - 1);
      var rest := Join(Placeholders(n - 1), ", ");
      assert "?" + ", " + rest + ")" == "?" + ("," + (" " + (rest + ")")));
    }
  }

  lemma {:induction false} PlaceholdersSnoc(n: nat)
    ensures Placeholders(n) + ["?"] == Placeholders(n + 1)
  {
    if n > 0 {
      PlaceholdersSnoc(n - 1);
      assert Placeholders(n) + ["?"] == ["?"] + (Placeholders(n - 1) + ["?"]);
    }
  }

  /** The IN branch: one placeholder per item, joined by commas. */
  method InListText(col: string, items: seq<Json>) returns (sql: string)
    requires items != [] && GoodLeaf(Leaf(InList, false, col, items))
    ensures sql == LeafText(Leaf(InList, false, col, items))
  {
    var placeholders: seq<string> := [];
    for i := 0 to |items|
      invariant placeholders == Placeholders(i)
    {
      PlaceholdersSnoc(i);
      placeholders := placeholders + ["?"];
    }
    PlaceholdersText(|items|);
    var inner := Join(placeholders, ", ");
    sql := col + " IN (" + inner + ")";
    assert sql == col + (" " + ("IN" + (" " + ("(" + (inner + ")")))));
  }

  function CastFormat(fn: string, x: string, ty: string): string { fn + "(" + x + " AS " + ty + ")" }

  lemma CastFormatText(fn: string, x: string, ty: string, rest: string)
    ensures CastFormat(fn, x, ty) + rest == CastText(fn, x, ty, rest)
  {
  }

  lemma CastedCallText(fn: string, col: string, args: seq<Json>)
    requires GoodLeaf(Leaf(Call(fn, true), false, col, args))
    ensures fn + "(" + CastFormat("CAST", col, "VARCHAR") + ", " + CastFormat("CAST", "?", "VARCHAR") + ")"
            == ShapeText(Leaf(Call(fn, true), false, col, args))
  {
    hide CastFormat, CastText, GoodLeaf;
    var left, mark := CastFormat("CAST", col, "VARCHAR"), CastFormat("CAST", "?", "VARCHAR");
    CastFormatText("CAST", "?", "VARCHAR", ")");
    var tail := "," + (" " + (mark + ")"));
    CastFormatText("CAST", col, "VARCHAR", tail);
    assert fn + "(" + left + ", " + mark + ")" == fn + ("(" + (left + tail));
  }

  lemma TimeComparisonText(op: string, col: string, args: seq<Json>)
    requires GoodLeaf(Leaf(CompareTime(op), false, col, args))
    ensures CastFormat("try_cast", col, "TIMESTAMP") + " " + op + " " + CastFormat("try_cast", "?", "TIMESTAMP")
            == ShapeText(Leaf(CompareTime(op), false, col, args))
  {
    hide CastFormat, CastText, GoodLeaf;
    var left, mark := CastFormat("try_cast", col, "TIMESTAMP"), CastFormat("try_cast", "?", "TIMESTAMP");
    CastFormatText("try_cast", "?", "TIMESTAMP", "");
    assert mark + "" == mark;
    var tail := " " + (op + (" " + mark));
    CastFormatText("try_cast", col, "TIMESTAMP", tail);
    assert left + " " + op + " " + mark == left + tail;
  }

  lemma NullTestText(col: string, negated: bool)
    requires IsIdentifier(col) && '?' !in col
    ensures col + (if negated then " IS NOT NULL" else " IS NULL") == LeafText(Leaf(NullTest(negated), false, col, []))
  {
    hide IsIdentifier;
    if negated {
      assert " IS NOT NULL" == " " + ("IS" + (" " + ("NOT" + (" " + "NULL"))));
    } else {
      assert " IS NULL" == " " + ("IS" + (" " + "NULL"));
    }
  }

  lemma CompareText(col: string, op: string, v: Json)
    requires IsIdentifier(col) && '?' !in col && op in COMPARISONS
    ensures col + " " + op + " ?" == LeafText(Leaf(Compare(op), false, col, [v]))
  {
    hide IsIdentifier;
    assert col + " " + op + " ?" == col + (" " + (op + (" " + "?")));
  }

  lemma RegexText(col: string, v: Json)
    requires IsIdentifier(col) && '?' !in col
    ensures "regexp_matches(" + col + ", ?)" == LeafText(Leaf(Call("regexp_matches", false), false, col, [v]))
  {
    hide IsIdentifier;
    assert ", ?)" == "," + (" " + ("?" + ")"));
    assert "regexp_matches(" == "regexp_matches" + "(";
  }

  /** A text function of the column and one parameter, both cast to text. */
  method CastedCall(fn: string, negated: bool, col: string, v: Json) returns (sql: string)
    requires IsIdentifier(col) && '?' !in col && fn in CASTED_CALLS
    ensures sql == LeafText(Leaf(Call(fn, true), negated, col, [v]))
  {
    hide IsIdentifier, CastFormat, CastText;
    sql := fn + "(" + CastFormat("CAST", col, "VARCHAR") + ", " + CastFormat("CAST", "?", "VARCHAR") + ")";
    CastedCallText(fn, col, [v]);
    if negated {
      sql := "NOT " + sql;
      assert sql == "NOT" + (" " + sql[4..]);
    }
  }

  /** The condition branches of ParseFilterNode after the field has been validated. */
  method OperatorText(env: Env, m: map<string, Json>, op: string, col: string) returns (sql: string, params: seq<Json>)
    requires IsIdentifier(col) && '?' !in col
    ensures match OperatorLeaf(env, m, op, col)
            case Some(l) => GoodLeaf(l) && sql == LeafText(l) && params == l.args
            case None => sql == "" && params == []
  {
    hide IsIdentifier, LeafText, CastFormat, InItems, Value;
    OperatorLeafGood(env, m, op, col);
    var v := Value(m);
    var sign := CompareSign(op);
    var dateSign := DateSign(op);
    sql, params := "", [v];
    if sign.Some? {
      CompareText(col, sign.value, v);
      sql := col + " " + sign.value + " ?";
    } else if op == "IN" {
      var items := InItems(env.uni, v);
      if items == [] {
        params := [];
      } else {
        sql := InListText(col, items);
        params := items;
      }
    } else if op == "REGEX" {
      RegexText(col, v);
      sql := "regexp_matches(" + col + ", ?)";
    } else if op == "CONTAINS" {
      sql := CastedCall("contains", false, col, v);
    } else if op == "NOT_CONTAINS" {
      sql := CastedCall("contains", true, col, v);
    } else if op == "STARTS_WITH" {
      sql := CastedCall("starts_with", false, col, v);
    } else if op == "ENDS_WITH" {
      sql := CastedCall("ends_with", false, col, v);
    } else if op == "IS_NULL" {
      NullTestText(col, false);
      sql, params := col + " IS NULL", [];
    } else if op == "IS_NOT_NULL" {
      NullTestText(col, true);
      sql, params := col + " IS NOT NULL", [];
    } else if dateSign.Some? {
      var resolved := env.date(v, StringField(m, "format"));
      if resolved.None? {
        params := [];
      } else {
        params := [Str(resolved.value)];
        sql := TimeText(dateSign.value, col, params);
      }
    } else {
      params := [];
    }
  }

  method TimeText(op: string, col: string, params: seq<Json>) returns (sql: string)
    requires GoodLeaf(Leaf(CompareTime(op), false, col, params))
    ensures sql == LeafText(Leaf(CompareTime(op), false, col, params))
  {
    TimeComparisonText(op, col, params);
    sql := CastFormat("try_cast", col, "TIMESTAMP") + " " + op + " " + CastFormat("try_cast", "?", "TIMESTAMP");
  }

  method ConditionText(env: Env, m: map<string, Json>) returns (sql: string, params: seq<Json>)
    requires env.codes != []
    ensures match LeafOf(env, m)
            case Some(l) => GoodLeaf(l) && sql == LeafText(l) && params == l.args
            case None => sql == "" && params == []
  {
    hide LeafText, OperatorLeaf, TranslateField, ValidateIdentifier, IsIdentifier;
    var op := StringField(m, "operator");
    if op == "IS_FINANCIAL_AUA" {
      var auaField := ValidateIdentifier(env.uni, TranslateField(env, "_data.aua"));
      if auaField.None? { return "", []; }
      params := Strings(env.codes);
      sql := InListText(auaField.value, params);
    } else {
      var field := ValidateIdentifier(env.uni, TranslateField(env, StringField(m, "field")));
      if field.None? { return "", []; }
      sql, params := OperatorText(env, m, op, field.value);
    }
  }

  /** The parts of a group that compile to something, in order. */
  method GroupParts(env: Env, items: seq<Json>) returns (parts: seq<Piece>)
    requires env.codes != []
    ensures GoodPlans(PruneAll(env, items)) && parts == Pieces(PruneAll(env, items))
    decreases items, 0
  {
    hide GoodPlan, PlanText, PlanParams, Prune;
    parts := [];
    PruneAllGood(env, items);
    for i := 0 to |items|
      invariant GoodPlans(PruneAll(env, items[..i]))
      invariant parts == Pieces(PruneAll(env, items[..i]))
    {
      assert items[..i + 1] == items[..i] + [items[i]];
      PruneAllSnoc(env, items[..i], items[i]);
      PruneGood(env, items[i]);
      var frag, params := ParseFilterNode(env, items[i]);
      if frag != "" {
        PiecesSnoc(PruneAll(env, items[..i]), Prune(env, items[i]).value);
        parts := parts + [(frag, params)];
      } else {
        assert PruneAll(env, items[..i]) + [] == PruneAll(env, items[..i]);
      }
    }
    assert items[..|items|] == items;
  }

  /** A group of two or more parts: texts joined by the connective inside parentheses, parameters appended. */
  method Combine(isOr: bool, logic: string, parts: seq<Piece>, ghost ps: seq<Plan>) returns (sql: string, params: seq<Json>)
    requires |ps| >= 2 && GoodPlans(ps) && parts == Pieces(ps) && logic == LogicText(isOr)
    ensures sql == PlanText(Group(isOr, ps)) && params == PlanParams(Group(isOr, ps))
  {
    hide GoodPlans, Pieces, PartsText;
    var sqlParts: seq<string> := [];
    params := [];
    for i := 0 to |parts|
      invariant sqlParts == Texts(parts[..i]) && params == Params(parts[..i])
    {
      assert parts[..i + 1] == parts[..i] + [parts[i]];
      TextsSnoc(parts[..i], parts[i]);
      sqlParts := sqlParts + [parts[i].0];
      params := params + parts[i].1;
    }
    assert parts[..|parts|] == parts;
    JoinedParts(isOr, ps);
    var body := Join(sqlParts, " " + logic + " ");
    sql := "(" + body + ")";
    assert sql == "(" + (body + ")");
  }

  /** internal/services/duckdb.go, ParseFilterNode: text with placeholders, and the parameters in order. */
  method ParseFilterNode(env: Env, node: Json) returns (sql: string, params: seq<Json>)
    requires env.codes != []
    ensures (sql, params) == Compiled(env, node)
    ensures Prune(env, node).Some? <==> sql != ""
    ensures Prune(env, node).Some? ==> GoodPlan(Prune(env, node).value)
                                       && (sql, params) == PieceOf(Prune(env, node).value)
    decreases node, 1
  {
    hide LeafText, LeafOf, GoodLeaf, StringField, PruneAll, AllParams, PartsText;
    sql, params := "", [];
    if !node.Obj? { return; }
    var m := node.fields;
    PruneGood(env, node);
    var nodeType := StringField(m, "type");
    if nodeType == "group" {
      var logic := StringField(m, "logic");
      if logic != "AND" && logic != "OR" { logic := "AND"; }
      if !("conditions" in m && m["conditions"].Arr?) { return; }
      var items := m["conditions"].items;
      var parts := GroupParts(env, items);
      ghost var ps := PruneAll(env, items);
      if |parts| == 0 {
        return;
      } else if |parts| == 1 {
        PartNotEmpty(ps[0]);
        return parts[0].0, parts[0].1;
      }
      sql, params := Combine(logic == "OR", logic, parts, ps);
    } else if nodeType == "condition" {
      sql, params := ConditionText(env, m);
      if LeafOf(env, m).Some? { PartNotEmpty(Condition(LeafOf(env, m).value)); }
    }
  }

  lemma PartNotEmpty(p: Plan)
    requires GoodPlan(p)
    ensures PlanText(p) != ""
  {
    hide AllWordChars, Fold, MarksText;
  }
}
