/** internal/services/duckdb.go: a filter tree becomes SQL text plus a positional parameter list. */
module FilterCompiler {
  import opened Prelude
  import opened Text
  import opened SqlLexer
  import opened SqlGrammar

  /** What the compiler looks up: the field-name table, character tables, the financial AUA codes,
      and the date resolver (a calendar computation, None on a malformed value). */
  datatype Env = Env(
    table: map<string, string>,
    uni: Unicode,
    codes: seq<string>,
    date: (Json, string) -> Option<string>)

  function TranslateField(env: Env, field: string): string {
    if field in env.table && env.table[field] != "" then env.table[field]
    else ReplaceFirst(field, "_data.", "")
  }

  predicate IsIdentifier(s: string) { IsWord(s) && Fold(s) == s && !IsAsciiDigit(s[0]) }

  /** The lower-cased, trimmed name when it is a letter or underscore followed by letters, digits and
      underscores. Whatever it accepts is one SQL word, already folded, with no placeholder in it. */
  function ValidateIdentifier(u: Unicode, name: string): (r: Option<string>)
    ensures r.Some? ==> IsIdentifier(r.value) && '?' !in r.value
  {
    var clean := TrimSpace(u, ToLower(u, name));
    if AcceptedName(u, clean) then
      AcceptedIsIdentifier(u, clean);
      Some(clean)
    else None
  }

  predicate AcceptedName(u: Unicode, s: string) {
    && s != ""
    && (IsLetter(u, s[0]) || s[0] == '_')
    && forall i :: 1 <= i < |s| ==> IsLetter(u, s[i]) || IsDigit(u, s[i]) || s[i] == '_'
  }

  lemma {:induction false} PlainWord(s: string)
    requires forall i :: 0 <= i < |s| ==> IsWordChar(s[i]) && FoldChar(s[i]) == s[i]
    ensures AllWordChars(s) && Fold(s) == s
  {
    if s != "" { PlainWord(s[1..]); }
  }

  lemma AcceptedIsIdentifier(u: Unicode, s: string)
    requires AcceptedName(u, s) && forall c :: c in s ==> FoldChar(c) == c
    ensures IsIdentifier(s) && '?' !in s
  {
    forall i | 0 <= i < |s| ensures IsWordChar(s[i]) && FoldChar(s[i]) == s[i] && s[i] != '?' {
      assert s[i] in s;
    }
    PlainWord(s);
  }

  // ------------------------------------------------------------- the pruned tree

  /** One usable condition: a predicate on a column, possibly under NOT, with its arguments. */
  datatype Leaf = Leaf(shape: Shape, negated: bool, col: string, args: seq<Json>)

  /** A filter tree after unusable conditions and empty groups are dropped. */
  datatype Plan = Condition(leaf: Leaf) | Group(isOr: bool, parts: seq<Plan>)

  function CompareSign(op: string): Option<string> {
    if op == "EQUALS" then Some("=") else if op == "NOT_EQUALS" then Some("!=")
    else if op == "GREATER_THAN" then Some(">") else if op == "GREATER_THAN_EQUAL" then Some(">=")
    else if op == "LESS_THAN" then Some("<") else if op == "LESS_THAN_EQUAL" then Some("<=")
    else None
  }

  function DateSign(op: string): Option<string> {
    if op == "DATE_BEFORE" then Some("<") else if op == "DATE_AFTER" then Some(">")
    else if op == "DATE_EQUALS" then Some("=") else None
  }

  function Strings(ss: seq<string>): (js: seq<Json>)
    ensures |js| == |ss| && forall i :: 0 <= i < |ss| ==> js[i] == Str(ss[i])
  {
    if ss == [] then [] else [Str(ss[0])] + Strings(ss[1..])
  }

  function TrimAll(u: Unicode, ss: seq<string>): (r: seq<string>)
    ensures |r| == |ss| && forall i :: 0 <= i < |ss| ==> r[i] == TrimSpace(u, ss[i])
  {
    if ss == [] then [] else [TrimSpace(u, ss[0])] + TrimAll(u, ss[1..])
  }

  function Value(m: map<string, Json>): Json { if "value" in m then m["value"] else Null }

  /** The members of an IN list: a JSON array as it is, or a comma-separated text. */
  function InItems(u: Unicode, v: Json): seq<Json> {
    match v
    case Arr(items) => items
    case Str(s) => Strings(TrimAll(u, Split(s, ',')))
    case _ => []
  }

  function LeafOf(env: Env, m: map<string, Json>): Option<Leaf> {
    var op := StringField(m, "operator");
    if op == "IS_FINANCIAL_AUA" then
      match ValidateIdentifier(env.uni, TranslateField(env, "_data.aua"))
      case None => None
      case Some(col) => Some(Leaf(InList, false, col, Strings(env.codes)))
    else
      match ValidateIdentifier(env.uni, TranslateField(env, StringField(m, "field")))
      case None => None
      case Some(col) => OperatorLeaf(env, m, op, col)
  }

  function OperatorLeaf(env: Env, m: map<string, Json>, op: string, col: string): Option<Leaf> {
    var v := Value(m);
    if CompareSign(op).Some? then Some(Leaf(Compare(CompareSign(op).value), false, col, [v]))
    else if op == "IN" then
      var items := InItems(env.uni, v);
      if items == [] then None else Some(Leaf(InList, false, col, items))
    else if op == "REGEX" then Some(Leaf(Call("regexp_matches", false), false, col, [v]))
    else if op == "CONTAINS" then Some(Leaf(Call("contains", true), false, col, [v]))
    else if op == "NOT_CONTAINS" then Some(Leaf(Call("contains", true), true, col, [v]))
    else if op == "STARTS_WITH" then Some(Leaf(Call("starts_with", true), false, col, [v]))
    else if op == "ENDS_WITH" then Some(Leaf(Call("ends_with", true), false, col, [v]))
    else if op == "IS_NULL" then Some(Leaf(NullTest(false), false, col, []))
    else if op == "IS_NOT_NULL" then Some(Leaf(NullTest(true), false, col, []))
    else if DateSign(op).Some? then
      match env.date(v, StringField(m, "format"))
      case None => None
      case Some(text) => Some(Leaf(CompareTime(DateSign(op).value), false, col, [Str(text)]))
    else None
  }

  function Collapse(isOr: bool, parts: seq<Plan>): Option<Plan> {
    if parts == [] then None else if |parts| == 1 then Some(parts[0]) else Some(Group(isOr, parts))
  }

  function Prune(env: Env, node: Json): Option<Plan>
    decreases node
  {
    if !node.Obj? then None
    else
      var m := node.fields;
      if StringField(m, "type") == "group" then
        if "conditions" in m && m["conditions"].Arr? then
          Collapse(StringField(m, "logic") == "OR", PruneAll(env, m["conditions"].items))
        else None
      else if StringField(m, "type") == "condition" then
        match LeafOf(env, m)
        case Some(leaf) => Some(Condition(leaf))
        case None => None
      else None
  }

  function PruneAll(env: Env, items: seq<Json>): seq<Plan>
    decreases items
  {
    if items == [] then []
    else
      match Prune(env, items[0])
      case Some(p) => [p] + PruneAll(env, items[1..])
      case None => PruneAll(env, items[1..])
  }

  // ------------------------------------------------------------- facts about pruned trees

  predicate GoodLeaf(l: Leaf) {
    && IsIdentifier(l.col) && '?' !in l.col
    && (l.negated ==> l.shape.Call?)
    && match l.shape
       case Compare(op) => op in COMPARISONS && |l.args| == 1
       case CompareTime(op) => op in COMPARISONS && |l.args| == 1
       case InList => |l.args| >= 1
       case NullTest(_) => l.args == []
       case Call(fn, casted) => |l.args| == 1 && fn in (if casted then CASTED_CALLS else PLAIN_CALLS)
  }

  const CASTED_CALLS: set<string> := {"contains", "starts_with", "ends_with"}
  const PLAIN_CALLS: set<string> := {"regexp_matches"}

  predicate GoodPlan(p: Plan)
    decreases p
  {
    match p
    case Condition(l) => GoodLeaf(l)
    case Group(_, parts) => |parts| >= 2 && GoodPlans(parts)
  }

  predicate GoodPlans(ps: seq<Plan>)
    decreases ps
  {
    ps == [] || (GoodPlan(ps[0]) && GoodPlans(ps[1..]))
  }

  lemma LeafOfGood(env: Env, m: map<string, Json>)
    requires env.codes != []
    ensures LeafOf(env, m).Some? ==> GoodLeaf(LeafOf(env, m).value)
  {
    match ValidateIdentifier(env.uni, TranslateField(env, StringField(m, "field")))
    case Some(col) => OperatorLeafGood(env, m, StringField(m, "operator"), col);
    case None =>
  }

  lemma OperatorLeafGood(env: Env, m: map<string, Json>, op: string, col: string)
    requires IsIdentifier(col) && '?' !in col
    ensures OperatorLeaf(env, m, op, col).Some? ==> GoodLeaf(OperatorLeaf(env, m, op, col).value)
  {
  }

  /** Pruning yields well-formed conditions and no group of fewer than two parts. */
  lemma {:induction false} PruneGood(env: Env, node: Json)
    requires env.codes != []
    ensures Prune(env, node).Some? ==> GoodPlan(Prune(env, node).value)
    decreases node
  {
    hide LeafOf, GoodLeaf, StringField;
    if node.Obj? {
      var m := node.fields;
      LeafOfGood(env, m);
      if "conditions" in m && m["conditions"].Arr? { PruneAllGood(env, m["conditions"].items); }
    }
  }

  lemma {:induction false} PruneAllGood(env: Env, items: seq<Json>)
    requires env.codes != []
    ensures GoodPlans(PruneAll(env, items))
    decreases items
  {
    if items != [] {
      PruneGood(env, items[0]);
      PruneAllGood(env, items[1..]);
      match Prune(env, items[0])
      case Some(p) => assert ([p] + PruneAll(env, items[1..]))[1..] == PruneAll(env, items[1..]);
      case None =>
    }
  }

  // ------------------------------------------------------------- text and parameters

  /** `fn(x AS ty)` followed by `rest`. Text is built from the right, one lexical element at a time. */
  function CastText(fn: string, x: string, ty: string, rest: string): string {
    fn + ("(" + (x + (" " + ("AS" + (" " + (ty + (")" + rest)))))))
  }

  /** `?, ?, .. ?)` */
  function MarksText(n: nat): string
    requires n >= 1
  {
    if n == 1 then "?" + ")" else "?" + ("," + (" " + MarksText(n - 1)))
  }

  function ShapeText(l: Leaf): string
    requires GoodLeaf(l)
  {
    match l.shape
    case Compare(op) => l.col + (" " + (op + (" " + "?")))
    case InList => l.col + (" " + ("IN" + (" " + ("(" + MarksText(|l.args|)))))
    case Call(fn, false) => fn + ("(" + (l.col + ("," + (" " + ("?" + ")")))))
    case Call(fn, true) =>
      fn + ("(" + CastText("CAST", l.col, "VARCHAR", "," + (" " + CastText("CAST", "?", "VARCHAR", ")"))))
    case NullTest(false) => l.col + (" " + ("IS" + (" " + "NULL")))
    case NullTest(true) => l.col + (" " + ("IS" + (" " + ("NOT" + (" " + "NULL")))))
    case CompareTime(op) =>
      CastText("try_cast", l.col, "TIMESTAMP", " " + (op + (" " + CastText("try_cast", "?", "TIMESTAMP", ""))))
  }

  function LeafText(l: Leaf): string
    requires GoodLeaf(l)
  {
    if l.negated then "NOT" + (" " + ShapeText(l)) else ShapeText(l)
  }

  function LogicText(isOr: bool): string { if isOr then "OR" else "AND" }

  function PlanText(p: Plan): string
    requires GoodPlan(p)
    decreases p
  {
    match p
    case Condition(l) => LeafText(l)
    case Group(isOr, parts) => "(" + (PartsText(isOr, parts) + ")")
  }

  /** The parts' texts with the connective between them. */
  function PartsText(isOr: bool, ps: seq<Plan>): string
    requires ps != [] && GoodPlans(ps)
    decreases ps
  {
    if |ps| == 1 then PlanText(ps[0])
    else PlanText(ps[0]) + (" " + (LogicText(isOr) + (" " + PartsText(isOr, ps[1..]))))
  }

  function PlanParams(p: Plan): seq<Json>
    decreases p
  {
    match p
    case Condition(l) => l.args
    case Group(_, parts) => AllParams(parts)
  }

  function AllParams(ps: seq<Plan>): seq<Json>
    decreases ps
  {
    if ps == [] then [] else PlanParams(ps[0]) + AllParams(ps[1..])
  }

  /** The (text, parameters) pair for a filter node; the text is empty when nothing is left of it. */
  function Compiled(env: Env, node: Json): (string, seq<Json>)
    requires env.codes != []
  {
    PruneGood(env, node);
    match Prune(env, node)
    case Some(p) => (PlanText(p), PlanParams(p))
    case None => ("", [])
  }
}
