/** Search conditions: the boolean grammar of section 8.12 of SQL-92 (NOT binds tighter than AND,
    AND tighter than OR), the predicates this backend emits, and their three-valued meaning. */
module SqlGrammar {
  import opened Prelude
  import opened SqlLexer

  datatype Truth = Yes | Unknown | No

  function TruthNot(a: Truth): Truth { match a case Yes => No case Unknown => Unknown case No => Yes }

  function TruthAnd(a: Truth, b: Truth): Truth {
    if a == No || b == No then No else if a == Yes && b == Yes then Yes else Unknown
  }

  function TruthOr(a: Truth, b: Truth): Truth {
    if a == Yes || b == Yes then Yes else if a == No && b == No then No else Unknown
  }

  function Conjunction(vs: seq<Truth>): Truth { if vs == [] then Yes else TruthAnd(vs[0], Conjunction(vs[1..])) }

  function Disjunction(vs: seq<Truth>): Truth { if vs == [] then No else TruthOr(vs[0], Disjunction(vs[1..])) }

  /** What the database computes for one row. `order` is None when either side is NULL or the two are
      not comparable, and `timeOrder` likewise after both sides are cast to timestamps. */
  datatype Engine = Engine(
    cell: string -> Json,
    order: (Json, Json) -> Option<int>,
    timeOrder: (Json, Json) -> Option<int>,
    matches: (Json, Json) -> Truth,
    contains: (Json, Json) -> Truth,
    startsWith: (Json, Json) -> Truth,
    endsWith: (Json, Json) -> Truth)

  function Equal(o: Option<int>): Truth { if o.None? then Unknown else if o.value == 0 then Yes else No }

  function Less(o: Option<int>): Truth { if o.None? then Unknown else if o.value < 0 then Yes else No }

  function Greater(o: Option<int>): Truth { if o.None? then Unknown else if o.value > 0 then Yes else No }

  datatype Shape =
    | Compare(op: string)
    | InList
    | Call(fn: string, casted: bool)
    | NullTest(negated: bool)
    | CompareTime(op: string)

  /** A parsed search condition; every placeholder is a mark, numbered by its place in the text. */
  datatype Sql =
    | Pred(shape: Shape, col: string, marks: nat)
    | Not(e: Sql)
    | And(l: Sql, r: Sql)
    | Or(l: Sql, r: Sql)
    | Test(e: Sql, truth: Truth, negated: bool)

  function MarkCount(e: Sql): nat {
    match e
    case Pred(_, _, n) => n
    case Not(a) => MarkCount(a)
    case And(a, b) => MarkCount(a) + MarkCount(b)
    case Or(a, b) => MarkCount(a) + MarkCount(b)
    case Test(a, _, _) => MarkCount(a)
  }

  function Sign(op: string, o: Option<int>): Truth {
    if op == "=" then Equal(o)
    else if op == "!=" then TruthNot(Equal(o))
    else if op == "<" then Less(o)
    else if op == ">" then Greater(o)
    else if op == "<=" then TruthNot(Greater(o))
    else TruthNot(Less(o))
  }

  /** `v IN (a1, .., an)` is `v = ANY (a1, .., an)`, section 8.4 of SQL-92. */
  function AnyEqual(eng: Engine, v: Json, items: seq<Json>): Truth {
    if items == [] then No else TruthOr(Equal(eng.order(v, items[0])), AnyEqual(eng, v, items[1..]))
  }

  function Rank(a: Truth): int { match a case No => 0 case Unknown => 1 case Yes => 2 }

  /** AND is the lesser of two truth values, OR the greater, and NOT turns the order round. */
  lemma TruthTables(a: Truth, b: Truth)
    ensures Rank(TruthAnd(a, b)) == if Rank(a) < Rank(b) then Rank(a) else Rank(b)
    ensures Rank(TruthOr(a, b)) == if Rank(a) > Rank(b) then Rank(a) else Rank(b)
    ensures Rank(TruthNot(a)) == 2 - Rank(a)
  {
  }

  /** A list membership test is true when some item compares equal, and false when every item compares different. */
  lemma {:induction false} AnyEqualIs(eng: Engine, v: Json, items: seq<Json>)
    ensures AnyEqual(eng, v, items) == Yes <==> exists i :: 0 <= i < |items| && eng.order(v, items[i]) == Some(0)
    ensures AnyEqual(eng, v, items) == No <==> forall i :: 0 <= i < |items| ==> eng.order(v, items[i]).Some? && eng.order(v, items[i]) != Some(0)
  {
    if items != [] {
      AnyEqualIs(eng, v, items[1..]);
      assert forall i :: 0 < i < |items| ==> items[i] == items[1..][i - 1];
      if AnyEqual(eng, v, items[1..]) == Yes {
        var i :| 0 <= i < |items[1..]| && eng.order(v, items[1..][i]) == Some(0);
        assert eng.order(v, items[i + 1]) == Some(0);
      }
      assert eng.order(v, items[0]) == Some(0) ==> AnyEqual(eng, v, items) == Yes;
    }
  }

  function EvalPred(eng: Engine, shape: Shape, col: string, args: seq<Json>): Truth {
    var v := eng.cell(col);
    match shape
    case Compare(op) => if |args| == 1 then Sign(op, eng.order(v, args[0])) else Unknown
    case CompareTime(op) => if |args| == 1 then Sign(op, eng.timeOrder(v, args[0])) else Unknown
    case InList => AnyEqual(eng, v, args)
    case NullTest(negated) => if v.Null? != negated then Yes else No
    case Call(fn, casted) =>
      if |args| != 1 then Unknown
      else if fn == "contains" && casted then eng.contains(v, args[0])
      else if fn == "starts_with" && casted then eng.startsWith(v, args[0])
      else if fn == "ends_with" && casted then eng.endsWith(v, args[0])
      else if fn == "regexp_matches" && !casted then eng.matches(v, args[0])
      else Unknown
  }

  /** Evaluation hands the parameters to the marks from left to right. */
  function Eval(eng: Engine, e: Sql, ps: seq<Json>): Truth
    requires |ps| == MarkCount(e)
  {
    match e
    case Pred(shape, col, _) => EvalPred(eng, shape, col, ps)
    case Not(a) => TruthNot(Eval(eng, a, ps))
    case And(a, b) => TruthAnd(Eval(eng, a, ps[..MarkCount(a)]), Eval(eng, b, ps[MarkCount(a)..]))
    case Or(a, b) => TruthOr(Eval(eng, a, ps[..MarkCount(a)]), Eval(eng, b, ps[MarkCount(a)..]))
    case Test(a, t, negated) => if (Eval(eng, a, ps) == t) != negated then Yes else No
  }

  // ---------------------------------------------------------------- parser

  type Parsed = Option<(Sql, seq<Token>)>

  /** Words with a role in this grammar; a column name must avoid them and whatever else is reserved. */
  const KEYWORDS: set<string> := {"and", "or", "not", "in", "is", "null", "as", "cast"}

  predicate At(ts: seq<Token>, t: Token) { ts != [] && ts[0] == t }

  predicate IsColumn(reserved: set<string>, t: Token) { t.Word? && t.text !in reserved }

  const COMPARISONS: set<string> := {"=", "!=", "<", "<=", ">", ">="}

  /** The tokens of `CAST(x AS VARCHAR)` or `try_cast(x AS TIMESTAMP)`. */
  function CastOf(fn: string, x: Token, ty: string): seq<Token> {
    [Word(fn), Sym("("), x, Word("as"), Word(ty), Sym(")")]
  }

  /** `?, ?, .. ?)` with the count of placeholders. */
  function ParseMarks(ts: seq<Token>): (r: Option<(nat, seq<Token>)>)
    ensures r.Some? ==> |r.value.1| < |ts|
  {
    if |ts| < 2 || ts[0] != Sym("?") then None
    else if ts[1] == Sym(")") then Some((1, ts[2..]))
    else if ts[1] == Sym(",") then
      match ParseMarks(ts[2..])
      case Some((n, rest)) => Some((n + 1, rest))
      case None => None
    else None
  }

  function ParsePredicate(reserved: set<string>, ts: seq<Token>): (r: Parsed)
    ensures r.Some? ==> |r.value.1| < |ts|
  {
    if |ts| < 3 || !ts[0].Word? then None
    else if ts[1] == Sym("(") then ParseCall(reserved, ts)
    else if !IsColumn(reserved, ts[0]) then None
    else
      var col := ts[0].text;
      if ts[1].Sym? && ts[1].sym in COMPARISONS && ts[2] == Sym("?") then
        Some((Pred(Compare(ts[1].sym), col, 1), ts[3..]))
      else if ts[1] == Word("in") && ts[2] == Sym("(") then
        match ParseMarks(ts[3..])
        case Some((n, rest)) => Some((Pred(InList, col, n), rest))
        case None => None
      else if ts[1] == Word("is") && ts[2] == Word("null") then Some((Pred(NullTest(false), col, 0), ts[3..]))
      else if |ts| > 3 && ts[1] == Word("is") && ts[2] == Word("not") && ts[3] == Word("null") then
        Some((Pred(NullTest(true), col, 0), ts[4..]))
      else None
  }

  /** Function predicates, and comparisons of a column cast to a timestamp. */
  function ParseCall(reserved: set<string>, ts: seq<Token>): (r: Parsed)
    requires |ts| >= 3 && ts[0].Word?
    ensures r.Some? ==> |r.value.1| < |ts|
  {
    var fn := ts[0].text;
    if fn == "try_cast" then
      if |ts| >= 13 && IsColumn(reserved, ts[2]) && ts[..6] == CastOf("try_cast", ts[2], "timestamp")
         && ts[6].Sym? && ts[6].sym in COMPARISONS && ts[7..13] == CastOf("try_cast", Sym("?"), "timestamp")
      then Some((Pred(CompareTime(ts[6].sym), ts[2].text, 1), ts[13..]))
      else None
    else if fn in reserved then None
    else if |ts| >= 6 && IsColumn(reserved, ts[2]) && ts[3..6] == [Sym(","), Sym("?"), Sym(")")] then
      Some((Pred(Call(fn, false), ts[2].text, 1), ts[6..]))
    else if |ts| >= 16 && IsColumn(reserved, ts[4]) && ts[2..8] == CastOf("cast", ts[4], "varchar")
            && ts[8] == Sym(",") && ts[9..15] == CastOf("cast", Sym("?"), "varchar") && ts[15] == Sym(")")
    then Some((Pred(Call(fn, true), ts[4].text, 1), ts[16..]))
    else None
  }

  function ParsePrimary(reserved: set<string>, ts: seq<Token>): (r: Parsed)
    ensures r.Some? ==> |r.value.1| < |ts|
    decreases |ts|, 0
  {
    if At(ts, Sym("(")) then
      match ParseOr(reserved, ts[1..])
      case Some((e, rest)) => if At(rest, Sym(")")) then Some((e, rest[1..])) else None
      case None => None
    else ParsePredicate(reserved, ts)
  }

  function TruthWord(t: Token): Option<Truth> {
    if t == Word("true") then Some(Yes) else if t == Word("false") then Some(No)
    else if t == Word("unknown") then Some(Unknown) else None
  }

  /** boolean primary [ IS [NOT] truth value ] */
  function ParseTest(reserved: set<string>, ts: seq<Token>): (r: Parsed)
    ensures r.Some? ==> |r.value.1| < |ts|
    decreases |ts|, 1
  {
    match ParsePrimary(reserved, ts)
    case None => None
    case Some((e, rest)) =>
      if !At(rest, Word("is")) then Some((e, rest))
      else if |rest| > 1 && TruthWord(rest[1]).Some? then Some((Test(e, TruthWord(rest[1]).value, false), rest[2..]))
      else if |rest| > 2 && rest[1] == Word("not") && TruthWord(rest[2]).Some? then
        Some((Test(e, TruthWord(rest[2]).value, true), rest[3..]))
      else None
  }

  /** [ NOT ] boolean test */
  function ParseFactor(reserved: set<string>, ts: seq<Token>): (r: Parsed)
    ensures r.Some? ==> |r.value.1| < |ts|
    decreases |ts|, 2
  {
    if At(ts, Word("not")) then
      match ParseTest(reserved, ts[1..])
      case Some((e, rest)) => Some((Not(e), rest))
      case None => None
    else ParseTest(reserved, ts)
  }

  function ParseAndTail(reserved: set<string>, l: Sql, ts: seq<Token>): (r: Parsed)
    ensures r.Some? ==> |r.value.1| <= |ts|
    decreases |ts|, 3
  {
    if At(ts, Word("and")) then
      match ParseFactor(reserved, ts[1..])
      case Some((e, rest)) => ParseAndTail(reserved, And(l, e), rest)
      case None => None
    else Some((l, ts))
  }

  function ParseAnd(reserved: set<string>, ts: seq<Token>): (r: Parsed)
    ensures r.Some? ==> |r.value.1| < |ts|
    decreases |ts|, 4
  {
    match ParseFactor(reserved, ts)
    case Some((e, rest)) => ParseAndTail(reserved, e, rest)
    case None => None
  }

  function ParseOrTail(reserved: set<string>, l: Sql, ts: seq<Token>): (r: Parsed)
    ensures r.Some? ==> |r.value.1| <= |ts|
    decreases |ts|, 5
  {
    if At(ts, Word("or")) then
      match ParseAnd(reserved, ts[1..])
      case Some((e, rest)) => ParseOrTail(reserved, Or(l, e), rest)
      case None => None
    else Some((l, ts))
  }

  /** A search condition at the front of `ts`, and the tokens after it. */
  function ParseOr(reserved: set<string>, ts: seq<Token>): (r: Parsed)
    ensures r.Some? ==> |r.value.1| < |ts|
    decreases |ts|, 6
  {
    match ParseAnd(reserved, ts)
    case Some((e, rest)) => ParseOrTail(reserved, e, rest)
    case None => None
  }

  /** The condition a whole text denotes: all of it, or nothing. */
  function ParseText(reserved: set<string>, s: string): Option<Sql> {
    match Lex(s)
    case None => None
    case Some(ts) =>
      match ParseOr(reserved, ts)
      case Some((e, rest)) => if rest == [] then Some(e) else None
      case None => None
  }
}
